/**
 * One pain card in the back end's keyword engine: the dictionary the engine updates
 * in place, what it means for it to be enriched, and the loop body that enriches it.
 */
module CardEnrichment {
  import opened Wrappers
  import opened Strings
  import opened StringOrder
  import opened Taxonomy
  import opened ScopeMatching

  /** A pain card as the engine receives it: a dictionary it updates in place. */
  class CardRecord {
    var title: Option<string>
    var blurb: Option<string>
    /** The dictionary's remaining keys, which the engine never touches. */
    var otherFields: map<string, string>
    var triggeredTiles: Option<seq<string>>
    var triggeringKeywords: Option<seq<string>>
  }

  /** The title and blurb of each card, in order. */
  function Texts(cards: seq<CardRecord>): (r: seq<CardText>)
    reads cards`title, cards`blurb
  {
    if cards == [] then [] else [CardText(cards[0].title, cards[0].blurb)] + Texts(cards[1..])
  }

  lemma {:induction false} TextsSpec(cards: seq<CardRecord>)
    ensures |Texts(cards)| == |cards|
    ensures forall k :: 0 <= k < |cards| ==> Texts(cards)[k] == CardText(cards[k].title, cards[k].blurb)
    decreases |cards|
  {
    if cards != [] {
      TextsSpec(cards[1..]);
    }
  }

  /** The card holds the sorted tiles and the sorted phrases that `text` triggers. */
  ghost predicate EnrichedFor(c: CardRecord, text: CardText, t: Tables)
    reads c`triggeredTiles, c`triggeringKeywords
  {
    && c.triggeredTiles == Some(SortedList(CardTiles(t, text)))
    && c.triggeringKeywords == Some(SortedList(CardKeywords(t, text)))
  }

  /** The card holds the sorted tiles and the sorted phrases its own text triggers. */
  ghost predicate Enriched(c: CardRecord, t: Tables)
    reads c
  {
    EnrichedFor(c, CardText(c.title, c.blurb), t)
  }

  /**
   * One of the engine's two rule loops: every rule whose key occurs in `text` adds
   * its key to the keywords and, module by module, its modules to the tiles.
   */
  method MatchRules(rules: seq<Rule>, text: string, tiles0: set<string>, keywords0: set<string>)
    returns (tiles: set<string>, keywords: set<string>)
    ensures tiles == tiles0 + MatchedModules(rules, text)
    ensures keywords == keywords0 + MatchedKeys(rules, text)
  {
    tiles, keywords := tiles0, keywords0;
    for i := 0 to |rules|
      invariant tiles == tiles0 + MatchedModules(rules[..i], text)
      invariant keywords == keywords0 + MatchedKeys(rules[..i], text)
    {
      assert rules[..i + 1][..i] == rules[..i];
      var rule := rules[i];
      if Contains(text, rule.key) {
        keywords := keywords + {rule.key};
        ghost var before := tiles;
        for j := 0 to |rule.modules|
          invariant tiles == before + set m | m in rule.modules[..j]
        {
          assert rule.modules[..j + 1] == rule.modules[..j] + [rule.modules[j]];
          tiles := tiles + {rule.modules[j]};
        }
        assert rule.modules[..|rule.modules|] == rule.modules;
      }
    }
    assert rules[..|rules|] == rules;
  }

  /**
   * The body of the engine's card loop: match both tables against the card's text,
   * store the sorted tiles and phrases in the card, and hand back the tiles.
   */
  method EnrichCard(card: CardRecord, t: Tables, ghost text: CardText) returns (tiles: set<string>)
    requires text == CardText(card.title, card.blurb)
    modifies card`triggeredTiles, card`triggeringKeywords
    ensures tiles == CardTiles(t, text)
    ensures EnrichedFor(card, text, t)
  {
    var titleText := LowerOrEmpty(card.title);
    var blurbText := LowerOrEmpty(card.blurb);
    assert titleText == ThemeText(text) && titleText + " " + blurbText == KeywordText(text);
    var keywords;
    tiles, keywords := MatchRules(t.themes, titleText, {}, {});
    tiles, keywords := MatchRules(t.keywords, titleText + " " + blurbText, tiles, keywords);
    assert tiles == CardTiles(t, text);
    assert keywords == CardKeywords(t, text);
    card.triggeredTiles := Some(SortedList(tiles));
    card.triggeringKeywords := Some(SortedList(keywords));
  }
}
