/**
 * What the back end's keyword engine computes for one card and for a list of cards,
 * stated on values: the phrases and tiles a card's lower-cased text triggers under
 * the two rule tables, and the union of the tiles over all cards.
 */
module ScopeMatching {
  import opened Wrappers
  import opened Strings
  import opened StringOrder
  import opened Taxonomy

  /** What the engine reads from a card: its title and blurb, either of which may be missing. */
  datatype CardText = CardText(title: Option<string>, blurb: Option<string>)

  /** `card_data.get(key, '').lower()`. */
  function LowerOrEmpty(field: Option<string>): string {
    Lower(field.GetOr(""))
  }

  /** The text themes are matched against: the lower-cased title. */
  function ThemeText(c: CardText): string {
    LowerOrEmpty(c.title)
  }

  /** The text keywords are matched against: lower-cased title, a space, lower-cased blurb. */
  function KeywordText(c: CardText): string {
    LowerOrEmpty(c.title) + " " + LowerOrEmpty(c.blurb)
  }

  /** The keys of the rules that occur in `text`. */
  function MatchedKeys(rules: seq<Rule>, text: string): set<string>
    decreases |rules|
  {
    if rules == [] then {}
    else
      var n := |rules| - 1;
      MatchedKeys(rules[..n], text) + (if Contains(text, rules[n].key) then {rules[n].key} else {})
  }

  /** The modules of the rules whose key occurs in `text`. */
  function MatchedModules(rules: seq<Rule>, text: string): set<string>
    decreases |rules|
  {
    if rules == [] then {}
    else
      var n := |rules| - 1;
      MatchedModules(rules[..n], text) + (if Contains(text, rules[n].key) then set m | m in rules[n].modules else {})
  }

  /** A phrase is matched exactly when it is the key of a rule and occurs in the text. */
  lemma {:induction false} MatchedKeysMembership(rules: seq<Rule>, text: string, k: string)
    ensures k in MatchedKeys(rules, text) <==> exists i :: 0 <= i < |rules| && rules[i].key == k && Contains(text, k)
    decreases |rules|
  {
    if rules != [] {
      var n := |rules| - 1;
      MatchedKeysMembership(rules[..n], text, k);
      assert forall i :: 0 <= i < n ==> rules[..n][i] == rules[i];
    }
  }

  /** A tile is matched exactly when a rule whose key occurs in the text lists it. */
  lemma {:induction false} MatchedModulesMembership(rules: seq<Rule>, text: string, m: string)
    ensures m in MatchedModules(rules, text) <==>
      exists i :: 0 <= i < |rules| && Contains(text, rules[i].key) && m in rules[i].modules
    decreases |rules|
  {
    if rules != [] {
      var n := |rules| - 1;
      MatchedModulesMembership(rules[..n], text, m);
      assert forall i :: 0 <= i < n ==> rules[..n][i] == rules[i];
    }
  }

  /**
   * The engine's two rule tables. The back end runs with `Taxonomy`'s tables; the
   * functions below take them as a parameter so that reasoning about one card does
   * not unfold the constant tables.
   */
  datatype Tables = Tables(themes: seq<Rule>, keywords: seq<Rule>)

  const BackendTables := Tables(PainThemeRules, KeywordRules)

  /** A tile is only ever matched through a matched key. */
  lemma MatchedModulesNeedKey(rules: seq<Rule>, text: string)
    ensures MatchedModules(rules, text) != {} ==> MatchedKeys(rules, text) != {}
  {
    if MatchedModules(rules, text) != {} {
      var m :| m in MatchedModules(rules, text);
      MatchedModulesMembership(rules, text, m);
      var i :| 0 <= i < |rules| && Contains(text, rules[i].key) && m in rules[i].modules;
      MatchedKeysMembership(rules, text, rules[i].key);
    }
  }

  /** A matched key occurs in the text it was matched against. */
  lemma MatchedKeyOccurs(rules: seq<Rule>, text: string, k: string)
    requires k in MatchedKeys(rules, text)
    ensures Contains(text, k)
  {
    MatchedKeysMembership(rules, text, k);
  }

  /** Every phrase a card matches occurs in its lower-cased "title blurb". */
  lemma PhrasesOccur(t: Tables, c: CardText)
    ensures forall k :: k in MatchedKeys(t.themes, ThemeText(c)) ==> Contains(KeywordText(c), k)
    ensures forall k :: k in MatchedKeys(t.keywords, KeywordText(c)) ==> Contains(KeywordText(c), k)
  {
    forall k | k in MatchedKeys(t.themes, ThemeText(c))
      ensures Contains(KeywordText(c), k)
    {
      MatchedKeyOccurs(t.themes, ThemeText(c), k);
      assert KeywordText(c) == [] + ThemeText(c) + (" " + LowerOrEmpty(c.blurb));
      ContainsInfix([], ThemeText(c), " " + LowerOrEmpty(c.blurb), k);
    }
    forall k | k in MatchedKeys(t.keywords, KeywordText(c))
      ensures Contains(KeywordText(c), k)
    {
      MatchedKeyOccurs(t.keywords, KeywordText(c), k);
    }
  }

  /** The phrases that trigger something for a card: matched themes and matched keywords. */
  function CardKeywords(t: Tables, c: CardText): (r: set<string>)
    ensures forall k :: k in r ==> Contains(KeywordText(c), k)
  {
    PhrasesOccur(t, c);
    MatchedKeys(t.themes, ThemeText(c)) + MatchedKeys(t.keywords, KeywordText(c))
  }

  /** The tiles a card triggers: the modules of its matched themes and keywords. */
  function CardTiles(t: Tables, c: CardText): (r: set<string>)
    ensures r != {} ==> CardKeywords(t, c) != {}
  {
    MatchedModulesNeedKey(t.themes, ThemeText(c));
    MatchedModulesNeedKey(t.keywords, KeywordText(c));
    MatchedModules(t.themes, ThemeText(c)) + MatchedModules(t.keywords, KeywordText(c))
  }

  /** A phrase is a card's keyword exactly when it is a theme in its title or a keyword in its text. */
  lemma CardKeywordsMembership(t: Tables, c: CardText, k: string)
    ensures k in CardKeywords(t, c) <==>
      (exists i :: 0 <= i < |t.themes| && t.themes[i].key == k && Contains(ThemeText(c), k))
      || (exists i :: 0 <= i < |t.keywords| && t.keywords[i].key == k && Contains(KeywordText(c), k))
  {
    MatchedKeysMembership(t.themes, ThemeText(c), k);
    MatchedKeysMembership(t.keywords, KeywordText(c), k);
  }

  /** A tile is triggered exactly when a matched theme or a matched keyword lists it. */
  lemma CardTilesMembership(t: Tables, c: CardText, m: string)
    ensures m in CardTiles(t, c) <==>
      (exists i :: 0 <= i < |t.themes| && Contains(ThemeText(c), t.themes[i].key) && m in t.themes[i].modules)
      || (exists i :: 0 <= i < |t.keywords| && Contains(KeywordText(c), t.keywords[i].key) && m in t.keywords[i].modules)
  {
    MatchedModulesMembership(t.themes, ThemeText(c), m);
    MatchedModulesMembership(t.keywords, KeywordText(c), m);
  }

  /** The tiles triggered by any of the cards. */
  function AllTiles(t: Tables, cards: seq<CardText>): (r: set<string>)
    ensures cards != [] ==> CardTiles(t, cards[0]) <= r
    decreases |cards|
  {
    if cards == [] then {} else AllTiles(t, cards[..|cards| - 1]) + CardTiles(t, cards[|cards| - 1])
  }

  /** A tile is in the union exactly when some card triggers it. */
  lemma AllTilesMembership(t: Tables, cards: seq<CardText>, m: string)
    ensures m in AllTiles(t, cards) <==> exists i :: 0 <= i < |cards| && m in CardTiles(t, cards[i])
  {
    if m in AllTiles(t, cards) {
      AllTilesWitness(t, cards, m);
    }
    if exists i :: 0 <= i < |cards| && m in CardTiles(t, cards[i]) {
      var i :| 0 <= i < |cards| && m in CardTiles(t, cards[i]);
      CardTilesInUnion(t, cards, m, i);
    }
  }

  lemma {:induction false} AllTilesWitness(t: Tables, cards: seq<CardText>, m: string)
    requires m in AllTiles(t, cards)
    ensures exists i :: 0 <= i < |cards| && m in CardTiles(t, cards[i])
    decreases |cards|
  {
    var n := |cards| - 1;
    if m !in CardTiles(t, cards[n]) {
      AllTilesWitness(t, cards[..n], m);
      var i :| 0 <= i < n && m in CardTiles(t, cards[..n][i]);
      assert cards[..n][i] == cards[i];
    }
  }

  lemma {:induction false} CardTilesInUnion(t: Tables, cards: seq<CardText>, m: string, i: nat)
    requires i < |cards| && m in CardTiles(t, cards[i])
    ensures m in AllTiles(t, cards)
    decreases |cards|
  {
    var n := |cards| - 1;
    if i < n {
      assert cards[..n][i] == cards[i];
      CardTilesInUnion(t, cards[..n], m, i);
    }
  }

  /** Adding one more card adds its tiles to the union. */
  lemma AllTilesSnoc(t: Tables, cards: seq<CardText>, i: nat)
    requires i < |cards|
    ensures AllTiles(t, cards[..i + 1]) == AllTiles(t, cards[..i]) + CardTiles(t, cards[i])
  {
    assert cards[..i + 1][..i] == cards[..i];
  }

  /** Every rule of both tables triggers at least one tile. */
  ghost predicate EveryRuleTriggers(t: Tables) {
    (forall r :: r in t.themes ==> |r.modules| > 0) && (forall r :: r in t.keywords ==> |r.modules| > 0)
  }

  /** A card triggers no phrase exactly when it triggers no tile, when every rule has a module. */
  lemma KeywordsEmptyIffTilesEmpty(t: Tables, c: CardText)
    requires EveryRuleTriggers(t)
    ensures CardKeywords(t, c) == {} <==> CardTiles(t, c) == {}
  {
    MatchedEmptyIff(t.themes, ThemeText(c));
    MatchedEmptyIff(t.keywords, KeywordText(c));
  }

  lemma MatchedEmptyIff(rules: seq<Rule>, text: string)
    requires forall r :: r in rules ==> |r.modules| > 0
    ensures MatchedKeys(rules, text) == {} <==> MatchedModules(rules, text) == {}
  {
    if MatchedKeys(rules, text) != {} {
      var k :| k in MatchedKeys(rules, text);
      MatchedKeysMembership(rules, text, k);
      var i :| 0 <= i < |rules| && rules[i].key == k && Contains(text, k);
      assert rules[i] in rules;
      MatchedModulesMembership(rules, text, rules[i].modules[0]);
    }
    MatchedModulesNeedKey(rules, text);
  }

  /** The back end's tables: every rule triggers a tile, so no phrase means no tile and back. */
  lemma BackendKeywordsEmptyIffTilesEmpty(c: CardText)
    ensures CardKeywords(BackendTables, c) == {} <==> CardTiles(BackendTables, c) == {}
  {
    PainThemeRulesWellFormed();
    KeywordRulesWellFormed();
    KeywordsEmptyIffTilesEmpty(BackendTables, c);
  }

  /** The per-card lists and the overall list are sorted and free of duplicates. */
  lemma EnrichedListsSorted(t: Tables, cards: seq<CardText>, c: CardText)
    ensures StrictlySorted(SortedList(CardTiles(t, c))) && NoDuplicates(SortedList(CardTiles(t, c)))
    ensures StrictlySorted(SortedList(CardKeywords(t, c))) && NoDuplicates(SortedList(CardKeywords(t, c)))
    ensures StrictlySorted(SortedList(AllTiles(t, cards))) && NoDuplicates(SortedList(AllTiles(t, cards)))
  {
    SortedListSpec(CardTiles(t, c));
    SortedListSpec(CardKeywords(t, c));
    SortedListSpec(AllTiles(t, cards));
    StrictlySortedNoDuplicates(SortedList(CardTiles(t, c)));
    StrictlySortedNoDuplicates(SortedList(CardKeywords(t, c)));
    StrictlySortedNoDuplicates(SortedList(AllTiles(t, cards)));
  }

  /** A phrase longer than the text cannot occur in it. */
  lemma LongerNotContained(text: string, key: string)
    requires |key| > |text|
    ensures !Contains(text, key)
  {
    ContainsIff(text, key);
  }

  /** No rule matches a text shorter than all of its keys. */
  lemma ShortTextMatchesNothing(rules: seq<Rule>, text: string)
    requires forall i :: 0 <= i < |rules| ==> |rules[i].key| > |text|
    ensures MatchedKeys(rules, text) == {} && MatchedModules(rules, text) == {}
  {
    forall i | 0 <= i < |rules|
      ensures !Contains(text, rules[i].key)
    {
      LongerNotContained(text, rules[i].key);
    }
    if MatchedKeys(rules, text) != {} {
      var k :| k in MatchedKeys(rules, text);
      MatchedKeysMembership(rules, text, k);
    }
    if MatchedModules(rules, text) != {} {
      var m :| m in MatchedModules(rules, text);
      MatchedModulesMembership(rules, text, m);
    }
  }

  lemma PainThemeKeysLong()
    ensures forall i :: 0 <= i < |PainThemeRules| ==> |PainThemeRules[i].key| > 1
  {
    PainThemeKeys();
  }

  lemma KeywordKeysLong()
    ensures forall i :: 0 <= i < |KeywordRules| ==> |KeywordRules[i].key| > 1
  {
    KeywordKeys();
  }

  /** A card with neither title nor blurb (each read as "") triggers nothing. */
  lemma MissingFieldsTriggerNothing(t: Tables)
    requires t == BackendTables
    ensures CardKeywords(t, CardText(None, None)) == {} && CardTiles(t, CardText(None, None)) == {}
  {
    var c := CardText(None, None);
    assert ThemeText(c) == "" && KeywordText(c) == " ";
    PainThemeKeysLong();
    KeywordKeysLong();
    ShortTextMatchesNothing(t.themes, ThemeText(c));
    ShortTextMatchesNothing(t.keywords, KeywordText(c));
  }

  /** No cards: no tiles. */
  lemma NoCardsNoTiles(t: Tables)
    ensures SortedList(AllTiles(t, [])) == []
  {
  }
}
