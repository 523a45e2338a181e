/**
 * The keyword engine of the back end: every pain card is enriched in place with the
 * scope tiles its text triggers (themes matched against the title, keywords against
 * title and blurb, both lower-cased) and the phrases that triggered them; the union
 * of all triggered tiles comes back as well. Lists are Python `sorted(set)` results.
 */
module ScopeEngine {
  import opened Wrappers
  import opened StringOrder
  import opened ScopeMatching
  import opened CardEnrichment

  /**
   * The engine's card loop over the given tables: every card is enriched in place,
   * and the list built by appending each enriched card in turn is the input list
   * itself, in order; the union of their tiles comes back as well.
   * `texts` is each card's title and blurb, which the loop never changes.
   */
  method EnrichCards(cards: seq<CardRecord>, t: Tables, ghost texts: seq<CardText>)
    returns (enriched: seq<CardRecord>, allTiles: set<string>)
    requires |texts| == |cards|
    requires forall k :: 0 <= k < |cards| ==> texts[k] == CardText(cards[k].title, cards[k].blurb)
    modifies cards`triggeredTiles, cards`triggeringKeywords
    ensures enriched == cards
    ensures forall c :: c in cards ==> Enriched(c, t)
    ensures allTiles == AllTiles(t, texts)
  {
    allTiles := {};
    for i := 0 to |cards|
      invariant forall j :: 0 <= j < i ==> EnrichedFor(cards[j], texts[j], t)
      invariant allTiles == AllTiles(t, texts[..i])
    {
      var tiles := EnrichCard(cards[i], t, texts[i]);
      forall j | 0 <= j <= i
        ensures EnrichedFor(cards[j], texts[j], t)
      {
        if cards[j] == cards[i] {
          assert texts[j] == texts[i];
        }
      }
      AllTilesSnoc(t, texts, i);
      allTiles := allTiles + tiles;
    }
    assert texts[..|cards|] == texts;
    enriched := cards;
  }

  /**
   * `process_scope_and_cards`: each card gets the sorted tiles and sorted phrases its
   * text triggers, and only those two entries change; the cards come back in the same
   * order, together with the sorted union of every card's tiles.
   */
  method ProcessScopeAndCards(rawCards: seq<CardRecord>) returns (enriched: seq<CardRecord>, activated: seq<string>)
    modifies rawCards`triggeredTiles, rawCards`triggeringKeywords
    ensures enriched == rawCards
    ensures forall c :: c in rawCards ==> Enriched(c, BackendTables)
    ensures activated == SortedList(AllTiles(BackendTables, old(Texts(rawCards))))
  {
    ghost var texts := Texts(rawCards);
    TextsSpec(rawCards);
    var allActivated;
    enriched, allActivated := EnrichCards(rawCards, BackendTables, texts);
    activated := SortedList(allActivated);
  }
}
