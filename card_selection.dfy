/**
 * The pain-card selection hook of the front end: the set of selected card titles,
 * the assessment whose cards are shown, and the list of scope tiles the selected
 * cards activate, without duplicates and in the order they are first met.
 */
module CardSelection {
  import opened Wrappers
  import opened AppTypes

  /** The selection after a click on `title`: a selected title is dropped, any other one added. */
  function Toggle(selected: set<string>, title: string): (r: set<string>)
    ensures title in r <==> title !in selected
    ensures forall other :: other != title ==> (other in r <==> other in selected)
  {
    if title in selected then selected - {title} else selected + {title}
  }

  /** Clicking the same card twice restores the selection. */
  lemma ToggleTwice(selected: set<string>, title: string)
    ensures Toggle(Toggle(selected, title), title) == selected
  {
    var once := Toggle(selected, title);
    var twice := Toggle(once, title);
    forall x
      ensures x in twice <==> x in selected
    {
      if x != title {
        assert x in twice <==> x in once;
      }
    }
  }

  /** The titles of the given cards. */
  function Titles(cards: seq<PainCardData>): set<string> {
    set c | c in cards :: c.title
  }

  /** A title is selected by initialisation exactly when some card carries it. */
  lemma TitlesMembership(cards: seq<PainCardData>, title: string)
    ensures title in Titles(cards) <==> exists i :: 0 <= i < |cards| && cards[i].title == title
  {
    if title in Titles(cards) {
      var c :| c in cards && c.title == title;
      var i :| 0 <= i < |cards| && cards[i] == c;
    }
  }

  /**
   * The tiles of the cards whose title is selected, card after card, each card's
   * tiles in their own order; repetitions are kept.
   */
  function SelectedTiles(cards: seq<PainCardData>, selected: set<string>): (r: seq<string>)
    ensures selected == {} ==> r == []
    decreases |cards|
  {
    if cards == [] then []
    else
      var last := cards[|cards| - 1];
      SelectedTiles(cards[..|cards| - 1], selected) + (if last.title in selected then last.triggeredTiles else [])
  }

  /** `s` with every repetition dropped, keeping each element where it first occurs. */
  function Dedup(s: seq<string>): (r: seq<string>)
    ensures |r| <= |s|
    ensures r == [] <==> s == []
    decreases |s|
  {
    if s == [] then []
    else
      var d := Dedup(s[..|s| - 1]);
      if s[|s| - 1] in d then d else d + [s[|s| - 1]]
  }

  /** The tiles activated by the selection: nothing without an assessment. */
  function Activated(selected: set<string>, assessment: Option<AssessmentData>): (r: seq<string>)
    ensures selected == {} ==> r == []
  {
    match assessment
    case None => []
    case Some(a) => Dedup(SelectedTiles(a.painCards, selected))
  }

  /** Dropping repetitions keeps exactly the elements of the input. */
  lemma {:induction false} DedupMembership(s: seq<string>, x: string)
    ensures x in Dedup(s) <==> x in s
    decreases |s|
  {
    if s != [] {
      var n := |s| - 1;
      DedupMembership(s[..n], x);
      assert s == s[..n] + [s[n]];
    }
  }

  /** No element occurs twice once repetitions are dropped. */
  lemma {:induction false} DedupDistinct(s: seq<string>)
    ensures forall i, j :: 0 <= i < j < |Dedup(s)| ==> Dedup(s)[i] != Dedup(s)[j]
    decreases |s|
  {
    if s != [] {
      DedupDistinct(s[..|s| - 1]);
    }
  }

  /**
   * First-encounter order: the deduplicated prefix of the input is a prefix of the
   * deduplicated input, so an element met earlier is listed earlier.
   */
  lemma {:induction false} DedupPrefix(s: seq<string>, k: nat)
    requires k <= |s|
    ensures Dedup(s[..k]) <= Dedup(s)
    decreases |s|
  {
    if k < |s| {
      var n := |s| - 1;
      assert s[..n][..k] == s[..k];
      DedupPrefix(s[..n], k);
    } else {
      assert s[..k] == s;
    }
  }

  /** A tile is among the selected cards' tiles when some selected card carries it. */
  lemma {:induction false} SelectedTilesWitness(cards: seq<PainCardData>, selected: set<string>, x: string)
    requires x in SelectedTiles(cards, selected)
    ensures exists i :: 0 <= i < |cards| && cards[i].title in selected && x in cards[i].triggeredTiles
    decreases |cards|
  {
    var n := |cards| - 1;
    if !(cards[n].title in selected && x in cards[n].triggeredTiles) {
      SelectedTilesWitness(cards[..n], selected, x);
      var i :| 0 <= i < n && cards[..n][i].title in selected && x in cards[..n][i].triggeredTiles;
      assert cards[..n][i] == cards[i];
    }
  }

  /** Every tile of a selected card is among the selected cards' tiles. */
  lemma {:induction false} SelectedCardTiles(cards: seq<PainCardData>, selected: set<string>, x: string, i: nat)
    requires i < |cards| && cards[i].title in selected && x in cards[i].triggeredTiles
    ensures x in SelectedTiles(cards, selected)
    decreases |cards|
  {
    var n := |cards| - 1;
    if i < n {
      assert cards[..n][i] == cards[i];
      SelectedCardTiles(cards[..n], selected, x, i);
    }
  }

  /** A tile is activated exactly when some selected card of the assessment triggers it. */
  lemma ActivatedMembership(selected: set<string>, a: AssessmentData, x: string)
    ensures x in Activated(selected, Some(a)) <==>
      exists i :: 0 <= i < |a.painCards| && a.painCards[i].title in selected && x in a.painCards[i].triggeredTiles
  {
    var cards := a.painCards;
    DedupMembership(SelectedTiles(cards, selected), x);
    if x in SelectedTiles(cards, selected) {
      SelectedTilesWitness(cards, selected, x);
    }
    if exists i :: 0 <= i < |cards| && cards[i].title in selected && x in cards[i].triggeredTiles {
      var i :| 0 <= i < |cards| && cards[i].title in selected && x in cards[i].triggeredTiles;
      SelectedCardTiles(cards, selected, x, i);
    }
  }

  /** The activated list never repeats a tile. */
  lemma ActivatedDistinct(selected: set<string>, assessment: Option<AssessmentData>)
    ensures forall i, j :: 0 <= i < j < |Activated(selected, assessment)| ==>
      Activated(selected, assessment)[i] != Activated(selected, assessment)[j]
  {
    if assessment.Some? {
      DedupDistinct(SelectedTiles(assessment.value.painCards, selected));
    }
  }

  /**
   * The tiles of the first `k` cards come first, in the same order: the activated
   * list of a shorter card list is a prefix of the activated list.
   */
  lemma {:induction false} ActivatedCardOrder(selected: set<string>, a: AssessmentData, k: nat)
    requires k <= |a.painCards|
    ensures Activated(selected, Some(a.(painCards := a.painCards[..k]))) <= Activated(selected, Some(a))
    decreases |a.painCards|
  {
    var cards := a.painCards;
    var s := SelectedTiles(cards, selected);
    var p := SelectedTiles(cards[..k], selected);
    SelectedTilesPrefix(cards, selected, k);
    assert s[..|p|] == p;
    DedupPrefix(s, |p|);
  }

  /** The tiles of a prefix of the cards are a prefix of the tiles of all cards. */
  lemma {:induction false} SelectedTilesPrefix(cards: seq<PainCardData>, selected: set<string>, k: nat)
    requires k <= |cards|
    ensures SelectedTiles(cards[..k], selected) <= SelectedTiles(cards, selected)
    decreases |cards|
  {
    if k < |cards| {
      var n := |cards| - 1;
      assert cards[..n][..k] == cards[..k];
      SelectedTilesPrefix(cards[..n], selected, k);
      var p := SelectedTiles(cards[..k], selected);
      var q := SelectedTiles(cards[..n], selected);
      assert q <= SelectedTiles(cards, selected);
      assert SelectedTiles(cards, selected)[..|p|] == q[..|p|];
    } else {
      assert cards[..k] == cards;
    }
  }

  /** Without an assessment nothing is activated, whatever is selected. */
  lemma NoAssessmentNoTiles(selected: set<string>)
    ensures Activated(selected, None) == []
  {
  }

  /** Selecting more titles never deactivates a tile. */
  lemma ActivatedMonotone(selected: set<string>, more: set<string>, assessment: Option<AssessmentData>, x: string)
    requires selected <= more
    requires x in Activated(selected, assessment)
    ensures x in Activated(more, assessment)
  {
    var a := assessment.value;
    ActivatedMembership(selected, a, x);
    ActivatedMembership(more, a, x);
  }

  /** Selected titles that belong to no card change nothing. */
  lemma {:induction false} SelectedTilesIgnoreOthers(cards: seq<PainCardData>, selected: set<string>, others: set<string>)
    requires forall c :: c in cards ==> c.title !in others
    ensures SelectedTiles(cards, selected + others) == SelectedTiles(cards, selected)
    decreases |cards|
  {
    if cards != [] {
      var n := |cards| - 1;
      assert cards[n] in cards;
      SelectedTilesIgnoreOthers(cards[..n], selected, others);
    }
  }

  /** Selecting titles that match no card of the assessment leaves the activated list as it is. */
  lemma UnmatchedTitlesIgnored(selected: set<string>, others: set<string>, a: AssessmentData)
    requires others !! Titles(a.painCards)
    ensures Activated(selected + others, Some(a)) == Activated(selected, Some(a))
  {
    forall c | c in a.painCards
      ensures c.title !in others
    {
      assert c.title in Titles(a.painCards);
    }
    SelectedTilesIgnoreOthers(a.painCards, selected, others);
  }

  /** Right after initialisation every card is selected, so every card's tiles are activated. */
  lemma InitialSelectionActivatesAll(a: AssessmentData, x: string)
    ensures x in Activated(Titles(a.painCards), Some(a)) <==>
      exists i :: 0 <= i < |a.painCards| && x in a.painCards[i].triggeredTiles
  {
    ActivatedMembership(Titles(a.painCards), a, x);
    if exists i :: 0 <= i < |a.painCards| && x in a.painCards[i].triggeredTiles {
      var i :| 0 <= i < |a.painCards| && x in a.painCards[i].triggeredTiles;
      assert a.painCards[i] in a.painCards;
    }
  }

  /**
   * Adds `ts` one by one to the insertion-ordered set `tiles`, which holds the
   * tiles `before` met so far: an already present tile is not added again.
   */
  method AddTiles(tiles: seq<string>, ghost before: seq<string>, ts: seq<string>) returns (r: seq<string>)
    requires tiles == Dedup(before)
    ensures r == Dedup(before + ts)
  {
    r := tiles;
    assert before + ts[..0] == before;
    for j := 0 to |ts|
      invariant r == Dedup(before + ts[..j])
    {
      assert (before + ts[..j + 1])[..|before + ts[..j]|] == before + ts[..j];
      if ts[j] !in r {
        r := r + [ts[j]];
      }
    }
    assert ts[..|ts|] == ts;
  }

  /** The hook's state: the selected titles and the assessment whose cards they refer to. */
  class PainCardSelection {
    var selectedCardTitles: set<string>
    var assessment: Option<AssessmentData>

    /** Nothing selected and no assessment. */
    constructor()
      ensures selectedCardTitles == {} && assessment == None
    {
      selectedCardTitles := {};
      assessment := None;
    }

    /** `handleCardClick`: toggles the clicked title and nothing else. */
    method HandleCardClick(cardTitle: string)
      modifies this`selectedCardTitles
      ensures selectedCardTitles == Toggle(old(selectedCardTitles), cardTitle)
    {
      if cardTitle in selectedCardTitles {
        selectedCardTitles := selectedCardTitles - {cardTitle};
      } else {
        selectedCardTitles := selectedCardTitles + {cardTitle};
      }
    }

    /** `initializeSelection`: stores the assessment and selects every one of its cards. */
    method InitializeSelection(assessmentData: AssessmentData)
      modifies this`selectedCardTitles, this`assessment
      ensures assessment == Some(assessmentData)
      ensures selectedCardTitles == Titles(assessmentData.painCards)
    {
      assessment := Some(assessmentData);
      selectedCardTitles := set c | c in assessmentData.painCards :: c.title;
    }

    /**
     * The `activatedTiles` derivation: walks the cards in order and adds the tiles of
     * each selected one to an insertion-ordered set.
     */
    method ActivatedTiles() returns (tiles: seq<string>)
      ensures tiles == Activated(selectedCardTitles, assessment)
    {
      if assessment.None? {
        return [];
      }
      var cards := assessment.value.painCards;
      tiles := [];
      for i := 0 to |cards|
        invariant tiles == Dedup(SelectedTiles(cards[..i], selectedCardTitles))
      {
        var card := cards[i];
        ghost var before := SelectedTiles(cards[..i], selectedCardTitles);
        assert cards[..i + 1][..i] == cards[..i];
        assert SelectedTiles(cards[..i + 1], selectedCardTitles)
          == before + (if card.title in selectedCardTitles then card.triggeredTiles else []);
        if card.title in selectedCardTitles {
          tiles := AddTiles(tiles, before, card.triggeredTiles);
        } else {
          assert before + [] == before;
        }
      }
      assert cards[..|cards|] == cards;
    }
  }
}
