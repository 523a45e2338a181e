/**
 * The home page of the front end as a five-step wizard: 0 ticker input, 1 and 2 the
 * two pages of pain cards, 3 the survey, 4 the dashboard. It owns the ticker, the
 * survey answers and the step, and drives the assessment and card-selection hooks.
 */
module Wizard {
  import opened Wrappers
  import opened Strings
  import opened AppTypes
  import opened Assessment
  import opened CardSelection
  import opened ScopeCatalog

  /** The ticker input accepts at most this many characters. */
  const MaxTickerLength := 5

  /** The survey answers before the user changes any. */
  const DefaultAnswers := UserAnswers("US-based only", "Yes", "Yes")

  const InputHeader := "Enter a company ticker to generate CFO-level pain points."
  const SurveyHeader := "Just a few more questions to tailor your results."
  const DashboardHeader := "Based on your selections, here is the proposed initial transformation scope."

  // ------------------------------------------------------------------ survey answers

  function Answer(a: UserAnswers, key: AnswerKey): string {
    match key
    case GeoScope => a.geoScope
    case IsSap => a.isSap
    case IsOnPrem => a.isOnPrem
  }

  /** The answers with the one under `key` replaced, as the object spread does. */
  function WithAnswer(a: UserAnswers, key: AnswerKey, value: string): (r: UserAnswers)
    ensures Answer(r, key) == value
    ensures forall k :: k != key ==> Answer(r, k) == Answer(a, k)
  {
    match key
    case GeoScope => a.(geoScope := value)
    case IsSap => a.(isSap := value)
    case IsOnPrem => a.(isOnPrem := value)
  }

  /** Setting an answer to the value it already has changes nothing. */
  lemma WithSameAnswer(a: UserAnswers, key: AnswerKey)
    ensures WithAnswer(a, key, Answer(a, key)) == a
  {
  }

  // ------------------------------------------------------------------ card pages

  /** JavaScript's `slice(start, end)` for non-negative bounds: out-of-range bounds are clamped. */
  function Slice<T>(s: seq<T>, start: nat, end: nat): (r: seq<T>)
    ensures |r| <= |s|
  {
    var from := if start < |s| then start else |s|;
    var to := if end < |s| then end else |s|;
    if from < to then s[from..to] else []
  }

  /** The cards shown on the first page. */
  function Page1(assessment: Option<AssessmentData>): (r: seq<PainCardData>)
    ensures |r| <= 4
    ensures assessment.Some? ==> r <= assessment.value.painCards
  {
    match assessment
    case None => []
    case Some(a) => Slice(a.painCards, 0, 4)
  }

  /** The cards shown on the second page. */
  function Page2(assessment: Option<AssessmentData>): (r: seq<PainCardData>)
    ensures |r| <= 4
  {
    match assessment
    case None => []
    case Some(a) => Slice(a.painCards, 4, 8)
  }

  function Min(a: nat, b: nat): nat { if a < b then a else b }

  /**
   * The first page holds the first (up to) four cards, the second page the next
   * (up to) four, and together they are the first (up to) eight cards in order;
   * without an assessment both pages are empty.
   */
  lemma Pages(assessment: Option<AssessmentData>)
    ensures assessment.None? ==> Page1(assessment) == [] && Page2(assessment) == []
    ensures assessment.Some? ==>
      var cards := assessment.value.painCards;
      && Page1(assessment) == cards[..Min(4, |cards|)]
      && Page2(assessment) == cards[Min(4, |cards|)..Min(8, |cards|)]
      && Page1(assessment) + Page2(assessment) == cards[..Min(8, |cards|)]
  {
    if assessment.Some? {
      var cards := assessment.value.painCards;
      assert cards[..Min(8, |cards|)] == cards[..Min(4, |cards|)] + cards[Min(4, |cards|)..Min(8, |cards|)];
    }
  }

  /** With four cards or fewer the second page is empty. */
  lemma ShortListOnePage(a: AssessmentData)
    requires |a.painCards| <= 4
    ensures Page2(Some(a)) == []
    ensures Page1(Some(a)) == a.painCards
  {
  }

  // ------------------------------------------------------------------ navigation

  /** The wizard's navigation buttons. */
  datatype Button =
    | NextPage            // card page 1, "Next"
    | BackToFirstPage     // card page 2, "Back"
    | ProceedToQuestions  // card page 2, "Next Step"
    | BackToCards         // survey, "Back"
    | GenerateDashboard   // survey, "Generate Dashboard"
    | EditSelections      // dashboard, "Edit Selections"

  /** The step on which a button appears. */
  function ShownOn(b: Button): (r: int)
    ensures 1 <= r <= 4
  {
    match b
    case NextPage => 1
    case BackToFirstPage => 2
    case ProceedToQuestions => 2
    case BackToCards => 3
    case GenerateDashboard => 3
    case EditSelections => 4
  }

  /** The step a button leads to. */
  function Target(b: Button): (r: int)
    ensures 1 <= r <= 4
  {
    match b
    case NextPage => 2
    case BackToFirstPage => 1
    case ProceedToQuestions => 3
    case BackToCards => 2
    case GenerateDashboard => 4
    case EditSelections => 3
  }

  /**
   * Whether a button is on screen: nothing but the spinner shows while loading, and
   * the dashboard (with its edit button) shows only once there is an assessment.
   */
  predicate Shown(step: int, b: Button, isLoading: bool, hasAssessment: bool): (r: bool)
    ensures r ==> !isLoading && 1 <= step <= 4
  {
    !isLoading && step == ShownOn(b) && (b == EditSelections ==> hasAssessment)
  }

  /**
   * Every button moves one step forwards or backwards and stays within 0..4; none
   * leaves the input step, and none reaches it.
   */
  lemma NavigationSteps(step: int, b: Button, isLoading: bool, hasAssessment: bool)
    requires Shown(step, b, isLoading, hasAssessment)
    ensures 1 <= Target(b) <= 4 && step != 0
    ensures Target(b) == step + 1 || Target(b) == step - 1
  {
  }

  /** Going forwards and then back again returns to the same step. */
  lemma BackUndoesNext()
    ensures Target(BackToFirstPage) == ShownOn(NextPage) && Target(NextPage) == ShownOn(BackToFirstPage)
    ensures Target(BackToCards) == ShownOn(ProceedToQuestions) && Target(ProceedToQuestions) == ShownOn(BackToCards)
    ensures Target(EditSelections) == ShownOn(GenerateDashboard) && Target(GenerateDashboard) == ShownOn(EditSelections)
  {
  }

  /** The header shown above each step. */
  function HeaderText(step: int): (r: string)
    ensures r != [] <==> 0 <= step <= 4
  {
    match step
    case 0 => InputHeader
    case 1 => InputHeader
    case 2 => InputHeader
    case 3 => SurveyHeader
    case 4 => DashboardHeader
    case _ => ""
  }

  /** Input and card steps share a header; the survey and the dashboard have their own. */
  lemma HeaderTexts(step: int)
    ensures 0 <= step <= 2 ==> HeaderText(step) == HeaderText(0)
    ensures HeaderText(3) != HeaderText(0) && HeaderText(4) != HeaderText(0) && HeaderText(3) != HeaderText(4)
    ensures !(0 <= step <= 4) ==> HeaderText(step) == []
    ensures 0 <= step <= 4 ==> HeaderText(step) != []
  {
    assert |InputHeader| == 57 && |SurveyHeader| == 49 && |DashboardHeader| == 76;
  }

  /**
   * On the dashboard a catalog tile is lit exactly when some selected card of the
   * assessment triggers it.
   */
  lemma GridShowsSelectedTiles(tile: ScopeTile, selected: set<string>, a: AssessmentData)
    ensures IsActive(tile, Activated(selected, Some(a))) <==>
      exists i :: 0 <= i < |a.painCards| && a.painCards[i].title in selected && tile.id in a.painCards[i].triggeredTiles
  {
    ActivatedMembership(selected, a, tile.id);
  }

  // ------------------------------------------------------------------ the page

  /** The page's state, with the two hooks it uses. */
  class WizardController {
    var wizardStep: int
    var ticker: string
    var userAnswers: UserAnswers
    const assessmentHook: AssessmentHook
    const selection: PainCardSelection

    /**
     * The step is one of the five, the ticker fits the input, the selection works on
     * the assessment the page shows, and every step past the input has an assessment.
     */
    ghost predicate Valid()
      reads this, assessmentHook`assessment, selection`assessment
    {
      && 0 <= wizardStep <= 4
      && |ticker| <= MaxTickerLength
      && selection.assessment == assessmentHook.assessment
      && (wizardStep != 0 ==> assessmentHook.assessment.Some?)
    }

    /** Whether the submit button is disabled: while loading, or for a blank ticker. */
    predicate SubmitDisabled()
      reads this, assessmentHook`isLoading
    {
      assessmentHook.isLoading || IsBlank(ticker)
    }

    /** Step 0, no ticker, the default answers, and fresh hooks. */
    constructor(configuredUrl: Option<string>)
      ensures Valid()
      ensures wizardStep == 0 && ticker == [] && userAnswers == DefaultAnswers
      ensures fresh(assessmentHook) && fresh(selection)
      ensures assessmentHook.State() == Initial && assessmentHook.apiBaseUrl == ApiBaseUrl(configuredUrl)
      ensures selection.selectedCardTitles == {} && selection.assessment == None
    {
      wizardStep := 0;
      ticker := [];
      userAnswers := DefaultAnswers;
      assessmentHook := new AssessmentHook(configuredUrl);
      selection := new PainCardSelection();
    }

    /**
     * `handleGenerate`: clears the error, shows the input step and requests the
     * assessment of the current ticker. A loaded assessment then (through the page's
     * effect) selects all of its cards and opens the first card page.
     */
    method HandleGenerate(outcome: FetchOutcome) returns (url: Option<string>)
      requires Valid()
      modifies this`wizardStep, assessmentHook`assessment, assessmentHook`isLoading, assessmentHook`error
      modifies selection`selectedCardTitles, selection`assessment
      ensures Valid()
      ensures assessmentHook.State() == Generate(old(assessmentHook.State()).(error := None), ticker, outcome)
      ensures url.None? <==> IsBlank(ticker)
      ensures url.Some? ==> url.value == RequestUrl(assessmentHook.apiBaseUrl, ticker)
      ensures url.Some? && outcome.Success? ==>
        && wizardStep == 1
        && selection.selectedCardTitles == Titles(outcome.data.painCards)
      ensures !(url.Some? && outcome.Success?) ==>
        && wizardStep == 0
        && selection.selectedCardTitles == old(selection.selectedCardTitles)
    {
      assessmentHook.ClearError();
      wizardStep := 0;
      url := assessmentHook.GenerateAssessment(ticker, outcome);
      if url.Some? && outcome.Success? {
        selection.InitializeSelection(assessmentHook.assessment.value);
        wizardStep := 1;
      }
    }

    /** `handleTickerChange`: stores the input upper-cased and clears any error. */
    method HandleTickerChange(value: string)
      requires Valid()
      requires |value| <= MaxTickerLength
      modifies this`ticker, assessmentHook`error
      ensures Valid()
      ensures ticker == Upper(value)
      ensures assessmentHook.error == None
    {
      ticker := Upper(value);
      if assessmentHook.error.Some? {
        assessmentHook.ClearError();
      }
    }

    /** `handleUserAnswerChange`: replaces the answer under `key`. */
    method HandleUserAnswerChange(key: AnswerKey, value: string)
      requires Valid()
      modifies this`userAnswers
      ensures Valid()
      ensures userAnswers == WithAnswer(old(userAnswers), key, value)
    {
      match key {
        case GeoScope => userAnswers := userAnswers.(geoScope := value);
        case IsSap => userAnswers := userAnswers.(isSap := value);
        case IsOnPrem => userAnswers := userAnswers.(isOnPrem := value);
      }
    }

    /** A click on a navigation button on screen: moves to the button's step. */
    method Press(b: Button)
      requires Valid()
      requires Shown(wizardStep, b, assessmentHook.isLoading, assessmentHook.assessment.Some?)
      modifies this`wizardStep
      ensures Valid()
      ensures wizardStep == Target(b)
    {
      match b {
        case NextPage => wizardStep := 2;
        case BackToFirstPage => wizardStep := 1;
        case ProceedToQuestions => wizardStep := 3;
        case BackToCards => wizardStep := 2;
        case GenerateDashboard => wizardStep := 4;
        case EditSelections => wizardStep := 3;
      }
    }
  }

  /**
   * The submit button is enabled exactly when not loading and the ticker holds a
   * character that is not whitespace; a click on an enabled button starts a request.
   */
  lemma SubmitEnabledIff(w: WizardController)
    ensures !w.SubmitDisabled() <==>
      !w.assessmentHook.isLoading && exists i :: 0 <= i < |w.ticker| && !IsSpace(JavaScript, w.ticker[i])
    ensures !w.SubmitDisabled() ==> Start(w.assessmentHook.State(), w.ticker).isLoading
  {
    StripEmptyIff(JavaScript, w.ticker);
  }
}
