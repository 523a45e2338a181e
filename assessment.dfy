/**
 * The assessment hook of the front end: it guards against a blank ticker, requests
 * the assessment of a ticker from the back end, and keeps the loaded assessment,
 * a loading flag and an error message. The request itself is not modelled: its
 * result comes in as a `FetchOutcome`.
 */
module Assessment {
  import opened Wrappers
  import opened Strings
  import opened AppTypes

  /** How a request for an assessment can end. */
  datatype FetchOutcome =
      /** The response was ok and its body parsed as an assessment. */
    | Success(data: AssessmentData)
      /** The response was not ok; `detail` is the `detail` of its body, when present. */
    | ErrorResponse(detail: Option<string>)
      /** The request or the parsing of a body failed with an error carrying `message`. */
    | Failure(message: string)

  /** The hook's state as a value. */
  datatype HookState = HookState(assessment: Option<AssessmentData>, isLoading: bool, error: Option<string>)

  const BlankTickerMessage := "Please enter a company ticker."
  const UnknownErrorMessage := "An unknown error occurred"
  const FailedMessage := "Failed to generate assessment"
  const DefaultApiBaseUrl := "http://127.0.0.1:8000"
  const AssessmentPath := "/api/v1/assessment/"

  /** No assessment, not loading, no error. */
  const Initial := HookState(None, false, None)

  /**
   * The API base URL: the configured `NEXT_PUBLIC_API_URL`, unless that is missing
   * or empty, in which case the local default.
   */
  function ApiBaseUrl(configured: Option<string>): (r: string)
    ensures r != []
    ensures r == DefaultApiBaseUrl || Some(r) == configured
    ensures configured.Some? && configured.value != [] ==> r == configured.value
  {
    if configured.Some? && configured.value != [] then configured.value else DefaultApiBaseUrl
  }

  /** The request URL for a ticker. */
  function RequestUrl(base: string, ticker: string): string {
    base + AssessmentPath + ticker
  }

  /** The URL is the base, then the assessment path, then the ticker exactly as typed. */
  lemma RequestUrlParts(base: string, ticker: string)
    ensures |RequestUrl(base, ticker)| == |base| + |AssessmentPath| + |ticker|
    ensures RequestUrl(base, ticker)[..|base|] == base
    ensures RequestUrl(base, ticker)[|base|..|base| + |AssessmentPath|] == AssessmentPath
    ensures RequestUrl(base, ticker)[|base| + |AssessmentPath|..] == ticker
  {
    var url := RequestUrl(base, ticker);
    assert url == (base + AssessmentPath) + ticker;
    assert (base + AssessmentPath)[..|base|] == base;
  }

  /** JavaScript's `!ticker.trim()`: nothing but whitespace. */
  predicate IsBlank(ticker: string) {
    Strip(JavaScript, ticker) == []
  }

  /** The loaded assessment, stamped with the upper-cased ticker as its company name. */
  function Stamp(data: AssessmentData, ticker: string): (r: AssessmentData)
    ensures r.companyName == Some(Upper(ticker))
    ensures r.(companyName := data.companyName) == data
  {
    data.(companyName := Some(Upper(ticker)))
  }

  /**
   * The message of a failed request: the error body's `detail`, or a fixed text
   * when that is absent or empty; a thrown error's own message, or a fixed text
   * when that is empty.
   */
  function ErrorMessage(outcome: FetchOutcome): (r: string)
    requires !outcome.Success?
    ensures r != []
  {
    match outcome
    case ErrorResponse(detail) =>
      if detail.Some? && detail.value != [] then detail.value else UnknownErrorMessage
    case Failure(message) =>
      if message != [] then message else FailedMessage
  }

  /** The state once the request has been started, or refused for a blank ticker. */
  function Start(s: HookState, ticker: string): (r: HookState)
    ensures r.assessment == s.assessment
    ensures r.error.None? <==> !IsBlank(ticker)
    ensures r.isLoading <==> s.isLoading || !IsBlank(ticker)
  {
    if IsBlank(ticker) then s.(error := Some(BlankTickerMessage))
    else s.(isLoading := true, error := None)
  }

  /** The state once the request has ended with `outcome`. */
  function Settle(s: HookState, ticker: string, outcome: FetchOutcome): (r: HookState)
    ensures !r.isLoading
    ensures r.error.None? <==> outcome.Success? && s.error.None?
    ensures r.assessment.Some? <==> outcome.Success? || s.assessment.Some?
  {
    match outcome
    case Success(data) => s.(assessment := Some(Stamp(data, ticker)), isLoading := false)
    case _ => s.(isLoading := false, error := Some(ErrorMessage(outcome)))
  }

  /** `generateAssessment` as a whole: the guard, and for a usable ticker the request. */
  function Generate(s: HookState, ticker: string, outcome: FetchOutcome): (r: HookState)
    ensures r.error.None? <==> !IsBlank(ticker) && outcome.Success?
    ensures r.assessment != s.assessment ==> !IsBlank(ticker) && outcome.Success?
    ensures r.isLoading ==> IsBlank(ticker) && s.isLoading
  {
    if IsBlank(ticker) then Start(s, ticker) else Settle(Start(s, ticker), ticker, outcome)
  }

  /** A blank ticker only sets the error message: no request, nothing else changes. */
  lemma BlankTickerRefused(s: HookState, ticker: string, outcome: FetchOutcome)
    requires IsBlank(ticker)
    ensures Generate(s, ticker, outcome).error == Some(BlankTickerMessage)
    ensures Generate(s, ticker, outcome).assessment == s.assessment
    ensures Generate(s, ticker, outcome).isLoading == s.isLoading
  {
  }

  /** Whatever the outcome, a request that was made leaves the hook not loading. */
  lemma SettledNotLoading(s: HookState, ticker: string, outcome: FetchOutcome)
    requires !IsBlank(ticker)
    ensures !Generate(s, ticker, outcome).isLoading
  {
  }

  /** A loaded assessment replaces the old one, named after the upper-cased ticker, with no error. */
  lemma LoadedAssessment(s: HookState, ticker: string, data: AssessmentData)
    requires !IsBlank(ticker)
    ensures Generate(s, ticker, Success(data)) == HookState(Some(Stamp(data, ticker)), false, None)
  {
  }

  /**
   * A failed request keeps the assessment there was and reports a message that is
   * never empty, so the page always shows it.
   */
  lemma FailedRequest(s: HookState, ticker: string, outcome: FetchOutcome)
    requires !IsBlank(ticker) && !outcome.Success?
    ensures Generate(s, ticker, outcome).assessment == s.assessment
    ensures Generate(s, ticker, outcome).error == Some(ErrorMessage(outcome))
    ensures ErrorMessage(outcome) != []
  {
  }

  /**
   * Which message a failed request shows: the error body's detail or the thrown
   * message whenever it is truthy (present and not ""), and the fallback text
   * exactly when it is falsy (or is that very text).
   */
  lemma ErrorMessageChoice(outcome: FetchOutcome)
    requires !outcome.Success?
    ensures outcome.ErrorResponse? ==>
      (ErrorMessage(outcome) == UnknownErrorMessage <==>
         outcome.detail.None? || outcome.detail.value == [] || outcome.detail.value == UnknownErrorMessage)
    ensures outcome.ErrorResponse? ==>
      ErrorMessage(outcome) == UnknownErrorMessage || Some(ErrorMessage(outcome)) == outcome.detail
    ensures outcome.Failure? ==>
      (ErrorMessage(outcome) == FailedMessage <==> outcome.message == [] || outcome.message == FailedMessage)
    ensures outcome.Failure? ==> ErrorMessage(outcome) == FailedMessage || ErrorMessage(outcome) == outcome.message
  {
  }

  /** An empty ticker on a fresh hook: the blank-ticker message, and not loading. */
  lemma EmptyTickerExample(outcome: FetchOutcome)
    ensures Generate(Initial, [], outcome) == HookState(None, false, Some(BlankTickerMessage))
  {
  }

  /** "AAPL" loads the data, named "AAPL". */
  lemma SuccessExample(ticker: string, data: AssessmentData)
    requires ticker == "AAPL"
    ensures Generate(Initial, ticker, Success(data)) == HookState(Some(data.(companyName := Some(ticker))), false, None)
  {
    assert !IsSpace(JavaScript, ticker[0]);
    assert Upper(ticker) == ticker;
  }

  /** An error body with a detail reports that detail and loads nothing. */
  lemma ApiErrorExample(ticker: string, detail: string)
    requires ticker == "INVALID" && detail == "Company not found"
    ensures Generate(Initial, ticker, ErrorResponse(Some(detail))) == HookState(None, false, Some(detail))
  {
    assert !IsSpace(JavaScript, ticker[0]);
  }

  /** The hook's state. */
  class AssessmentHook {
    var assessment: Option<AssessmentData>
    var isLoading: bool
    var error: Option<string>
    const apiBaseUrl: string

    function State(): HookState
      reads this`assessment, this`isLoading, this`error
    {
      HookState(assessment, isLoading, error)
    }

    /** A fresh hook, talking to the configured API base URL. */
    constructor(configuredUrl: Option<string>)
      ensures State() == Initial
      ensures apiBaseUrl == ApiBaseUrl(configuredUrl)
    {
      assessment := None;
      isLoading := false;
      error := None;
      apiBaseUrl := ApiBaseUrl(configuredUrl);
    }

    /**
     * The part of `generateAssessment` before the request: refuses a blank ticker,
     * otherwise raises the loading flag, clears the error and returns the URL to request.
     */
    method StartRequest(ticker: string) returns (url: Option<string>)
      modifies this`isLoading, this`error
      ensures State() == Start(old(State()), ticker)
      ensures url.None? <==> IsBlank(ticker)
      ensures url.Some? ==> url.value == RequestUrl(apiBaseUrl, ticker)
    {
      if IsBlank(ticker) {
        error := Some(BlankTickerMessage);
        return None;
      }
      isLoading := true;
      error := None;
      url := Some(RequestUrl(apiBaseUrl, ticker));
    }

    /** The part after the request: stores the stamped assessment or the error, then stops loading. */
    method FinishRequest(ticker: string, outcome: FetchOutcome)
      modifies this`assessment, this`isLoading, this`error
      ensures State() == Settle(old(State()), ticker, outcome)
    {
      match outcome {
        case Success(data) =>
          assessment := Some(data.(companyName := Some(Upper(ticker))));
        case ErrorResponse(detail) =>
          var message := if detail.Some? && detail.value != [] then detail.value else UnknownErrorMessage;
          error := Some(message);
        case Failure(message) =>
          error := Some(if message != [] then message else FailedMessage);
      }
      isLoading := false;
    }

    /** `generateAssessment`, with the request ending in `outcome`. */
    method GenerateAssessment(ticker: string, outcome: FetchOutcome) returns (url: Option<string>)
      modifies this`assessment, this`isLoading, this`error
      ensures State() == Generate(old(State()), ticker, outcome)
      ensures url.None? <==> IsBlank(ticker)
      ensures url.Some? ==> url.value == RequestUrl(apiBaseUrl, ticker)
    {
      url := StartRequest(ticker);
      if url.Some? {
        FinishRequest(ticker, outcome);
      }
    }

    /** `clearError`: drops the error message and nothing else. */
    method ClearError()
      modifies this`error
      ensures error == None
    {
      error := None;
    }
  }
}
