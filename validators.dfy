/**
 * The back end's input validators: ticker normalisation, the API-key presence
 * check, and the text sanitiser that truncates, removes script blocks and tags,
 * and strips. A raised `ValidationError` is the `Err`/`Fail` side of the result,
 * carrying the error's message.
 */
module Validators {
  import opened Wrappers
  import opened Strings

  /** The message a raised `ValidationError` carries. */
  type ValidationError = string

  const EmptyTickerMessage := "Ticker cannot be empty"
  const BadTickerMessage := "Ticker must be 1-5 uppercase letters only"

  // ---------------------------------------------------------------- tickers

  /** The pattern `^[A-Z]{1,5}$`. */
  predicate IsTickerSymbol(t: string) {
    1 <= |t| <= 5 && forall i :: 0 <= i < |t| ==> IsUpperLetter(t[i])
  }

  predicate IsAsciiLetter(c: char) {
    'A' <= c <= 'Z' || 'a' <= c <= 'z'
  }

  /**
   * `validate_ticker`: the empty string is refused outright; otherwise the
   * ticker is stripped and upper-cased and must then be one to five letters.
   */
  function ValidateTicker(ticker: string): (r: Result<string, ValidationError>)
    ensures r.Ok? ==> IsTickerSymbol(r.value)
    ensures r.Err? ==> r.error == if ticker == "" then EmptyTickerMessage else BadTickerMessage
  {
    if ticker == "" then Err(EmptyTickerMessage)
    else
      var t := Upper(Strip(Python, ticker));
      if IsTickerSymbol(t) then Ok(t) else Err(BadTickerMessage)
  }

  /** Upper-casing gives one to five capitals exactly when it starts from one to five ASCII letters. */
  lemma UpperTickerSymbol(c: string)
    ensures IsTickerSymbol(Upper(c)) <==> 1 <= |c| <= 5 && forall i :: 0 <= i < |c| ==> IsAsciiLetter(c[i])
  {
    if IsTickerSymbol(Upper(c)) {
      forall i | 0 <= i < |c|
        ensures IsAsciiLetter(c[i])
      {
        assert IsUpperLetter(Upper(c)[i]);
      }
    }
  }

  /**
   * A ticker is accepted exactly when, with surrounding whitespace removed,
   * it is one to five ASCII letters of either case; it is then upper-cased.
   */
  lemma ValidateTickerAccepts(ticker: string)
    ensures var core := Strip(Python, ticker);
      && (ValidateTicker(ticker).Ok? <==> 1 <= |core| <= 5 && forall i :: 0 <= i < |core| ==> IsAsciiLetter(core[i]))
      && (ValidateTicker(ticker).Ok? ==> ValidateTicker(ticker).value == Upper(core))
  {
    UpperTickerSymbol(Strip(Python, ticker));
  }

  /** A normalised ticker validates to itself. */
  lemma ValidateTickerIdempotent(ticker: string)
    requires ValidateTicker(ticker).Ok?
    ensures ValidateTicker(ValidateTicker(ticker).value) == ValidateTicker(ticker)
  {
    var t := ValidateTicker(ticker).value;
    StripUnchanged(Python, t);
    UpperIdempotent(Strip(Python, ticker));
  }

  /** A non-empty ticker is judged by its stripped form alone. */
  lemma ValidateStripped(ticker: string, core: string)
    requires ticker != "" && Strip(Python, ticker) == core
    ensures ValidateTicker(ticker) == if IsTickerSymbol(Upper(core)) then Ok(Upper(core)) else Err(BadTickerMessage)
  {
  }

  /** A string of capitals validates to itself when it is one to five long, and is refused otherwise. */
  lemma CapitalsValidate(t: string)
    requires forall i :: 0 <= i < |t| ==> IsUpperLetter(t[i])
    ensures ValidateTicker(t) == if 1 <= |t| <= 5 then Ok(t) else if t == "" then Err(EmptyTickerMessage) else Err(BadTickerMessage)
  {
    StripUnchanged(Python, t);
    UpperIs(t, t);
    if t != "" {
      ValidateStripped(t, t);
    }
  }

  /** Recognises the upper-cased form of a string character by character. */
  lemma UpperIs(s: string, t: string)
    requires |s| == |t| && forall i :: 0 <= i < |s| ==> t[i] == UpperChar(s[i])
    ensures Upper(s) == t
  {
  }

  /** One to five ASCII letters, with any blanks around them, validate to their upper-cased form. */
  lemma LettersValidate(a: string, core: string, b: string, u: string)
    requires AllSpace(Python, a) && AllSpace(Python, b)
    requires 1 <= |core| <= 5 && forall i :: 0 <= i < |core| ==> IsAsciiLetter(core[i])
    requires |u| == |core| && forall i :: 0 <= i < |core| ==> u[i] == UpperChar(core[i])
    ensures ValidateTicker(a + core + b) == Ok(u)
  {
    StripSurrounded(Python, a, core, b);
    UpperIs(core, u);
    UpperTickerSymbol(core);
    ValidateStripped(a + core + b, core);
  }

  /** Accepted tickers from the back end's tests: case is normalised and surrounding blanks dropped. */
  lemma CapitalTickerAccepted(t: string)
    requires t == "AAPL"
    ensures ValidateTicker(t) == Ok("AAPL")
  {
    CapitalsValidate(t);
  }

  lemma LowerCaseTickerAccepted(t: string)
    requires t == "msft"
    ensures ValidateTicker(t) == Ok("MSFT")
  {
    assert t == "" + t + "";
    LettersValidate("", t, "", "MSFT");
  }

  lemma PaddedTickerAccepted(t: string)
    requires t == " GOOGL "
    ensures ValidateTicker(t) == Ok("GOOGL")
  {
    assert t == " " + "GOOGL" + " ";
    LettersValidate(" ", "GOOGL", " ", "GOOGL");
  }

  lemma OneLetterTickerAccepted(t: string)
    requires t == "T"
    ensures ValidateTicker(t) == Ok("T")
  {
    CapitalsValidate(t);
  }

  /** A non-empty blank ticker is refused by the pattern, not by the emptiness test. */
  lemma BlankRefused(t: string)
    requires t != "" && AllSpace(Python, t)
    ensures ValidateTicker(t) == Err(BadTickerMessage)
  {
    StripEmptyIff(Python, t);
    ValidateStripped(t, "");
  }

  /** A ticker with more than five letters is refused. */
  lemma TooLongRefused(t: string)
    requires |t| > 5 && forall i :: 0 <= i < |t| ==> IsUpperLetter(t[i])
    ensures ValidateTicker(t) == Err(BadTickerMessage)
  {
    CapitalsValidate(t);
  }

  /** A character that is neither blank nor a letter survives stripping. */
  lemma StripKeepsNonBlank(t: string, k: nat)
    requires k < |t| && !IsSpace(Python, t[k])
    ensures t[k] in Strip(Python, t)
  {
    var l := StripLeft(Python, t);
    var d := |t| - |l|;
    assert k >= d;
    assert l[k - d] == t[k];
    var r := StripRight(Python, l);
    assert k - d < |r|;
    assert r[k - d] == t[k];
  }

  /** A ticker holding a character that is neither blank nor a letter is refused. */
  lemma NonLetterRefused(t: string, k: nat)
    requires k < |t| && !IsAsciiLetter(t[k]) && !IsSpace(Python, t[k])
    ensures ValidateTicker(t) == Err(BadTickerMessage)
  {
    StripKeepsNonBlank(t, k);
    UpperTickerSymbol(Strip(Python, t));
    ValidateStripped(t, Strip(Python, t));
  }

  /** Refused tickers from the back end's tests. */
  lemma EmptyTickerRefused()
    ensures ValidateTicker("") == Err(EmptyTickerMessage)
  {
  }

  lemma LongTickerRefused(t: string)
    requires t == "TOOLONG"
    ensures ValidateTicker(t) == Err(BadTickerMessage)
  {
    TooLongRefused(t);
  }

  lemma SymbolTickersRefused(b: string, c: string)
    requires b == "123" && c == "AA@L"
    ensures ValidateTicker(b) == Err(BadTickerMessage)
    ensures ValidateTicker(c) == Err(BadTickerMessage)
  {
    NonLetterRefused(b, 0);
    NonLetterRefused(c, 2);
  }

  // ---------------------------------------------------------------- API keys

  /** `validate_api_key`: a missing, empty or blank key is refused, naming the key. */
  function ValidateApiKey(apiKey: Option<string>, keyName: string): (o: Outcome<ValidationError>)
    ensures o.Fail? <==> apiKey.None? || AllSpace(Python, apiKey.value)
    ensures o.Fail? ==> o.error == keyName + " is required but not found"
  {
    if apiKey.None? then Fail(keyName + " is required but not found")
    else
      StripEmptyIff(Python, apiKey.value);
      if apiKey.value == "" || Strip(Python, apiKey.value) == "" then Fail(keyName + " is required but not found")
      else Pass
  }

  // ---------------------------------------------------------------- sanitising

  /** Python's `s[:n]`; a negative `n` counts from the end. */
  function PrefixSlice(s: string, n: int): (r: string)
    ensures r <= s
    ensures n >= 0 ==> |r| == (if n < |s| then n else |s|)
    ensures n >= |s| ==> r == s
    ensures n < 0 ==> |r| == (if |s| + n > 0 then |s| + n else 0)
  {
    if n >= 0 then s[..if n < |s| then n else |s|]
    else s[..if |s| + n > 0 then |s| + n else 0]
  }

  /** `s` starts with `word` when ASCII case is ignored (`word` is lower-case). */
  predicate StartsWithIgnoringCase(s: string, word: string) {
    |word| <= |s| && Lower(s[..|word|]) == word
  }

  /** The first index at or after `from` where `c` occurs. */
  function IndexOf(s: string, from: nat, c: char): (r: Option<nat>)
    ensures r.Some? ==> from <= r.value < |s| && s[r.value] == c
    ensures r.Some? ==> forall k :: from <= k < r.value ==> s[k] != c
    ensures r.None? ==> forall k :: from <= k < |s| ==> s[k] != c
    decreases |s| - from
  {
    if from >= |s| then None
    else if s[from] == c then Some(from)
    else IndexOf(s, from + 1, c)
  }

  /** The first index at or after `from` where `word` starts, ignoring ASCII case. */
  function IndexOfIgnoringCase(s: string, from: nat, word: string): (r: Option<nat>)
    ensures r.Some? ==> from <= r.value <= |s| && StartsWithIgnoringCase(s[r.value..], word)
    ensures r.Some? ==> forall k :: from <= k < r.value ==> !StartsWithIgnoringCase(s[k..], word)
    ensures r.None? ==> forall k :: from <= k <= |s| ==> !StartsWithIgnoringCase(s[k..], word)
    decreases |s| - from
  {
    if from > |s| then None
    else if StartsWithIgnoringCase(s[from..], word) then Some(from)
    else IndexOfIgnoringCase(s, from + 1, word)
  }

  /**
   * The length of the match of `<script[^>]*>.*?</script>` (ignoring case,
   * `.` matching newlines) at the start of `s`: "<script", up to the first '>',
   * then up to and including the first "</script>" after it.
   */
  function ScriptBlockLength(s: string): (r: Option<nat>)
    ensures r.Some? ==> 17 <= r.value <= |s|
  {
    if !StartsWithIgnoringCase(s, "<script") then None
    else match IndexOf(s, 7, '>')
      case None => None
      case Some(j) =>
        match IndexOfIgnoringCase(s, j + 1, "</script>")
        case None => None
        case Some(k) => Some(k + 9)
  }

  /** `re.sub(r'<script[^>]*>.*?</script>', '', s, flags=re.IGNORECASE | re.DOTALL)`. */
  function RemoveScriptBlocks(s: string): (r: string)
    ensures |r| <= |s|
    decreases |s|
  {
    if s == [] then []
    else match ScriptBlockLength(s)
      case Some(n) => RemoveScriptBlocks(s[n..])
      case None => [s[0]] + RemoveScriptBlocks(s[1..])
  }

  /** The index of the '>' that closes a tag opened before `from`, unless a newline comes first. */
  function TagEnd(s: string, from: nat): (r: Option<nat>)
    ensures r.Some? ==> from <= r.value < |s| && s[r.value] == '>'
    ensures r.Some? ==> forall k :: from <= k < r.value ==> s[k] != '\n'
    decreases |s| - from
  {
    if from >= |s| then None
    else if s[from] == '>' then Some(from)
    else if s[from] == '\n' then None
    else TagEnd(s, from + 1)
  }

  /** `re.sub(r'<.*?>', '', s)`: a tag is '<' up to the first '>' on the same line. */
  function RemoveTags(s: string): (r: string)
    ensures |r| <= |s|
    decreases |s|
  {
    if s == [] then []
    else if s[0] == '<' && TagEnd(s, 1).Some? then RemoveTags(s[TagEnd(s, 1).value + 1..])
    else [s[0]] + RemoveTags(s[1..])
  }

  /** No '<' is followed by a '>' on the same line: nothing tag-shaped is left. */
  ghost predicate TagFree(r: string) {
    forall i, j :: 0 <= i < j < |r| && r[i] == '<' && r[j] == '>' ==> '\n' in r[i + 1..j]
  }

  /**
   * `sanitize_text`: empty text gives ""; otherwise truncate to `maxLength`,
   * remove script blocks, remove tags, and strip the result.
   */
  function SanitizeText(text: string, maxLength: int): (r: string)
    ensures text == "" ==> r == ""
    ensures maxLength >= 0 ==> |r| <= maxLength
    ensures r == [] || (!IsSpace(Python, r[0]) && !IsSpace(Python, r[|r| - 1]))
    ensures TagFree(r)
  {
    if text == "" then ""
    else
      var truncated := if |text| > maxLength then PrefixSlice(text, maxLength) else text;
      var untagged := RemoveTags(RemoveScriptBlocks(truncated));
      RemoveTagsTagFree(RemoveScriptBlocks(truncated));
      var r := Strip(Python, untagged);
      TagFreeInfix(untagged, r);
      r
  }

  /** The `max_length` `sanitize_text` uses when its caller gives none. */
  const DefaultMaxLength := 10000

  /** `sanitize_text(text)`, with the default limit. */
  function SanitizeDefault(text: string): (r: string)
    ensures text == "" ==> r == ""
    ensures |r| <= DefaultMaxLength
    ensures TagFree(r)
  {
    SanitizeText(text, DefaultMaxLength)
  }

  // ---------------------------------------------------------------- sanitiser lemmas

  /** Text that is not a tag start before the end of its line. */
  ghost predicate NoCloseBeforeNewline(t: string) {
    forall j :: 0 <= j < |t| && t[j] == '>' ==> '\n' in t[..j]
  }

  lemma {:induction false} TagEndNone(s: string, from: nat)
    requires from <= |s| && TagEnd(s, from).None?
    ensures NoCloseBeforeNewline(s[from..])
    decreases |s| - from
  {
    if from < |s| && s[from] != '>' && s[from] != '\n' {
      TagEndNone(s, from + 1);
      forall j | 0 <= j < |s[from..]| && s[from..][j] == '>'
        ensures '\n' in s[from..][..j]
      {
        assert j > 0;
        assert s[from + 1..][j - 1] == '>';
        var k :| 0 <= k < j - 1 && s[from + 1..][..j - 1][k] == '\n';
        assert s[from..][..j][k + 1] == '\n';
      }
    } else if from < |s| && s[from] == '\n' {
      forall j | 0 <= j < |s[from..]| && s[from..][j] == '>'
        ensures '\n' in s[from..][..j]
      {
        assert s[from..][..j][0] == '\n';
      }
    }
  }

  /** Removing tags keeps "every '>' comes after a newline". */
  lemma {:induction false} RemoveTagsKeepsGuard(t: string)
    requires NoCloseBeforeNewline(t)
    ensures NoCloseBeforeNewline(RemoveTags(t))
    decreases |t|
  {
    if t != [] {
      if t[0] == '<' && TagEnd(t, 1).Some? {
      } else if t[0] == '\n' {
        var r := RemoveTags(t);
        assert r == ['\n'] + RemoveTags(t[1..]);
        forall j | 0 <= j < |r| && r[j] == '>'
          ensures '\n' in r[..j]
        {
          assert r[..j][0] == '\n';
        }
      } else {
        assert t[0] != '>';
        forall j | 0 <= j < |t[1..]| && t[1..][j] == '>'
          ensures '\n' in t[1..][..j]
        {
          assert t[j + 1] == '>';
          var k :| 0 <= k < j + 1 && t[..j + 1][k] == '\n';
          assert k > 0;
          assert t[1..][..j][k - 1] == '\n';
        }
        RemoveTagsKeepsGuard(t[1..]);
        var rest := RemoveTags(t[1..]);
        var r := RemoveTags(t);
        assert r == [t[0]] + rest;
        forall j | 0 <= j < |r| && r[j] == '>'
          ensures '\n' in r[..j]
        {
          assert rest[j - 1] == '>';
          var k :| 0 <= k < j - 1 && rest[..j - 1][k] == '\n';
          assert r[..j][k + 1] == '\n';
        }
      }
    }
  }

  /** Putting a character in front of tag-free text keeps it tag-free, unless it opens a tag. */
  lemma ConsTagFree(c: char, rest: string)
    requires TagFree(rest)
    requires c == '<' ==> NoCloseBeforeNewline(rest)
    ensures TagFree([c] + rest)
  {
    var r := [c] + rest;
    forall i, j | 0 <= i < j < |r| && r[i] == '<' && r[j] == '>'
      ensures '\n' in r[i + 1..j]
    {
      if i == 0 {
        assert rest[j - 1] == '>';
        assert r[i + 1..j] == rest[..j - 1];
      } else {
        assert rest[i - 1] == '<' && rest[j - 1] == '>';
        assert r[i + 1..j] == rest[i..j - 1];
      }
    }
  }

  /** What `re.sub(r'<.*?>', '', s)` leaves holds no tag. */
  lemma {:induction false} RemoveTagsTagFree(s: string)
    ensures TagFree(RemoveTags(s))
    decreases |s|
  {
    if s != [] {
      if s[0] == '<' && TagEnd(s, 1).Some? {
        RemoveTagsTagFree(s[TagEnd(s, 1).value + 1..]);
      } else {
        RemoveTagsTagFree(s[1..]);
        if s[0] == '<' {
          TagEndNone(s, 1);
          RemoveTagsKeepsGuard(s[1..]);
        }
        ConsTagFree(s[0], RemoveTags(s[1..]));
      }
    }
  }

  /** A piece cut out of tag-free text is tag-free. */
  lemma TagFreeInfix(s: string, r: string)
    requires TagFree(s) && exists p :: OccursAt(s, r, p)
    ensures TagFree(r)
  {
    var p :| OccursAt(s, r, p);
    assert forall m :: 0 <= m < |r| ==> r[m] == s[p + m];
    forall i, j | 0 <= i < j < |r| && r[i] == '<' && r[j] == '>'
      ensures '\n' in r[i + 1..j]
    {
      assert s[p + i] == '<' && s[p + j] == '>';
      assert r[i + 1..j] == s[p + i + 1..p + j];
    }
  }

  /** Neither removal touches text without '<'. */
  lemma {:induction false} RemovalsKeepPlainText(s: string)
    requires '<' !in s
    ensures RemoveScriptBlocks(s) == s
    ensures RemoveTags(s) == s
    decreases |s|
  {
    if s != [] {
      assert s[0] != '<';
      NotScriptStart(s);
      RemovalsKeepPlainText(s[1..]);
      assert s == [s[0]] + s[1..];
    }
  }

  /** Text with no '<', no surrounding whitespace and within the limit passes through unchanged. */
  lemma SanitizePlainText(text: string, maxLength: int)
    requires '<' !in text && |text| <= maxLength
    requires text == [] || (!IsSpace(Python, text[0]) && !IsSpace(Python, text[|text| - 1]))
    ensures SanitizeText(text, maxLength) == text
  {
    RemovalsKeepPlainText(text);
    StripUnchanged(Python, text);
    if text != "" {
      SanitizeWithinLimit(text, maxLength);
    }
  }

  /** No script block starts at a character other than '<'. */
  lemma NotScriptStart(s: string)
    requires s != [] && s[0] != '<'
    ensures ScriptBlockLength(s).None?
  {
    if |s| >= 7 {
      assert Lower(s[..7])[0] == LowerChar(s[0]);
    }
  }

  /** Text before the first '<' is kept as it is by the script-block removal. */
  lemma {:induction false} RemoveScriptBlocksPrefix(pre: string, s: string)
    requires '<' !in pre
    ensures RemoveScriptBlocks(pre + s) == pre + RemoveScriptBlocks(s)
    decreases |pre|
  {
    if pre != [] {
      assert (pre + s)[0] == pre[0] != '<';
      NotScriptStart(pre + s);
      assert (pre + s)[1..] == pre[1..] + s;
      RemoveScriptBlocksPrefix(pre[1..], s);
      assert [pre[0]] + pre[1..] == pre;
    } else {
      assert pre + s == s;
    }
  }

  lemma IndexOfIs(s: string, from: nat, c: char, v: nat)
    requires from <= v < |s| && s[v] == c && forall k :: from <= k < v ==> s[k] != c
    ensures IndexOf(s, from, c) == Some(v)
  {
  }

  lemma IndexOfIgnoringCaseIs(s: string, from: nat, word: string, v: nat)
    requires from <= v <= |s| && StartsWithIgnoringCase(s[v..], word)
    requires forall k :: from <= k < v ==> !StartsWithIgnoringCase(s[k..], word)
    ensures IndexOfIgnoringCase(s, from, word) == Some(v)
  {
  }

  /** The opening tag of a script block: "<script" in any case, attributes without '>', then '>'. */
  ghost predicate ScriptOpenTag(open: string) {
    |open| >= 8 && Lower(open[..7]) == "<script" && open[|open| - 1] == '>' && '>' !in open[7..|open| - 1]
  }

  /** A closing tag "</script>" in any case. */
  ghost predicate ScriptCloseTag(close: string) {
    |close| == 9 && Lower(close) == "</script>"
  }

  /** Script content: no closing tag starts inside it. */
  ghost predicate ScriptContent(body: string, close: string) {
    forall k :: 0 <= k < |body| ==> !StartsWithIgnoringCase((body + close)[k..], "</script>")
  }

  lemma ScriptOpenFound(s: string, open: string, rest: string)
    requires ScriptOpenTag(open) && s == open + rest
    ensures StartsWithIgnoringCase(s, "<script")
    ensures IndexOf(s, 7, '>') == Some(|open| - 1)
  {
    assert s[..7] == open[..7];
    forall k | 7 <= k < |open| - 1
      ensures s[k] != '>'
    {
      assert s[k] == open[7..|open| - 1][k - 7];
    }
    assert s[|open| - 1] == open[|open| - 1];
    IndexOfIs(s, 7, '>', |open| - 1);
  }

  lemma ScriptCloseFound(s: string, open: string, body: string, close: string, post: string)
    requires ScriptCloseTag(close) && ScriptContent(body, close)
    requires s == open + body + close + post
    ensures IndexOfIgnoringCase(s, |open|, "</script>") == Some(|open| + |body|)
  {
    var b := body + close;
    forall k | |open| <= k < |open| + |body|
      ensures !StartsWithIgnoringCase(s[k..], "</script>")
    {
      assert !StartsWithIgnoringCase(b[k - |open|..], "</script>");
      assert s[k..][..9] == b[k - |open|..][..9];
    }
    assert s[|open| + |body|..][..9] == close;
    IndexOfIgnoringCaseIs(s, |open|, "</script>", |open| + |body|);
  }

  /**
   * A script block, with any attributes in its opening tag, any case, and any
   * content without a closing tag, is removed together with its content.
   */
  lemma ScriptBlockRemoved(open: string, body: string, close: string, post: string)
    requires ScriptOpenTag(open) && ScriptCloseTag(close) && ScriptContent(body, close)
    ensures RemoveScriptBlocks(open + body + close + post) == RemoveScriptBlocks(post)
  {
    var s := open + body + close + post;
    assert s == open + (body + close + post);
    ScriptOpenFound(s, open, body + close + post);
    ScriptCloseFound(s, open, body, close, post);
    ScriptBlockSkipped(s, |open| - 1, |open| + |body|);
    assert s[|open| + |body| + 9..] == post;
  }

  /** Where a script block starts, the removal drops it and carries on after it. */
  lemma ScriptBlockSkipped(s: string, j: nat, k: nat)
    requires StartsWithIgnoringCase(s, "<script")
    requires IndexOf(s, 7, '>') == Some(j) && IndexOfIgnoringCase(s, j + 1, "</script>") == Some(k)
    ensures k + 9 <= |s| && RemoveScriptBlocks(s) == RemoveScriptBlocks(s[k + 9..])
  {
    ScriptBlockLengthIs(s, j, k);
    RemoveScriptBlocksSkip(s, k + 9);
  }

  lemma ScriptBlockLengthIs(s: string, j: nat, k: nat)
    requires StartsWithIgnoringCase(s, "<script")
    requires IndexOf(s, 7, '>') == Some(j) && IndexOfIgnoringCase(s, j + 1, "</script>") == Some(k)
    ensures ScriptBlockLength(s) == Some(k + 9)
  {
    var open := IndexOf(s, 7, '>');
    assert open == Some(j);
    var close := IndexOfIgnoringCase(s, j + 1, "</script>");
    assert close == Some(k);
  }

  lemma RemoveScriptBlocksSkip(s: string, n: nat)
    requires s != [] && ScriptBlockLength(s) == Some(n)
    ensures n <= |s| && RemoveScriptBlocks(s) == RemoveScriptBlocks(s[n..])
  {
  }

  /**
   * Sanitising text holding one script block and no other '<' keeps only the
   * text around the block, stripped.
   */
  lemma SanitizeScriptBlock(pre: string, open: string, body: string, close: string, post: string, maxLength: int)
    requires '<' !in pre && '<' !in post
    requires ScriptOpenTag(open) && ScriptCloseTag(close) && ScriptContent(body, close)
    requires |pre + open + body + close + post| <= maxLength
    ensures SanitizeText(pre + open + body + close + post, maxLength) == Strip(Python, pre + post)
  {
    var text := pre + open + body + close + post;
    assert text == pre + (open + body + close + post);
    SanitizeWithinLimit(text, maxLength);
    RemoveScriptBlocksPrefix(pre, open + body + close + post);
    ScriptBlockRemoved(open, body, close, post);
    RemovalsKeepPlainText(post);
    RemovalsKeepPlainText(pre + post);
  }

  /** Text within the limit is not truncated: only the two removals and the strip apply. */
  lemma SanitizeWithinLimit(text: string, maxLength: int)
    requires text != "" && |text| <= maxLength
    ensures SanitizeText(text, maxLength) == Strip(Python, RemoveTags(RemoveScriptBlocks(text)))
  {
  }
}
