/**
 * The settings validator that turns the configured CORS origins into a list:
 * a plain comma-separated string is split and each origin stripped, a list or
 * a JSON-looking string is passed on untouched, anything else is refused.
 */
module Config {
  import opened Wrappers
  import opened Strings

  /** What the settings loader may hand to the validator. */
  datatype CorsValue =
    | Text(text: string)
    | TextList(items: seq<string>)
    | Other

  /** The validator raises `ValueError` carrying the offending value. */
  datatype ConfigError = ValueError(value: CorsValue)

  /** The default value of the `cors_origins` setting. */
  const DefaultCorsOrigins := "http://localhost:3000"

  /** Each piece stripped of surrounding whitespace, as the list comprehension does. */
  function StripEach(pieces: seq<string>): (r: seq<string>)
    ensures |r| == |pieces|
    ensures forall k :: 0 <= k < |r| ==> r[k] == Strip(Python, pieces[k])
  {
    seq(|pieces|, k requires 0 <= k < |pieces| => Strip(Python, pieces[k]))
  }

  /** `assemble_cors_origins`. */
  function AssembleCorsOrigins(v: CorsValue): (r: Result<CorsValue, ConfigError>)
    ensures r.Err? <==> v.Other?
    ensures r.Err? ==> r.error == ValueError(v)
    ensures v.TextList? ==> r == Ok(v)
  {
    match v
    case Text(s) =>
      if !("[" <= s) then
        Ok(TextList(StripEach(Split(s, ','))))
      else Ok(v)
    case TextList(_) => Ok(v)
    case Other => Err(ValueError(v))
  }

  /** The origins a plain (non-JSON) string yields. */
  function PlainOrigins(s: string): (r: seq<string>)
    requires !("[" <= s)
    ensures AssembleCorsOrigins(Text(s)) == Ok(TextList(r))
  {
    StripEach(Split(s, ','))
  }

  /** A plain string gives one more origin than it has commas. */
  lemma CorsOriginsCount(s: string)
    requires !("[" <= s)
    ensures |PlainOrigins(s)| == Count(s, ',') + 1
  {
    SplitLength(s, ',');
  }

  /**
   * The origins are the comma-separated pieces in their original order, each
   * stripped: joining the pieces back with commas rebuilds the string.
   */
  lemma CorsOriginsInOrder(s: string)
    requires !("[" <= s)
    ensures |PlainOrigins(s)| == |Split(s, ',')|
    ensures forall k :: 0 <= k < |PlainOrigins(s)| ==> PlainOrigins(s)[k] == Strip(Python, Split(s, ',')[k])
    ensures Join(Split(s, ','), ',') == s
  {
    SplitJoin(s, ',');
  }

  /** No origin holds a comma or starts or ends with whitespace. */
  lemma CorsOriginsClean(s: string)
    requires !("[" <= s)
    ensures forall k :: 0 <= k < |PlainOrigins(s)| ==> ',' !in PlainOrigins(s)[k]
    ensures forall k :: 0 <= k < |PlainOrigins(s)| ==>
      var o := PlainOrigins(s)[k];
      o == [] || (!IsSpace(Python, o[0]) && !IsSpace(Python, o[|o| - 1]))
  {
    var pieces := Split(s, ',');
    SplitPiecesFree(s, ',');
    forall k | 0 <= k < |pieces|
      ensures ',' !in Strip(Python, pieces[k])
    {
      StripKeepsCharacters(Python, pieces[k]);
    }
  }

  /** A list, or a string that looks like a JSON list, comes back unchanged. */
  lemma CorsOriginsPassThrough(v: CorsValue)
    requires v.TextList? || (v.Text? && "[" <= v.text)
    ensures AssembleCorsOrigins(v) == Ok(v)
  {
  }

  /** A string with no comma in it splits into itself. */
  lemma {:induction false} SplitWithoutSeparator(s: string, sep: char)
    requires sep !in s
    ensures Split(s, sep) == [s]
    decreases |s|
  {
    if s != [] {
      assert s[0] != sep;
      assert sep !in s[1..] by {
        assert forall j :: 0 <= j < |s| - 1 ==> s[1..][j] == s[j + 1];
      }
      SplitWithoutSeparator(s[1..], sep);
      assert [s[0]] + s[1..] == s;
    }
  }

  /** A string with no comma, no leading '[' and no whitespace at its ends is the one origin. */
  lemma SingleCorsOrigin(s: string)
    requires s != [] && s[0] != '[' && ',' !in s
    requires !IsSpace(Python, s[0]) && !IsSpace(Python, s[|s| - 1])
    ensures AssembleCorsOrigins(Text(s)) == Ok(TextList([s]))
  {
    SplitWithoutSeparator(s, ',');
    StripUnchanged(Python, s);
    assert StripEach([s]) == [s];
  }

  /** The default setting yields the single origin "http://localhost:3000". */
  lemma DefaultCorsOriginsSingle(d: string)
    requires d == DefaultCorsOrigins
    ensures AssembleCorsOrigins(Text(d)) == Ok(TextList([d]))
  {
    assert d[0] == 'h' && d[|d| - 1] == '0';
    SingleCorsOrigin(d);
  }
}
