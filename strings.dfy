/**
 * Character and string operations that the Python back end and the TypeScript
 * front end rely on: ASCII case mapping, the two languages' (different) sets of
 * whitespace characters, strip/trim, substring search and splitting at a separator.
 */
module Strings {

  // ---------------------------------------------------------------- case mapping

  /** Upper-case mapping of one character; only ASCII letters change. */
  function UpperChar(c: char): char {
    if 'a' <= c <= 'z' then (c as int - 32) as char else c
  }

  /** Lower-case mapping of one character; only ASCII letters change. */
  function LowerChar(c: char): char {
    if 'A' <= c <= 'Z' then (c as int + 32) as char else c
  }

  predicate IsUpperLetter(c: char) { 'A' <= c <= 'Z' }

  predicate IsLowerCased(s: string) {
    forall i :: 0 <= i < |s| ==> !('A' <= s[i] <= 'Z')
  }

  /** Python `str.upper()` and JavaScript `toUpperCase()`, on ASCII letters. */
  function Upper(s: string): (r: string)
    ensures |r| == |s|
    ensures forall i :: 0 <= i < |s| ==> r[i] == UpperChar(s[i])
  {
    if s == [] then [] else [UpperChar(s[0])] + Upper(s[1..])
  }

  /** Python `str.lower()`, on ASCII letters. */
  function Lower(s: string): string {
    if s == [] then [] else [LowerChar(s[0])] + Lower(s[1..])
  }

  /** Lower-casing maps each character on its own and leaves no upper-case letter. */
  lemma {:induction false} LowerSpec(s: string)
    ensures |Lower(s)| == |s|
    ensures forall i :: 0 <= i < |s| ==> Lower(s)[i] == LowerChar(s[i])
    ensures IsLowerCased(Lower(s))
    decreases |s|
  {
    if s != [] {
      LowerSpec(s[1..]);
    }
  }

  lemma UpperIdempotent(s: string)
    ensures Upper(Upper(s)) == Upper(s)
  {
    assert forall i :: 0 <= i < |s| ==> UpperChar(UpperChar(s[i])) == UpperChar(s[i]);
  }

  lemma LowerAppend(s: string, t: string)
    ensures Lower(s + t) == Lower(s) + Lower(t)
  {
    LowerSpec(s + t);
    LowerSpec(s);
    LowerSpec(t);
    forall i | 0 <= i < |s + t|
      ensures Lower(s + t)[i] == (Lower(s) + Lower(t))[i]
    {
      if i < |s| {
        assert (s + t)[i] == s[i];
      } else {
        assert (s + t)[i] == t[i - |s|];
      }
    }
  }

  // ---------------------------------------------------------------- whitespace

  /** Whose notion of whitespace: Python's `str.strip()` or JavaScript's `String.prototype.trim()`. */
  datatype Flavour = Python | JavaScript

  /**
   * The characters each language strips. Both take TAB, LF, VT, FF, CR, SPACE, NO-BREAK SPACE,
   * OGHAM SPACE MARK, U+2000..U+200A, LINE and PARAGRAPH SEPARATOR, U+202F, U+205F and U+3000;
   * only Python also takes the ASCII separators U+001C..U+001F and NEXT LINE U+0085, only
   * JavaScript also takes the byte-order mark U+FEFF.
   */
  predicate IsSpace(f: Flavour, c: char) {
    var n := c as int;
    || 9 <= n <= 13 || n == 32 || n == 0xA0 || n == 0x1680
    || 0x2000 <= n <= 0x200A || n == 0x2028 || n == 0x2029 || n == 0x202F
    || n == 0x205F || n == 0x3000
    || (f == Python && (28 <= n <= 31 || n == 0x85))
    || (f == JavaScript && n == 0xFEFF)
  }

  predicate AllSpace(f: Flavour, s: string) {
    forall i :: 0 <= i < |s| ==> IsSpace(f, s[i])
  }

  /** `s` with its leading whitespace removed. */
  function StripLeft(f: Flavour, s: string): (r: string)
    ensures |r| <= |s| && r == s[|s| - |r|..]
    ensures r == [] || !IsSpace(f, r[0])
    ensures AllSpace(f, s[..|s| - |r|])
    decreases |s|
  {
    if |s| > 0 && IsSpace(f, s[0]) then StripLeft(f, s[1..]) else s
  }

  /** `s` with its trailing whitespace removed. */
  function StripRight(f: Flavour, s: string): (r: string)
    ensures |r| <= |s| && r == s[..|r|]
    ensures r == [] || !IsSpace(f, r[|r| - 1])
    ensures AllSpace(f, s[|r|..])
    decreases |s|
  {
    if |s| > 0 && IsSpace(f, s[|s| - 1]) then
      var r := StripRight(f, s[..|s| - 1]);
      assert s[..|s| - 1][..|r|] == s[..|r|];
      assert forall i :: |r| <= i < |s| - 1 ==> s[..|s| - 1][i] == s[i];
      r
    else s
  }

  /** Python `str.strip()` (f == Python) or JavaScript `trim()` (f == JavaScript). */
  function Strip(f: Flavour, s: string): (r: string)
    ensures |r| <= |s|
    ensures r == [] || (!IsSpace(f, r[0]) && !IsSpace(f, r[|r| - 1]))
    ensures exists i :: OccursAt(s, r, i)
  {
    var l := StripLeft(f, s);
    var r := StripRight(f, l);
    assert OccursAt(s, r, |s| - |l|);
    r
  }

  /** Stripping removes nothing exactly when the ends are not whitespace. */
  lemma StripUnchanged(f: Flavour, s: string)
    requires s == [] || (!IsSpace(f, s[0]) && !IsSpace(f, s[|s| - 1]))
    ensures Strip(f, s) == s
  {
  }

  lemma {:induction false} StripLeftSpaces(f: Flavour, a: string, s: string)
    requires AllSpace(f, a) && s != [] && !IsSpace(f, s[0])
    ensures StripLeft(f, a + s) == s
    decreases |a|
  {
    if a == [] {
      assert a + s == s;
    } else {
      assert (a + s)[1..] == a[1..] + s;
      StripLeftSpaces(f, a[1..], s);
    }
  }

  lemma {:induction false} StripRightSpaces(f: Flavour, s: string, b: string)
    requires AllSpace(f, b) && s != [] && !IsSpace(f, s[|s| - 1])
    ensures StripRight(f, s + b) == s
    decreases |b|
  {
    if b == [] {
      assert s + b == s;
    } else {
      assert (s + b)[..|s + b| - 1] == s + b[..|b| - 1];
      StripRightSpaces(f, s, b[..|b| - 1]);
    }
  }

  /** Stripping removes exactly the whitespace around a core that neither starts nor ends with whitespace. */
  lemma StripSurrounded(f: Flavour, a: string, core: string, b: string)
    requires AllSpace(f, a) && AllSpace(f, b)
    requires core != [] && !IsSpace(f, core[0]) && !IsSpace(f, core[|core| - 1])
    ensures Strip(f, a + core + b) == core
  {
    assert a + core + b == a + (core + b);
    StripLeftSpaces(f, a, core + b);
    StripRightSpaces(f, core, b);
  }

  /** Stripping only removes characters. */
  lemma StripKeepsCharacters(f: Flavour, s: string)
    ensures forall c :: c in Strip(f, s) ==> c in s
  {
    var r := Strip(f, s);
    var i :| OccursAt(s, r, i);
    forall c | c in r
      ensures c in s
    {
      var j :| 0 <= j < |r| && r[j] == c;
      assert s[i..i + |r|][j] == c;
    }
  }

  /** A string strips to the empty string exactly when all its characters are whitespace. */
  lemma StripEmptyIff(f: Flavour, s: string)
    ensures Strip(f, s) == [] <==> AllSpace(f, s)
  {
    if AllSpace(f, s) {
      StripLeftAllSpace(f, s);
    }
    if Strip(f, s) == [] {
      StripEmptyAllSpace(f, s);
    }
  }

  lemma {:induction false} StripLeftAllSpace(f: Flavour, s: string)
    requires AllSpace(f, s)
    ensures StripLeft(f, s) == []
    decreases |s|
  {
    if s != [] {
      assert forall i :: 0 <= i < |s| - 1 ==> s[1..][i] == s[i + 1];
      StripLeftAllSpace(f, s[1..]);
    }
  }

  lemma StripEmptyAllSpace(f: Flavour, s: string)
    requires Strip(f, s) == []
    ensures AllSpace(f, s)
  {
    var l := StripLeft(f, s);
    var n := |s| - |l|;
    assert AllSpace(f, s[..n]) && AllSpace(f, l[0..]);
    forall i | 0 <= i < |s|
      ensures IsSpace(f, s[i])
    {
      if i < n {
        assert s[..n][i] == s[i];
      } else {
        assert l[0..][i - n] == s[i];
      }
    }
  }

  // ---------------------------------------------------------------- substrings

  /** `needle` occurs in `hay` starting at index `i`. */
  ghost predicate OccursAt(hay: string, needle: string, i: int) {
    0 <= i && i + |needle| <= |hay| && hay[i..i + |needle|] == needle
  }

  /** Python `needle in hay` and JavaScript `hay.includes(needle)`. */
  function Contains(hay: string, needle: string): (b: bool)
    decreases |hay|
  {
    needle <= hay || (|hay| > 0 && Contains(hay[1..], needle))
  }

  /** `Contains` agrees with the textbook definition of "is a substring of". */
  lemma ContainsIff(hay: string, needle: string)
    ensures Contains(hay, needle) <==> exists i :: OccursAt(hay, needle, i)
  {
    if Contains(hay, needle) {
      ContainsWitness(hay, needle);
    }
    if exists i :: OccursAt(hay, needle, i) {
      var i :| OccursAt(hay, needle, i);
      OccursContains(hay, needle, i);
    }
  }

  lemma {:induction false} ContainsWitness(hay: string, needle: string)
    requires Contains(hay, needle)
    ensures exists i :: OccursAt(hay, needle, i)
    decreases |hay|
  {
    if needle <= hay {
      assert OccursAt(hay, needle, 0);
    } else {
      ContainsWitness(hay[1..], needle);
      var i :| OccursAt(hay[1..], needle, i);
      assert hay[1..][i..i + |needle|] == hay[i + 1..i + 1 + |needle|];
      assert OccursAt(hay, needle, i + 1);
    }
  }

  lemma {:induction false} OccursContains(hay: string, needle: string, i: nat)
    requires OccursAt(hay, needle, i)
    ensures Contains(hay, needle)
    decreases i
  {
    if i == 0 {
      assert hay[..|needle|] == needle;
    } else {
      assert hay[1..][i - 1..i - 1 + |needle|] == hay[i..i + |needle|];
      OccursContains(hay[1..], needle, i - 1);
    }
  }

  /** The empty string occurs in every string. */
  lemma ContainsEmpty(hay: string)
    ensures Contains(hay, "")
  {
  }

  /** An occurrence in a part of a string is an occurrence in the whole string. */
  lemma ContainsInfix(a: string, b: string, c: string, needle: string)
    requires Contains(b, needle)
    ensures Contains(a + b + c, needle)
  {
    ContainsIff(b, needle);
    var i :| OccursAt(b, needle, i);
    assert (a + b + c)[|a| + i..|a| + i + |needle|] == b[i..i + |needle|];
    assert OccursAt(a + b + c, needle, |a| + i);
    ContainsIff(a + b + c, needle);
  }

  /** A needle holding a character the haystack lacks does not occur in it. */
  lemma MissingCharNotContained(hay: string, needle: string, k: nat)
    requires k < |needle| && needle[k] !in hay
    ensures !Contains(hay, needle)
  {
    ContainsIff(hay, needle);
  }

  /** A needle holding two adjacent characters that never stand side by side in the haystack does not occur in it. */
  lemma MissingPairNotContained(hay: string, needle: string, k: nat)
    requires k + 1 < |needle|
    requires forall i :: 0 <= i < |hay| - 1 ==> !(hay[i] == needle[k] && hay[i + 1] == needle[k + 1])
    ensures !Contains(hay, needle)
  {
    forall i | 0 <= i && i + |needle| <= |hay|
      ensures !OccursAt(hay, needle, i)
    {
      assert hay[i..i + |needle|][k] == hay[i + k] && hay[i..i + |needle|][k + 1] == hay[i + k + 1];
    }
    ContainsIff(hay, needle);
  }

  /** Recognises the lower-cased form of a string character by character. */
  lemma LowerIs(s: string, t: string)
    requires |s| == |t| && forall i :: 0 <= i < |s| ==> t[i] == LowerChar(s[i])
    ensures Lower(s) == t
  {
    LowerSpec(s);
  }

  // ---------------------------------------------------------------- splitting

  /** Number of occurrences of `c` in `s`. */
  function Count(s: string, c: char): nat {
    if s == [] then 0 else (if s[0] == c then 1 else 0) + Count(s[1..], c)
  }

  /** Python `s.split(sep)` for a one-character separator: every occurrence splits. */
  function Split(s: string, sep: char): (parts: seq<string>)
    ensures |parts| >= 1
    decreases |s|
  {
    if s == [] then [""]
    else if s[0] == sep then [""] + Split(s[1..], sep)
    else
      var rest := Split(s[1..], sep);
      [[s[0]] + rest[0]] + rest[1..]
  }

  /** Python `sep.join(parts)`. */
  function Join(parts: seq<string>, sep: char): string
    requires |parts| >= 1
  {
    if |parts| == 1 then parts[0] else parts[0] + [sep] + Join(parts[1..], sep)
  }

  /** Splitting yields one more piece than there are separators. */
  lemma {:induction false} SplitLength(s: string, sep: char)
    ensures |Split(s, sep)| == Count(s, sep) + 1
    decreases |s|
  {
    if s != [] {
      SplitLength(s[1..], sep);
    }
  }

  /** No piece holds the separator. */
  lemma {:induction false} SplitPiecesFree(s: string, sep: char)
    ensures forall k :: 0 <= k < |Split(s, sep)| ==> sep !in Split(s, sep)[k]
    decreases |s|
  {
    if s != [] {
      SplitPiecesFree(s[1..], sep);
    }
  }

  /** Joining the pieces with the separator gives back the original string. */
  lemma {:induction false} SplitJoin(s: string, sep: char)
    ensures Join(Split(s, sep), sep) == s
    decreases |s|
  {
    if s != [] {
      SplitJoin(s[1..], sep);
      var rest := Split(s[1..], sep);
      if s[0] != sep {
        var parts := Split(s, sep);
        assert parts[1..] == rest[1..];
        if |rest| > 1 {
          assert Join(parts, sep) == [s[0]] + (rest[0] + [sep] + Join(rest[1..], sep));
        }
      }
    }
  }
}
