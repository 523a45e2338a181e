/**
 * Python's ordering of `str` values (lexicographic by code point, a proper prefix first)
 * and `sorted(...)` applied to a set of strings.
 */
module StringOrder {

  /** `a < b` between Python strings. */
  predicate Less(a: string, b: string)
    decreases |a|
  {
    if |a| == 0 then |b| > 0
    else |b| > 0 && (a[0] < b[0] || (a[0] == b[0] && Less(a[1..], b[1..])))
  }

  lemma {:induction false} LessIrreflexive(a: string)
    ensures !Less(a, a)
    decreases |a|
  {
    if |a| > 0 {
      LessIrreflexive(a[1..]);
    }
  }

  lemma {:induction false} LessAsymmetric(a: string, b: string)
    ensures !(Less(a, b) && Less(b, a))
    decreases |a|
  {
    if |a| > 0 && |b| > 0 && a[0] == b[0] {
      LessAsymmetric(a[1..], b[1..]);
    }
  }

  lemma {:induction false} LessTransitive(a: string, b: string, c: string)
    requires Less(a, b) && Less(b, c)
    ensures Less(a, c)
    decreases |a|
  {
    if |a| > 0 && a[0] == b[0] && b[0] == c[0] {
      LessTransitive(a[1..], b[1..], c[1..]);
    }
  }

  lemma {:induction false} LessTotal(a: string, b: string)
    requires a != b
    ensures Less(a, b) || Less(b, a)
    decreases |a|
  {
    if |a| > 0 && |b| > 0 && a[0] == b[0] {
      assert a == [a[0]] + a[1..] && b == [b[0]] + b[1..];
      LessTotal(a[1..], b[1..]);
    }
  }

  /** Every element of `s` other than `m` is greater than `m`. */
  predicate IsLeast(m: string, s: set<string>) {
    m in s && forall x :: x in s && x != m ==> Less(m, x)
  }

  lemma {:induction false} LeastExists(s: set<string>)
    requires s != {}
    ensures exists m :: IsLeast(m, s)
    decreases |s|
  {
    var x :| x in s;
    if s - {x} == {} {
      assert s == {x};
      assert IsLeast(x, s);
    } else {
      LeastExists(s - {x});
      var m :| IsLeast(m, s - {x});
      if Less(m, x) {
        assert IsLeast(m, s) by {
          forall y | y in s && y != m
            ensures Less(m, y)
          {
            if y == x {
            }
          }
        }
      } else {
        LessTotal(m, x);
        forall y | y in s && y != x
          ensures Less(x, y)
        {
          if y != m {
            LessTransitive(x, m, y);
          }
        }
        assert IsLeast(x, s);
      }
    }
  }

  lemma LeastUnique(s: set<string>)
    ensures forall a, b :: IsLeast(a, s) && IsLeast(b, s) ==> a == b
  {
    forall a, b | IsLeast(a, s) && IsLeast(b, s)
      ensures a == b
    {
      LessAsymmetric(a, b);
    }
  }

  /** Strictly increasing, hence also free of duplicates. */
  ghost predicate StrictlySorted(r: seq<string>) {
    forall i, j :: 0 <= i < j < |r| ==> Less(r[i], r[j])
  }

  ghost predicate NoDuplicates<T>(r: seq<T>) {
    forall i, j :: 0 <= i < j < |r| ==> r[i] != r[j]
  }

  lemma StrictlySortedNoDuplicates(r: seq<string>)
    requires StrictlySorted(r)
    ensures NoDuplicates(r)
  {
    forall i, j | 0 <= i < j < |r|
      ensures r[i] != r[j]
    {
      LessIrreflexive(r[i]);
    }
  }

  /** Python `sorted(list(s))` for a set of strings: the least element first, then the rest sorted. */
  function SortedList(s: set<string>): seq<string>
    decreases |s|
  {
    if s == {} then []
    else
      LeastExists(s);
      LeastUnique(s);
      var m :| m in s && IsLeast(m, s);
      assert |s - {m}| < |s|;
      [m] + SortedList(s - {m})
  }

  /** The sorted list is strictly increasing and holds exactly the elements of the set. */
  lemma {:induction false} SortedListSpec(s: set<string>)
    ensures StrictlySorted(SortedList(s))
    ensures forall x :: x in SortedList(s) <==> x in s
    decreases |s|
  {
    if s != {} {
      LeastExists(s);
      LeastUnique(s);
      var m :| m in s && IsLeast(m, s);
      SortedListSpec(s - {m});
      assert SortedList(s) == [m] + SortedList(s - {m});
      PrependLeast(m, SortedList(s - {m}), s);
    }
  }

  lemma PrependLeast(m: string, rest: seq<string>, s: set<string>)
    requires IsLeast(m, s) && StrictlySorted(rest)
    requires forall x :: x in rest <==> x in s - {m}
    ensures StrictlySorted([m] + rest)
    ensures forall x :: x in [m] + rest <==> x in s
    ensures |s - {m}| == |s| - 1
  {
    assert forall k :: 0 <= k < |rest| ==> rest[k] in s - {m};
  }

  /** Sorting is determined by the set: two sorted duplicate-free lists with the same elements are equal. */
  lemma {:induction false} SortedUnique(r: seq<string>, t: seq<string>)
    requires StrictlySorted(r) && StrictlySorted(t)
    requires forall x :: x in r <==> x in t
    ensures r == t
    decreases |r|
  {
    assert r != [] ==> r[0] in t;
    assert t != [] ==> t[0] in r;
    if r != [] && t != [] {
      if r[0] != t[0] {
        assert r[0] in r && t[0] in t;
        LessTotal(r[0], t[0]);
        if Less(r[0], t[0]) {
          var k :| 0 <= k < |t| && t[k] == r[0];
          LessAsymmetric(t[0], t[k]);
        }
      }
      forall x
        ensures x in r[1..] <==> x in t[1..]
      {
        LessIrreflexive(r[0]);
        if x in r[1..] {
          var i :| 1 <= i < |r| && r[i] == x;
          assert x in t && x != t[0];
          assert t == [t[0]] + t[1..];
        }
        if x in t[1..] {
          var i :| 1 <= i < |t| && t[i] == x;
          assert x in r && x != r[0];
          assert r == [r[0]] + r[1..];
        }
      }
      SortedUnique(r[1..], t[1..]);
    }
  }
}
