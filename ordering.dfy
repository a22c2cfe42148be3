/**
 * Python's ordering of `str` values (code point by code point, a proper
 * prefix first) and the `list.sort()` that puts the scanned paths in it.
 */
module Ordering {

  /** Python's `a <= b` on strings. */
  predicate LessEq(a: string, b: string)
    decreases |a|
  {
    a == [] || (b != [] && (a[0] < b[0] || (a[0] == b[0] && LessEq(a[1..], b[1..]))))
  }

  lemma {:induction false} LessEqReflexive(a: string)
    ensures LessEq(a, a)
    decreases |a|
  {
    if a != [] {
      LessEqReflexive(a[1..]);
    }
  }

  lemma {:induction false} LessEqAntisymmetric(a: string, b: string)
    requires LessEq(a, b) && LessEq(b, a)
    ensures a == b
    decreases |a|
  {
    if a != [] && b != [] {
      LessEqAntisymmetric(a[1..], b[1..]);
      assert a == [a[0]] + a[1..] && b == [b[0]] + b[1..];
    }
  }

  lemma {:induction false} LessEqTransitive(a: string, b: string, c: string)
    requires LessEq(a, b) && LessEq(b, c)
    ensures LessEq(a, c)
    decreases |a|
  {
    if a != [] && a[0] == b[0] && b[0] == c[0] {
      LessEqTransitive(a[1..], b[1..], c[1..]);
    }
  }

  lemma {:induction false} LessEqTotal(a: string, b: string)
    ensures LessEq(a, b) || LessEq(b, a)
    decreases |a|
  {
    if a != [] && b != [] && a[0] == b[0] {
      LessEqTotal(a[1..], b[1..]);
    }
  }

  /** Ascending in Python's string order. */
  predicate Sorted(s: seq<string>)
  {
    forall i, j :: 0 <= i < j < |s| ==> LessEq(s[i], s[j])
  }

  /**
   * `list.sort()` on a list of strings: the result is sorted and holds the
   * same strings, each as often as before.
   */
  method SortStrings(s: seq<string>) returns (r: seq<string>)
    ensures Sorted(r)
    ensures multiset(r) == multiset(s)
  {
    r := [];
    var i := 0;
    while i < |s|
      invariant 0 <= i <= |s|
      invariant Sorted(r)
      invariant multiset(r) == multiset(s[..i])
    {
      var x := s[i];
      var j := 0;
      while j < |r| && LessEq(r[j], x)
        invariant 0 <= j <= |r|
        invariant forall k :: 0 <= k < j ==> LessEq(r[k], x)
      {
        j := j + 1;
      }
      InsertKeepsSorted(r, j, x);
      assert r == r[..j] + r[j..];
      r := r[..j] + [x] + r[j..];
      assert s[..i + 1] == s[..i] + [x];
      i := i + 1;
    }
    assert s[..i] == s;
  }

  /**
   * Putting `x` in a sorted sequence just before the first element it does
   * not follow keeps the sequence sorted.
   */
  lemma {:induction false} InsertKeepsSorted(r: seq<string>, j: nat, x: string)
    requires Sorted(r) && j <= |r|
    requires forall k :: 0 <= k < j ==> LessEq(r[k], x)
    requires j < |r| ==> !LessEq(r[j], x)
    ensures Sorted(r[..j] + [x] + r[j..])
  {
    if j < |r| {
      LessEqTotal(r[j], x);
    }
    forall k | j <= k < |r|
      ensures LessEq(x, r[k])
    {
      if k > j {
        LessEqTransitive(x, r[j], r[k]);
      }
    }
  }

  /** The first element of a sorted sequence is below every element. */
  lemma {:induction false} HeadIsLeast(s: seq<string>, x: string)
    requires Sorted(s) && x in s
    ensures LessEq(s[0], x)
  {
    var k :| 0 <= k < |s| && s[k] == x;
    if k == 0 {
      LessEqReflexive(x);
    }
  }

  /** Two sequences holding the same strings are empty together. */
  lemma {:induction false} SameMultisetEmpty(a: seq<string>, b: seq<string>)
    requires multiset(a) == multiset(b)
    ensures a == [] <==> b == []
  {
    assert |multiset(a)| == |a| && |multiset(b)| == |b|;
  }

  lemma {:induction false} MultisetOfTail(s: seq<string>)
    requires s != []
    ensures multiset(s[1..]) == multiset(s) - multiset{s[0]}
  {
    assert s == [s[0]] + s[1..];
  }

  /**
   * Sorting determines its result: two sorted sequences holding the same
   * strings are equal, so a fixed set of scanned paths yields one order only.
   */
  lemma {:induction false} SortedUnique(a: seq<string>, b: seq<string>)
    requires Sorted(a) && Sorted(b)
    requires multiset(a) == multiset(b)
    ensures a == b
    decreases |a|
  {
    if a == [] {
      assert |multiset(b)| == 0;
    } else {
      SameMultisetEmpty(a, b);
      assert a[0] == b[0] by {
        assert a[0] in multiset(b) && b[0] in multiset(a);
        HeadIsLeast(a, b[0]);
        HeadIsLeast(b, a[0]);
        LessEqAntisymmetric(a[0], b[0]);
      }
      assert multiset(a[1..]) == multiset(b[1..]) by {
        MultisetOfTail(a);
        MultisetOfTail(b);
      }
      assert Sorted(a[1..]) && Sorted(b[1..]);
      SortedUnique(a[1..], b[1..]);
      assert a == [a[0]] + a[1..] && b == [b[0]] + b[1..];
    }
  }
}
