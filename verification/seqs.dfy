/**
 * Query building blocks over sequences of rows: selection (SQL `WHERE`),
 * summation (SQL `SUM`) and descending ordering (SQL `ORDER BY ... DESC`).
 */
module Seqs {
  import opened Wrappers

  /** The elements of `s` that satisfy `p`, in their original order. */
  function Filter<T(!new)>(s: seq<T>, p: T -> bool): (r: seq<T>)
    ensures |r| <= |s|
    ensures forall x :: x in r <==> x in s && p(x)
    ensures forall i :: 0 <= i < |r| ==> p(r[i])
    ensures forall x {:trigger multiset(r)[x]} :: multiset(r)[x] == if p(x) then multiset(s)[x] else 0
    decreases |s|
  {
    if |s| == 0 then []
    else
      var init, last := s[..|s| - 1], s[|s| - 1];
      assert s == init + [last];
      Filter(init, p) + (if p(last) then [last] else [])
  }

  /** Conditions that agree on every value keep the same elements, each as often. */
  lemma SameFilter<T(!new)>(s: seq<T>, p: T -> bool, q: T -> bool)
    requires forall x :: p(x) == q(x)
    ensures multiset(Filter(s, p)) == multiset(Filter(s, q))
  {
    assert forall x :: multiset(Filter(s, p))[x] == multiset(Filter(s, q))[x];
  }

  /** Selecting with a condition every element meets keeps the whole sequence. */
  lemma {:induction false} FilterKeepsAll<T(!new)>(s: seq<T>, p: T -> bool)
    requires forall x :: x in s ==> p(x)
    ensures Filter(s, p) == s
    decreases |s|
  {
    if |s| > 0 {
      var init, last := s[..|s| - 1], s[|s| - 1];
      assert init + [last] == s;
      FilterKeepsAll(init, p);
    }
  }

  /** The position of the first element satisfying `p` (a query's `first()`), if any. */
  function FirstIndex<T>(s: seq<T>, p: T -> bool): (r: Option<nat>)
    ensures r.Some? ==> r.value < |s| && p(s[r.value])
    ensures r.Some? ==> forall j :: 0 <= j < r.value ==> !p(s[j])
    ensures r.None? <==> forall j :: 0 <= j < |s| ==> !p(s[j])
    decreases |s|
  {
    if |s| == 0 then None
    else if p(s[0]) then Some(0)
    else
      match FirstIndex(s[1..], p)
      case None => None
      case Some(i) => Some(i + 1)
  }

  /** The sum of `f` over the elements of `s`. */
  function SumOf<T>(s: seq<T>, f: T -> int): int
    decreases |s|
  {
    if |s| == 0 then 0 else SumOf(s[..|s| - 1], f) + f(s[|s| - 1])
  }

  /** `f` where `p` holds, zero elsewhere. */
  function Masked<T>(p: T -> bool, f: T -> int): T -> int {
    x => if p(x) then f(x) else 0
  }

  /** Summing over a selection is summing the masked function over everything. */
  lemma {:induction false} SumOfFilter<T(!new)>(s: seq<T>, p: T -> bool, f: T -> int)
    ensures SumOf(Filter(s, p), f) == SumOf(s, Masked(p, f))
    decreases |s|
  {
    if |s| > 0 {
      var init, last := s[..|s| - 1], s[|s| - 1];
      SumOfFilter(init, p, f);
      SumOfAppend(Filter(init, p), if p(last) then [last] else [], f);
    }
  }

  /** Sums distribute over concatenation. */
  lemma {:induction false} SumOfAppend<T>(a: seq<T>, b: seq<T>, f: T -> int)
    ensures SumOf(a + b, f) == SumOf(a, f) + SumOf(b, f)
    decreases |b|
  {
    if |b| > 0 {
      var b' := b[..|b| - 1];
      assert (a + b)[..|a + b| - 1] == a + b';
      assert (a + b)[|a + b| - 1] == b[|b| - 1];
      SumOfAppend(a, b', f);
    } else {
      assert a + b == a;
    }
  }

  /** Replacing one element changes the sum by exactly the difference of the two values. */
  lemma {:induction false} SumOfUpdate<T>(s: seq<T>, i: nat, y: T, f: T -> int)
    requires i < |s|
    ensures SumOf(s[i := y], f) == SumOf(s, f) - f(s[i]) + f(y)
    decreases |s|
  {
    var n := |s| - 1;
    if i < n {
      assert s[i := y][..n] == s[..n][i := y];
      SumOfUpdate(s[..n], i, y, f);
    } else {
      assert s[i := y][..n] == s[..n];
    }
  }

  /** A sum of non-negative terms is non-negative. */
  lemma {:induction false} SumOfNonNegative<T>(s: seq<T>, f: T -> int)
    requires forall i :: 0 <= i < |s| ==> f(s[i]) >= 0
    ensures SumOf(s, f) >= 0
    decreases |s|
  {
    if |s| > 0 {
      SumOfNonNegative(s[..|s| - 1], f);
    }
  }

  /** `s` is ordered by `key`, largest first. */
  predicate SortedDesc<T>(s: seq<T>, key: T -> int) {
    forall i, j :: 0 <= i < j < |s| ==> key(s[i]) >= key(s[j])
  }

  /** Putting an element no smaller than the head in front keeps a sequence descending. */
  lemma ConsSorted<T>(a: T, t: seq<T>, key: T -> int)
    requires SortedDesc(t, key)
    requires |t| > 0 ==> key(a) >= key(t[0])
    ensures SortedDesc([a] + t, key)
  {
    var r := [a] + t;
    forall i, j | 0 <= i < j < |r|
      ensures key(r[i]) >= key(r[j])
    {
      assert r[j] == t[j - 1];
      if i > 0 {
        assert r[i] == t[i - 1];
      }
    }
  }

  /** Inserts `x` into a descending sequence, keeping it descending. */
  function InsertDesc<T>(x: T, s: seq<T>, key: T -> int): (r: seq<T>)
    requires SortedDesc(s, key)
    ensures SortedDesc(r, key)
    ensures multiset(r) == multiset(s) + multiset{x}
    ensures r[0] == x || (|s| > 0 && r[0] == s[0])
    decreases |s|
  {
    if |s| == 0 || key(x) >= key(s[0]) then [x] + s
    else
      var rest := InsertDesc(x, s[1..], key);
      assert s == [s[0]] + s[1..];
      ConsSorted(s[0], rest, key);
      [s[0]] + rest
  }

  /** `s` ordered by `key`, largest first; elements with equal keys in unspecified order. */
  function SortDesc<T>(s: seq<T>, key: T -> int): (r: seq<T>)
    ensures SortedDesc(r, key)
    ensures multiset(r) == multiset(s)
    decreases |s|
  {
    if |s| == 0 then []
    else
      assert s == [s[0]] + s[1..];
      InsertDesc(s[0], SortDesc(s[1..], key), key)
  }

  /** Ordering keeps exactly the same elements and length. */
  lemma SortDescSameElements<T>(s: seq<T>, key: T -> int)
    ensures |SortDesc(s, key)| == |s|
    ensures forall x :: x in SortDesc(s, key) <==> x in s
  {
    var r := SortDesc(s, key);
    assert |multiset(r)| == |multiset(s)|;
    forall x
      ensures x in r <==> x in s
    {
      assert x in r <==> x in multiset(r);
      assert x in s <==> x in multiset(s);
    }
  }
}
