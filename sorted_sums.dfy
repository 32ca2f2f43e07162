/** Sums of monthly bases and the ascending sort used to discard the smallest ones. */
module SortedSums {

  /** `reduce((a, b) => a + b, 0)`: a left fold that adds the last element last. */
  function Sum(s: seq<real>): real
  {
    if |s| == 0 then 0.0 else Sum(s[..|s| - 1]) + s[|s| - 1]
  }

  lemma {:induction false} SumConcat(a: seq<real>, b: seq<real>)
    ensures Sum(a + b) == Sum(a) + Sum(b)
  {
    if |b| == 0 {
      assert a + b == a;
    } else {
      var n := |b| - 1;
      assert (a + b)[..|a + b| - 1] == a + b[..n];
      SumConcat(a, b[..n]);
    }
  }

  /** The sum depends only on the multiset of values, not on their order. */
  lemma {:induction false} SumPermutation(a: seq<real>, b: seq<real>)
    requires multiset(a) == multiset(b)
    ensures Sum(a) == Sum(b)
  {
    if |a| == 0 {
      assert |b| == |multiset(b)| == 0;
    } else {
      var n := |a| - 1;
      var x := a[n];
      assert a == a[..n] + [x];
      assert x in multiset(b);
      var j :| 0 <= j < |b| && b[j] == x;
      var rest := b[..j] + b[j + 1..];
      assert b == b[..j] + [x] + b[j + 1..];
      assert multiset(a[..n]) == multiset(a) - multiset{x};
      assert multiset(rest) == multiset(b) - multiset{x};
      SumPermutation(a[..n], rest);
      SumConcat(b[..j] + [x], b[j + 1..]);
      SumConcat(b[..j], [x]);
      SumConcat(b[..j], b[j + 1..]);
      assert Sum([x]) == Sum([]) + x;
    }
  }

  /** A sum of `|s|` copies of `c`. */
  lemma {:induction false} SumAllEqual(s: seq<real>, c: real)
    requires forall i :: 0 <= i < |s| ==> s[i] == c
    ensures Sum(s) == |s| as real * c
  {
    if |s| > 0 {
      SumAllEqual(s[..|s| - 1], c);
    }
  }

  /** A sum of non-negative values is non-negative. */
  lemma {:induction false} SumNonNegative(s: seq<real>)
    requires forall i :: 0 <= i < |s| ==> s[i] >= 0.0
    ensures Sum(s) >= 0.0
  {
    if |s| > 0 {
      SumNonNegative(s[..|s| - 1]);
    }
  }

  ghost predicate Sorted(s: seq<real>)
  {
    forall i, j :: 0 <= i < j < |s| ==> s[i] <= s[j]
  }

  /** Inserts `x` before the first element not smaller than it. */
  function Insert(x: real, s: seq<real>): (r: seq<real>)
    ensures |r| == |s| + 1
  {
    if |s| == 0 then [x]
    else if x <= s[0] then [x] + s
    else [s[0]] + Insert(x, s[1..])
  }

  /** Inserting adds exactly `x` to the values. */
  lemma {:induction false} InsertPermutation(x: real, s: seq<real>)
    ensures multiset(Insert(x, s)) == multiset(s) + multiset{x}
  {
    if |s| > 0 && x > s[0] {
      assert s == [s[0]] + s[1..];
      InsertPermutation(x, s[1..]);
    }
  }

  /** Inserting into an ascending sequence keeps it ascending. */
  lemma {:induction false} InsertSorted(x: real, s: seq<real>)
    requires Sorted(s)
    ensures Sorted(Insert(x, s))
  {
    if |s| > 0 {
      if x <= s[0] {
        SortedCons(x, s);
      } else {
        SortedTail(s);
        InsertSorted(x, s[1..]);
        InsertLowerBound(s[0], x, s[1..]);
        SortedCons(s[0], Insert(x, s[1..]));
      }
    }
  }

  /** A common lower bound of `x` and of `s` bounds every element after the insertion. */
  lemma {:induction false} InsertLowerBound(lo: real, x: real, s: seq<real>)
    requires lo <= x
    requires forall k :: 0 <= k < |s| ==> lo <= s[k]
    ensures forall k :: 0 <= k < |Insert(x, s)| ==> lo <= Insert(x, s)[k]
  {
    if |s| > 0 && x > s[0] {
      InsertLowerBound(lo, x, s[1..]);
    }
  }

  lemma SortedCons(x: real, s: seq<real>)
    requires Sorted(s)
    requires forall k :: 0 <= k < |s| ==> x <= s[k]
    ensures Sorted([x] + s)
  {
  }

  /** A permutation keeps every lower bound of the values it rearranges. */
  lemma LowerBoundKept(lo: real, s: seq<real>, r: seq<real>)
    requires multiset(r) == multiset(s)
    requires forall i :: 0 <= i < |s| ==> lo <= s[i]
    ensures forall k :: 0 <= k < |r| ==> lo <= r[k]
  {
    forall k | 0 <= k < |r|
      ensures lo <= r[k]
    {
      assert r[k] in multiset(s);
    }
  }

  /** A permutation of copies of `c` holds only copies of `c`. */
  lemma ConstantKept(c: real, s: seq<real>, r: seq<real>)
    requires multiset(r) == multiset(s)
    requires forall i :: 0 <= i < |s| ==> s[i] == c
    ensures forall k :: 0 <= k < |r| ==> r[k] == c
  {
    forall k | 0 <= k < |r|
      ensures r[k] == c
    {
      assert r[k] in multiset(s);
    }
  }

  /** The ascending order of `[...values].sort((a, b) => a - b)`, built by insertion. */
  function Sort(s: seq<real>): (r: seq<real>)
    ensures |r| == |s|
  {
    if |s| == 0 then [] else Insert(s[0], Sort(s[1..]))
  }

  /** Sort returns an ascending rearrangement of its input. */
  lemma {:induction false} SortSpec(s: seq<real>)
    ensures Sorted(Sort(s))
    ensures multiset(Sort(s)) == multiset(s)
  {
    if |s| > 0 {
      assert s == [s[0]] + s[1..];
      SortSpec(s[1..]);
      InsertSorted(s[0], Sort(s[1..]));
      InsertPermutation(s[0], Sort(s[1..]));
    }
  }

  /** The first element of an ascending sequence is its least value. */
  lemma SortedFirstIsLeast(a: seq<real>, x: real)
    requires Sorted(a) && x in multiset(a)
    ensures |a| > 0 && a[0] <= x
  {
    var i :| 0 <= i < |a| && a[i] == x;
  }

  /** Two ascending arrangements of the same values are the same sequence. */
  lemma {:induction false} SortedUnique(a: seq<real>, b: seq<real>)
    requires Sorted(a) && Sorted(b)
    requires multiset(a) == multiset(b)
    ensures a == b
  {
    if |a| == 0 {
      assert |b| == |multiset(b)| == 0;
    } else {
      SameLeast(a, b);
      SortedTail(a);
      SortedTail(b);
      SortedUnique(a[1..], b[1..]);
      SameHeadAndTail(a, b);
    }
  }

  /** Two ascending arrangements of the same non-empty values start with the same one. */
  lemma SameLeast(a: seq<real>, b: seq<real>)
    requires Sorted(a) && Sorted(b) && |a| > 0
    requires multiset(a) == multiset(b)
    ensures |b| > 0 && a[0] == b[0]
  {
    assert a[0] in multiset(b);
    SortedFirstIsLeast(b, a[0]);
    assert b[0] in multiset(a);
    SortedFirstIsLeast(a, b[0]);
  }

  lemma SameHeadAndTail(a: seq<real>, b: seq<real>)
    requires |a| > 0 && |b| > 0 && a[0] == b[0] && a[1..] == b[1..]
    ensures a == b
  {
    assert a == [a[0]] + a[1..];
    assert b == [b[0]] + b[1..];
  }

  /** Dropping the first element keeps a sequence ascending and removes one copy of it. */
  lemma SortedTail(a: seq<real>)
    requires Sorted(a) && |a| > 0
    ensures Sorted(a[1..])
    ensures multiset(a[1..]) == multiset(a) - multiset{a[0]}
  {
    assert a == [a[0]] + a[1..];
  }

  /** `slice(0, k)`, which stops at the end of a shorter sequence. */
  function Take(s: seq<real>, k: nat): (r: seq<real>)
    ensures |r| == if k <= |s| then k else |s|
    ensures r <= s
  {
    if k <= |s| then s[..k] else s
  }

  /** The sum of `s` minus the sum of its `drop` smallest values. */
  function SumBest(s: seq<real>, drop: nat): real
  {
    Sum(s) - Sum(Take(Sort(s), drop))
  }

  /** What SumBest adds up: the sorted values from position `drop` on, each at least as large
      as every discarded one. */
  lemma SumBestKeepsLargest(s: seq<real>, drop: nat)
    ensures var sorted, k := Sort(s), if drop <= |s| then drop else |s|;
      && SumBest(s, drop) == Sum(sorted[k..])
      && forall i, j :: 0 <= i < k <= j < |sorted| ==> sorted[i] <= sorted[j]
  {
    var sorted := Sort(s);
    var k := if drop <= |s| then drop else |s|;
    SortSpec(s);
    assert sorted == Take(sorted, drop) + sorted[k..];
    SumConcat(Take(sorted, drop), sorted[k..]);
    SumPermutation(sorted, s);
  }

  /** Only the multiset of values matters to SumBest: any reordering gives the same sum. */
  lemma SumBestOrderIndependent(s: seq<real>, t: seq<real>, drop: nat)
    requires multiset(s) == multiset(t)
    ensures SumBest(s, drop) == SumBest(t, drop)
  {
    SortSpec(s);
    SortSpec(t);
    SortedUnique(Sort(s), Sort(t));
    SumPermutation(s, t);
  }

  /** Dropping the first `drop` of `|s|` copies of `c` leaves `|s| - drop` copies. */
  lemma {:induction false} DropFromAllEqual(s: seq<real>, drop: nat, c: real, kept: nat)
    requires drop <= |s| && kept == |s| - drop
    requires forall i :: 0 <= i < |s| ==> s[i] == c
    ensures Sum(s) - Sum(Take(s, drop)) == kept as real * c
  {
    assert s == Take(s, drop) + s[drop..];
    SumConcat(Take(s, drop), s[drop..]);
    SumAllEqual(s[drop..], c);
  }

  /** When every value is `c`, SumBest keeps `|s| - drop` copies of it. */
  lemma SumBestAllEqual(s: seq<real>, drop: nat, c: real)
    requires drop <= |s|
    requires forall i :: 0 <= i < |s| ==> s[i] == c
    ensures SumBest(s, drop) == (|s| - drop) as real * c
  {
    var sorted := Sort(s);
    SortSpec(s);
    ConstantKept(c, s, sorted);
    SortedAllEqual(s, sorted, drop, c);
  }

  /** Arithmetic half of SumBestAllEqual, kept apart from the multiset facts about Sort. */
  lemma SortedAllEqual(s: seq<real>, sorted: seq<real>, drop: nat, c: real)
    requires drop <= |s| == |sorted|
    requires forall i :: 0 <= i < |s| ==> s[i] == c
    requires forall i :: 0 <= i < |sorted| ==> sorted[i] == c
    ensures Sum(s) - Sum(Take(sorted, drop)) == (|s| - drop) as real * c
  {
    SumAllEqual(s, c);
    SumAllEqual(sorted, c);
    DropFromAllEqual(sorted, drop, c, |s| - drop);
  }
}
