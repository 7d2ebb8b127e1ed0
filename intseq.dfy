/** Operations on lists of numbers that the simulator borrows from JavaScript:
    `sort((a, b) => a - b)`, `[...new Set(xs)]`, `Math.max(...xs)` and
    `Math.min(...xs)`. */
module IntSeq {

  predicate NonDecreasing(xs: seq<int>)
  {
    forall i, j :: 0 <= i < j < |xs| ==> xs[i] <= xs[j]
  }

  predicate StrictlyIncreasing(xs: seq<int>)
  {
    forall i, j :: 0 <= i < j < |xs| ==> xs[i] < xs[j]
  }

  predicate NoDuplicates(xs: seq<int>)
  {
    forall i, j :: 0 <= i < j < |xs| ==> xs[i] != xs[j]
  }

  /** Puts `x` into a list before the first element not smaller than it. */
  function Insert(x: int, xs: seq<int>): (r: seq<int>)
    ensures |r| == |xs| + 1
  {
    if xs == [] || x <= xs[0] then [x] + xs else [xs[0]] + Insert(x, xs[1..])
  }

  /** Inserting adds exactly `x`. */
  lemma {:induction false} InsertPermutes(x: int, xs: seq<int>)
    ensures multiset(Insert(x, xs)) == multiset(xs) + multiset{x}
  {
    if !(xs == [] || x <= xs[0]) {
      assert xs == [xs[0]] + xs[1..];
      InsertPermutes(x, xs[1..]);
    }
  }

  /** Inserting into an ascending list keeps it ascending and adds exactly `x`. */
  lemma {:induction false} InsertSpec(x: int, xs: seq<int>)
    requires NonDecreasing(xs)
    ensures NonDecreasing(Insert(x, xs))
    ensures multiset(Insert(x, xs)) == multiset(xs) + multiset{x}
  {
    InsertPermutes(x, xs);
    if xs == [] || x <= xs[0] {
      ConsAscending(x, xs);
    } else {
      var tail := Insert(x, xs[1..]);
      InsertSpec(x, xs[1..]);
      forall k | 0 <= k < |tail|
        ensures xs[0] <= tail[k]
      {
        assert tail[k] in multiset(xs[1..]) + multiset{x};
      }
      ConsAscending(xs[0], tail);
    }
  }

  /** A head no larger than anything in an ascending tail gives an ascending list. */
  lemma ConsAscending(h: int, t: seq<int>)
    requires NonDecreasing(t)
    requires forall k :: 0 <= k < |t| ==> h <= t[k]
    ensures NonDecreasing([h] + t)
  {
    var r := [h] + t;
    forall i, j | 0 <= i < j < |r|
      ensures r[i] <= r[j]
    {
      assert r[j] == t[j - 1];
      if i > 0 {
        assert r[i] == t[i - 1];
      }
    }
  }

  /** `[...xs].sort((a, b) => a - b)`: the numbers in ascending order. */
  function Sort(xs: seq<int>): (r: seq<int>)
    ensures |r| == |xs|
  {
    if xs == [] then [] else Insert(xs[0], Sort(xs[1..]))
  }

  /** `Sort` returns an ascending permutation of its input. */
  lemma {:induction false} SortSpec(xs: seq<int>)
    ensures NonDecreasing(Sort(xs))
    ensures multiset(Sort(xs)) == multiset(xs)
  {
    if xs != [] {
      assert xs == [xs[0]] + xs[1..];
      SortSpec(xs[1..]);
      InsertSpec(xs[0], Sort(xs[1..]));
    }
  }

  /** Two ascending lists with the same elements are equal; so `Sort` is the
      one ascending permutation of its input, whatever algorithm computes it. */
  lemma {:induction false} SortedPermutationUnique(a: seq<int>, b: seq<int>)
    requires NonDecreasing(a) && NonDecreasing(b)
    requires multiset(a) == multiset(b)
    ensures a == b
  {
    if a == [] {
      assert |b| == |multiset(b)| == 0;
    } else {
      assert a[0] in multiset(b);
      HeadIsLeast(b, a[0]);
      assert b[0] in multiset(a);
      HeadIsLeast(a, b[0]);
      assert a[0] == b[0];
      TailMultiset(a);
      TailMultiset(b);
      SortedPermutationUnique(a[1..], b[1..]);
      assert a == [a[0]] + a[1..];
      assert b == [b[0]] + b[1..];
    }
  }

  /** Dropping the head removes one occurrence of it. */
  lemma TailMultiset(a: seq<int>)
    requires a != []
    ensures multiset(a[1..]) == multiset(a) - multiset{a[0]}
    ensures NonDecreasing(a) ==> NonDecreasing(a[1..])
  {
    assert a == [a[0]] + a[1..];
  }

  lemma HeadIsLeast(a: seq<int>, x: int)
    requires NonDecreasing(a) && x in multiset(a)
    ensures a[0] <= x
  {
    assert x in a;
  }

  /** Sorting an ascending list changes nothing. */
  lemma SortOfSorted(xs: seq<int>)
    requires NonDecreasing(xs)
    ensures Sort(xs) == xs
  {
    SortSpec(xs);
    SortedPermutationUnique(Sort(xs), xs);
  }

  /** `[...new Set(xs)]`: each value once, at its first occurrence. */
  function Dedupe(xs: seq<int>): (r: seq<int>)
    ensures NoDuplicates(r)
    ensures forall x :: x in r <==> x in xs
  {
    if xs == [] then []
    else
      var init, last := xs[..|xs| - 1], xs[|xs| - 1];
      assert xs == init + [last];
      if last in init then Dedupe(init) else Dedupe(init) + [last]
  }

  /** Removing repeats from an ascending list leaves a strictly increasing one. */
  lemma {:induction false} DedupeOfSorted(xs: seq<int>)
    requires NonDecreasing(xs)
    ensures StrictlyIncreasing(Dedupe(xs))
  {
    if xs != [] {
      var init, last := xs[..|xs| - 1], xs[|xs| - 1];
      DedupeOfSorted(init);
      var d := Dedupe(init);
      assert forall k :: 0 <= k < |d| ==> d[k] in init;
      assert forall k :: 0 <= k < |d| ==> d[k] <= last;
    }
  }

  /** A list without repeats is its own `Set` image. */
  lemma {:induction false} DedupeOfStrictlyIncreasing(xs: seq<int>)
    requires StrictlyIncreasing(xs)
    ensures Dedupe(xs) == xs
  {
    if xs != [] {
      var init, last := xs[..|xs| - 1], xs[|xs| - 1];
      DedupeOfStrictlyIncreasing(init);
      assert last !in init;
      assert xs == init + [last];
    }
  }

  /** `Math.max(...xs)` of a non-empty list. */
  function Max(xs: seq<int>): (m: int)
    requires xs != []
    ensures m in xs
    ensures forall k :: 0 <= k < |xs| ==> xs[k] <= m
  {
    if |xs| == 1 then xs[0]
    else
      var rest := Max(xs[1..]);
      assert forall k :: 1 <= k < |xs| ==> xs[k] == xs[1..][k - 1];
      if xs[0] >= rest then xs[0] else rest
  }

  /** `Math.min(...xs)` of a non-empty list. */
  function Min(xs: seq<int>): (m: int)
    requires xs != []
    ensures m in xs
    ensures forall k :: 0 <= k < |xs| ==> m <= xs[k]
  {
    if |xs| == 1 then xs[0]
    else
      var rest := Min(xs[1..]);
      assert forall k :: 1 <= k < |xs| ==> xs[k] == xs[1..][k - 1];
      if xs[0] <= rest then xs[0] else rest
  }
}
