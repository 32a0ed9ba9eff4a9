/** Z-order resequencing: pairs of (particle index, Morton key), sorted by key.

    The sort is `std::sort` with `pairCompare`, which is not stable: `SortPairs` promises
    only what `std::sort` does (the result is ordered and a permutation of its input), and
    the lemmas below derive from that alone that the first components form a permutation of
    the particle indices. */
module Morton {

  /** `pairCompare`: orders (index, key) pairs by their key alone. */
  function PairCompare(e1: (int, int), e2: (int, int)): bool {
    e1.1 < e2.1
  }

  /** No pair of the first n is out of order under `PairCompare`. */
  predicate SortedUpTo(s: seq<(int, int)>, n: int)
    requires n <= |s|
  {
    forall a, b :: 0 <= a < b < n ==> !PairCompare(s[b], s[a])
  }

  /** The pairs built from the keys of particles 0..n-1, in index order. */
  function ZIndexPairs(keys: seq<int>): (r: seq<(int, int)>)
    ensures |r| == |keys| && forall i :: 0 <= i < |keys| ==> r[i] == (i, keys[i])
  {
    seq(|keys|, i requires 0 <= i < |keys| => (i, keys[i]))
  }

  function MapSeq<A, B>(s: seq<A>, f: A -> B): (r: seq<B>)
    ensures |r| == |s| && forall t :: 0 <= t < |s| ==> r[t] == f(s[t])
  {
    seq(|s|, t requires 0 <= t < |s| => f(s[t]))
  }

  function Range(n: nat): (r: seq<int>)
    ensures |r| == n && forall i :: 0 <= i < n ==> r[i] == i
  {
    seq(n, i => i)
  }

  /** perm lists each of 0..n-1 exactly as often as Range(n) does, that is, once. */
  ghost predicate IsPermutation(perm: seq<int>, n: nat) {
    multiset(perm) == multiset(Range(n))
  }

  /** The model of `std::sort(first, last, pairCompare)`: an insertion sort whose contract
      is only that the result is ordered by key and a permutation of the input. */
  method SortPairs(s0: seq<(int, int)>) returns (s: seq<(int, int)>)
    ensures |s| == |s0| && SortedUpTo(s, |s|)
    ensures multiset(s) == multiset(s0)
  {
    s := s0;
    for i := 0 to |s|
      invariant |s| == |s0| && multiset(s) == multiset(s0)
      invariant SortedUpTo(s, i)
    {
      s := InsertAt(s, i);
    }
  }

  /** One pass of the insertion sort: the pair at i sinks past every larger key before it. */
  method InsertAt(s0: seq<(int, int)>, i: int) returns (s: seq<(int, int)>)
    requires 0 <= i < |s0| && SortedUpTo(s0, i)
    ensures |s| == |s0| && SortedUpTo(s, i + 1)
    ensures multiset(s) == multiset(s0)
  {
    s := s0;
    var j := i;
    while j > 0 && PairCompare(s[j], s[j - 1])
      invariant 0 <= j <= i
      invariant |s| == |s0| && multiset(s) == multiset(s0)
      invariant Sinking(s, i, j)
    {
      SinkStep(s, i, j);
      s := s[j - 1 := s[j]][j := s[j - 1]];
      j := j - 1;
    }
  }

  /** Midway through an insertion pass: the pairs up to i other than the one at j are in
      order, and the one at j is smaller than every pair after it. */
  ghost predicate Sinking(s: seq<(int, int)>, i: int, j: int)
    requires 0 <= j <= i < |s|
  {
    && (forall a, b :: 0 <= a < b <= i && a != j && b != j ==> s[a].1 <= s[b].1)
    && (forall b :: j < b <= i ==> s[j].1 < s[b].1)
  }

  /** Swapping the sinking pair with a larger predecessor keeps the pass's invariant. */
  lemma SinkStep(s: seq<(int, int)>, i: int, j: int)
    requires 0 < j <= i < |s| && Sinking(s, i, j) && PairCompare(s[j], s[j - 1])
    ensures Sinking(s[j - 1 := s[j]][j := s[j - 1]], i, j - 1)
    ensures multiset(s[j - 1 := s[j]][j := s[j - 1]]) == multiset(s)
  {
  }

  /** Taking out the element at t removes one occurrence of it from the multiset. */
  lemma RemoveAt<A>(s: seq<A>, t: int)
    requires 0 <= t < |s|
    ensures s == s[..t] + [s[t]] + s[t + 1..]
    ensures multiset(s[..t] + s[t + 1..]) == multiset(s) - multiset{s[t]}
  {
    assert s == s[..t] + [s[t]] + s[t + 1..];
  }

  /** Mapping a sequence with one element taken out maps to the mapped sequence with the
      image of that element taken out. */
  lemma MapSeqRemoveAt<A, B>(s: seq<A>, t: int, f: A -> B)
    requires 0 <= t < |s|
    ensures multiset(MapSeq(s, f)) == multiset(MapSeq(s[..t] + s[t + 1..], f)) + multiset{f(s[t])}
  {
    var m := MapSeq(s, f);
    RemoveAt(m, t);
    assert MapSeq(s[..t] + s[t + 1..], f) == m[..t] + m[t + 1..];
  }

  /** Multiset equality survives mapping both sides through the same function. */
  lemma {:induction false} MapSeqMultiset<A, B>(s1: seq<A>, s2: seq<A>, f: A -> B)
    requires multiset(s1) == multiset(s2)
    ensures multiset(MapSeq(s1, f)) == multiset(MapSeq(s2, f))
    decreases |s1|
  {
    if |s1| == 0 {
      assert s2 == [];
    } else {
      var e := s1[0];
      assert e in multiset(s2) by { assert e in multiset(s1); }
      var t :| 0 <= t < |s2| && s2[t] == e;
      RemoveAt(s1, 0);
      RemoveAt(s2, t);
      MapSeqMultiset(s1[..0] + s1[1..], s2[..t] + s2[t + 1..], f);
      MapSeqRemoveAt(s1, 0, f);
      MapSeqRemoveAt(s2, t, f);
      assert f(s2[t]) == f(s1[0]);
    }
  }

  lemma {:induction false} RangeCounts(n: nat, k: int)
    ensures multiset(Range(n))[k] == if 0 <= k < n then 1 else 0
  {
    if n > 0 {
      assert Range(n) == Range(n - 1) + [n - 1];
      RangeCounts(n - 1, k);
    } else {
      assert Range(n) == [];
    }
  }

  /** A permutation of 0..n-1 has length n, lists only indices below n, and each exactly once. */
  lemma PermutationUsesEachIndexOnce(perm: seq<int>, n: nat)
    requires IsPermutation(perm, n)
    ensures |perm| == n
    ensures forall t :: 0 <= t < |perm| ==> 0 <= perm[t] < n
    ensures forall k :: 0 <= k < n ==> multiset(perm)[k] == 1
  {
    assert |perm| == |multiset(perm)| == |multiset(Range(n))| == n;
    forall t | 0 <= t < |perm| ensures 0 <= perm[t] < n {
      assert perm[t] in multiset(perm);
      RangeCounts(n, perm[t]);
    }
    forall k | 0 <= k < n ensures multiset(perm)[k] == 1 {
      RangeCounts(n, k);
    }
  }

  /** Sorting the (index, key) pairs of n particles yields pairs whose first components are a
      permutation of 0..n-1, each still carrying its own key, with the keys non-decreasing. */
  lemma {:induction false} SortedPairsPermute(keys: seq<int>, s: seq<(int, int)>)
    requires multiset(s) == multiset(ZIndexPairs(keys)) && |s| == |keys| && SortedUpTo(s, |s|)
    ensures IsPermutation(MapSeq(s, (e: (int, int)) => e.0), |keys|)
    ensures forall t :: 0 <= t < |s| ==> 0 <= s[t].0 < |keys| && s[t].1 == keys[s[t].0]
    ensures forall a, b :: 0 <= a < b < |s| ==> keys[s[a].0] <= keys[s[b].0]
  {
    var first := (e: (int, int)) => e.0;
    MapSeqMultiset(s, ZIndexPairs(keys), first);
    assert MapSeq(ZIndexPairs(keys), first) == Range(|keys|);
    forall t | 0 <= t < |s| ensures 0 <= s[t].0 < |keys| && s[t].1 == keys[s[t].0] {
      assert s[t] in multiset(ZIndexPairs(keys));
    }
  }

  /** ys is xs reordered by perm: ys[t] is xs[perm[t]], and perm is a permutation of the
      indices of xs. */
  ghost predicate Reordered<T>(ys: seq<T>, xs: seq<T>, perm: seq<int>) {
    && IsPermutation(perm, |xs|) && |ys| == |perm|
    && forall t :: 0 <= t < |perm| ==> 0 <= perm[t] < |xs| && ys[t] == xs[perm[t]]
  }

  /** Reordering xs by a permutation of its indices keeps every element and its multiplicity:
      the particles after the resequencing are the particles before it. */
  lemma PermutedMultiset<T>(xs: seq<T>, ys: seq<T>, perm: seq<int>)
    requires Reordered(ys, xs, perm)
    ensures multiset(ys) == multiset(xs)
  {
    PermutationUsesEachIndexOnce(perm, |xs|);
    if |xs| > 0 {
      var at := (t: int) => if 0 <= t < |xs| then xs[t] else xs[0];
      MapSeqMultiset(perm, Range(|xs|), at);
      assert MapSeq(perm, at) == ys;
      assert MapSeq(Range(|xs|), at) == xs;
    }
  }
}
