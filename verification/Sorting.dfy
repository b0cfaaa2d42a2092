/** Sorted permutations.

    Every external sorter of the library is modelled by `Sort`, and every `std::stable_sort`
    by `StableSort`.  A method is opaque to its callers, so whatever is proved about a caller
    holds for every sorting routine that returns a sorted permutation: the contract, not the
    insertion sort below, is what the proofs use.
 */
module Sorting {

  ghost predicate TotalPreorder<T(!new)>(le: (T, T) -> bool) {
    && (forall x, y :: le(x, y) || le(y, x))
    && (forall x, y, z :: le(x, y) && le(y, z) ==> le(x, z))
  }

  ghost predicate SortedBy<T>(s: seq<T>, le: (T, T) -> bool) {
    forall i, j :: 0 <= i < j < |s| ==> le(s[i], s[j])
  }

  /** `perm` lists each index below `n` exactly once. */
  ghost predicate IsPermutation(perm: seq<nat>, n: nat) {
    && |perm| == n
    && (forall i :: 0 <= i < n ==> perm[i] < n)
    && (forall i, j :: 0 <= i < j < n ==> perm[i] != perm[j])
  }

  /** `r` is `s` rearranged by `perm`. */
  ghost predicate Rearranged<T>(s: seq<T>, r: seq<T>, perm: seq<nat>) {
    && |r| == |s|
    && IsPermutation(perm, |s|)
    && (forall i :: 0 <= i < |s| ==> r[i] == s[perm[i]])
  }

  /** Equivalent elements keep their order. */
  ghost predicate Stable<T>(r: seq<T>, perm: seq<nat>, le: (T, T) -> bool)
    requires |perm| == |r|
  {
    forall i, j :: 0 <= i < j < |r| && le(r[j], r[i]) ==> perm[i] < perm[j]
  }

  ghost predicate SortedSoFar<T>(s: seq<T>, r: seq<T>, perm: seq<nat>, le: (T, T) -> bool) {
    && |r| == |perm| <= |s|
    && (forall k :: 0 <= k < |r| ==> perm[k] < |r| && r[k] == s[perm[k]])
    && (forall k, l :: 0 <= k < l < |r| ==> perm[k] != perm[l])
    && SortedBy(r, le)
    && Stable(r, perm, le)
  }

  function Insert<T>(s: seq<T>, p: nat, x: T): (r: seq<T>)
    requires p <= |s|
    ensures |r| == |s| + 1
    ensures forall k :: 0 <= k < |r| ==> r[k] == if k < p then s[k] else if k == p then x else s[k - 1]
  {
    s[..p] + [x] + s[p..]
  }

  lemma InsertKeepsOrder<T>(s: seq<T>, r: seq<T>, perm: seq<nat>, le: (T, T) -> bool, p: nat)
    requires SortedSoFar(s, r, perm, le) && |r| < |s| && p <= |r|
    requires forall k :: 0 <= k < p ==> le(r[k], s[|r|])
    requires forall k :: p <= k < |r| ==> le(s[|r|], r[k])
    ensures SortedBy(Insert(r, p, s[|r|]), le)
  {
  }

  lemma InsertKeepsStable<T>(s: seq<T>, r: seq<T>, perm: seq<nat>, le: (T, T) -> bool, p: nat)
    requires SortedSoFar(s, r, perm, le) && |r| < |s| && p <= |r|
    requires forall k :: p <= k < |r| ==> !le(r[k], s[|r|])
    ensures Stable(Insert(r, p, s[|r|]), Insert(perm, p, |r|), le)
  {
  }

  lemma InsertKeepsDistinct(perm: seq<nat>, p: nat)
    requires p <= |perm|
    requires forall k :: 0 <= k < |perm| ==> perm[k] < |perm|
    requires forall k, l :: 0 <= k < l < |perm| ==> perm[k] != perm[l]
    ensures forall k, l :: 0 <= k < l <= |perm| ==> Insert(perm, p, |perm|)[k] != Insert(perm, p, |perm|)[l]
  {
  }

  method StableSort<T(!new)>(s: seq<T>, le: (T, T) -> bool) returns (r: seq<T>, ghost perm: seq<nat>)
    requires TotalPreorder(le)
    ensures Rearranged(s, r, perm)
    ensures SortedBy(r, le)
    ensures Stable(r, perm, le)
  {
    r, perm := [], [];
    while |r| < |s|
      invariant SortedSoFar(s, r, perm, le)
    {
      r, perm := InsertNext(s, r, perm, le);
    }
  }

  method InsertNext<T(!new)>(s: seq<T>, r: seq<T>, ghost perm: seq<nat>, le: (T, T) -> bool) returns (r': seq<T>, ghost perm': seq<nat>)
    requires TotalPreorder(le) && SortedSoFar(s, r, perm, le) && |r| < |s|
    ensures SortedSoFar(s, r', perm', le) && |r'| == |r| + 1
  {
    var p := |r|;
    while p > 0 && !le(r[p - 1], s[|r|])
      invariant 0 <= p <= |r|
      invariant forall k :: p <= k < |r| ==> !le(r[k], s[|r|])
    {
      p := p - 1;
    }
    InsertKeeps(s, r, perm, le, p);
    r', perm' := Insert(r, p, s[|r|]), Insert(perm, p, |r|);
  }

  lemma InsertKeeps<T(!new)>(s: seq<T>, r: seq<T>, perm: seq<nat>, le: (T, T) -> bool, p: nat)
    requires TotalPreorder(le) && SortedSoFar(s, r, perm, le) && |r| < |s| && p <= |r|
    requires (p > 0 ==> le(r[p - 1], s[|r|])) && forall k :: p <= k < |r| ==> !le(r[k], s[|r|])
    ensures SortedSoFar(s, Insert(r, p, s[|r|]), Insert(perm, p, |r|), le)
  {
    assert forall k :: 0 <= k < p - 1 ==> le(r[k], r[p - 1]);
    InsertKeepsOrder(s, r, perm, le, p);
    InsertKeepsStable(s, r, perm, le, p);
    InsertKeepsDistinct(perm, p);
  }

  /** A sorter: any sorted permutation may come back. */
  method Sort<T(!new)>(s: seq<T>, le: (T, T) -> bool) returns (r: seq<T>, ghost perm: seq<nat>)
    requires TotalPreorder(le)
    ensures Rearranged(s, r, perm)
    ensures SortedBy(r, le)
  {
    r, perm := StableSort(s, le);
  }

  // ----- what a permutation of indices gives

  ghost function Below(n: nat): (r: set<nat>)
    ensures |r| == n
    ensures forall x: nat :: x in r <==> x < n
  {
    if n == 0 then {} else Below(n - 1) + {n - 1}
  }

  ghost function Image(perm: seq<nat>): set<nat> {
    set i | 0 <= i < |perm| :: perm[i]
  }

  lemma {:induction false} ImageSize(perm: seq<nat>)
    requires forall i, j :: 0 <= i < j < |perm| ==> perm[i] != perm[j]
    ensures |Image(perm)| == |perm|
  {
    if perm == [] {
    } else {
      var n := |perm| - 1;
      ImageSize(perm[..n]);
      assert Image(perm) == Image(perm[..n]) + {perm[n]};
      assert perm[n] !in Image(perm[..n]);
    }
  }

  lemma SubsetSameSize<T>(a: set<T>, b: set<T>)
    requires a <= b && |a| == |b|
    ensures a == b
  {
    if x :| x in b && x !in a {
      assert a <= b - {x};
      SubsetSize(a, b - {x});
    }
  }

  lemma {:induction false} SubsetSize<T>(a: set<T>, b: set<T>)
    requires a <= b
    ensures |a| <= |b|
    decreases a
  {
    if a == {} {
    } else {
      var x :| x in a;
      SubsetSize(a - {x}, b - {x});
    }
  }

  /** Pigeonhole: an injective index map onto n places hits every place. */
  lemma Surjective(perm: seq<nat>, n: nat)
    requires IsPermutation(perm, n)
    ensures forall x: nat :: x < n ==> x in perm
  {
    ImageSize(perm);
    SubsetSameSize(Image(perm), Below(n));
    forall x: nat | x < n ensures x in perm {
      assert x in Below(n);
      assert x in Image(perm);
    }
  }

  lemma RearrangedMembers<T>(s: seq<T>, r: seq<T>, perm: seq<nat>)
    requires Rearranged(s, r, perm)
    ensures forall x :: x in r <==> x in s
  {
    Surjective(perm, |s|);
    forall x | x in s ensures x in r {
      var j :| 0 <= j < |s| && s[j] == x;
      assert j in perm;
      var i :| 0 <= i < |perm| && perm[i] == j;
      assert r[i] == x;
    }
  }

  ghost function Removed<T>(s: seq<T>, p: nat): (r: seq<T>)
    requires p < |s|
    ensures |r| == |s| - 1
    ensures forall k :: 0 <= k < |r| ==> r[k] == if k < p then s[k] else s[k + 1]
    ensures multiset(s) == multiset(r) + multiset{s[p]}
  {
    assert s == s[..p] + [s[p]] + s[p + 1..];
    s[..p] + s[p + 1..]
  }

  lemma RemoveLast<T>(s: seq<T>, r: seq<T>, perm: seq<nat>, p: nat)
    requires Rearranged(s, r, perm) && p < |s| && perm[p] == |s| - 1
    ensures Rearranged(s[..|s| - 1], Removed(r, p), Removed(perm, p))
  {
    var n, q := |s| - 1, Removed(perm, p);
    forall i | 0 <= i < n ensures q[i] < n {
      assert perm[if i < p then i else i + 1] != perm[p];
    }
  }

  lemma {:induction false} RearrangedMultiset<T>(s: seq<T>, r: seq<T>, perm: seq<nat>)
    requires Rearranged(s, r, perm)
    ensures multiset(r) == multiset(s)
    decreases |s|
  {
    var n := |s|;
    if n == 0 {
      assert r == s;
    } else {
      Surjective(perm, n);
      assert n - 1 in perm;
      var p :| 0 <= p < n && perm[p] == n - 1;
      RemoveLast(s, r, perm, p);
      RearrangedMultiset(s[..n - 1], Removed(r, p), Removed(perm, p));
      assert s == s[..n - 1] + [s[n - 1]];
    }
  }

  lemma HasMember<T>(s: seq<T>)
    requires s != []
    ensures exists x :: x in s
  {
    assert s[0] in s;
  }

  /** Two sequences that rise strictly in the same key and hold the same elements are equal. */
  lemma {:induction false} StrictlySortedUnique<T(!new)>(a: seq<T>, b: seq<T>, key: T -> int)
    requires forall i, j :: 0 <= i < j < |a| ==> key(a[i]) < key(a[j])
    requires forall i, j :: 0 <= i < j < |b| ==> key(b[i]) < key(b[j])
    requires forall x :: x in a <==> x in b
    ensures a == b
    decreases |a|
  {
    if a == [] {
      if b != [] { HasMember(b); assert false; }
    } else {
      assert a[0] in b;
      assert b[0] in a;
      assert a[0] == b[0];
      forall x ensures x in a[1..] <==> x in b[1..] {
        if x in a[1..] { assert x in a; assert x != a[0]; }
        if x in b[1..] { assert x in b; assert x != b[0]; }
      }
      StrictlySortedUnique(a[1..], b[1..], key);
    }
  }
}
