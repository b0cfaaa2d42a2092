/** Sums of multisets. */
module Sums {
  import opened Sorting

  /** The sum of the first `n` multisets. */
  ghost function SumTo<T>(ms: seq<multiset<T>>, n: nat): multiset<T>
    requires n <= |ms|
  {
    if n == 0 then multiset{} else SumTo(ms, n - 1) + ms[n - 1]
  }

  lemma SwapLast<T>(a: multiset<T>, b: multiset<T>, c: multiset<T>)
    ensures (a + b) + c == (a + c) + b
  {
  }

  lemma Associative<T>(a: multiset<T>, b: multiset<T>, c: multiset<T>)
    ensures (a + b) + c == a + (b + c)
  {
  }

  lemma {:induction false} SumPrefix<T>(a: seq<multiset<T>>, b: seq<multiset<T>>, n: nat)
    requires n <= |a| && n <= |b| && forall c :: 0 <= c < n ==> a[c] == b[c]
    ensures SumTo(a, n) == SumTo(b, n)
  {
    if n == 0 {
    } else {
      SumPrefix(a, b, n - 1);
    }
  }

  /** `r` is `s` without its element `p`. */
  ghost predicate Without<T>(s: seq<multiset<T>>, p: nat, r: seq<multiset<T>>) {
    p < |s| == |r| + 1 && (forall k :: 0 <= k < p ==> r[k] == s[k]) && (forall k :: p < k < |s| ==> r[k - 1] == s[k])
  }

  lemma {:induction false} SumRemove<T>(s: seq<multiset<T>>, p: nat, r: seq<multiset<T>>, n: nat)
    requires Without(s, p, r) && p < n <= |s|
    ensures SumTo(s, n) == SumTo(r, n - 1) + s[p]
  {
    if p == n - 1 {
      SumPrefix(s, r, p);
    } else {
      SumRemove(s, p, r, n - 1);
      SwapLast(SumTo(r, n - 2), s[p], s[n - 1]);
    }
  }

  lemma SumLast<T>(s: seq<multiset<T>>)
    requires |s| > 0
    ensures SumTo(s, |s|) == SumTo(s[..|s| - 1], |s| - 1) + s[|s| - 1]
  {
    SumPrefix(s, s[..|s| - 1], |s| - 1);
  }

  lemma {:induction false} RearrangedSum<T>(s: seq<multiset<T>>, r: seq<multiset<T>>, perm: seq<nat>)
    requires Rearranged(s, r, perm)
    ensures SumTo(r, |r|) == SumTo(s, |s|)
    decreases |s|
  {
    if s == [] {
    } else {
      var p := PlaceOfLast(perm);
      RemoveLast(s, r, perm, p);
      RearrangedSum(s[..|s| - 1], Removed(r, p), Removed(perm, p));
      SumRemove(r, p, Removed(r, p), |r|);
      SumLast(s);
    }
  }

  lemma PlaceOfLast(perm: seq<nat>) returns (p: nat)
    requires IsPermutation(perm, |perm|) && perm != []
    ensures p < |perm| && perm[p] == |perm| - 1
  {
    Surjective(perm, |perm|);
    assert |perm| - 1 in perm;
    p :| p < |perm| && perm[p] == |perm| - 1;
  }

  /** One multiset loses one element. */
  lemma {:induction false} SumDrop<T>(s: seq<multiset<T>>, r: seq<multiset<T>>, p: nat, x: T, n: nat)
    requires p < n <= |s| == |r| && s[p] == r[p] + multiset{x} && forall k :: 0 <= k < |s| && k != p ==> r[k] == s[k]
    ensures SumTo(s, n) == SumTo(r, n) + multiset{x}
  {
    if p == n - 1 {
      SumPrefix(s, r, p);
      Associative(SumTo(r, p), r[p], multiset{x});
    } else {
      SumDrop(s, r, p, x, n - 1);
      SwapLast(SumTo(r, n - 1), multiset{x}, s[n - 1]);
    }
  }

  /** The first `end` are the first `at` and the first `i` of the group that follows. */
  lemma {:induction false} SumSplit<T>(ms: seq<multiset<T>>, at: nat, group: seq<multiset<T>>, i: nat, end: nat)
    requires at + |group| <= |ms| && i <= |group| && end == at + i && forall r :: 0 <= r < |group| ==> group[r] == ms[at + r]
    ensures SumTo(ms, end) == SumTo(ms, at) + SumTo(group, i)
  {
    if i == 0 {
    } else {
      SumSplit(ms, at, group, i - 1, end - 1);
      Associative(SumTo(ms, at), SumTo(group, i - 1), group[i - 1]);
    }
  }

  function SumOf(n: seq<nat>, i: nat): nat
    requires i <= |n|
  {
    if i == 0 then 0 else SumOf(n, i - 1) + n[i - 1]
  }

  lemma AddSizes<T>(a: multiset<T>, b: multiset<T>, m: nat, n: nat, size: nat)
    requires |a| == m * size && |b| == n * size
    ensures |a + b| == (m + n) * size
  {
  }

  lemma {:induction false} SumSize<T>(ms: seq<multiset<T>>, counts: seq<nat>, size: nat, i: nat)
    requires i <= |ms| == |counts| && forall r :: 0 <= r < |ms| ==> |ms[r]| == counts[r] * size
    ensures |SumTo(ms, i)| == SumOf(counts, i) * size
  {
    if i == 0 {
    } else {
      SumSize(ms, counts, size, i - 1);
      AddSizes(SumTo(ms, i - 1), ms[i - 1], SumOf(counts, i - 1), counts[i - 1], size);
    }
  }
}
