/** The suffix array checker `sacheck`: what it accepts, and when that is the suffix array. */
module SaCheck {
  import opened SuffixOrder
  import opened Sorting
  import opened KeyedSort

  // ----- loop 1: a permutation?

  predicate SecondLe(a: Pair, b: Pair) {
    a.second <= b.second
  }

  /** Sorted by value, a permutation shows the values 0, 1, 2 and so on, next to its inverse. */
  lemma SortedPermutation(sa: seq<nat>, r: seq<Pair>, place: seq<nat>)
    requires Rearranged(Indexed(sa), r, place) && SortedBy(r, SecondLe) && IsPermutation(sa, |sa|)
    ensures forall c :: 0 <= c < |sa| ==> r[c] == Pair(Inverse(sa)[c], c)
  {
    var inv := Inverse(sa);
    var e := seq(|sa|, c requires 0 <= c < |sa| => Pair(inv[c], c));
    RearrangedMembers(Indexed(sa), r, place);
    forall x ensures x in r <==> x in e {
      if x in e { assert x == Indexed(sa)[x.first]; }
      if x in Indexed(sa) { assert x == e[x.second]; }
    }
    forall i, j | 0 <= i < j < |r| ensures r[i].second < r[j].second {
      assert place[i] != place[j];
    }
    StrictlySortedUnique(r, e, (x: Pair) => x.second);
  }

  lemma ShowsPermutation(sa: seq<nat>, r: seq<Pair>, place: seq<nat>)
    requires Rearranged(Indexed(sa), r, place)
    requires forall c :: 0 <= c < |sa| ==> r[c].second == c
    ensures IsPermutation(sa, |sa|)
  {
    Surjective(place, |sa|);
    forall i | 0 <= i < |sa| ensures sa[i] < |sa| && place[sa[i]] == i {
      assert i in place;
      var c :| 0 <= c < |sa| && place[c] == i;
      assert r[c] == Pair(i, sa[i]);
    }
  }

  // ----- loop 2: the order of neighbours

  /** The test on two neighbouring triples; `n` is the total size. */
  predicate InOrder(prev: Triple, this_: Triple, n: nat) {
    && prev.second <= this_.second
    && (prev.second == this_.second ==>
          this_.third != n && (prev.third != n ==> prev.third <= this_.third))
  }

  ghost function TripleAt(t: Text, isa: seq<nat>, p: nat): Triple
    requires |isa| == |t| && p + 1 < |t|
  {
    Triple(isa[p], t[p], isa[p + 1])
  }

  /** The array without its entry n - 1: no triple is made for the one-character suffix. */
  ghost function WithoutLast(sa: seq<nat>): (q: seq<nat>)
    requires IsPermutation(sa, |sa|) && |sa| > 0
    ensures |q| == |sa| - 1
    ensures forall c :: 0 <= c < |q| ==> q[c] < |sa| - 1
  {
    var inv := Inverse(sa);
    var q := Removed(sa, inv[|sa| - 1]);
    assert forall c :: 0 <= c < |q| ==> q[c] != |sa| - 1;
    q
  }

  /** The triples in array order. */
  ghost function View(t: Text, sa: seq<nat>): (v: seq<Triple>)
    requires |t| == |sa| > 0 && IsPermutation(sa, |sa|)
    ensures |v| == |sa| - 1
    ensures forall c :: 0 <= c < |v| ==> v[c] == TripleAt(t, Inverse(sa), WithoutLast(sa)[c])
  {
    seq(|sa| - 1, c requires 0 <= c < |sa| - 1 => TripleAt(t, Inverse(sa), WithoutLast(sa)[c]))
  }

  ghost predicate AllInOrder(v: seq<Triple>, n: nat) {
    forall c :: 0 < c < |v| ==> InOrder(v[c - 1], v[c], n)
  }

  /** What `sacheck` accepts. */
  ghost predicate Accepts(t: Text, sa: seq<nat>)
    requires |t| == |sa| > 0
  {
    IsPermutation(sa, |sa|) && AllInOrder(View(t, sa), |sa|)
  }

  ghost predicate TriplesOf(t: Text, sa: seq<nat>, m: seq<Triple>, k: nat)
    requires |t| == |sa| && IsPermutation(sa, |sa|) && k < |t|
  {
    |m| == k && forall p :: 0 <= p < k ==> m[p] == TripleAt(t, Inverse(sa), p)
  }

  lemma ViewMembers(t: Text, sa: seq<nat>, m: seq<Triple>, x: Triple)
    requires |t| == |sa| > 0 && IsPermutation(sa, |sa|) && TriplesOf(t, sa, m, |sa| - 1)
    ensures x in m <==> x in View(t, sa)
  {
    if x in View(t, sa) {
      InTriples(t, sa, m, x);
    }
    if x in m {
      InView(t, sa, m, x);
    }
  }

  lemma InTriples(t: Text, sa: seq<nat>, m: seq<Triple>, x: Triple)
    requires |t| == |sa| > 0 && IsPermutation(sa, |sa|) && TriplesOf(t, sa, m, |sa| - 1) && x in View(t, sa)
    ensures x in m
  {
    var c :| 0 <= c < |View(t, sa)| && View(t, sa)[c] == x;
    assert x == m[WithoutLast(sa)[c]];
  }

  lemma InView(t: Text, sa: seq<nat>, m: seq<Triple>, x: Triple)
    requires |t| == |sa| > 0 && IsPermutation(sa, |sa|) && TriplesOf(t, sa, m, |sa| - 1) && x in m
    ensures x in View(t, sa)
  {
    var p :| 0 <= p < |m| && m[p] == x;
    InWithoutLast(sa, p);
    var c :| 0 <= c < |WithoutLast(sa)| && WithoutLast(sa)[c] == p;
    assert View(t, sa)[c] == x;
  }

  /** Sorted by rank, the triples follow the array. */
  lemma SortedTriples(t: Text, sa: seq<nat>, m: seq<Triple>, r: seq<Triple>, place: seq<nat>)
    requires |t| == |sa| > 0 && IsPermutation(sa, |sa|) && TriplesOf(t, sa, m, |sa| - 1)
    requires Rearranged(m, r, place) && SortedBy(r, TripleLe)
    ensures r == View(t, sa)
  {
    RearrangedMembers(m, r, place);
    forall x ensures x in r <==> x in View(t, sa) { ViewMembers(t, sa, m, x); }
    RanksRise(sa);
    forall i, j | 0 <= i < j < |r| ensures r[i].first < r[j].first {
      assert place[i] != place[j];
      assert Inverse(sa)[place[i]] != Inverse(sa)[place[j]];
    }
    StrictlySortedUnique(r, View(t, sa), (x: Triple) => x.first);
  }

  lemma InWithoutLast(sa: seq<nat>, p: nat)
    requires IsPermutation(sa, |sa|) && p + 1 < |sa|
    ensures p in WithoutLast(sa)
  {
    var inv, q := Inverse(sa), WithoutLast(sa);
    var k, l := inv[p], inv[|sa| - 1];
    assert q[if k < l then k else k - 1] == p;
  }

  lemma RanksRise(sa: seq<nat>)
    requires IsPermutation(sa, |sa|) && |sa| > 0
    ensures var q := WithoutLast(sa); forall i, j :: 0 <= i < j < |q| ==> Inverse(sa)[q[i]] < Inverse(sa)[q[j]]
  {
  }

  // ----- the checker

  /** Loop 1: fails unless the array is a permutation, and makes the triples on the way. */
  method PermutationTriples(t: Text, sa: seq<nat>) returns (ok: bool, m: seq<Triple>)
    requires |t| == |sa| > 0
    ensures ok <==> IsPermutation(sa, |sa|)
    ensures ok ==> TriplesOf(t, sa, m, |sa| - 1)
  {
    var isa, place := Sort(Indexed(sa), SecondLe);
    if IsPermutation(sa, |sa|) {
      SortedPermutation(sa, isa, place);
    }
    var prevIsa, counter := isa[0].first, 0;
    m := [];
    while counter < |isa|
      invariant 0 <= counter <= |isa| == |sa|
      invariant forall c :: 0 <= c < counter ==> isa[c].second == c
      invariant counter < |isa| ==> prevIsa == isa[counter].first
      invariant |m| == if counter < |isa| then counter else counter - 1
      invariant forall p :: 0 <= p < |m| ==> m[p] == Triple(isa[p].first, t[p], isa[p + 1].first)
    {
      if isa[counter].second != counter {
        return false, m;
      }
      counter := counter + 1;
      if counter < |isa| {
        m := m + [Triple(prevIsa, t[counter - 1], isa[counter].first)];
        prevIsa := isa[counter].first;
      }
    }
    ShowsPermutation(sa, isa, place);
    ok := true;
  }

  method SaCheck(t: Text, sa: seq<nat>) returns (ok: bool)
    requires |t| == |sa| > 0
    ensures ok <==> Accepts(t, sa)
  {
    var m;
    ok, m := PermutationTriples(t, sa);
    if !ok {
      return;
    }
    if |sa| == 1 {
      return true;
    }
    var r, place := Sort(m, TripleLe);
    SortedTriples(t, sa, m, r, place);
    ok := CheckOrder(r, |sa|);
  }

  /** Loop 2: every triple against the one before it. */
  method CheckOrder(r: seq<Triple>, totalSize: nat) returns (ok: bool)
    requires |r| > 0
    ensures ok <==> forall c :: 0 < c < |r| ==> InOrder(r[c - 1], r[c], totalSize)
  {
    var prev, counter := r[0], 1;
    while counter < |r|
      invariant 1 <= counter <= |r|
      invariant prev == r[counter - 1]
      invariant forall c :: 0 < c < counter ==> InOrder(r[c - 1], r[c], totalSize)
    {
      var this_ := r[counter];
      if prev.second > this_.second {
        return false;
      } else if prev.second == this_.second {
        if this_.third == totalSize {
          return false;
        }
        if prev.third != totalSize && prev.third > this_.third {
          return false;
        }
      }
      prev := this_;
      counter := counter + 1;
    }
    return true;
  }

  // ----- what acceptance means

  /** The one-character suffix n - 1 compares correctly with its two neighbours in the array. */
  ghost predicate LastPlaced(t: Text, sa: seq<nat>)
    requires |t| == |sa| > 0 && IsPermutation(sa, |sa|)
  {
    var n := |sa|;
    var k := Inverse(sa)[n - 1];
    && (k > 0 ==> t[sa[k - 1]] < t[n - 1])
    && (k + 1 < n ==> t[n - 1] <= t[sa[k + 1]])
  }

  /** Rank of a position; the empty suffix ranks below all. */
  ghost function RankAt(isa: seq<nat>, p: nat): int
    requires p <= |isa|
  {
    if p == |isa| then -1 else isa[p]
  }

  /** Character, then rank of the rest. */
  ghost predicate Ord(t: Text, isa: seq<nat>, p: nat, q: nat)
    requires |isa| == |t| && p < |t| && q < |t|
  {
    t[p] < t[q] || (t[p] == t[q] && RankAt(isa, p + 1) < RankAt(isa, q + 1))
  }

  /** Two neighbours of the array, neither the last suffix, are neighbours among the triples. */
  lemma NeighbourTriples(t: Text, sa: seq<nat>, k: nat) returns (c: nat)
    requires |t| == |sa| > 0 && IsPermutation(sa, |sa|) && 0 < k < |sa|
    requires sa[k - 1] != |sa| - 1 && sa[k] != |sa| - 1
    ensures 0 < c < |sa| - 1
    ensures View(t, sa)[c - 1] == TripleAt(t, Inverse(sa), sa[k - 1])
    ensures View(t, sa)[c] == TripleAt(t, Inverse(sa), sa[k])
  {
    var l := Inverse(sa)[|sa| - 1];
    assert sa[l] == |sa| - 1;
    c := if k < l then k else k - 1;
    assert WithoutLast(sa)[c - 1] == sa[k - 1] && WithoutLast(sa)[c] == sa[k];
  }

  lemma MiddleNeighboursOrd(t: Text, sa: seq<nat>, k: nat)
    requires |t| == |sa| > 0 && Accepts(t, sa) && 0 < k < |sa|
    requires sa[k - 1] != |sa| - 1 && sa[k] != |sa| - 1
    ensures Ord(t, Inverse(sa), sa[k - 1], sa[k])
  {
    var isa, p, q := Inverse(sa), sa[k - 1], sa[k];
    var c := NeighbourTriples(t, sa, k);
    assert InOrder(TripleAt(t, isa, p), TripleAt(t, isa, q), |sa|);
    assert sa[isa[p + 1]] == p + 1 && sa[isa[q + 1]] == q + 1;
  }

  lemma LastNeighboursOrd(t: Text, sa: seq<nat>, k: nat)
    requires |t| == |sa| > 0 && IsPermutation(sa, |sa|) && LastPlaced(t, sa) && 0 < k < |sa|
    requires sa[k - 1] == |sa| - 1 || sa[k] == |sa| - 1
    ensures Ord(t, Inverse(sa), sa[k - 1], sa[k])
  {
    assert Inverse(sa)[sa[k]] == k && Inverse(sa)[sa[k - 1]] == k - 1;
  }

  lemma NeighboursOrd(t: Text, sa: seq<nat>, k: nat)
    requires |t| == |sa| > 0 && Accepts(t, sa) && LastPlaced(t, sa) && 0 < k < |sa|
    ensures Ord(t, Inverse(sa), sa[k - 1], sa[k])
  {
    if sa[k - 1] == |sa| - 1 || sa[k] == |sa| - 1 {
      LastNeighboursOrd(t, sa, k);
    } else {
      MiddleNeighboursOrd(t, sa, k);
    }
  }

  lemma {:induction false} PairsOrd(t: Text, sa: seq<nat>, a: nat, b: nat)
    requires |t| == |sa| > 0 && Accepts(t, sa) && LastPlaced(t, sa) && a < b < |sa|
    ensures Ord(t, Inverse(sa), sa[a], sa[b])
    decreases b - a
  {
    NeighboursOrd(t, sa, b);
    if a >= b - 1 {
    } else {
      PairsOrd(t, sa, a, b - 1);
    }
  }

  lemma {:induction false} OrdIsSufLess(t: Text, sa: seq<nat>, p: nat, q: nat)
    requires |t| == |sa| > 0 && Accepts(t, sa) && LastPlaced(t, sa)
    requires p < |t| && q < |t| && Inverse(sa)[p] < Inverse(sa)[q]
    ensures SufLess(t, p, q)
    decreases |t| - p
  {
    var isa := Inverse(sa);
    PairsOrd(t, sa, isa[p], isa[q]);
    if t[p] != t[q] || p + 1 >= |t| || q + 1 >= |t| {
    } else {
      OrdIsSufLess(t, sa, p + 1, q + 1);
    }
  }

  lemma TrueArrayInOrder(t: Text, sa: seq<nat>, p: nat, q: nat)
    requires IsSuffixArray(t, sa) && IsPermutation(sa, |sa|)
    requires p < |t| && q < |t| && Inverse(sa)[p] < Inverse(sa)[q]
    ensures Ord(t, Inverse(sa), p, q)
  {
    var isa := Inverse(sa);
    ArrayOrder(t, sa, isa[p], isa[q]);
    if t[p] == t[q] && p + 1 < |t| {
      ArrayOrder(t, sa, isa[p + 1], isa[q + 1]);
    }
  }

  lemma TrueArrayAccepted(t: Text, sa: seq<nat>)
    requires |t| == |sa| > 0 && IsSuffixArray(t, sa)
    ensures Accepts(t, sa)
  {
    forall a, b | 0 <= a < b < |sa| ensures sa[a] != sa[b] { ArrayOrder(t, sa, a, b); }
    var q, v := WithoutLast(sa), View(t, sa);
    RanksRise(sa);
    forall c | 0 < c < |v| ensures InOrder(v[c - 1], v[c], |sa|) {
      TrueArrayInOrder(t, sa, q[c - 1], q[c]);
    }
  }

  lemma TrueArrayLastPlaced(t: Text, sa: seq<nat>)
    requires |t| == |sa| > 0 && IsSuffixArray(t, sa) && IsPermutation(sa, |sa|)
    ensures LastPlaced(t, sa)
  {
    var n := |sa|;
    var k := Inverse(sa)[n - 1];
    if k > 0 { TrueArrayInOrder(t, sa, sa[k - 1], n - 1); }
    if k + 1 < n { TrueArrayInOrder(t, sa, n - 1, sa[k + 1]); }
  }

  /** Exactly the arrays that are accepted and place the last suffix right are suffix arrays. */
  lemma AcceptedAndLastPlaced(t: Text, sa: seq<nat>)
    requires |t| == |sa| > 0
    ensures IsSuffixArray(t, sa) <==> Accepts(t, sa) && LastPlaced(t, sa)
  {
    if IsSuffixArray(t, sa) {
      TrueArrayAccepted(t, sa);
      TrueArrayLastPlaced(t, sa);
    }
    if Accepts(t, sa) && LastPlaced(t, sa) {
      Surjective(sa, |sa|);
      forall a, b | 0 <= a < b < |sa| ensures SufLess(t, sa[a], sa[b]) {
        OrdIsSufLess(t, sa, sa[a], sa[b]);
      }
    }
  }

  /** The gap: every arrangement of a two-character text passes, also the wrong one. */
  lemma WrongArrayAccepted()
    ensures Accepts([0, 1], [1, 0]) && !IsSuffixArray([0, 1], [1, 0])
  {
    var sa := [1, 0];
    assert IsPermutation(sa, 2);
    assert |WithoutLast(sa)| == 1;
    assert !SufLess([0, 1], 1, 0);
    assert sa[0] == 1 && sa[1] == 0;
  }
}
