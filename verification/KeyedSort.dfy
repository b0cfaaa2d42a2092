/** Numbered values pushed into a sorter in any order come out in the order of their numbers. */
module KeyedSort {
  import opened Sorting

  datatype Pair = Pair(first: nat, second: nat)

  datatype Triple = Triple(first: nat, second: nat, third: nat)

  predicate TripleLe(a: Triple, b: Triple) {
    a.first <= b.first
  }

  function Seconds(ps: seq<Pair>): (r: seq<nat>)
    ensures |r| == |ps| && forall i :: 0 <= i < |r| ==> r[i] == ps[i].second
  {
    seq(|ps|, i requires 0 <= i < |ps| => ps[i].second)
  }

  /** Each value with its place. */
  function Indexed(table: seq<nat>): (r: seq<Pair>)
    ensures |r| == |table| && forall i :: 0 <= i < |r| ==> r[i] == Pair(i, table[i])
  {
    seq(|table|, i requires 0 <= i < |table| => Pair(i, table[i]))
  }

  /** Where `o` stands in a permutation. */
  ghost function PlaceOf(perm: seq<nat>, o: nat): (k: nat)
    requires IsPermutation(perm, |perm|) && o < |perm|
    ensures k < |perm| && perm[k] == o
  {
    Surjective(perm, |perm|);
    assert o in perm;
    var k: nat :| k < |perm| && perm[k] == o;
    k
  }

  ghost function Inverse(perm: seq<nat>): (inv: seq<nat>)
    requires IsPermutation(perm, |perm|)
    ensures |inv| == |perm|
    ensures forall o :: 0 <= o < |inv| ==> inv[o] < |perm| && perm[inv[o]] == o
    ensures forall k :: 0 <= k < |perm| ==> inv[perm[k]] == k
  {
    var inv := seq(|perm|, o requires 0 <= o < |perm| => PlaceOf(perm, o));
    assert forall o :: 0 <= o < |inv| ==> inv[o] == PlaceOf(perm, o);
    inv
  }

  /** What a sorter has received after the numbers perm[0..k): those that `sel` picks, each with
      its value from `table`. */
  ghost predicate Pushed(m: seq<Pair>, table: seq<nat>, perm: seq<nat>, k: nat, sel: nat -> bool)
    requires k <= |perm| && IsPermutation(perm, |table|)
  {
    && (forall i :: 0 <= i < |m| ==> m[i].first < |table| && sel(m[i].first) && m[i].second == table[m[i].first])
    && (forall i, j :: 0 <= i < j < |m| ==> m[i].first != m[j].first)
    && (forall i :: 0 <= i < |m| ==> m[i].first in perm[..k])
    && (forall l :: 0 <= l < k && sel(perm[l]) ==> Pair(perm[l], table[perm[l]]) in m)
  }

  lemma PushOne(m: seq<Pair>, table: seq<nat>, perm: seq<nat>, k: nat, sel: nat -> bool)
    requires IsPermutation(perm, |table|) && k < |perm| && Pushed(m, table, perm, k, sel)
    ensures sel(perm[k]) ==> Pushed(m + [Pair(perm[k], table[perm[k]])], table, perm, k + 1, sel)
    ensures !sel(perm[k]) ==> Pushed(m, table, perm, k + 1, sel)
  {
    assert perm[..k + 1] == perm[..k] + [perm[k]];
    assert perm[k] !in perm[..k];
    var x := Pair(perm[k], table[perm[k]]);
    assert forall y :: y in m ==> y in m + [x];
    assert x in m + [x];
  }

  ghost predicate Ascending(r: seq<Pair>) {
    forall i, j :: 0 <= i < j < |r| ==> r[i].first < r[j].first
  }

  predicate FirstLe(a: Pair, b: Pair) {
    a.first <= b.first
  }

  lemma PushedMember(m: seq<Pair>, table: seq<nat>, perm: seq<nat>, sel: nat -> bool, x: Pair)
    requires IsPermutation(perm, |table|) && Pushed(m, table, perm, |perm|, sel)
    ensures x in m <==> x.first < |table| && sel(x.first) && x.second == table[x.first]
  {
    if x.first < |table| && sel(x.first) && x.second == table[x.first] {
      Surjective(perm, |table|);
      assert x.first in perm;
      var l :| 0 <= l < |perm| && perm[l] == x.first;
    }
  }

  lemma SortedPushed(m: seq<Pair>, r: seq<Pair>, place: seq<nat>, table: seq<nat>, perm: seq<nat>,
                     sel: nat -> bool, e: seq<Pair>)
    requires IsPermutation(perm, |table|) && Pushed(m, table, perm, |perm|, sel)
    requires Rearranged(m, r, place) && SortedBy(r, FirstLe)
    requires Ascending(e)
    requires forall x :: x in e <==> x.first < |table| && sel(x.first) && x.second == table[x.first]
    ensures r == e
  {
    RearrangedMembers(m, r, place);
    forall x ensures x in r <==> x in e { PushedMember(m, table, perm, sel, x); }
    forall i, j | 0 <= i < j < |r| ensures r[i].first < r[j].first {
      assert place[i] != place[j];
    }
    StrictlySortedUnique(r, e, (x: Pair) => x.first);
  }

  /** Sorting what was pushed gives the one ascending list `e` of the picked entries. */
  method SortPairs(m: seq<Pair>, ghost table: seq<nat>, ghost perm: seq<nat>, ghost sel: nat -> bool, ghost e: seq<Pair>)
    returns (r: seq<Pair>)
    requires IsPermutation(perm, |table|) && Pushed(m, table, perm, |perm|, sel)
    requires Ascending(e)
    requires forall x :: x in e <==> x.first < |table| && sel(x.first) && x.second == table[x.first]
    ensures r == e
  {
    ghost var place;
    r, place := Sort(m, FirstLe);
    SortedPushed(m, r, place, table, perm, sel, e);
  }
}
