/** The skew algorithm: `build_sa`, the recursion of `skew3`, and the theorem that it returns the
    suffix array.
 */
module Skew3 {
  import opened Closed
  import opened SuffixOrder
  import opened SkewOrder
  import opened SkewStreams
  import opened SkewNames
  import opened SkewMerge
  import opened Sorting
  import opened KeyedSort

  // ----- build_sa: the tuples

  ghost predicate AllMod0(k: Ranked, m: seq<Quint>) {
    k.Fits() && |m| <= (|k.t| + 2) / 3 && forall i :: 0 <= i < |m| ==> m[i] == k.Mod0(3 * i)
  }

  ghost predicate AllMod1(k: Ranked, m: seq<Quad>) {
    k.Fits() && |m| <= (|k.t| + 1) / 3 && forall i :: 0 <= i < |m| ==> m[i] == k.Mod1(3 * i + 1)
  }

  ghost predicate AllMod2(k: Ranked, m: seq<Quint>) {
    k.Fits() && |m| <= |k.t| / 3 && forall i :: 0 <= i < |m| ==> m[i] == k.Mod2(3 * i + 2)
  }

  lemma PushMod0(k: Ranked, m: seq<Quint>, x: Quint)
    requires AllMod0(k, m) && x.first == 3 * |m| < |k.t| && x.first % 3 == 0 && x == k.Mod0(x.first)
    ensures AllMod0(k, m + [x])
  {
  }

  lemma PushMod1(k: Ranked, m: seq<Quad>, x: seq<Quad>)
    requires AllMod1(k, m)
    requires x != [] ==> 3 * |m| + 1 < |k.t| && x == [k.Mod1(3 * |m| + 1)]
    ensures AllMod1(k, m + x)
  {
  }

  lemma PushMod2(k: Ranked, m: seq<Quint>, x: seq<Quint>)
    requires AllMod2(k, m)
    requires x != [] ==> 3 * |m| + 2 < |k.t| && x == [k.Mod2(3 * |m| + 2)]
    ensures AllMod2(k, m + x)
  {
  }

  /** The tuples of round `q`. */
  ghost predicate RoundTuples(k: Ranked, q: nat, x0: Quint, x1: seq<Quad>, x2: seq<Quint>)
    requires k.Fits() && 3 * q < |k.t|
  {
    && x0 == k.Mod0(3 * q)
    && x1 == (if 3 * q + 1 < |k.t| then [k.Mod1(3 * q + 1)] else [])
    && x2 == (if q > 0 then [k.Mod2(3 * (q - 1) + 2)] else [])
  }

  /** What is known of the last character before round `q`. */
  ghost predicate LastSeen(k: Ranked, q: nat, t2: nat, rank: nat)
    requires k.Fits()
  {
    0 < q && 3 * q <= |k.t| ==> t2 == k.t[3 * (q - 1) + 2] && rank == k.Rank(3 * (q - 1) + 2)
  }

  /** The tuples of the first `q` rounds; `source` characters have been read. */
  ghost predicate Collected(k: Ranked, q: nat, source: nat, m0: seq<Quint>, m1: seq<Quad>, m2: seq<Quint>) {
    && AllMod0(k, m0) && AllMod1(k, m1) && AllMod2(k, m2)
    && source == (if 3 * q <= |k.t| then 3 * q else |k.t|)
    && |m0| == q && |m1| == (source + 1) / 3 && |m2| == if q == 0 then 0 else q - 1
  }

  lemma CollectRound(k: Ranked, q: nat, m0: seq<Quint>, m1: seq<Quad>, m2: seq<Quint>, x0: Quint, x1: seq<Quad>, x2: seq<Quint>)
    requires Collected(k, q, 3 * q, m0, m1, m2) && 3 * q < |k.t| && RoundTuples(k, q, x0, x1, x2)
    ensures Collected(k, q + 1, if 3 * q + 3 <= |k.t| then 3 * q + 3 else |k.t|, m0 + [x0], m1 + x1, m2 + x2)
  {
    PushMod0(k, m0, x0);
    PushMod1(k, m1, x1);
    PushMod2(k, m2, x2);
  }

  /** The round for the positions index, index + 1 and index + 2: the tuples of the first two, and
      of the position before them, whose following characters and rank are known only now. */
  method Round(text: Text, isa1: seq<nat>, isa2: seq<nat>, index: nat, oldT2: nat, oldMod2: nat)
    returns (t2: nat, modTwo: nat, source: nat, mod0: Quint, mod1: seq<Quad>, mod2: seq<Quint>)
    requires Ranked(text, isa1, isa2).Fits() && index % 3 == 0 && index < |text|
    requires LastSeen(Ranked(text, isa1, isa2), index / 3, oldT2, oldMod2)
    ensures source == if index + 3 <= |text| then index + 3 else |text|
    ensures RoundTuples(Ranked(text, isa1, isa2), index / 3, mod0, mod1, mod2)
    ensures LastSeen(Ranked(text, isa1, isa2), index / 3 + 1, t2, modTwo)
  {
    var t0, t1, modOne, exists1, exists2 := text[index], 0, 0, false, false;
    t2, modTwo, mod1, mod2 := 0, 0, [], [];
    source := index + 1;
    if source < |text| {
      t1 := text[source];
      source := source + 1;
      modOne := isa1[index / 3] + 1;
      exists1 := true;
    }
    if source < |text| {
      t2 := text[source];
      source := source + 1;
      modTwo := isa2[index / 3] + 1;
      exists2 := true;
    }
    if exists2 {
      mod0 := Quint(index, t0, t1, modOne, modTwo);
      mod1 := [Quad(index + 1, modOne, t1, modTwo)];
      if index != 0 {
        mod2 := [Quint(index - 1, oldMod2, oldT2, t0, modOne)];
      }
    } else if exists1 {
      mod0 := Quint(index, t0, t1, modOne, 0);
      mod1 := [Quad(index + 1, modOne, t1, 0)];
      if index != 0 {
        mod2 := [Quint(index - 1, oldMod2, oldT2, t0, modOne)];
      }
    } else {
      mod0 := Quint(index, t0, 0, 0, 0);
      if index != 0 {
        mod2 := [Quint(index - 1, oldMod2, oldT2, t0, 0)];
      }
    }
  }

  /** The constructor loop of `build_sa`: three characters a round. */
  method BuildTuples(text: Text, isa1: seq<nat>, isa2: seq<nat>)
    returns (mod0: seq<Quint>, mod1: seq<Quad>, mod2: seq<Quint>)
    requires |text| > 0 && Ranked(text, isa1, isa2).Fits()
    ensures AllMod0(Ranked(text, isa1, isa2), mod0) && |mod0| == (|text| + 2) / 3
    ensures AllMod1(Ranked(text, isa1, isa2), mod1) && |mod1| == (|text| + 1) / 3
    ensures AllMod2(Ranked(text, isa1, isa2), mod2) && |mod2| == |text| / 3
  {
    ghost var k := Ranked(text, isa1, isa2);
    mod0, mod1, mod2 := [], [], [];
    var source, index, oldT2, oldMod2 := 0, 0, 0, 0;
    while source < |text|
      invariant index == 3 * |mod0| && (source > 0 ==> 3 * (|mod0| - 1) < |text|)
      invariant Collected(k, |mod0|, source, mod0, mod1, mod2) && LastSeen(k, |mod0|, oldT2, oldMod2)
      decreases |text| - source
    {
      var x0, x1, x2;
      oldT2, oldMod2, source, x0, x1, x2 := Round(text, isa1, isa2, index, oldT2, oldMod2);
      CollectRound(k, |mod0|, mod0, mod1, mod2, x0, x1, x2);
      mod0, mod1, mod2 := mod0 + [x0], mod1 + x1, mod2 + x2;
      index := index + 3;
    }
    CollectLast(k, |mod0|, mod0, mod1, mod2, oldT2, oldMod2);
    if |text| % 3 == 0 {
      mod2 := mod2 + [Quint(index - 1, oldMod2, oldT2, 0, 0)];
    }
  }

  /** A text of whole rounds still lacks the tuple of its last position. */
  lemma CollectLast(k: Ranked, q: nat, m0: seq<Quint>, m1: seq<Quad>, m2: seq<Quint>, t2: nat, rank: nat)
    requires |k.t| > 0 && Collected(k, q, |k.t|, m0, m1, m2) && 3 * q >= |k.t| > 3 * (q - 1) && LastSeen(k, q, t2, rank)
    ensures |m0| == (|k.t| + 2) / 3 && |m1| == (|k.t| + 1) / 3 && q > 0
    ensures if |k.t| % 3 == 0 then |m2| + 1 == |k.t| / 3 && AllMod2(k, m2 + [Quint(3 * q - 1, rank, t2, 0, 0)]) else |m2| == |k.t| / 3
  {
    if |k.t| % 3 == 0 {
      PushMod2(k, m2, [Quint(3 * q - 1, rank, t2, 0, 0)]);
    }
  }

  // ----- build_sa: sorting the tuples

  predicate LeMod0(a: Quint, b: Quint) {
    !LessMod0(b, a)
  }

  predicate LeMod1(a: Quad, b: Quad) {
    a.second <= b.second
  }

  predicate LeMod2(a: Quint, b: Quint) {
    a.second <= b.second
  }

  lemma Tuple0At(k: Ranked, m: seq<Quint>, r: seq<Quint>, perm: seq<nat>, i: nat)
    requires AllMod0(k, m) && Rearranged(m, r, perm) && i < |r|
    ensures r[i].first == 3 * perm[i] < |k.t| && r[i].first % 3 == 0 && r[i] == k.Mod0(r[i].first)
  {
    assert (3 * perm[i]) % 3 == 0;
    assert m[perm[i]] == k.Mod0(3 * perm[i]);
  }

  lemma SortedPair0(k: Ranked, m: seq<Quint>, r: seq<Quint>, perm: seq<nat>, i: nat, j: nat)
    requires k.Ok() && AllMod0(k, m) && Rearranged(m, r, perm) && i < j < |r| && LeMod0(r[i], r[j])
    ensures r[i].first < |k.t| && r[j].first < |k.t| && SufLess(k.t, r[i].first, r[j].first)
  {
    Tuple0At(k, m, r, perm, i);
    Tuple0At(k, m, r, perm, j);
    LessMod0Meaning(k, 3 * perm[j], 3 * perm[i]);
    assert perm[i] != perm[j];
    Total(k.t, 3 * perm[i], 3 * perm[j]);
  }

  lemma Tuples0Kept(k: Ranked, m: seq<Quint>, r: seq<Quint>, perm: seq<nat>)
    requires AllMod0(k, m) && Rearranged(m, r, perm)
    ensures Tuples0(k, r)
  {
    forall i | 0 <= i < |r| ensures r[i].first < |k.t| && r[i].first % 3 == 0 && r[i] == k.Mod0(r[i].first) {
      Tuple0At(k, m, r, perm, i);
    }
  }

  lemma SortedMod0(k: Ranked, m: seq<Quint>, r: seq<Quint>, perm: seq<nat>)
    requires k.Ok() && AllMod0(k, m) && Rearranged(m, r, perm) && SortedBy(r, LeMod0)
    ensures Tuples0(k, r) && Chain(k.t, Firsts5(r))
  {
    Tuples0Kept(k, m, r, perm);
    var s := Firsts5(r);
    forall i, j | 0 <= i < j < |s| ensures s[i] < |k.t| && s[j] < |k.t| && SufLess(k.t, s[i], s[j]) {
      SortedPair0(k, m, r, perm, i, j);
    }
  }

  lemma RankedBefore(k: Ranked, p: nat, q: nat)
    requires k.Ok() && p < |k.t| && q < |k.t| && p % 3 != 0 && q % 3 != 0 && p != q && k.Rank(p) <= k.Rank(q)
    ensures SufLess(k.t, p, q)
  {
    k.RankOrder(q, p);
    Total(k.t, p, q);
  }

  lemma Tuple1At(k: Ranked, m: seq<Quad>, r: seq<Quad>, perm: seq<nat>, i: nat)
    requires AllMod1(k, m) && Rearranged(m, r, perm) && i < |r|
    ensures r[i].first == 3 * perm[i] + 1 < |k.t| && r[i].first % 3 == 1 && r[i] == k.Mod1(r[i].first)
  {
    assert (3 * perm[i] + 1) % 3 == 1;
    assert m[perm[i]] == k.Mod1(3 * perm[i] + 1);
  }

  lemma SortedPair1(k: Ranked, m: seq<Quad>, r: seq<Quad>, perm: seq<nat>, i: nat, j: nat)
    requires k.Ok() && AllMod1(k, m) && Rearranged(m, r, perm) && i < j < |r| && LeMod1(r[i], r[j])
    ensures r[i].first < |k.t| && r[j].first < |k.t| && SufLess(k.t, r[i].first, r[j].first)
  {
    Tuple1At(k, m, r, perm, i);
    Tuple1At(k, m, r, perm, j);
    assert perm[i] != perm[j];
    RankedBefore(k, 3 * perm[i] + 1, 3 * perm[j] + 1);
  }

  lemma Tuples1Kept(k: Ranked, m: seq<Quad>, r: seq<Quad>, perm: seq<nat>)
    requires AllMod1(k, m) && Rearranged(m, r, perm)
    ensures Tuples1(k, r)
  {
    forall i | 0 <= i < |r| ensures r[i].first < |k.t| && r[i].first % 3 == 1 && r[i] == k.Mod1(r[i].first) {
      Tuple1At(k, m, r, perm, i);
    }
  }

  lemma SortedMod1(k: Ranked, m: seq<Quad>, r: seq<Quad>, perm: seq<nat>)
    requires k.Ok() && AllMod1(k, m) && Rearranged(m, r, perm) && SortedBy(r, LeMod1)
    ensures Tuples1(k, r) && Chain(k.t, Firsts4(r))
  {
    Tuples1Kept(k, m, r, perm);
    var s := Firsts4(r);
    forall i, j | 0 <= i < j < |s| ensures s[i] < |k.t| && s[j] < |k.t| && SufLess(k.t, s[i], s[j]) {
      SortedPair1(k, m, r, perm, i, j);
    }
  }

  lemma Tuple2At(k: Ranked, m: seq<Quint>, r: seq<Quint>, perm: seq<nat>, i: nat)
    requires AllMod2(k, m) && Rearranged(m, r, perm) && i < |r|
    ensures r[i].first == 3 * perm[i] + 2 < |k.t| && r[i].first % 3 == 2 && r[i] == k.Mod2(r[i].first)
  {
    assert (3 * perm[i] + 2) % 3 == 2;
    assert m[perm[i]] == k.Mod2(3 * perm[i] + 2);
  }

  lemma SortedPair2(k: Ranked, m: seq<Quint>, r: seq<Quint>, perm: seq<nat>, i: nat, j: nat)
    requires k.Ok() && AllMod2(k, m) && Rearranged(m, r, perm) && i < j < |r| && LeMod2(r[i], r[j])
    ensures r[i].first < |k.t| && r[j].first < |k.t| && SufLess(k.t, r[i].first, r[j].first)
  {
    Tuple2At(k, m, r, perm, i);
    Tuple2At(k, m, r, perm, j);
    assert perm[i] != perm[j];
    RankedBefore(k, 3 * perm[i] + 2, 3 * perm[j] + 2);
  }

  lemma Tuples2Kept(k: Ranked, m: seq<Quint>, r: seq<Quint>, perm: seq<nat>)
    requires AllMod2(k, m) && Rearranged(m, r, perm)
    ensures Tuples2(k, r)
  {
    forall i | 0 <= i < |r| ensures r[i].first < |k.t| && r[i].first % 3 == 2 && r[i] == k.Mod2(r[i].first) {
      Tuple2At(k, m, r, perm, i);
    }
  }

  lemma SortedMod2(k: Ranked, m: seq<Quint>, r: seq<Quint>, perm: seq<nat>)
    requires k.Ok() && AllMod2(k, m) && Rearranged(m, r, perm) && SortedBy(r, LeMod2)
    ensures Tuples2(k, r) && Chain(k.t, Firsts5(r))
  {
    Tuples2Kept(k, m, r, perm);
    var s := Firsts5(r);
    forall i, j | 0 <= i < j < |s| ensures s[i] < |k.t| && s[j] < |k.t| && SufLess(k.t, s[i], s[j]) {
      SortedPair2(k, m, r, perm, i, j);
    }
  }

  lemma EveryPosition(k: Ranked, mod0: seq<Quint>, mod1: seq<Quad>, mod2: seq<Quint>, p: nat)
    requires AllMod0(k, mod0) && |mod0| == (|k.t| + 2) / 3
    requires AllMod1(k, mod1) && |mod1| == (|k.t| + 1) / 3
    requires AllMod2(k, mod2) && |mod2| == |k.t| / 3
    requires p < |k.t|
    ensures (exists x :: x in mod0 && x.first == p) || (exists x :: x in mod1 && x.first == p) || (exists x :: x in mod2 && x.first == p)
  {
    if p % 3 == 0 {
      assert mod0[p / 3].first == p && mod0[p / 3] in mod0;
    } else if p % 3 == 1 {
      assert mod1[p / 3].first == p && mod1[p / 3] in mod1;
    } else {
      assert mod2[p / 3].first == p && mod2[p / 3] in mod2;
    }
  }

  /** Given the ranks of the suffixes at positions 1 and 2 mod 3, the sorted and merged tuples list
      all suffixes in order. */
  method BuildSa(text: Text, isa1: seq<nat>, isa2: seq<nat>) returns (sa: seq<nat>)
    requires |text| >= 3 && Ranked(text, isa1, isa2).Ok()
    ensures IsSuffixArray(text, sa)
  {
    ghost var k := Ranked(text, isa1, isa2);
    var mod0, mod1, mod2 := BuildTuples(text, isa1, isa2);
    var a, p0 := Sort(mod0, LeMod0);
    var b, p1 := Sort(mod1, LeMod1);
    var c, p2 := Sort(mod2, LeMod2);
    SortedMod0(k, mod0, a, p0);
    SortedMod1(k, mod1, b, p1);
    SortedMod2(k, mod2, c, p2);
    sa := MergeAll(k, a, b, c);
    forall p: nat | p < |text| ensures p in sa {
      EveryPosition(k, mod0, mod1, mod2, p);
      RearrangedMembers(mod0, a, p0);
      RearrangedMembers(mod1, b, p1);
      RearrangedMembers(mod2, c, p2);
    }
  }

  // ----- skew3: splitting the ranks of the reduced string

  function SubpSize(n: nat): nat {
    (n / 3) * 2 + (if n % 3 == 2 then 1 else 0)
  }

  /** The start of the second half as `skew3` computes it, with the dummy counted in. */
  function Mod2Pos(n: nat, special: nat): nat {
    SubpSize(n) / 2 + SubpSize(n) % 2 + special
  }

  lemma Mod2PosMeaning(n: nat)
    ensures var special := if Mod12Count(n) != SubpSize(n) then 1 else 0;
            && (special == 1 <==> n % 3 == 1)
            && Mod2Pos(n, special) == (Mod12Count(n) + 1) / 2 <= Mod12Count(n)
            && Mod2Pos(n, special) - special == (n + 1) / 3
            && Mod12Count(n) - Mod2Pos(n, special) == n / 3
  {
  }

  ghost function Within(lo: nat, hi: nat): nat -> bool {
    o => lo <= o < hi
  }

  function Slice(table: seq<nat>, lo: nat, hi: nat): (r: seq<Pair>)
    requires lo <= hi <= |table|
    ensures |r| == hi - lo && forall i :: 0 <= i < |r| ==> r[i] == Pair(lo + i, table[lo + i])
  {
    seq(hi - lo, i requires 0 <= i < hi - lo => Pair(lo + i, table[lo + i]))
  }

  lemma SliceMembers(table: seq<nat>, lo: nat, hi: nat)
    requires lo <= hi <= |table|
    ensures Ascending(Slice(table, lo, hi))
    ensures forall x :: x in Slice(table, lo, hi) <==>
                        x.first < |table| && Within(lo, hi)(x.first) && x.second == table[x.first]
  {
    var e := Slice(table, lo, hi);
    forall x: Pair | x.first < |table| && lo <= x.first < hi && x.second == table[x.first] ensures x in e {
      assert x == e[x.first - lo];
    }
  }

  /** Feeds the two sorters with (position, rank) pairs; the dummy's pair is dropped. */
  method PushRanks(rec: seq<nat>, mod2Pos: nat, special: nat) returns (s1: seq<Pair>, s2: seq<Pair>)
    requires IsPermutation(rec, |rec|) && special <= mod2Pos <= |rec|
    ensures Pushed(s1, Inverse(rec), rec, |rec|, Within(0, mod2Pos - special))
    ensures Pushed(s2, Inverse(rec), rec, |rec|, Within(mod2Pos, |rec|))
  {
    ghost var inv, first, second := Inverse(rec), Within(0, mod2Pos - special), Within(mod2Pos, |rec|);
    s1, s2 := [], [];
    var i := 0;
    while i < |rec|
      invariant 0 <= i <= |rec| && PushedTo(s1, inv, rec, i, first) && PushedTo(s2, inv, rec, i, second)
    {
      var tmp := Pair(rec[i], i);
      PushRank(s1, inv, rec, i, first);
      PushRank(s2, inv, rec, i, second);
      if tmp.first < mod2Pos {
        if tmp.first + special < mod2Pos {
          s1 := s1 + [tmp];
        }
      } else {
        s2 := s2 + [tmp];
      }
      i := i + 1;
    }
    assert Same(|rec|, |rec|);
  }

  /** `Pushed(m, table, perm, k, sel)`, kept closed. */
  ghost predicate PushedTo(m: seq<Pair>, table: seq<nat>, perm: seq<nat>, k: nat, sel: nat -> bool)
    requires IsPermutation(perm, |table|)
  {
    k <= |perm| && forall n: int :: Same(n, k as int) && 0 <= n <= |perm| ==> Pushed(m, table, perm, n, sel)
  }

  lemma PushRank(m: seq<Pair>, table: seq<nat>, perm: seq<nat>, k: nat, sel: nat -> bool)
    requires IsPermutation(perm, |table|) && k < |perm| && PushedTo(m, table, perm, k, sel) && table[perm[k]] == k
    ensures PushedTo(if sel(perm[k]) then m + [Pair(perm[k], k)] else m, table, perm, k + 1, sel)
  {
    assert Same(k as int, k as int);
    PushOne(m, table, perm, k, sel);
  }

  method SplitRanks(rec: seq<nat>, mod2Pos: nat, special: nat) returns (isa1: seq<nat>, isa2: seq<nat>)
    requires IsPermutation(rec, |rec|) && special <= mod2Pos <= |rec|
    ensures |isa1| == mod2Pos - special && forall a :: 0 <= a < |isa1| ==> isa1[a] == Inverse(rec)[a]
    ensures |isa2| == |rec| - mod2Pos && forall a :: 0 <= a < |isa2| ==> isa2[a] == Inverse(rec)[mod2Pos + a]
  {
    var s1, s2 := PushRanks(rec, mod2Pos, special);
    ghost var inv := Inverse(rec);
    SliceMembers(inv, 0, mod2Pos - special);
    SliceMembers(inv, mod2Pos, |rec|);
    var r1 := SortPairs(s1, inv, rec, Within(0, mod2Pos - special), Slice(inv, 0, mod2Pos - special));
    var r2 := SortPairs(s2, inv, rec, Within(mod2Pos, |rec|), Slice(inv, mod2Pos, |rec|));
    isa1, isa2 := Seconds(r1), Seconds(r2);
  }

  // ----- skew3: both ways to the ranks are right

  lemma SuffixArrayIsPermutation(t: Text, sa: seq<nat>)
    requires IsSuffixArray(t, sa)
    ensures IsPermutation(sa, |t|)
  {
    forall a, b | 0 <= a < b < |sa| ensures sa[a] != sa[b] { ArrayOrder(t, sa, a, b); }
  }

  lemma InverseOrder(r: Text, rec: seq<nat>, x: nat, y: nat)
    requires IsSuffixArray(r, rec) && IsPermutation(rec, |rec|) && x < |r| && y < |r|
    ensures Inverse(rec)[x] < Inverse(rec)[y] <==> SufLess(r, x, y)
  {
    ArrayOrder(r, rec, Inverse(rec)[x], Inverse(rec)[y]);
  }

  lemma RanksFromRecursion(t: Text, r: seq<nat>, rec: seq<nat>, isa1: seq<nat>, isa2: seq<nat>)
    requires Raised(t) && IsReduced(t, r) && IsSuffixArray(r, rec) && IsPermutation(rec, |r|)
    requires |isa1| == (|t| + 1) / 3 && forall a :: 0 <= a < |isa1| ==> isa1[a] == Inverse(rec)[a]
    requires |isa2| == |t| / 3 && forall a :: 0 <= a < |isa2| ==> isa2[a] == Inverse(rec)[(|r| + 1) / 2 + a]
    ensures Ranked(t, isa1, isa2).Ok()
  {
    var k := Ranked(t, isa1, isa2);
    forall p: nat, q: nat | p < |t| && q < |t| && p % 3 != 0 && q % 3 != 0
      ensures k.Rank(p) < k.Rank(q) <==> SufLess(t, p, q)
    {
      RankOfRecursion(k, r, rec, p);
      RankOfRecursion(k, r, rec, q);
      InverseOrder(r, rec, Idx(|t|, p), Idx(|t|, q));
      if p == q { Irreflexive(t, p); } else { ReducedOrder(t, r, p, q); }
    }
  }

  lemma RankOfRecursion(k: Ranked, r: seq<nat>, rec: seq<nat>, p: nat)
    requires |r| == Mod12Count(|k.t|) && IsPermutation(rec, |r|)
    requires |k.isa1| == (|k.t| + 1) / 3 && forall a :: 0 <= a < |k.isa1| ==> k.isa1[a] == Inverse(rec)[a]
    requires |k.isa2| == |k.t| / 3 && forall a :: 0 <= a < |k.isa2| ==> k.isa2[a] == Inverse(rec)[(|r| + 1) / 2 + a]
    requires p < |k.t| && p % 3 != 0
    ensures IsPos(|k.t|, p) && Idx(|k.t|, p) < |r| && k.Rank(p) == 1 + Inverse(rec)[Idx(|k.t|, p)]
  {
    IdxInRange(|k.t|, p);
  }

  lemma RanksFromNames(t: Text, names: seq<nat>, isa1: seq<nat>, isa2: seq<nat>)
    requires Raised(t) && NamesTriples(t, names) && AllDistinct(names)
    requires isa1 == Seconds(Part(names, 0)) && isa2 == Seconds(Part(names, 1))
    ensures Ranked(t, isa1, isa2).Ok()
  {
    var k, r := Ranked(t, isa1, isa2), isa1 + isa2;
    PartsAreReduced(t, names);
    DistinctParts(names);
    forall p: nat, q: nat | p < |t| && q < |t| && p % 3 != 0 && q % 3 != 0
      ensures k.Rank(p) < k.Rank(q) <==> SufLess(t, p, q)
    {
      RankOfName(k, r, p);
      RankOfName(k, r, q);
      UniqueNamesOrder(t, r, p, q);
    }
  }

  lemma RankOfName(k: Ranked, r: seq<nat>, p: nat)
    requires r == k.isa1 + k.isa2 && |r| == Mod12Count(|k.t|) && |k.isa1| == (|r| + 1) / 2
    requires p < |k.t| && p % 3 != 0
    ensures k.Fits() && IsPos(|k.t|, p) && Idx(|k.t|, p) < |r| && k.Rank(p) == 1 + r[Idx(|k.t|, p)]
  {
    IdxInRange(|k.t|, p);
  }

  predicate LeQuad(a: Quad, b: Quad) {
    !LessQuad(b, a)
  }

  lemma RaiseKeepsSuffixArray(input: seq<nat>, sa: seq<nat>)
    requires IsSuffixArray(Raise(input), sa)
    ensures IsSuffixArray(input, sa)
  {
    forall a, b | 0 <= a < b < |sa| ensures SufLess(input, sa[a], sa[b]) {
      ShiftKeepsOrder(input, Raise(input), sa[a], sa[b]);
    }
  }

  /** The ranks of the reduced positions: their names where those differ, else by recursion. */
  method ReducedRanks(text: Text, m1: seq<Pair>, m2: seq<Pair>, unique: bool, concatLength: nat, ghost names: seq<nat>)
    returns (isa1: seq<nat>, isa2: seq<nat>)
    requires |text| >= 3 && Raised(text) && NamesTriples(text, names)
    requires m1 == Part(names, 0) && m2 == Part(names, 1)
    requires unique <==> AllDistinct(names)
    requires concatLength == Mod12Count(|text|)
    ensures Ranked(text, isa1, isa2).Ok()
    decreases |text|, 1
  {
    if unique {
      isa1, isa2 := Seconds(m1), Seconds(m2);
      RanksFromNames(text, names, isa1, isa2);
    } else {
      var r := Seconds(m1) + Seconds(m2);
      PartsAreReduced(text, names);
      DistinctParts(names);
      ghost var a, b :| 0 <= a < b < |r| && r[a] == r[b];
      ReducedLength(text, r, a, b);
      isa1, isa2 := RecursiveRanks(text, r, concatLength);
    }
  }

  method RecursiveRanks(text: Text, r: Text, concatLength: nat) returns (isa1: seq<nat>, isa2: seq<nat>)
    requires Raised(text) && IsReduced(text, r) && 3 <= |r| < |text| && concatLength == Mod12Count(|text|)
    ensures Ranked(text, isa1, isa2).Ok()
    decreases |text|, 0
  {
    var rec := Skew3(r);
    SuffixArrayIsPermutation(r, rec);
    Mod2PosMeaning(|text|);
    var special := if concatLength != SubpSize(|text|) then 1 else 0;
    isa1, isa2 := SplitRanks(rec, Mod2Pos(|text|, special), special);
    RanksFromRecursion(text, r, rec, isa1, isa2);
  }

  /** Main theorem: for every text of at least three characters the skew algorithm ends with the
      suffix array. */
  method Skew3(input: seq<nat>) returns (sa: seq<nat>)
    requires |input| >= 3
    ensures IsSuffixArray(input, sa)
    decreases |input|, 2
  {
    var quads, text := Mod12Quads(input);
    var sorted, perm := Sort(quads, LeQuad);
    var m1, m2, unique, concatLength, names := NameQuads(text, quads, sorted, perm);
    var isa1, isa2 := ReducedRanks(text, m1, m2, unique, concatLength, names);
    sa := BuildSa(text, isa1, isa2);
    RaiseKeepsSuffixArray(input, sa);
  }
}
