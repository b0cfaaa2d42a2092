/** From the sorted quads to the reduced string. */
module SkewNames {
  import opened SuffixOrder
  import opened SkewOrder
  import opened SkewStreams
  import opened Sorting
  import opened KeyedSort

  /** `names[o]` stands for the triple at the o-th reduced position. */
  ghost predicate NamesTriples(t: Text, names: seq<nat>) {
    && |names| == Mod12Count(|t|)
    && (forall o, p :: 0 <= o < |names| && 0 <= p < |names| ==>
          (names[o] < names[p] <==> TripleLess(t, Pos(o), Pos(p))))
  }

  ghost predicate AllDistinct(s: seq<nat>) {
    forall a, b :: 0 <= a < b < |s| ==> s[a] != s[b]
  }

  /** The numbered names at the even (b == 0) or odd (b == 1) places. */
  function Part(names: seq<nat>, b: nat): (r: seq<Pair>)
    requires b <= 1
    ensures |r| == (|names| + 1 - b) / 2
    ensures forall i :: 0 <= i < |r| ==> r[i] == Pair(2 * i + b, names[2 * i + b])
  {
    seq((|names| + 1 - b) / 2, i requires 0 <= i < (|names| + 1 - b) / 2 => Pair(2 * i + b, names[2 * i + b]))
  }

  // ----- the ghost table of names

  ghost function NameTable(sorted: seq<Quad>, perm: seq<nat>): (names: seq<nat>)
    requires IsPermutation(perm, |sorted|)
    ensures |names| == |sorted|
    ensures forall o: nat :: o < |names| ==> names[o] == NameOf(sorted, PlaceOf(perm, o))
  {
    seq(|sorted|, o requires 0 <= o < |sorted| => NameOf(sorted, PlaceOf(perm, o)))
  }

  lemma NameTableOfPlace(sorted: seq<Quad>, perm: seq<nat>, k: nat)
    requires IsPermutation(perm, |sorted|) && k < |perm|
    ensures NameTable(sorted, perm)[perm[k]] == NameOf(sorted, k)
  {
    assert PlaceOf(perm, perm[k]) == k;
  }

  ghost predicate SortedQuads(t: Text, quads: seq<Quad>, sorted: seq<Quad>, perm: seq<nat>) {
    && |quads| == Mod12Count(|t|)
    && (forall o :: 0 <= o < |quads| ==> quads[o] == QuadAt(t, Pos(o)).(first := o))
    && Rearranged(quads, sorted, perm)
    && (forall i, j :: 0 <= i < j < |sorted| ==> !LessQuad(sorted[j], sorted[i]))
  }

  lemma NamesOrder(sorted: seq<Quad>, perm: seq<nat>, o: nat, p: nat)
    requires IsPermutation(perm, |sorted|) && o < |perm| && p < |perm|
    requires forall i, j :: 0 <= i < j < |sorted| ==> !LessQuad(sorted[j], sorted[i])
    ensures NameTable(sorted, perm)[o] < NameTable(sorted, perm)[p] <==> LessQuad(sorted[PlaceOf(perm, o)], sorted[PlaceOf(perm, p)])
  {
    var k, l := PlaceOf(perm, o), PlaceOf(perm, p);
    if k <= l { NamesRise(sorted, k, l); } else { NamesRise(sorted, l, k); }
  }

  lemma TableNamesTriples(t: Text, quads: seq<Quad>, sorted: seq<Quad>, perm: seq<nat>)
    requires SortedQuads(t, quads, sorted, perm)
    ensures NamesTriples(t, NameTable(sorted, perm))
  {
    var names := NameTable(sorted, perm);
    forall o: nat, p: nat | o < |names| && p < |names|
      ensures names[o] < names[p] <==> TripleLess(t, Pos(o), Pos(p))
    {
      NamesOrder(sorted, perm, o, p);
      assert sorted[PlaceOf(perm, o)] == quads[o] && sorted[PlaceOf(perm, p)] == quads[p];
    }
  }

  lemma NamesDiffer(t: Text, quads: seq<Quad>, sorted: seq<Quad>, perm: seq<nat>, a: nat, b: nat)
    requires Raised(t) && SortedQuads(t, quads, sorted, perm) && NoRepeat(sorted, |sorted|) && a < b < |perm|
    ensures NameTable(sorted, perm)[a] != NameTable(sorted, perm)[b]
  {
    var k, l := PlaceOf(perm, a), PlaceOf(perm, b);
    if k < l { RepeatSeen(t, quads, sorted, perm, k, l); } else { RepeatSeen(t, quads, sorted, perm, l, k); }
  }

  lemma NameRepeated(sorted: seq<Quad>, perm: seq<nat>, l: nat)
    requires IsPermutation(perm, |sorted|) && 0 < l < |sorted| && QuadEq(sorted[l - 1], sorted[l])
    ensures !AllDistinct(NameTable(sorted, perm))
  {
    var names := NameTable(sorted, perm);
    NameTableOfPlace(sorted, perm, l - 1);
    NameTableOfPlace(sorted, perm, l);
    assert names[perm[l - 1]] == names[perm[l]];
  }

  /** The flag of the naming stream is right although it ignores repeats of an all-zero quad. */
  lemma UniqueFlag(t: Text, quads: seq<Quad>, sorted: seq<Quad>, perm: seq<nat>)
    requires Raised(t) && SortedQuads(t, quads, sorted, perm)
    ensures NoRepeat(sorted, |sorted|) <==> AllDistinct(NameTable(sorted, perm))
  {
    if NoRepeat(sorted, |sorted|) {
      forall a, b | 0 <= a < b < |perm| ensures NameTable(sorted, perm)[a] != NameTable(sorted, perm)[b] {
        NamesDiffer(t, quads, sorted, perm, a, b);
      }
    } else {
      var l :| 0 < l < |sorted| && QuadEq(sorted[l - 1], sorted[l]) && sorted[l].second != 0;
      NameRepeated(sorted, perm, l);
    }
  }

  lemma RepeatSeen(t: Text, quads: seq<Quad>, sorted: seq<Quad>, perm: seq<nat>, k: nat, l: nat)
    requires Raised(t) && SortedQuads(t, quads, sorted, perm)
    requires k < l < |sorted| && NoRepeat(sorted, |sorted|)
    ensures NameOf(sorted, k) != NameOf(sorted, l)
  {
    NamesRise(sorted, k, l);
    NamesRise(sorted, k, l - 1);
    NamesRise(sorted, l - 1, l);
    // two equal triples in a row would both be the one quad behind the end of the text
    OneDummy(t, quads, sorted, perm, l - 1);
    OneDummy(t, quads, sorted, perm, l);
  }

  lemma OneDummy(t: Text, quads: seq<Quad>, sorted: seq<Quad>, perm: seq<nat>, l: nat)
    requires Raised(t) && SortedQuads(t, quads, sorted, perm) && l < |sorted|
    ensures sorted[l].second == 0 ==> perm[l] == Mod12Count(|t|) - 1
  {
    if sorted[l].second == 0 {
      assert sorted[l] == quads[perm[l]];
      OnlyDummy(|t|, perm[l]);
    }
  }

  lemma OnlyDummy(n: nat, o: nat)
    requires o < Mod12Count(n) && Pos(o) >= n
    ensures o == Mod12Count(n) - 1
  {
  }

  // ----- the two sorters

  ghost function Parity(b: nat): nat -> bool {
    o => o % 2 == b
  }

  lemma PartMembers(names: seq<nat>, b: nat)
    requires b <= 1
    ensures Ascending(Part(names, b))
    ensures forall x :: x in Part(names, b) <==>
                        x.first < |names| && Parity(b)(x.first) && x.second == names[x.first]
  {
    var e := Part(names, b);
    forall x: Pair | x.first < |names| && x.first % 2 == b && x.second == names[x.first] ensures x in e {
      assert x == e[x.first / 2];
    }
  }

  lemma PushBoth(s1: seq<Pair>, s2: seq<Pair>, names: seq<nat>, perm: seq<nat>, k: nat)
    requires IsPermutation(perm, |names|) && k < |perm|
    requires Pushed(s1, names, perm, k, Parity(0)) && Pushed(s2, names, perm, k, Parity(1))
    ensures var x := Pair(perm[k], names[perm[k]]);
            && Pushed(if x.first % 2 == 1 then s1 else s1 + [x], names, perm, k + 1, Parity(0))
            && Pushed(if x.first % 2 == 1 then s2 + [x] else s2, names, perm, k + 1, Parity(1))
  {
    PushOne(s1, names, perm, k, Parity(0));
    PushOne(s2, names, perm, k, Parity(1));
  }

  /** The loop that feeds the two sorters from the naming stream. */
  method PushNames(sorted: seq<Quad>, ghost perm: seq<nat>, ghost names: seq<nat>)
    returns (s1: seq<Pair>, s2: seq<Pair>, unique: bool, concatLength: nat)
    requires |sorted| > 0 && IsPermutation(perm, |sorted|) && names == NameTable(sorted, perm)
    requires forall k :: 0 <= k < |sorted| ==> sorted[k].first == perm[k]
    ensures Pushed(s1, names, perm, |perm|, Parity(0)) && Pushed(s2, names, perm, |perm|, Parity(1))
    ensures unique <==> NoRepeat(sorted, |sorted|)
    ensures concatLength == |sorted|
  {
    var naming := new Naming(sorted);
    s1, s2, concatLength := [], [], 0;
    while !naming.Empty()
      invariant naming.Valid() && fresh(naming) && naming.source == sorted && concatLength == naming.k
      invariant Pushed(s1, names, perm, concatLength, Parity(0))
      invariant Pushed(s2, names, perm, concatLength, Parity(1))
      decreases |sorted| - naming.k
    {
      var tmp := naming.result;
      NameTableOfPlace(sorted, perm, concatLength);
      PushBoth(s1, s2, names, perm, concatLength);
      if tmp.first % 2 == 1 {
        s2 := s2 + [tmp];
      } else {
        s1 := s1 + [tmp];
      }
      naming.Advance();
      concatLength := concatLength + 1;
    }
    unique := naming.unique;
  }

  /** Naming: the reduced string in two halves, and whether all names differ. */
  method NameQuads(ghost t: Text, ghost quads: seq<Quad>, sorted: seq<Quad>, ghost perm: seq<nat>)
    returns (m1: seq<Pair>, m2: seq<Pair>, unique: bool, concatLength: nat, ghost names: seq<nat>)
    requires Raised(t) && SortedQuads(t, quads, sorted, perm) && |sorted| > 0
    ensures NamesTriples(t, names)
    ensures m1 == Part(names, 0) && m2 == Part(names, 1)
    ensures unique <==> AllDistinct(names)
    ensures concatLength == Mod12Count(|t|)
  {
    names := NameTable(sorted, perm);
    var s1, s2;
    s1, s2, unique, concatLength := PushNames(sorted, perm, names);
    UniqueFlag(t, quads, sorted, perm);
    TableNamesTriples(t, quads, sorted, perm);
    PartMembers(names, 0);
    PartMembers(names, 1);
    m1 := SortPairs(s1, names, perm, Parity(0), Part(names, 0));
    m2 := SortPairs(s2, names, perm, Parity(1), Part(names, 1));
  }

  // ----- the reduced string

  lemma PartsAreReduced(t: Text, names: seq<nat>)
    requires NamesTriples(t, names)
    ensures IsReduced(t, Seconds(Part(names, 0)) + Seconds(Part(names, 1)))
  {
    var r := Seconds(Part(names, 0)) + Seconds(Part(names, 1));
    var n := |t|;
    forall p, q | IsPos(n, p) && IsPos(n, q)
      ensures Idx(n, p) < |r| && Idx(n, q) < |r|
      ensures r[Idx(n, p)] < r[Idx(n, q)] <==> TripleLess(t, p, q)
    {
      NameAtIdx(t, names, p);
      NameAtIdx(t, names, q);
    }
  }

  lemma NameAtIdx(t: Text, names: seq<nat>, p: nat)
    requires |names| == Mod12Count(|t|) && IsPos(|t|, p)
    ensures var o := 2 * (p / 3) + (if p % 3 == 1 then 0 else 1);
            var r := Seconds(Part(names, 0)) + Seconds(Part(names, 1));
            o < |names| && Pos(o) == p && Idx(|t|, p) < |r| && r[Idx(|t|, p)] == names[o]
  {
    IdxInRange(|t|, p);
  }

  /** Where the name of offset `a` stands in the reduced string. */
  function PlaceInParts(n: nat, a: nat): nat {
    if a % 2 == 0 then a / 2 else (n + 1) / 2 + a / 2
  }

  function OffsetInParts(n: nat, x: nat): int {
    if x < (n + 1) / 2 then 2 * x else 2 * (x - (n + 1) / 2) + 1
  }

  lemma NameInParts(names: seq<nat>, a: nat)
    requires a < |names|
    ensures var r := Seconds(Part(names, 0)) + Seconds(Part(names, 1));
            PlaceInParts(|names|, a) < |r| && r[PlaceInParts(|names|, a)] == names[a]
  {
  }

  lemma PartsName(names: seq<nat>, x: nat)
    requires x < |names|
    ensures var r := Seconds(Part(names, 0)) + Seconds(Part(names, 1));
            |r| == |names| && 0 <= OffsetInParts(|names|, x) < |names| && names[OffsetInParts(|names|, x)] == r[x]
  {
  }

  lemma DistinctParts(names: seq<nat>)
    ensures AllDistinct(names) <==> AllDistinct(Seconds(Part(names, 0)) + Seconds(Part(names, 1)))
  {
    var r := Seconds(Part(names, 0)) + Seconds(Part(names, 1));
    if AllDistinct(r) {
      forall a, b | 0 <= a < b < |names| ensures names[a] != names[b] {
        NameInParts(names, a);
        NameInParts(names, b);
        assert PlaceInParts(|names|, a) != PlaceInParts(|names|, b);
      }
    }
    if AllDistinct(names) {
      forall a, b | 0 <= a < b < |r| ensures r[a] != r[b] {
        PartsName(names, a);
        PartsName(names, b);
        assert OffsetInParts(|names|, a) != OffsetInParts(|names|, b);
      }
    }
  }
}
