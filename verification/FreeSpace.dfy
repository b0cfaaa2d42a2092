/** Free regions of a disk: a map from position to size, kept coalesced, as `disk_allocator` and the
    translation layer of `wbtl_file` keep it.
 */
module FreeSpace {
  import opened Options
  import opened Multiples

  /** position -> size */
  type Regions = map<nat, nat>

  /** Address `x` lies in one of the regions. */
  ghost predicate In(m: Regions, x: nat) {
    exists p :: p in m && p <= x < p + m[p]
  }

  ghost predicate Within(pos: nat, size: nat, x: nat) {
    pos <= x < pos + size
  }

  /** No region is empty, and two regions neither overlap nor touch. */
  ghost predicate Coalesced(m: Regions) {
    && (forall p :: p in m ==> m[p] > 0)
    && (forall p, q :: p in m && q in m && p < q ==> p + m[p] < q)
  }

  /** Regions that do not overlap; they may touch. */
  ghost predicate Apart(m: Regions) {
    forall p, q :: p in m && q in m && p < q ==> p + m[p] <= q
  }

  /** The new region has an address in common with the regions. */
  ghost predicate Overlaps(m: Regions, pos: nat, size: nat) {
    exists x :: Within(pos, size, x) && In(m, x)
  }

  /** `m'` covers what `m` covers and the new region. */
  ghost predicate Adds(m: Regions, pos: nat, size: nat, m': Regions) {
    forall x :: In(m', x) <==> In(m, x) || Within(pos, size, x)
  }

  /** `m'` covers what `m` covers except the region, which `m` covers wholly. */
  ghost predicate Takes(m: Regions, pos: nat, size: nat, m': Regions) {
    forall x :: In(m, x) <==> In(m', x) || Within(pos, size, x)
  }

  // ----- searching

  method Least(s: set<nat>) returns (r: Option<nat>)
    ensures r.None? <==> s == {}
    ensures r.Some? ==> r.value in s && forall x :: x in s ==> r.value <= x
  {
    r := None;
    var rest := s;
    while rest != {}
      invariant rest <= s && (r.None? <==> rest == s)
      invariant r.Some? ==> r.value in s && forall x :: x in s && x !in rest ==> r.value <= x
      decreases rest
    {
      var x :| x in rest;
      rest := rest - {x};
      if r.None? || x < r.value {
        r := Some(x);
      }
    }
  }

  method Greatest(s: set<nat>) returns (r: Option<nat>)
    ensures r.None? <==> s == {}
    ensures r.Some? ==> r.value in s && forall x :: x in s ==> x <= r.value
  {
    r := None;
    var rest := s;
    while rest != {}
      invariant rest <= s && (r.None? <==> rest == s)
      invariant r.Some? ==> r.value in s && forall x :: x in s && x !in rest ==> x <= r.value
      decreases rest
    {
      var x :| x in rest;
      rest := rest - {x};
      if r.None? || x > r.value {
        r := Some(x);
      }
    }
  }

  ghost predicate IsSucc(m: Regions, pos: nat, s: Option<nat>) {
    match s
    case None => forall p :: p in m ==> p <= pos
    case Some(q) => q in m && q > pos && forall p :: p in m && p > pos ==> q <= p
  }

  ghost predicate IsPred(m: Regions, pos: nat, s: Option<nat>) {
    match s
    case None => forall p :: p in m ==> p > pos
    case Some(q) => q in m && q <= pos && forall p :: p in m && p <= pos ==> p <= q
  }

  /** `upper_bound`: the first region behind `pos`. */
  method UpperBound(m: Regions, pos: nat) returns (s: Option<nat>)
    ensures IsSucc(m, pos, s)
  {
    var behind := set p | p in m && p > pos;
    s := Least(behind);
    assert forall p :: p in m && p > pos ==> p in behind;
  }

  /** The region before the one `upper_bound` found, if there is one. */
  method Predecessor(m: Regions, pos: nat) returns (s: Option<nat>)
    ensures IsPred(m, pos, s)
  {
    var before := set p | p in m && p <= pos;
    s := Greatest(before);
    assert forall p :: p in m && p <= pos ==> p in before;
  }

  /** The first region of at least `size` bytes, in address order. */
  method FirstFit(m: Regions, size: nat) returns (s: Option<nat>)
    ensures s.None? <==> forall p :: p in m ==> m[p] < size
    ensures s.Some? ==> s.value in m && m[s.value] >= size && forall p :: p in m && m[p] >= size ==> s.value <= p
  {
    var fits := set p | p in m && m[p] >= size;
    s := Least(fits);
    assert forall p :: p in m && m[p] >= size ==> p in fits;
  }

  // ----- add_free_region

  /** The two double deallocation checks find every overlap. */
  lemma CheckIsOverlap(m: Regions, pos: nat, size: nat, pred: Option<nat>, succ: Option<nat>)
    requires Coalesced(m) && size > 0 && IsPred(m, pos, pred) && IsSucc(m, pos, succ)
    ensures Overlaps(m, pos, size) <==>
            (pred.Some? && pred.value + m[pred.value] > pos) || (succ.Some? && pos + size > succ.value)
  {
    if pred.Some? && pred.value + m[pred.value] > pos {
      assert Within(pos, size, pos) && In(m, pos);
    } else if succ.Some? && pos + size > succ.value {
      assert Within(pos, size, succ.value) && In(m, succ.value);
    } else {
      forall x: nat | In(m, x) ensures !Within(pos, size, x) {
        var p: nat :| p in m && p <= x < p + m[p];
        assert p <= pos ==> p == pred.value || p + m[p] < pred.value;
      }
    }
  }

  predicate TouchesSucc(pos: nat, size: nat, succ: Option<nat>) {
    succ.Some? && succ.value == pos + size
  }

  predicate TouchesPred(m: Regions, pos: nat, pred: Option<nat>)
    requires pred.Some? ==> pred.value in m
  {
    pred.Some? && pred.value + m[pred.value] == pos
  }

  /** The list after the touching neighbours are taken out and the joined region is put in. */
  function Joined(m: Regions, pos: nat, size: nat, pred: Option<nat>, succ: Option<nat>): Regions
    requires (pred.Some? ==> pred.value in m) && (succ.Some? ==> succ.value in m)
  {
    var size1 := if TouchesSucc(pos, size, succ) then size + m[succ.value] else size;
    var m1 := if TouchesSucc(pos, size, succ) then m - {succ.value} else m;
    if TouchesPred(m, pos, pred) then (m1 - {pred.value})[pred.value := size1 + m[pred.value]] else m1[pos := size1]
  }

  ghost predicate Gap(m: Regions, pos: nat, size: nat, pred: Option<nat>, succ: Option<nat>) {
    && Coalesced(m) && size > 0 && IsPred(m, pos, pred) && IsSucc(m, pos, succ)
    && (pred.Some? ==> pred.value + m[pred.value] <= pos) && (succ.Some? ==> pos + size <= succ.value)
  }

  /** The other regions lie left of the joined region or right of it, and do not touch it. */
  lemma JoinedOthers(m: Regions, pos: nat, size: nat, pred: Option<nat>, succ: Option<nat>, left: nat, right: nat)
    requires Gap(m, pos, size, pred, succ)
    requires left == (if TouchesPred(m, pos, pred) then pred.value else pos)
    requires right == (if TouchesSucc(pos, size, succ) then succ.value + m[succ.value] else pos + size)
    ensures
      var m' := Joined(m, pos, size, pred, succ);
      && left in m' && left + m'[left] == right
      && forall p :: p in m' && p != left ==> p in m && m'[p] == m[p] && (p + m[p] < left || right < p)
  {
  }

  lemma JoinedCoalesced(m: Regions, pos: nat, size: nat, pred: Option<nat>, succ: Option<nat>)
    requires Gap(m, pos, size, pred, succ)
    ensures Coalesced(Joined(m, pos, size, pred, succ))
  {
    var left := if TouchesPred(m, pos, pred) then pred.value else pos;
    var right := if TouchesSucc(pos, size, succ) then succ.value + m[succ.value] else pos + size;
    JoinedOthers(m, pos, size, pred, succ, left, right);
  }

  lemma JoinedCovers(m: Regions, pos: nat, size: nat, pred: Option<nat>, succ: Option<nat>, x: nat)
    requires Gap(m, pos, size, pred, succ) && (In(m, x) || Within(pos, size, x))
    ensures In(Joined(m, pos, size, pred, succ), x)
  {
    var m' := Joined(m, pos, size, pred, succ);
    var left := if TouchesPred(m, pos, pred) then pred.value else pos;
    if Within(pos, size, x) {
      assert left in m' && left <= x < left + m'[left];
    } else {
      var p: nat :| p in m && p <= x < p + m[p];
      var q := if (TouchesPred(m, pos, pred) && p == pred.value) || (TouchesSucc(pos, size, succ) && p == succ.value) then left else p;
      assert q in m' && q <= x < q + m'[q];
    }
  }

  lemma JoinedCoversOnly(m: Regions, pos: nat, size: nat, pred: Option<nat>, succ: Option<nat>, x: nat)
    requires Gap(m, pos, size, pred, succ) && In(Joined(m, pos, size, pred, succ), x)
    ensures In(m, x) || Within(pos, size, x)
  {
    var m' := Joined(m, pos, size, pred, succ);
    var left := if TouchesPred(m, pos, pred) then pred.value else pos;
    var p: nat :| p in m' && p <= x < p + m'[p];
    // a joined region consists of the old neighbours and the new region
    var q := if p != left then p else if x < pos then pred.value else if x >= pos + size then succ.value else pos;
    assert Within(pos, size, x) || (q in m && q <= x < q + m[q]);
  }

  /** Adds a region and joins it with its neighbours; refuses a region that overlaps free space. */
  method AddRegion(m: Regions, pos: nat, size: nat) returns (ok: bool, m': Regions)
    requires Coalesced(m) && size > 0
    ensures ok <==> !Overlaps(m, pos, size)
    ensures ok ==> Coalesced(m') && Adds(m, pos, size, m')
    ensures !ok ==> m' == m
  {
    m' := m;
    var regionPos, regionSize := pos, size;
    var succ := UpperBound(m, regionPos);
    var pred := Predecessor(m, regionPos);
    CheckIsOverlap(m, pos, size, pred, succ);
    if pred.Some? && pred.value + m[pred.value] > regionPos {
      return false, m;
    }
    if succ.Some? && regionPos + regionSize > succ.value {
      return false, m;
    }
    if succ.Some? && succ.value == regionPos + regionSize {
      // coalesce with successor
      regionSize := regionSize + m[succ.value];
      m' := m' - {succ.value};
    }
    if pred.Some? && pred.value + m[pred.value] == regionPos {
      // coalesce with predecessor
      regionSize := regionSize + m[pred.value];
      regionPos := pred.value;
      m' := m' - {pred.value};
    }
    m' := m'[regionPos := regionSize];
    assert m' == Joined(m, pos, size, pred, succ);
    JoinedCoalesced(m, pos, size, pred, succ);
    forall x: nat ensures In(m', x) <==> In(m, x) || Within(pos, size, x) {
      if In(m', x) { JoinedCoversOnly(m, pos, size, pred, succ, x); }
      if In(m, x) || Within(pos, size, x) { JoinedCovers(m, pos, size, pred, succ, x); }
    }
    ok := true;
  }

  // ----- first fit

  function FrontTaken(m: Regions, p: nat, size: nat): Regions
    requires p in m && m[p] >= size
  {
    if m[p] > size then (m - {p})[p + size := m[p] - size] else m - {p}
  }

  lemma FrontTakenCoalesced(m: Regions, p: nat, size: nat)
    requires Coalesced(m) && p in m && m[p] >= size > 0
    ensures Coalesced(FrontTaken(m, p, size))
  {
    var m' := FrontTaken(m, p, size);
    assert forall q :: q in m' ==> (q in m && q != p && m'[q] == m[q]) || (q == p + size && m'[q] == m[p] - size && m[p] > size);
  }

  lemma FrontTakenKeeps(m: Regions, p: nat, size: nat, x: nat)
    requires Coalesced(m) && p in m && m[p] >= size > 0 && In(m, x) && !Within(p, size, x)
    ensures In(FrontTaken(m, p, size), x)
  {
    var m' := FrontTaken(m, p, size);
    if Within(p, m[p], x) {
      assert p + size in m' && p + size <= x < p + size + m'[p + size];
    } else {
      var q: nat :| q in m && q <= x < q + m[q];
      assert q in m' && m'[q] == m[q];
    }
  }

  lemma FrontTakenOnly(m: Regions, p: nat, size: nat, x: nat)
    requires Coalesced(m) && p in m && m[p] >= size > 0 && In(FrontTaken(m, p, size), x)
    ensures In(m, x) && !Within(p, size, x)
  {
    var m' := FrontTaken(m, p, size);
    var q: nat :| q in m' && q <= x < q + m'[q];
    if q in m && q != p {
      assert m'[q] == m[q];
    } else {
      assert q == p + size && p <= x < p + m[p];
    }
  }

  lemma FrontTakenIn(m: Regions, p: nat, size: nat, x: nat)
    requires Coalesced(m) && p in m && m[p] >= size > 0
    ensures In(m, x) <==> In(FrontTaken(m, p, size), x) || Within(p, size, x)
    ensures Within(p, size, x) ==> !In(FrontTaken(m, p, size), x)
  {
    if Within(p, size, x) {
      assert p in m && p <= x < p + m[p];
    }
    if In(FrontTaken(m, p, size), x) {
      FrontTakenOnly(m, p, size, x);
    } else if In(m, x) && !Within(p, size, x) {
      FrontTakenKeeps(m, p, size, x);
    }
  }

  ghost predicate Fits(m: Regions, size: nat) {
    exists p :: p in m && m[p] >= size
  }

  ghost predicate IsFirstFit(m: Regions, size: nat, p: nat) {
    p in m && m[p] >= size && forall q :: q in m && m[q] >= size ==> p <= q
  }

  /** Takes `size` bytes from the front of the first region that is large enough. */
  method TakeFirstFit(m: Regions, size: nat) returns (r: Option<nat>, m': Regions)
    requires Coalesced(m) && size > 0
    ensures r.Some? <==> Fits(m, size)
    ensures r.None? ==> m' == m
    ensures r.Some? ==> Coalesced(m') && Takes(m, r.value, size, m') && forall x :: Within(r.value, size, x) ==> !In(m', x)
    ensures r.Some? ==> IsFirstFit(m, size, r.value) && m' == FrontTaken(m, r.value, size)
  {
    r := FirstFit(m, size);
    m' := m;
    if r.Some? {
      var regionPos, regionSize := r.value, m[r.value];
      m' := m' - {regionPos};
      if regionSize > size {
        m' := m'[regionPos + size := regionSize - size];
      }
      assert m' == FrontTaken(m, regionPos, size);
      FrontTakenCoalesced(m, regionPos, size);
      forall x: nat ensures (In(m, x) <==> In(m', x) || Within(regionPos, size, x)) && (Within(regionPos, size, x) ==> !In(m', x)) {
        FrontTakenIn(m, regionPos, size, x);
      }
    }
  }

  // ----- what the coverage says about a coalesced list

  /** A region starts where coverage starts, and ends where it ends. */
  lemma Edges(m: Regions, p: nat)
    requires Coalesced(m) && p in m
    ensures In(m, p) && !In(m, p + m[p]) && (p > 0 ==> !In(m, p - 1))
  {
    assert p <= p < p + m[p];
  }

  lemma CoveredStart(a: Regions, b: Regions, p: nat)
    requires Coalesced(a) && Coalesced(b) && p in a
    requires forall x: nat :: In(a, x) <==> In(b, x)
    ensures p in b
  {
    Edges(a, p);
    var q: nat :| q in b && q <= p < q + b[q];
  }

  lemma CoveredSize(a: Regions, b: Regions, p: nat)
    requires Coalesced(a) && Coalesced(b) && p in a
    requires forall x: nat :: In(a, x) <==> In(b, x)
    ensures p in b && b[p] <= a[p]
  {
    CoveredStart(a, b, p);
    Edges(a, p);
    assert !(p <= p + a[p] < p + b[p]);
  }

  /** The coverage determines a coalesced list. */
  lemma Canonical(a: Regions, b: Regions)
    requires Coalesced(a) && Coalesced(b)
    requires forall x: nat :: In(a, x) <==> In(b, x)
    ensures a == b
  {
    forall p: nat ensures p in a <==> p in b {
      if p in a {
        CoveredSize(a, b, p);
      }
      if p in b {
        CoveredSize(b, a, p);
      }
    }
    forall p | p in a ensures a[p] == b[p] {
      CoveredSize(a, b, p);
      CoveredSize(b, a, p);
    }
  }

  /** The regions consist of whole units of `d` bytes. */
  ghost predicate InUnits(m: Regions, d: nat)
    requires d > 0
  {
    forall x: nat :: In(m, x) <==> In(m, UnitOf(x, d))
  }

  lemma WithinUnits(pos: nat, size: nat, d: nat, x: nat)
    requires d > 0 && Divides(d, pos) && Divides(d, size)
    ensures Within(pos, size, x) <==> Within(pos, size, UnitOf(x, d))
  {
    SumOfMultiples(d, pos, size);
    BelowMultiple(d, x, pos);
    BelowMultiple(d, x, pos + size);
  }

  lemma AddsInUnits(m: Regions, pos: nat, size: nat, m': Regions, d: nat)
    requires d > 0 && InUnits(m, d) && Divides(d, pos) && Divides(d, size) && Adds(m, pos, size, m')
    ensures InUnits(m', d)
  {
    forall x: nat ensures In(m', x) <==> In(m', UnitOf(x, d)) {
      WithinUnits(pos, size, d, x);
    }
  }

  lemma TakesInUnits(m: Regions, pos: nat, size: nat, m': Regions, d: nat)
    requires d > 0 && InUnits(m, d) && Divides(d, pos) && Divides(d, size)
    requires Takes(m, pos, size, m') && forall x :: Within(pos, size, x) ==> !In(m', x)
    ensures InUnits(m', d)
  {
    forall x: nat ensures In(m', x) <==> In(m', UnitOf(x, d)) {
      WithinUnits(pos, size, d, x);
    }
  }

  /** In a coalesced list of whole units every region starts at a multiple of the unit. */
  lemma StartsAtUnit(m: Regions, p: nat, d: nat)
    requires d > 0 && Coalesced(m) && InUnits(m, d) && p in m
    ensures Divides(d, p)
  {
    Edges(m, p);
    if !Divides(d, p) {
      SameUnit(d, p);
      assert false;
    }
  }

  // ----- counting bytes

  ghost function Range(pos: nat, size: nat): (r: set<nat>)
    ensures |r| == size
    ensures forall x: nat :: x in r <==> Within(pos, size, x)
  {
    if size == 0 then {} else Range(pos, size - 1) + {pos + size - 1}
  }

  ghost function SumOfSizes(m: Regions): nat
    decreases |m|
  {
    if m == map[] then 0
    else
      var p :| p in m;
      m[p] + SumOfSizes(m - {p})
  }

  /** `s` is the set of all addresses in the regions. */
  ghost predicate IsCovered(m: Regions, s: set<nat>) {
    forall x: nat :: x in s <==> In(m, x)
  }

  lemma InWithout(m: Regions, p: nat, x: nat)
    requires Apart(m) && p in m
    ensures In(m - {p}, x) <==> In(m, x) && !Within(p, m[p], x)
  {
    var rest: Regions := m - {p};
    if In(m, x) && !Within(p, m[p], x) {
      var q: nat :| q in m && q <= x < q + m[q];
      assert q in rest && rest[q] == m[q];
    }
    if In(rest, x) {
      var q: nat :| q in rest && q <= x < q + rest[q];
      assert q in m && q != p && m[q] == rest[q];
    }
  }

  lemma CoveredRest(m: Regions, p: nat, s: set<nat>)
    requires Apart(m) && p in m && IsCovered(m, s)
    ensures IsCovered(m - {p}, s - Range(p, m[p])) && Range(p, m[p]) <= s
  {
    forall x: nat ensures x in s - Range(p, m[p]) <==> In(m - {p}, x) {
      InWithout(m, p, x);
    }
    forall x: nat | x in Range(p, m[p]) ensures x in s {
      assert Within(p, m[p], x) && In(m, x);
    }
  }

  /** The sum of the sizes is the number of addresses. */
  lemma {:induction false} SumIsCovered(m: Regions, s: set<nat>)
    requires Apart(m) && IsCovered(m, s)
    ensures SumOfSizes(m) == |s|
    decreases |m|
  {
    if m == map[] {
      assert s == {} by { assert forall x :: x in s ==> In(m, x); }
    } else {
      var p :| p in m && SumOfSizes(m) == m[p] + SumOfSizes(m - {p});
      CoveredRest(m, p, s);
      SumIsCovered(m - {p}, s - Range(p, m[p]));
      assert |s| == |s - Range(p, m[p])| + |Range(p, m[p])|;
    }
  }

  ghost function CoveredSet(m: Regions): (s: set<nat>)
    ensures IsCovered(m, s)
  {
    var s := set p, x | p in m && x in Range(p, m[p]) :: x;
    forall x: nat ensures x in s <==> In(m, x) {
      if In(m, x) {
        var p: nat :| p in m && p <= x < p + m[p];
        assert x in Range(p, m[p]);
      }
    }
    s
  }

  lemma UnionSum(a: Regions, b: Regions, c: Regions)
    requires Apart(a) && Apart(b) && Apart(c)
    requires forall x: nat :: In(c, x) <==> In(a, x) || In(b, x)
    requires forall x: nat :: !(In(a, x) && In(b, x))
    ensures SumOfSizes(c) == SumOfSizes(a) + SumOfSizes(b)
  {
    var s, t := CoveredSet(a), CoveredSet(b);
    SumIsCovered(a, s);
    SumIsCovered(b, t);
    assert s !! t;
    SumIsCovered(c, s + t);
  }

  /** One region as a list. */
  function Single(pos: nat, size: nat): Regions {
    map[pos := size]
  }

  lemma SingleSum(pos: nat, size: nat)
    ensures SumOfSizes(Single(pos, size)) == size && Apart(Single(pos, size))
    ensures forall x: nat :: In(Single(pos, size), x) <==> Within(pos, size, x)
  {
    var m: Regions := Single(pos, size);
    var rest: Regions := m - {pos};
    assert rest == map[];
    assert SumOfSizes(m) == m[pos] + SumOfSizes(m - {pos});
    forall x: nat ensures In(m, x) <==> Within(pos, size, x) {
      assert pos in m && m[pos] == size;
    }
  }

  lemma AddsSum(m: Regions, pos: nat, size: nat, m': Regions)
    requires Apart(m) && Apart(m') && Adds(m, pos, size, m') && !Overlaps(m, pos, size)
    ensures SumOfSizes(m') == SumOfSizes(m) + size
  {
    SingleSum(pos, size);
    forall x: nat ensures !(In(m, x) && In(Single(pos, size), x)) {
      assert Within(pos, size, x) && In(m, x) ==> Overlaps(m, pos, size);
    }
    UnionSum(m, Single(pos, size), m');
  }

  lemma TakesSum(m: Regions, pos: nat, size: nat, m': Regions)
    requires Apart(m) && Apart(m') && Takes(m, pos, size, m') && forall x :: Within(pos, size, x) ==> !In(m', x)
    ensures SumOfSizes(m) == SumOfSizes(m') + size
  {
    SingleSum(pos, size);
    UnionSum(m', Single(pos, size), m);
  }

  // ----- disk_allocator

  class DiskAllocator {
    var freeSpace: Regions
    var freeBytes: nat

    ghost predicate Valid()
      reads this
    {
      Coalesced(freeSpace) && freeBytes == SumOfSizes(freeSpace)
    }

    constructor ()
      ensures Valid() && freeSpace == map[]
    {
      freeSpace, freeBytes := map[], 0;
    }

    /** `add_free_region`; `ok` is false where the library throws. */
    method AddFreeRegion(pos: nat, size: nat) returns (ok: bool)
      requires Valid() && size > 0
      modifies this
      ensures Valid()
      ensures ok <==> !Overlaps(old(freeSpace), pos, size)
      ensures ok ==> Adds(old(freeSpace), pos, size, freeSpace) && freeBytes == old(freeBytes) + size
      ensures !ok ==> freeSpace == old(freeSpace) && freeBytes == old(freeBytes)
    {
      var m;
      ok, m := AddRegion(freeSpace, pos, size);
      if ok {
        AddsSum(freeSpace, pos, size, m);
        freeSpace := m;
        freeBytes := freeBytes + size;
      }
    }
  }
}
