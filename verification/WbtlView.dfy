/** The translation layer of `wbtl_file`, seen as one value: the invariant that makes every mapped block readable,
    and the steps that keep it.
 */
module WbtlView {
  import opened Closed
  import opened Options
  import opened Bytes
  import opened FreeSpace

  /** Entry of the reverse mapping: which logical block lies at a physical address. */
  datatype Place = Place(logical: nat, size: nat)

  /** The one outstanding backend write: none was issued, issued and not on disk yet, on disk. */
  datatype Request = NoRequest | Pending | Landed

  datatype View = View(
    wbs: nat, sz: nat,
    mapping: map<nat, nat>, places: map<nat, Place>, free: Regions,
    cur: Option<nat>, curBytes: seq<byte>, curPos: nat,
    prev: Option<nat>, prevBytes: seq<byte>, request: Request,
    disk: seq<byte>,
    contents: map<nat, seq<byte>>)

  // ----- the invariant

  function Sizes(places: map<nat, Place>): Regions {
    map p | p in places :: places[p].size
  }

  ghost predicate MapsInverse(mapping: map<nat, nat>, places: map<nat, Place>) {
    && (forall l :: l in mapping ==> mapping[l] in places && places[mapping[l]].logical == l)
    && (forall p :: p in places ==> places[p].logical in mapping && mapping[places[p].logical] == p)
  }

  /** The specification map has the mapped blocks, with their sizes. */
  ghost predicate SameBlocks(v: View) {
    && v.contents.Keys == v.mapping.Keys
    && (forall l :: l in v.contents && v.mapping[l] in v.places ==> |v.contents[l]| == v.places[v.mapping[l]].size > 0)
  }

  /** `x` is in the region that belongs to a buffer. */
  predicate InBuffer(address: Option<nat>, wbs: nat, x: nat) {
    address.Some? && address.value <= x < address.value + wbs
  }

  /** The part of the current buffer that is not written yet. */
  ghost predicate InTail(v: View, x: nat) {
    v.cur.Some? && v.cur.value + v.curPos <= x < v.cur.value + v.wbs
  }

  ghost predicate InMapped(v: View, x: nat) {
    In(Sizes(v.places), x)
  }

  /** Free regions, mapped blocks and the tail of the current buffer partition `[0, sz)`. */
  ghost predicate Partition(v: View) {
    && Apart(Sizes(v.places))
    && (forall x: nat :: x < v.sz <==> In(v.free, x) || InMapped(v, x) || InTail(v, x))
    && (forall x: nat :: In(v.free, x) ==> !InMapped(v, x) && !InTail(v, x))
    && (forall x: nat :: InMapped(v, x) ==> !InTail(v, x))
  }

  ghost predicate Shape(v: View) {
    && v.wbs > 0 && |v.curBytes| == v.wbs && |v.prevBytes| == v.wbs && |v.disk| == v.sz
    && v.curPos <= v.wbs
    && (v.cur.Some? ==> v.cur.value + v.wbs <= v.sz)
    && (v.prev.Some? ==> v.prev.value + v.wbs <= v.sz)
    && (v.cur.None? ==> v.curPos == v.wbs && v.prev.None?)
    && (v.prev.Some? <==> v.request != NoRequest)
    && Coalesced(v.free)
  }

  ghost predicate Inside(p: nat, size: nat, from: nat, to: nat) {
    from <= p && p + size <= to
  }

  ghost predicate Outside(p: nat, size: nat, from: nat, to: nat) {
    p + size <= from || to <= p
  }

  /** A block lies in the written part of the current buffer or outside of its region; in the latter case it lies
      in or outside of the region of the previous buffer. The regions of the two buffers may overlap.
   */
  ghost predicate PlacedAt(v: View, p: nat, size: nat) {
    || (v.cur.Some? && Inside(p, size, v.cur.value, v.cur.value + v.curPos))
    || ((v.cur.Some? ==> Outside(p, size, v.cur.value, v.cur.value + v.wbs))
        && (v.prev.Some? ==> Inside(p, size, v.prev.value, v.prev.value + v.wbs)
                             || Outside(p, size, v.prev.value, v.prev.value + v.wbs)))
  }

  ghost predicate AllPlaced(v: View) {
    forall p :: p in v.places ==> PlacedAt(v, p, v.places[p].size)
  }

  /** The byte at physical address `x`: the current buffer hides the previous one, which hides the disk. */
  ghost function ByteAt(v: View, x: nat): byte
    requires Shape(v) && x < v.sz
  {
    if InBuffer(v.cur, v.wbs, x) then v.curBytes[x - v.cur.value]
    else if InBuffer(v.prev, v.wbs, x) then v.prevBytes[x - v.prev.value]
    else v.disk[x]
  }

  ghost predicate Holds(v: View, p: nat, data: seq<byte>)
    requires Shape(v)
  {
    p + |data| <= v.sz && forall k :: 0 <= k < |data| ==> ByteAt(v, p + k) == data[k]
  }

  ghost predicate AllHeld(v: View)
    requires Shape(v)
  {
    forall l :: l in v.contents && l in v.mapping ==> Holds(v, v.mapping[l], v.contents[l])
  }

  /** Once the backend write is on disk, the disk agrees with the previous buffer wherever a block is mapped there and
      not hidden by the current buffer.
   */
  ghost predicate OnDisk(v: View)
    requires Shape(v)
  {
    v.request == Landed ==>
      forall x: nat :: InBuffer(v.prev, v.wbs, x) && !InBuffer(v.cur, v.wbs, x) && InMapped(v, x) ==> v.disk[x] == v.prevBytes[x - v.prev.value]
  }

  ghost predicate Inv(v: View) {
    Shape(v) && MapsInverse(v.mapping, v.places) && SameBlocks(v) && Partition(v) && AllPlaced(v) && AllHeld(v) && OnDisk(v)
  }

  /** `Inv(v)`, phrased so that a proof that only passes it on does not look inside. */
  ghost predicate Consistent(v: View) {
    forall w :: Same(w, v) ==> Inv(w)
  }

  lemma Open(v: View)
    requires Consistent(v)
    ensures Inv(v)
  {
    assert Same(v, v);
  }

  lemma Close(v: View)
    requires Inv(v)
    ensures Consistent(v)
  {
  }

  ghost function Tail(v: View): Regions
    requires v.curPos <= v.wbs
  {
    if v.cur.Some? then Single(v.cur.value + v.curPos, v.wbs - v.curPos) else Single(0, 0)
  }

  lemma TailMeaning(v: View)
    requires Shape(v)
    ensures Apart(Tail(v)) && SumOfSizes(Tail(v)) == v.wbs - v.curPos
    ensures forall x: nat :: In(Tail(v), x) <==> InTail(v, x)
  {
    if v.cur.Some? {
      SingleSum(v.cur.value + v.curPos, v.wbs - v.curPos);
    } else {
      SingleSum(0, 0);
    }
  }

  /** Three lists of regions that partition `[0, n)` have `n` bytes. */
  lemma PartitionSum(a: Regions, b: Regions, c: Regions, n: nat)
    requires Apart(a) && Apart(b) && Apart(c)
    requires forall x: nat :: x < n <==> In(a, x) || In(b, x) || In(c, x)
    requires forall x: nat :: !(In(a, x) && In(b, x)) && !(In(a, x) && In(c, x)) && !(In(b, x) && In(c, x))
    ensures n == SumOfSizes(a) + SumOfSizes(b) + SumOfSizes(c)
  {
    var r, s, t := CoveredSet(a), CoveredSet(b), CoveredSet(c);
    SumIsCovered(a, r);
    SumIsCovered(b, s);
    SumIsCovered(c, t);
    ThreeParts(r, s, t, n);
  }

  lemma ThreeParts(r: set<nat>, s: set<nat>, t: set<nat>, n: nat)
    requires forall x: nat :: x < n <==> x in r || x in s || x in t
    requires r !! s && r !! t && s !! t
    ensures n == |r| + |s| + |t|
  {
    var all := Range(0, n);
    assert r + s + t == all by {
      assert forall x: nat :: x in all <==> x < n;
    }
    assert |r + s + t| == |r + s| + |t|;
  }

  /** The byte count: nothing is lost or counted twice. */
  lemma SpaceAccounted(v: View)
    requires Shape(v) && Partition(v)
    ensures v.sz == SumOfSizes(v.free) + SumOfSizes(Sizes(v.places)) + (v.wbs - v.curPos)
  {
    TailMeaning(v);
    forall x: nat ensures x < v.sz <==> In(v.free, x) || In(Sizes(v.places), x) || In(Tail(v), x) {
      assert InMapped(v, x) == In(Sizes(v.places), x) && InTail(v, x) == In(Tail(v), x);
    }
    PartitionSum(v.free, Sizes(v.places), Tail(v), v.sz);
  }

  // ----- facts about blocks

  /** A block is a mapped range of addresses. */
  lemma BlockMapped(v: View, l: nat)
    requires MapsInverse(v.mapping, v.places) && SameBlocks(v) && l in v.contents
    ensures l in v.mapping && v.mapping[l] in v.places && v.places[v.mapping[l]] == Place(l, |v.contents[l]|)
    ensures forall x: nat :: Within(v.mapping[l], |v.contents[l]|, x) ==> InMapped(v, x)
  {
    var p := v.mapping[l];
    assert p in Sizes(v.places) && Sizes(v.places)[p] == |v.contents[l]|;
  }

  ghost predicate SameBytes(v: View, v': View)
    requires Shape(v) && Shape(v') && v'.sz >= v.sz
  {
    forall x: nat :: x < v.sz && InMapped(v, x) && InMapped(v', x) ==> ByteAt(v', x) == ByteAt(v, x)
  }

  lemma HeldOne(v: View, v': View, p: nat, data: seq<byte>)
    requires Shape(v) && Shape(v') && v'.sz >= v.sz && Holds(v, p, data)
    requires forall x: nat :: x < v.sz && Within(p, |data|, x) ==> ByteAt(v', x) == ByteAt(v, x)
    ensures Holds(v', p, data)
  {
    forall k | 0 <= k < |data| ensures ByteAt(v', p + k) == data[k] {
      assert Within(p, |data|, p + k);
    }
  }

  /** Views that agree on the bytes of the mapped blocks hold the same blocks. */
  lemma StillHeld(v: View, v': View)
    requires Shape(v) && MapsInverse(v.mapping, v.places) && SameBlocks(v) && AllHeld(v)
    requires Shape(v') && MapsInverse(v'.mapping, v'.places) && SameBlocks(v') && v'.sz >= v.sz
    requires forall l :: l in v'.contents ==> l in v.contents && v'.contents[l] == v.contents[l]
    requires forall l :: l in v'.mapping ==> l in v.mapping && v'.mapping[l] == v.mapping[l]
    requires SameBytes(v, v')
    ensures AllHeld(v')
  {
    forall l | l in v'.contents && l in v'.mapping ensures Holds(v', v'.mapping[l], v'.contents[l]) {
      BlockMapped(v, l);
      BlockMapped(v', l);
      HeldOne(v, v', v'.mapping[l], v'.contents[l]);
    }
  }

  // ----- the backend write lands

  function Patched(disk: seq<byte>, at: nat, bytes: seq<byte>): (r: seq<byte>)
    requires at + |bytes| <= |disk|
    ensures |r| == |disk|
    ensures forall x :: 0 <= x < |disk| ==> r[x] == if at <= x < at + |bytes| then bytes[x - at] else disk[x]
  {
    disk[..at] + bytes + disk[at + |bytes|..]
  }

  ghost function WithLanded(v: View): View
    requires Shape(v) && v.request != NoRequest
  {
    v.(request := Landed, disk := if v.request == Pending then Patched(v.disk, v.prev.value, v.prevBytes) else v.disk)
  }

  lemma LandedBytes(v: View, x: nat)
    requires Shape(v) && v.request != NoRequest && x < v.sz
    ensures ByteAt(WithLanded(v), x) == ByteAt(v, x)
  {
  }

  lemma LandedRest(v: View)
    requires Shape(v) && Partition(v) && AllPlaced(v) && v.request != NoRequest
    requires v.request == Landed ==> OnDisk(v)
    ensures Shape(WithLanded(v)) && Partition(WithLanded(v)) && AllPlaced(WithLanded(v)) && OnDisk(WithLanded(v))
  {
    var v' := WithLanded(v);
    assert forall x: nat :: InMapped(v', x) == InMapped(v, x) && InTail(v', x) == InTail(v, x);
    forall p | p in v'.places ensures PlacedAt(v', p, v'.places[p].size) {
      assert PlacedAt(v, p, v.places[p].size);
    }
  }

  lemma LandedKeeps(v: View)
    requires Inv(v) && v.request != NoRequest
    ensures Inv(WithLanded(v))
  {
    var v' := WithLanded(v);
    LandedRest(v);
    assert SameBytes(v, v') by {
      forall x: nat | x < v.sz ensures ByteAt(v', x) == ByteAt(v, x) {
        LandedBytes(v, x);
      }
    }
    StillHeld(v, v');
  }

  // ----- set_size

  ghost predicate IsGrown(v: View, v': View) {
    && v'.sz >= v.sz && |v'.disk| == v'.sz && v'.disk[..v.sz] == v.disk
    && Coalesced(v'.free) && Adds(v.free, v.sz, v'.sz - v.sz, v'.free)
    && v' == v.(sz := v'.sz, disk := v'.disk, free := v'.free)
  }

  lemma NewSpaceUnused(v: View, size: nat)
    requires Inv(v)
    ensures !Overlaps(v.free, v.sz, size)
  {
  }

  lemma GrownPartition(v: View, v': View)
    requires Shape(v) && Partition(v) && IsGrown(v, v')
    ensures Partition(v')
  {
    forall x: nat ensures InMapped(v', x) == InMapped(v, x) && InTail(v', x) == InTail(v, x) {
    }
  }

  lemma GrownBytes(v: View, v': View, x: nat)
    requires Shape(v) && Shape(v') && IsGrown(v, v') && x < v.sz
    ensures ByteAt(v', x) == ByteAt(v, x) && v'.disk[x] == v.disk[x]
  {
    assert v'.disk[..v.sz][x] == v.disk[x];
  }

  lemma GrownRest(v: View, v': View)
    requires Shape(v) && AllPlaced(v) && OnDisk(v) && IsGrown(v, v')
    ensures Shape(v') && AllPlaced(v') && OnDisk(v') && SameBytes(v, v')
  {
    forall p | p in v'.places ensures PlacedAt(v', p, v'.places[p].size) {
      assert PlacedAt(v, p, v.places[p].size);
    }
    forall x: nat | x < v.sz ensures ByteAt(v', x) == ByteAt(v, x) && v'.disk[x] == v.disk[x] {
      GrownBytes(v, v', x);
    }
  }

  lemma GrownKeeps(v: View, v': View)
    requires Inv(v) && IsGrown(v, v')
    ensures Inv(v')
  {
    GrownPartition(v, v');
    GrownRest(v, v');
    StillHeld(v, v');
  }

  // ----- discard

  /** The disk is the same outside of a region. */
  ghost predicate Spared(s: seq<byte>, pos: nat, size: nat, s': seq<byte>) {
    |s'| == |s| && forall x :: 0 <= x < |s| && !Within(pos, size, x) ==> s'[x] == s[x]
  }

  /** The backend may do what it likes with the bytes of a discarded region. */
  ghost predicate IsDiscarded(v: View, l: nat, v': View)
    requires l in v.mapping && v.mapping[l] in v.places
  {
    var p := v.mapping[l];
    var size := v.places[p].size;
    && Spared(v.disk, p, size, v'.disk)
    && Coalesced(v'.free) && Adds(v.free, p, size, v'.free)
    && v' == v.(mapping := v.mapping - {l}, places := v.places - {p}, contents := v.contents - {l},
                disk := v'.disk, free := v'.free)
  }

  lemma MappedNotFree(v: View, p: nat)
    requires MapsInverse(v.mapping, v.places) && SameBlocks(v) && Partition(v) && p in v.places
    ensures !Overlaps(v.free, p, v.places[p].size)
    ensures v.places[p].size > 0
    ensures forall x: nat :: Within(p, v.places[p].size, x) ==> InMapped(v, x)
  {
    BlockMapped(v, v.places[p].logical);
  }

  lemma DiscardedMapped(v: View, p: nat, x: nat)
    requires Apart(Sizes(v.places)) && p in v.places
    ensures In(Sizes(v.places - {p}), x) <==> InMapped(v, x) && !Within(p, v.places[p].size, x)
  {
    assert Sizes(v.places - {p}) == Sizes(v.places) - {p};
    InWithout(Sizes(v.places), p, x);
  }

  lemma DiscardedPartition(v: View, l: nat, v': View)
    requires MapsInverse(v.mapping, v.places) && SameBlocks(v) && Partition(v) && l in v.mapping && IsDiscarded(v, l, v')
    ensures Partition(v')
    ensures forall x: nat :: InMapped(v', x) <==> InMapped(v, x) && !Within(v.mapping[l], v.places[v.mapping[l]].size, x)
  {
    var p := v.mapping[l];
    MappedNotFree(v, p);
    forall x: nat ensures InMapped(v', x) <==> InMapped(v, x) && !Within(p, v.places[p].size, x) {
      DiscardedMapped(v, p, x);
    }
    assert forall x: nat :: InTail(v', x) == InTail(v, x);
    assert Apart(Sizes(v'.places)) by {
      assert Sizes(v'.places) == Sizes(v.places) - {p};
    }
  }

  lemma DiscardedShape(v: View, l: nat, v': View)
    requires Shape(v) && MapsInverse(v.mapping, v.places) && SameBlocks(v) && AllPlaced(v) && l in v.mapping && IsDiscarded(v, l, v')
    ensures Shape(v') && MapsInverse(v'.mapping, v'.places) && SameBlocks(v') && AllPlaced(v')
  {
    forall p | p in v'.places ensures PlacedAt(v', p, v'.places[p].size) {
      assert PlacedAt(v, p, v.places[p].size);
    }
  }

  lemma DiscardedBytes(v: View, l: nat, v': View)
    requires Shape(v) && Shape(v') && l in v.mapping && v.mapping[l] in v.places && IsDiscarded(v, l, v') && OnDisk(v)
    requires forall x: nat :: InMapped(v', x) <==> InMapped(v, x) && !Within(v.mapping[l], v.places[v.mapping[l]].size, x)
    ensures SameBytes(v, v') && OnDisk(v')
  {
    forall x: nat | x < v.sz && InMapped(v', x) ensures v'.disk[x] == v.disk[x] {
      assert !Within(v.mapping[l], v.places[v.mapping[l]].size, x);
    }
  }

  lemma DiscardedKeeps(v: View, l: nat, v': View)
    requires Inv(v) && l in v.mapping && IsDiscarded(v, l, v')
    ensures Inv(v')
  {
    DiscardedShape(v, l, v');
    DiscardedPartition(v, l, v');
    DiscardedBytes(v, l, v');
    StillHeld(v, v');
  }

  // ----- a new write buffer

  /** The unwritten part of the current buffer is given back. */
  ghost predicate IsClosed(v: View, v': View) {
    && Coalesced(v'.free)
    && (if v.cur.Some? && v.curPos < v.wbs then Adds(v.free, v.cur.value + v.curPos, v.wbs - v.curPos, v'.free) else v'.free == v.free)
    && v' == v.(curPos := v.wbs, free := v'.free)
  }

  lemma TailNotFree(v: View)
    requires Inv(v) && v.cur.Some? && v.curPos < v.wbs
    ensures !Overlaps(v.free, v.cur.value + v.curPos, v.wbs - v.curPos)
  {
  }

  lemma ClosedPartition(v: View, v': View)
    requires Shape(v) && Partition(v) && IsClosed(v, v')
    ensures Partition(v')
  {
    forall x: nat ensures InTail(v, x) <==> v.cur.Some? && Within(v.cur.value + v.curPos, v.wbs - v.curPos, x) {
    }
    forall x: nat ensures InMapped(v', x) == InMapped(v, x) && !InTail(v', x) {
    }
  }

  lemma ClosedPlaced(v: View, v': View)
    requires Shape(v) && AllPlaced(v) && IsClosed(v, v')
    ensures AllPlaced(v')
  {
    forall p | p in v'.places ensures PlacedAt(v', p, v'.places[p].size) {
      assert PlacedAt(v, p, v.places[p].size);
    }
  }

  lemma ClosedKeeps(v: View, v': View)
    requires Inv(v) && IsClosed(v, v')
    ensures Inv(v')
  {
    ClosedPartition(v, v');
    ClosedPlaced(v, v');
    forall x: nat | x < v.sz ensures ByteAt(v', x) == ByteAt(v, x) {
    }
    StillHeld(v, v');
  }

  /** The full buffer becomes the previous one and its write is issued; the current buffer gets a free region. The
      earlier write, if there was one, has landed.
   */
  ghost predicate IsSwitched(v: View, address: nat, v': View) {
    && v.curPos == v.wbs && (v.request == NoRequest || v.request == Landed)
    && Coalesced(v'.free) && Takes(v.free, address, v.wbs, v'.free) && (forall x :: Within(address, v.wbs, x) ==> !In(v'.free, x))
    && v' == v.(free := v'.free, cur := Some(address), curBytes := v.prevBytes, curPos := 0, prev := v.cur, prevBytes := v.curBytes,
                request := if v.cur.Some? then Pending else v.request)
  }

  lemma NewRegionFits(v: View, address: nat, v': View)
    requires Inv(v) && IsSwitched(v, address, v')
    ensures Shape(v')
    ensures forall p :: p in v.places ==> Outside(p, v.places[p].size, address, address + v.wbs)
    ensures forall x: nat :: Within(address, v.wbs, x) ==> In(v.free, x) && x < v.sz
  {
    assert Within(address, v.wbs, address + v.wbs - 1);
    forall p | p in v.places ensures Outside(p, v.places[p].size, address, address + v.wbs) {
      MappedNotFree(v, p);
      var x := if p < address then address else p;
      assert Within(address, v.wbs, x) ==> In(v.free, x);
      assert Within(p, v.places[p].size, x) ==> InMapped(v, x);
    }
  }

  lemma SwitchedPartition(v: View, address: nat, v': View)
    requires Inv(v) && IsSwitched(v, address, v')
    ensures Partition(v')
  {
    forall x: nat ensures InTail(v', x) <==> Within(address, v.wbs, x) {
    }
  }

  lemma SwitchedBytes(v: View, address: nat, v': View, x: nat)
    requires Inv(v) && IsSwitched(v, address, v') && Shape(v') && x < v.sz && InMapped(v, x) && !Within(address, v.wbs, x)
    ensures ByteAt(v', x) == ByteAt(v, x)
  {
  }

  lemma SwitchedKeeps(v: View, address: nat, v': View)
    requires Inv(v) && IsSwitched(v, address, v')
    ensures Inv(v')
  {
    NewRegionFits(v, address, v');
    SwitchedPartition(v, address, v');
    forall x: nat | x < v.sz && InMapped(v, x) && InMapped(v', x) ensures ByteAt(v', x) == ByteAt(v, x) {
      SwitchedBytes(v, address, v', x);
    }
    StillHeld(v, v');
  }

  // ----- a block goes into the current buffer

  ghost predicate IsPut(v: View, l: nat, data: seq<byte>, v': View)
    requires Shape(v)
  {
    && v.cur.Some? && 0 < |data| <= v.wbs - v.curPos
    && v' == v.(mapping := v.mapping[l := v.cur.value + v.curPos],
                places := v.places[v.cur.value + v.curPos := Place(l, |data|)],
                contents := v.contents[l := data],
                curBytes := Patched(v.curBytes, v.curPos, data), curPos := v.curPos + |data|)
  }

  lemma PutMapped(v: View, l: nat, data: seq<byte>, v': View, x: nat)
    requires Shape(v) && IsPut(v, l, data, v') && v.cur.value + v.curPos !in v.places
    ensures InMapped(v', x) <==> InMapped(v, x) || Within(v.cur.value + v.curPos, |data|, x)
  {
    var a := v.cur.value + v.curPos;
    var m, m' := Sizes(v.places), Sizes(v'.places);
    assert m' == m[a := |data|] && a !in m;
    if In(m, x) {
      var q: nat :| q in m && q <= x < q + m[q];
      assert q in m' && m'[q] == m[q];
    }
    if Within(a, |data|, x) {
      assert a in m' && a <= x < a + m'[a];
    }
  }

  lemma TailUnmapped(v: View)
    requires Inv(v) && v.cur.Some? && v.curPos < v.wbs
    ensures v.cur.value + v.curPos !in v.places
    ensures forall p :: p in v.places ==> Outside(p, v.places[p].size, v.cur.value + v.curPos, v.cur.value + v.wbs)
  {
    forall p | p in v.places ensures p != v.cur.value + v.curPos && Outside(p, v.places[p].size, v.cur.value + v.curPos, v.cur.value + v.wbs) {
      assert PlacedAt(v, p, v.places[p].size);
      MappedNotFree(v, p);
      assert Within(p, v.places[p].size, p) && !InTail(v, p);
    }
  }

  lemma PutApart(v: View, l: nat, data: seq<byte>, v': View)
    requires Shape(v) && Apart(Sizes(v.places)) && IsPut(v, l, data, v')
    requires forall p :: p in v.places ==> Outside(p, v.places[p].size, v.cur.value + v.curPos, v.cur.value + v.wbs)
    requires v.cur.value + v.curPos !in v.places
    ensures Apart(Sizes(v'.places))
  {
    assert Sizes(v'.places) == Sizes(v.places)[v.cur.value + v.curPos := |data|];
  }

  lemma PutPartition(v: View, l: nat, data: seq<byte>, v': View)
    requires Inv(v) && IsPut(v, l, data, v')
    ensures Partition(v')
    ensures forall x: nat :: InMapped(v', x) <==> InMapped(v, x) || Within(v.cur.value + v.curPos, |data|, x)
  {
    var a := v.cur.value + v.curPos;
    TailUnmapped(v);
    PutApart(v, l, data, v');
    forall x: nat ensures InMapped(v', x) <==> InMapped(v, x) || Within(a, |data|, x) {
      PutMapped(v, l, data, v', x);
    }
    forall x: nat ensures InTail(v, x) <==> InTail(v', x) || Within(a, |data|, x) {
    }
  }

  lemma PutBytes(v: View, l: nat, data: seq<byte>, v': View, x: nat)
    requires Shape(v) && IsPut(v, l, data, v') && Shape(v') && x < v.sz && !Within(v.cur.value + v.curPos, |data|, x)
    ensures ByteAt(v', x) == ByteAt(v, x)
  {
  }

  lemma PutHeldOther(v: View, l: nat, data: seq<byte>, v': View, l': nat)
    requires Shape(v) && MapsInverse(v.mapping, v.places) && SameBlocks(v) && AllHeld(v) && IsPut(v, l, data, v') && Shape(v')
    requires forall x: nat :: Within(v.cur.value + v.curPos, |data|, x) ==> !InMapped(v, x)
    requires l' != l && l' in v.contents
    ensures l' in v.mapping && Holds(v', v.mapping[l'], v.contents[l'])
  {
    BlockMapped(v, l');
    forall x: nat | x < v.sz && Within(v.mapping[l'], |v.contents[l']|, x) ensures ByteAt(v', x) == ByteAt(v, x) {
      PutBytes(v, l, data, v', x);
    }
    HeldOne(v, v', v.mapping[l'], v.contents[l']);
  }

  lemma PutHeld(v: View, l: nat, data: seq<byte>, v': View)
    requires Inv(v) && l !in v.mapping && IsPut(v, l, data, v') && Shape(v')
    ensures AllHeld(v')
  {
    forall x: nat | Within(v.cur.value + v.curPos, |data|, x) ensures !InMapped(v, x) {
      assert InTail(v, x);
    }
    assert Holds(v', v'.mapping[l], data);
    forall l' | l' in v'.contents && l' in v'.mapping ensures Holds(v', v'.mapping[l'], v'.contents[l']) {
      if l' != l {
        PutHeldOther(v, l, data, v', l');
      }
    }
  }

  lemma PutMaps(v: View, l: nat, data: seq<byte>, v': View)
    requires Shape(v) && MapsInverse(v.mapping, v.places) && SameBlocks(v) && l !in v.mapping && IsPut(v, l, data, v')
    requires v.cur.value + v.curPos !in v.places
    ensures MapsInverse(v'.mapping, v'.places) && SameBlocks(v')
  {
  }

  lemma PutShape(v: View, l: nat, data: seq<byte>, v': View)
    requires Shape(v) && AllPlaced(v) && IsPut(v, l, data, v')
    ensures Shape(v') && AllPlaced(v')
  {
    forall p | p in v'.places ensures PlacedAt(v', p, v'.places[p].size) {
      assert p in v.places ==> PlacedAt(v, p, v.places[p].size);
    }
  }

  lemma PutOnDisk(v: View, l: nat, data: seq<byte>, v': View)
    requires Shape(v) && OnDisk(v) && IsPut(v, l, data, v') && Shape(v')
    requires forall x: nat :: InMapped(v', x) <==> InMapped(v, x) || Within(v.cur.value + v.curPos, |data|, x)
    ensures OnDisk(v')
  {
  }

  lemma PutKeeps(v: View, l: nat, data: seq<byte>, v': View)
    requires Inv(v) && l !in v.mapping && IsPut(v, l, data, v')
    ensures Inv(v')
  {
    TailUnmapped(v);
    PutMaps(v, l, data, v');
    PutShape(v, l, data, v');
    PutPartition(v, l, data, v');
    PutHeld(v, l, data, v');
    PutOnDisk(v, l, data, v');
  }

  // ----- the steps, for callers that do not look into the invariant

  lemma Land(v: View)
    requires Consistent(v) && Shape(v) && v.request != NoRequest
    ensures Consistent(WithLanded(v)) && Shape(WithLanded(v))
  {
    Open(v);
    LandedKeeps(v);
  }

  lemma BeforeGrow(v: View, size: nat)
    requires Consistent(v)
    ensures !Overlaps(v.free, v.sz, size)
  {
    Open(v);
    NewSpaceUnused(v, size);
  }

  lemma Grow(v: View, v': View)
    requires Consistent(v) && IsGrown(v, v')
    ensures Consistent(v') && Shape(v')
  {
    Open(v);
    GrownKeeps(v, v');
  }

  lemma Keys(v: View)
    requires Consistent(v)
    ensures v.contents.Keys == v.mapping.Keys
  {
    Open(v);
  }

  lemma BeforeDiscard(v: View, l: nat)
    requires Consistent(v) && l in v.mapping
    ensures l in v.contents && v.mapping[l] in v.places && v.places[v.mapping[l]] == Place(l, |v.contents[l]|) && |v.contents[l]| > 0
    ensures !Overlaps(v.free, v.mapping[l], |v.contents[l]|)
  {
    Open(v);
    BlockMapped(v, l);
    MappedNotFree(v, v.mapping[l]);
  }

  lemma Discard(v: View, l: nat, v': View)
    requires Consistent(v) && l in v.mapping && v.mapping[l] in v.places && IsDiscarded(v, l, v')
    ensures Consistent(v') && Shape(v')
  {
    Open(v);
    DiscardedKeeps(v, l, v');
  }

  lemma BeforeClose(v: View)
    requires Consistent(v) && v.cur.Some? && v.curPos < v.wbs
    ensures !Overlaps(v.free, v.cur.value + v.curPos, v.wbs - v.curPos)
  {
    Open(v);
    TailNotFree(v);
  }

  lemma CloseBuffer(v: View, v': View)
    requires Consistent(v) && IsClosed(v, v')
    ensures Consistent(v') && Shape(v')
  {
    Open(v);
    ClosedKeeps(v, v');
  }

  lemma Switch(v: View, address: nat, v': View)
    requires Consistent(v) && IsSwitched(v, address, v')
    ensures Consistent(v') && Shape(v')
  {
    Open(v);
    SwitchedKeeps(v, address, v');
  }

  lemma Put(v: View, l: nat, data: seq<byte>, v': View)
    requires Consistent(v) && Shape(v) && l !in v.contents && IsPut(v, l, data, v')
    ensures Consistent(v') && Shape(v')
  {
    Open(v);
    PutKeeps(v, l, data, v');
  }

  // ----- reading a block

  /** A mapped block lies below the size of the file. */
  lemma BlockBelowSize(v: View, l: nat)
    requires Consistent(v) && l in v.contents
    ensures l in v.mapping && v.mapping[l] + |v.contents[l]| <= v.sz && v.mapping[l] < v.sz
  {
    Open(v);
    BlockMapped(v, l);
    assert Holds(v, v.mapping[l], v.contents[l]);
  }

  ghost predicate FoundIn(s: seq<byte>, from: int, data: seq<byte>) {
    0 <= from && from + |data| <= |s| && s[from..from + |data|] == data
  }

  /** The block is found whole in the first place that covers its address: the current buffer, the previous one, the disk. */
  lemma BlockRead(v: View, l: nat)
    requires Consistent(v) && l in v.contents
    ensures l in v.mapping
    ensures InBuffer(v.cur, v.wbs, v.mapping[l]) ==> FoundIn(v.curBytes, v.mapping[l] - v.cur.value, v.contents[l])
    ensures !InBuffer(v.cur, v.wbs, v.mapping[l]) && InBuffer(v.prev, v.wbs, v.mapping[l]) ==>
              FoundIn(v.prevBytes, v.mapping[l] - v.prev.value, v.contents[l])
    ensures !InBuffer(v.cur, v.wbs, v.mapping[l]) && !InBuffer(v.prev, v.wbs, v.mapping[l]) ==> FoundIn(v.disk, v.mapping[l], v.contents[l])
  {
    Open(v);
    BlockMapped(v, l);
    var p, data := v.mapping[l], v.contents[l];
    assert PlacedAt(v, p, |data|) && Holds(v, p, data);
    HeldFound(v, p, data);
  }

  lemma HeldFound(v: View, p: nat, data: seq<byte>)
    requires Shape(v) && PlacedAt(v, p, |data|) && Holds(v, p, data) && |data| > 0
    ensures InBuffer(v.cur, v.wbs, p) ==> FoundIn(v.curBytes, p - v.cur.value, data)
    ensures !InBuffer(v.cur, v.wbs, p) && InBuffer(v.prev, v.wbs, p) ==> FoundIn(v.prevBytes, p - v.prev.value, data)
    ensures !InBuffer(v.cur, v.wbs, p) && !InBuffer(v.prev, v.wbs, p) ==> FoundIn(v.disk, p, data)
  {
    assert forall k :: 0 <= k < |data| ==> ByteAt(v, p + k) == data[k];
    if InBuffer(v.cur, v.wbs, p) {
      assert v.curBytes[p - v.cur.value..p - v.cur.value + |data|] == data;
    } else if InBuffer(v.prev, v.wbs, p) {
      assert v.prevBytes[p - v.prev.value..p - v.prev.value + |data|] == data;
    } else {
      assert v.disk[p..p + |data|] == data;
    }
  }
}
