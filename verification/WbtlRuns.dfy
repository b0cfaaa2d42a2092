/** The operations of `wbtl_file` as relations between views, and what holds over every run of them. */
module WbtlRuns {
  import opened Options
  import opened Bytes
  import opened Multiples
  import opened FreeSpace
  import opened WbtlView

  /** The physical offset that `sread` uses for "not mapped". */
  const NOT_MAPPED: nat := 0xffff_ffff

  // ----- the operations

  /** A file that was just constructed. */
  ghost predicate IsNew(v: View, wbs: nat) {
    && v.wbs == wbs == v.curPos && v.sz == 0
    && v.mapping == map[] && v.places == map[] && v.free == map[] && v.contents == map[]
    && v.cur == None && v.prev == None && v.request == NoRequest
  }

  /** `set_size`: what is new is free. */
  ghost predicate Resizes(v: View, newSize: nat, v': View) {
    v'.sz == newSize && if newSize == v.sz then v' == v else IsGrown(v, v')
  }

  /** `discard`: a block that is not mapped is ignored. */
  ghost predicate Discards(v: View, l: nat, v': View) {
    if l in v.mapping then v.mapping[l] in v.places && IsDiscarded(v, l, v') else v' == v
  }

  /** The backend write, if there is one, is on disk. */
  ghost function Settled(v: View): View
    requires Shape(v)
  {
    if v.request == NoRequest then v else WithLanded(v)
  }

  /** The rest of the current buffer is free, and the backend has nothing to do. */
  ghost predicate IsFlushed(v: View, v': View) {
    Shape(v) && IsClosed(Settled(v), v')
  }

  /** The buffers change their roles, and the write of the full one is issued if it has an address. */
  ghost function Flipped(v: View): View {
    v.(cur := v.prev, curBytes := v.prevBytes, prev := v.cur, prevBytes := v.curBytes,
       request := if v.cur.Some? then Pending else v.request)
  }

  /** The other buffer takes over, at the front of the first free region that is as large as a write block. */
  ghost predicate TakesOver(v: View, v': View) {
    v'.cur.Some? && IsFirstFit(v.free, v.wbs, v'.cur.value) && IsSwitched(v, v'.cur.value, v')
  }

  ghost predicate Switches(v: View, v': View) {
    exists e :: IsFlushed(v, e) && TakesOver(e, v')
  }

  /** No free region is as large as a write block. The library throws before it sets an address for the new buffer. */
  ghost predicate RunsOut(v: View, v': View) {
    exists e :: IsFlushed(v, e) && !Fits(e.free, e.wbs) && v' == Flipped(e).(curPos := v.curPos)
  }

  ghost predicate MakesRoom(v: View, bytes: nat, v': View) {
    if bytes <= v.wbs - v.curPos then v' == v else Switches(v, v')
  }

  ghost predicate Puts(v: View, l: nat, data: seq<byte>, v': View) {
    Shape(v) && IsPut(v, l, data, v')
  }

  /** The new block goes into the current buffer, or into the next one. */
  ghost predicate Stores(v: View, l: nat, data: seq<byte>, v': View) {
    exists r :: MakesRoom(v, |data|, r) && Puts(r, l, data, v')
  }

  /** `swrite` */
  ghost predicate Writes(v: View, l: nat, data: seq<byte>, v': View) {
    exists d :: Discards(v, l, d) && Stores(d, l, data, v')
  }

  /** `swrite` that throws */
  ghost predicate WriteFails(v: View, l: nat, data: seq<byte>, v': View) {
    exists d :: Discards(v, l, d) && |data| > d.wbs - d.curPos && RunsOut(d, v')
  }

  /** What `Puts` says about addresses. */
  ghost predicate LaidOut(v: View, l: nat, data: seq<byte>, v': View) {
    && v.cur.Some? && v'.cur == v.cur && v'.prev == v.prev && v'.curPos == v.curPos + |data|
    && v'.wbs == v.wbs && v'.sz == v.sz && v'.free == v.free
    && v'.mapping == v.mapping[l := v.cur.value + v.curPos] && v'.contents == v.contents[l := data]
  }

  lemma PutsLaidOut(v: View, l: nat, data: seq<byte>, v': View)
    requires Puts(v, l, data, v')
    ensures LaidOut(v, l, data, v')
  {
  }

  // ----- every operation keeps the invariant

  lemma SettledKeeps(v: View)
    requires Consistent(v) && Shape(v)
    ensures Consistent(Settled(v)) && Shape(Settled(v)) && Settled(v).request != Pending
    ensures Settled(v).contents == v.contents && Settled(v).wbs == v.wbs && Settled(v).sz == v.sz
  {
    if v.request != NoRequest {
      WbtlView.Land(v);
    }
  }

  lemma FlushedKeeps(v: View, e: View)
    requires Consistent(v) && IsFlushed(v, e)
    ensures Consistent(e) && Shape(e) && e.request != Pending
  {
    SettledKeeps(v);
    CloseBuffer(Settled(v), e);
  }

  /** The order in which the rest is freed and the backend finishes does not matter. */
  lemma FlushedByParts(v: View, w: View)
    requires Shape(v) && Shape(w) && w == v.(free := w.free) && IsClosed(v, w.(curPos := v.wbs))
    ensures IsFlushed(v, Settled(w).(curPos := v.wbs))
  {
  }

  /** A buffer without an address has nothing to flush. */
  lemma FlushedNothing(v: View)
    requires Shape(v) && v.cur.None?
    ensures v.curPos == v.wbs && IsFlushed(v, v)
  {
  }

  lemma NewKeeps(v: View, wbs: nat)
    requires IsNew(v, wbs) && Shape(v)
    ensures Consistent(v)
  {
    assert Sizes(v.places) == map[];
    Close(v);
  }

  lemma ResizesKeeps(v: View, newSize: nat, v': View)
    requires Consistent(v) && Resizes(v, newSize, v') && v.sz <= newSize
    ensures Consistent(v') && v'.contents == v.contents && v'.wbs == v.wbs && v'.sz == newSize
  {
    if newSize != v.sz {
      Grow(v, v');
    }
  }

  lemma DiscardsFrom(v: View, l: nat, free: Regions, disk: seq<byte>, v': View)
    requires l in v.mapping && v.mapping[l] in v.places
    requires Coalesced(free) && Adds(v.free, v.mapping[l], v.places[v.mapping[l]].size, free)
    requires Spared(v.disk, v.mapping[l], v.places[v.mapping[l]].size, disk)
    requires v' == v.(mapping := v.mapping - {l}, places := v.places - {v.mapping[l]}, contents := v.contents - {l}, disk := disk, free := free)
    ensures Discards(v, l, v')
  {
  }

  lemma DiscardsKeeps(v: View, l: nat, v': View)
    requires Consistent(v) && Discards(v, l, v')
    ensures Consistent(v') && Shape(v') && v'.contents == v.contents - {l} && l !in v'.contents && v'.wbs == v.wbs && v'.sz == v.sz
  {
    Open(v);
    if l in v.mapping {
      WbtlView.Discard(v, l, v');
    }
  }

  lemma MakesRoomKeeps(v: View, bytes: nat, v': View)
    requires Consistent(v) && MakesRoom(v, bytes, v')
    ensures Consistent(v') && v'.contents == v.contents && v'.wbs == v.wbs && v'.sz == v.sz
  {
    if bytes > v.wbs - v.curPos {
      var e :| IsFlushed(v, e) && TakesOver(e, v');
      FlushedKeeps(v, e);
      Switch(e, v'.cur.value, v');
    }
  }

  lemma PutsKeeps(v: View, l: nat, data: seq<byte>, v': View)
    requires Consistent(v) && l !in v.contents && Puts(v, l, data, v')
    ensures Consistent(v') && Shape(v') && v'.contents == v.contents[l := data] && v'.wbs == v.wbs && v'.sz == v.sz
  {
    WbtlView.Put(v, l, data, v');
  }

  lemma StoresKeeps(v: View, l: nat, data: seq<byte>, v': View)
    requires Consistent(v) && l !in v.contents && Stores(v, l, data, v')
    ensures Consistent(v') && Shape(v') && v'.contents == v.contents[l := data] && v'.wbs == v.wbs && v'.sz == v.sz
  {
    var r :| MakesRoom(v, |data|, r) && Puts(r, l, data, v');
    MakesRoomKeeps(v, |data|, r);
    PutsKeeps(r, l, data, v');
  }

  lemma StoresFrom(v: View, l: nat, data: seq<byte>, r: View, v': View)
    requires Consistent(v) && l !in v.contents && MakesRoom(v, |data|, r) && Puts(r, l, data, v')
    ensures Stores(v, l, data, v') && Consistent(v') && Shape(v')
  {
    StoresKeeps(v, l, data, v');
  }

  lemma Rewritten(m: map<nat, seq<byte>>, l: nat, data: seq<byte>)
    ensures (m - {l})[l := data] == m[l := data]
  {
  }

  lemma WritesKeeps(v: View, l: nat, data: seq<byte>, v': View)
    requires Consistent(v) && Writes(v, l, data, v')
    ensures Consistent(v') && Shape(v') && v'.contents == v.contents[l := data] && v'.wbs == v.wbs && v'.sz == v.sz
  {
    var d :| Discards(v, l, d) && Stores(d, l, data, v');
    DiscardsKeeps(v, l, d);
    StoresKeeps(d, l, data, v');
    Rewritten(v.contents, l, data);
  }

  // ----- the layout does not depend on what the backend does with its bytes

  ghost predicate SameLayout(a: View, b: View) {
    a == b.(disk := a.disk)
  }

  lemma DiscardsSame(v: View, l: nat, a: View, b: View)
    requires Discards(v, l, a) && Discards(v, l, b)
    ensures SameLayout(a, b)
  {
    if l in v.mapping {
      Canonical(a.free, b.free);
    }
  }

  lemma ClosedSame(v: View, w: View, a: View, b: View)
    requires SameLayout(v, w) && v.curPos <= v.wbs && IsClosed(v, a) && IsClosed(w, b)
    ensures SameLayout(a, b)
  {
    if v.cur.Some? && v.curPos < v.wbs {
      Canonical(a.free, b.free);
    }
  }

  lemma SettledSame(v: View, w: View)
    requires SameLayout(v, w) && Shape(v) && Shape(w)
    ensures SameLayout(Settled(v), Settled(w)) && Settled(v).curPos <= Settled(v).wbs
  {
  }

  lemma FlushedSame(v: View, w: View, a: View, b: View)
    requires SameLayout(v, w) && IsFlushed(v, a) && IsFlushed(w, b)
    ensures SameLayout(a, b)
  {
    SettledSame(v, w);
    ClosedSame(Settled(v), Settled(w), a, b);
  }

  lemma SwitchesSame(v: View, w: View, a: View, b: View)
    requires SameLayout(v, w) && Switches(v, a) && Switches(w, b)
    ensures SameLayout(a, b)
  {
    var e :| IsFlushed(v, e) && TakesOver(e, a);
    var f :| IsFlushed(w, f) && TakesOver(f, b);
    FlushedSame(v, w, e, f);
    TakesOverSame(e, f, a, b);
  }

  lemma TakesOverSame(e: View, f: View, a: View, b: View)
    requires SameLayout(e, f) && TakesOver(e, a) && TakesOver(f, b)
    ensures SameLayout(a, b)
  {
    assert a.cur.value == b.cur.value;
    Canonical(a.free, b.free);
  }

  lemma MakesRoomSame(v: View, w: View, bytes: nat, a: View, b: View)
    requires SameLayout(v, w) && MakesRoom(v, bytes, a) && MakesRoom(w, bytes, b)
    ensures SameLayout(a, b)
  {
    if bytes > v.wbs - v.curPos {
      SwitchesSame(v, w, a, b);
    }
  }

  /** The state decides where a block goes. */
  lemma WritesSame(v: View, l: nat, data: seq<byte>, a: View, b: View)
    requires Writes(v, l, data, a) && Writes(v, l, data, b)
    ensures SameLayout(a, b)
  {
    var d :| Discards(v, l, d) && Stores(d, l, data, a);
    var e :| Discards(v, l, e) && Stores(e, l, data, b);
    DiscardsSame(v, l, d, e);
    var r :| MakesRoom(d, |data|, r) && Puts(r, l, data, a);
    var s :| MakesRoom(e, |data|, s) && Puts(s, l, data, b);
    MakesRoomSame(d, e, |data|, r, s);
    PutsSame(r, s, l, data, a, b);
  }

  lemma PutsSame(r: View, s: View, l: nat, data: seq<byte>, a: View, b: View)
    requires SameLayout(r, s) && Puts(r, l, data, a) && Puts(s, l, data, b)
    ensures SameLayout(a, b)
  {
  }

  /** The state decides whether a write succeeds. */
  lemma WritesOrFails(v: View, l: nat, data: seq<byte>, a: View, b: View)
    requires Writes(v, l, data, a)
    ensures !WriteFails(v, l, data, b)
  {
    var d :| Discards(v, l, d) && Stores(d, l, data, a);
    forall e | Discards(v, l, e) && |data| > e.wbs - e.curPos ensures !RunsOut(e, b) {
      DiscardsSame(v, l, d, e);
      var r :| MakesRoom(d, |data|, r) && Puts(r, l, data, a);
      SwitchesOrRunsOut(d, e, r, b);
    }
  }

  lemma SwitchesOrRunsOut(v: View, w: View, a: View, b: View)
    requires SameLayout(v, w) && Switches(v, a)
    ensures !RunsOut(w, b)
  {
    var e :| IsFlushed(v, e) && TakesOver(e, a);
    forall f | IsFlushed(w, f) ensures Fits(f.free, f.wbs) {
      FlushedSame(v, w, e, f);
    }
  }

  // ----- runs

  /** What can happen to a file. `Land` is the moment the backend write completes; `junk` and `garbage` are the
      bytes that the model leaves open.
   */
  datatype Op =
    | SetSize(newSize: nat, junk: nat -> byte)
    | Write(offset: nat, data: seq<byte>, junk: nat -> byte)
    | Read(offset: nat, bytes: nat, garbage: seq<byte>)
    | Discard(offset: nat, size: nat, junk: nat -> byte)
    | Land

  ghost predicate Steps(op: Op, v: View, v': View) {
    match op
    case SetSize(newSize, _) => Resizes(v, newSize, v')
    case Write(offset, data, _) => Writes(v, offset, data, v')
    case Read(_, _, _) => v' == v
    case Discard(offset, _, _) => Discards(v, offset, v')
    case Land => Shape(v) && v' == Settled(v)
  }

  /** The states of a new file before each of the operations, as far as they succeed. */
  ghost predicate IsRun(ops: seq<Op>, wbs: nat, views: seq<View>) {
    && 0 < |views| <= |ops| + 1
    && IsNew(views[0], wbs) && Shape(views[0])
    && forall i :: 0 <= i < |views| - 1 ==> Steps(ops[i], views[i], views[i + 1])
  }

  /** The plain file: a map from offsets to bytes. */
  ghost function Plain(ops: seq<Op>, n: nat): map<nat, seq<byte>>
    requires n <= |ops|
  {
    if n == 0 then map[]
    else
      match ops[n - 1]
      case Write(offset, data, _) => Plain(ops, n - 1)[offset := data]
      case Discard(offset, _, _) => Plain(ops, n - 1) - {offset}
      case _ => Plain(ops, n - 1)
  }

  ghost function SizeAfter(ops: seq<Op>, n: nat): nat
    requires n <= |ops|
  {
    if n == 0 then 0 else if ops[n - 1].SetSize? then ops[n - 1].newSize else SizeAfter(ops, n - 1)
  }

  lemma StepKeeps(op: Op, v: View, v': View)
    requires Consistent(v) && Steps(op, v, v')
    ensures Consistent(v') && v'.wbs == v.wbs && v'.sz == if op.SetSize? then op.newSize else v.sz
    ensures v'.contents == if op.Write? then v.contents[op.offset := op.data]
                           else if op.Discard? then v.contents - {op.offset} else v.contents
  {
    match op
    case SetSize(newSize, _) => ResizesKeeps(v, newSize, v');
    case Write(offset, data, _) => WritesKeeps(v, offset, data, v');
    case Read(_, _, _) =>
    case Discard(offset, _, _) => DiscardsKeeps(v, offset, v');
    case Land => SettledKeeps(v);
  }

  /** In every state of a run the invariant holds, and the file stands for the plain file. */
  lemma {:induction false} RunRefinesPlain(ops: seq<Op>, wbs: nat, views: seq<View>, i: nat)
    requires IsRun(ops, wbs, views) && i < |views|
    ensures Consistent(views[i]) && views[i].wbs == wbs && views[i].sz == SizeAfter(ops, i) && views[i].contents == Plain(ops, i)
  {
    if i == 0 {
      NewKeeps(views[0], wbs);
    } else {
      RunRefinesPlain(ops, wbs, views, i - 1);
      assert Steps(ops[i - 1], views[i - 1], views[i - 1 + 1]);
      StepKeeps(ops[i - 1], views[i - 1], views[i]);
    }
  }

  // ----- the address that means "not mapped"

  /** The branch of `sread` that takes a mapped block for an unmapped one is not taken. */
  ghost predicate Readable(v: View, l: nat) {
    l in v.mapping ==> InBuffer(v.cur, v.wbs, v.mapping[l]) || InBuffer(v.prev, v.wbs, v.mapping[l]) || v.mapping[l] != NOT_MAPPED
  }

  /** At any time at most one mapped block cannot be read. */
  lemma AtMostOne(v: View, l: nat, l': nat)
    requires Consistent(v) && l in v.contents && l' in v.contents && !Readable(v, l) && !Readable(v, l')
    ensures l == l'
  {
    Open(v);
  }

  /** In a file of at most 0xffffffff bytes no mapped block lies at the address that means "not mapped". */
  lemma SmallReadable(v: View, l: nat)
    requires Consistent(v) && l in v.contents && v.sz <= NOT_MAPPED
    ensures Readable(v, l)
  {
    BlockBelowSize(v, l);
  }

  // ----- files in units of `d` bytes

  ghost predicate AddressesAligned(m: map<nat, nat>, d: nat)
    requires d > 0
  {
    forall l :: l in m ==> Divides(d, m[l])
  }

  ghost predicate LengthsAligned(m: map<nat, seq<byte>>, d: nat)
    requires d > 0
  {
    forall l :: l in m ==> Divides(d, |m[l]|)
  }

  ghost predicate Aligned(v: View, d: nat)
    requires d > 0
  {
    && Divides(d, v.wbs) && Divides(d, v.sz) && Divides(d, v.curPos)
    && (v.cur.Some? ==> Divides(d, v.cur.value))
    && AddressesAligned(v.mapping, d) && LengthsAligned(v.contents, d)
    && InUnits(v.free, d)
  }

  lemma ResizesAligned(v: View, newSize: nat, v': View, d: nat)
    requires d > 0 && Aligned(v, d) && Resizes(v, newSize, v') && Divides(d, newSize)
    ensures Aligned(v', d)
  {
    if newSize != v.sz {
      DifferenceOfMultiples(d, newSize, v.sz);
      AddsInUnits(v.free, v.sz, newSize - v.sz, v'.free, d);
    }
  }

  lemma DiscardsAligned(v: View, l: nat, v': View, d: nat)
    requires d > 0 && Consistent(v) && Aligned(v, d) && Discards(v, l, v')
    ensures Aligned(v', d)
  {
    if l in v.mapping {
      BeforeDiscard(v, l);
      AddsInUnits(v.free, v.mapping[l], |v.contents[l]|, v'.free, d);
    }
  }

  lemma FlushedAligned(v: View, e: View, d: nat)
    requires d > 0 && Aligned(v, d) && IsFlushed(v, e)
    ensures Aligned(e, d)
  {
    ClosedAligned(Settled(v), e, d);
  }

  lemma ClosedAligned(v: View, e: View, d: nat)
    requires d > 0 && Aligned(v, d) && v.curPos <= v.wbs && IsClosed(v, e)
    ensures Aligned(e, d)
  {
    if v.cur.Some? && v.curPos < v.wbs {
      SumOfMultiples(d, v.cur.value, v.curPos);
      DifferenceOfMultiples(d, v.wbs, v.curPos);
      AddsInUnits(v.free, v.cur.value + v.curPos, v.wbs - v.curPos, e.free, d);
    }
  }

  lemma MakesRoomAligned(v: View, bytes: nat, v': View, d: nat)
    requires d > 0 && Consistent(v) && Aligned(v, d) && MakesRoom(v, bytes, v')
    ensures Aligned(v', d)
  {
    if bytes > v.wbs - v.curPos {
      var e :| IsFlushed(v, e) && TakesOver(e, v');
      FlushedKeeps(v, e);
      FlushedAligned(v, e, d);
      StartsAtUnit(e.free, v'.cur.value, d);
      TakesInUnits(e.free, v'.cur.value, e.wbs, v'.free, d);
    }
  }

  lemma PutsAligned(v: View, l: nat, data: seq<byte>, v': View, d: nat)
    requires d > 0 && Aligned(v, d) && LaidOut(v, l, data, v') && Divides(d, |data|)
    ensures Aligned(v', d)
  {
    SumOfMultiples(d, v.cur.value, v.curPos);
    SumOfMultiples(d, v.curPos, |data|);
    MoreAligned(v.mapping, v.contents, l, v.cur.value + v.curPos, data, d);
  }

  lemma MoreAligned(m: map<nat, nat>, c: map<nat, seq<byte>>, l: nat, p: nat, data: seq<byte>, d: nat)
    requires d > 0 && AddressesAligned(m, d) && LengthsAligned(c, d) && Divides(d, p) && Divides(d, |data|)
    ensures AddressesAligned(m[l := p], d) && LengthsAligned(c[l := data], d)
  {
  }

  lemma WritesAligned(v: View, l: nat, data: seq<byte>, v': View, d: nat)
    requires d > 0 && Consistent(v) && Aligned(v, d) && Writes(v, l, data, v') && Divides(d, |data|)
    ensures Aligned(v', d)
  {
    var u :| Discards(v, l, u) && Stores(u, l, data, v');
    DiscardsKeeps(v, l, u);
    DiscardsAligned(v, l, u, d);
    var r :| MakesRoom(u, |data|, r) && Puts(r, l, data, v');
    MakesRoomAligned(u, |data|, r, d);
    PutsLaidOut(r, l, data, v');
    PutsAligned(r, l, data, v', d);
  }

  ghost predicate OpInUnits(op: Op, d: nat)
    requires d > 0
  {
    (op.SetSize? ==> op.newSize % d == 0) && (op.Write? ==> |op.data| % d == 0)
  }

  /** Write blocks, file sizes and blocks are multiples of `d`. */
  ghost predicate RunInUnits(ops: seq<Op>, wbs: nat, d: nat) {
    d > 0 && wbs % d == 0 && forall i :: 0 <= i < |ops| ==> OpInUnits(ops[i], d)
  }

  lemma StepAligned(op: Op, v: View, v': View, d: nat)
    requires d > 0 && Consistent(v) && Aligned(v, d) && Steps(op, v, v') && OpInUnits(op, d)
    ensures Aligned(v', d)
  {
    match op
    case SetSize(newSize, _) =>
      DividesMeaning(d, newSize);
      ResizesAligned(v, newSize, v', d);
    case Write(offset, data, _) =>
      DividesMeaning(d, |data|);
      WritesAligned(v, offset, data, v', d);
    case Read(_, _, _) =>
    case Discard(offset, _, _) =>
      DiscardsAligned(v, offset, v', d);
    case Land =>
  }

  lemma {:induction false} RunAligned(ops: seq<Op>, wbs: nat, views: seq<View>, d: nat, i: nat)
    requires IsRun(ops, wbs, views) && RunInUnits(ops, wbs, d) && i < |views|
    ensures Aligned(views[i], d)
  {
    if i == 0 {
      DividesMeaning(d, wbs);
    } else {
      RunAligned(ops, wbs, views, d, i - 1);
      RunRefinesPlain(ops, wbs, views, i - 1);
      assert Steps(ops[i - 1], views[i - 1], views[i - 1 + 1]);
      StepAligned(ops[i - 1], views[i - 1], views[i], d);
    }
  }

  /** If everything is a multiple of some number that does not divide 0xffffffff, every mapped block can be read, in
      every state of every run and for every size of the file.
   */
  lemma AlignedReadable(ops: seq<Op>, wbs: nat, views: seq<View>, d: nat, i: nat, l: nat)
    requires IsRun(ops, wbs, views) && RunInUnits(ops, wbs, d) && NOT_MAPPED % d != 0 && i < |views|
    ensures Readable(views[i], l)
  {
    RunAligned(ops, wbs, views, d, i);
    DividesMeaning(d, NOT_MAPPED);
  }

  // ----- a run with a block that cannot be read

  /** A file of four write blocks of 0xffffffff bytes, which are written one after the other; then the second is read. */
  function LosingOps(block: seq<byte>, garbage: seq<byte>, junk: nat -> byte): seq<Op> {
    [SetSize(4 * NOT_MAPPED, junk), Write(0, block, junk), Write(1, block, junk), Write(2, block, junk), Write(3, block, junk),
     Read(1, NOT_MAPPED, garbage)]
  }

  /** Everything from block `n` on. */
  ghost function FreeFrom(n: nat): Regions {
    if n < 4 then map[n * NOT_MAPPED := (4 - n) * NOT_MAPPED] else map[]
  }

  lemma InFreeFrom(n: nat, x: nat)
    ensures In(FreeFrom(n), x) <==> n * NOT_MAPPED <= x < 4 * NOT_MAPPED
  {
    if n < 4 {
      assert n * NOT_MAPPED in FreeFrom(n);
    }
  }

  ghost predicate InOrder(m: map<nat, nat>, n: nat) {
    (forall l: nat :: l in m <==> l < n) && (forall l :: l in m ==> m[l] == l * NOT_MAPPED)
  }

  /** The first `n` blocks are written. */
  ghost predicate Filled(v: View, n: nat) {
    && Consistent(v) && v.wbs == NOT_MAPPED == v.curPos && v.free == FreeFrom(n) && InOrder(v.mapping, n)
    && (n > 0 ==> v.cur == Some((n - 1) * NOT_MAPPED))
    && (n > 1 ==> v.prev == Some((n - 2) * NOT_MAPPED))
  }

  lemma FilledFlushed(v: View, n: nat, e: View)
    requires Filled(v, n) && IsFlushed(v, e)
    ensures e.free == FreeFrom(n) && e.wbs == NOT_MAPPED && e.mapping == v.mapping && e.cur == v.cur
  {
  }

  lemma FrontFit(n: nat, p: nat)
    requires n < 4 && IsFirstFit(FreeFrom(n), NOT_MAPPED, p)
    ensures p == n * NOT_MAPPED
  {
  }

  lemma FrontTakenFrom(n: nat, m: Regions)
    requires n < 4 && Coalesced(m) && Takes(FreeFrom(n), n * NOT_MAPPED, NOT_MAPPED, m)
    requires forall x :: Within(n * NOT_MAPPED, NOT_MAPPED, x) ==> !In(m, x)
    ensures m == FreeFrom(n + 1)
  {
    forall x: nat ensures In(m, x) <==> In(FreeFrom(n + 1), x) {
      InFreeFrom(n, x);
      InFreeFrom(n + 1, x);
    }
    Canonical(m, FreeFrom(n + 1));
  }

  /** The buffer for block `n` has its address. */
  ghost predicate ReadyFor(r: View, n: nat) {
    r.wbs == NOT_MAPPED && r.curPos == 0 && r.cur == Some(n * NOT_MAPPED) && r.free == FreeFrom(n + 1) && InOrder(r.mapping, n)
  }

  lemma FilledSwitched(v: View, n: nat, r: View)
    requires n < 4 && Filled(v, n) && Switches(v, r)
    ensures ReadyFor(r, n) && r.prev == v.cur
  {
    var e :| IsFlushed(v, e) && TakesOver(e, r);
    FilledFlushed(v, n, e);
    FrontFit(n, r.cur.value);
    FrontTakenFrom(n, r.free);
  }

  lemma InOrderNext(m: map<nat, nat>, n: nat)
    requires InOrder(m, n)
    ensures InOrder(m[n := n * NOT_MAPPED], n + 1)
  {
  }

  lemma FilledPut(r: View, n: nat, data: seq<byte>, v': View)
    requires n < 4 && |data| == NOT_MAPPED && ReadyFor(r, n) && LaidOut(r, n, data, v') && Consistent(v')
    requires n > 0 ==> r.prev == Some((n - 1) * NOT_MAPPED)
    ensures Filled(v', n + 1)
  {
    InOrderNext(r.mapping, n);
  }

  lemma FilledNext(v: View, n: nat, data: seq<byte>, v': View)
    requires n < 4 && Filled(v, n) && |data| == NOT_MAPPED && Writes(v, n, data, v')
    ensures Filled(v', n + 1)
  {
    WritesKeeps(v, n, data, v');
    var d :| Discards(v, n, d) && Stores(d, n, data, v');
    var r :| MakesRoom(d, |data|, r) && Puts(r, n, data, v');
    PutsLaidOut(r, n, data, v');
    FilledSwitched(v, n, r);
    FilledPut(r, n, data, v');
  }

  lemma FilledFits(v: View, n: nat, data: seq<byte>)
    requires n < 4 && Filled(v, n) && |data| == NOT_MAPPED
    ensures forall v' :: !WriteFails(v, n, data, v')
  {
    forall e | IsFlushed(v, e) ensures Fits(e.free, e.wbs) {
      FilledFlushed(v, n, e);
      assert n * NOT_MAPPED in e.free;
    }
  }

  lemma FilledResized(v: View, v': View)
    requires IsNew(v, NOT_MAPPED) && Shape(v) && Resizes(v, 4 * NOT_MAPPED, v')
    ensures Filled(v', 0)
  {
    NewKeeps(v, NOT_MAPPED);
    ResizesKeeps(v, 4 * NOT_MAPPED, v');
    forall x: nat ensures In(v'.free, x) <==> In(FreeFrom(0), x) {
      InFreeFrom(0, x);
    }
    Canonical(v'.free, FreeFrom(0));
  }

  lemma {:induction false} LosingViews(block: seq<byte>, garbage: seq<byte>, junk: nat -> byte, views: seq<View>, n: nat)
    requires |block| == NOT_MAPPED && IsRun(LosingOps(block, garbage, junk), NOT_MAPPED, views) && n < 5 && n + 1 < |views|
    ensures Filled(views[n + 1], n)
  {
    var ops := LosingOps(block, garbage, junk);
    assert Steps(ops[n], views[n], views[n + 1]);
    if n == 0 {
      FilledResized(views[0], views[1]);
    } else {
      LosingViews(block, garbage, junk, views, n - 1);
      FilledNext(views[n], n - 1, block, views[n + 1]);
    }
  }

  /** The second block is mapped, at the address 0xffffffff, and has left both buffers. */
  lemma FilledUnreadable(v: View)
    requires Filled(v, 4)
    ensures !Readable(v, 1)
  {
    assert 1 in v.mapping;
  }

  /** That run is in units of every divisor of 0xffffffff. */
  lemma LosingUnits(block: seq<byte>, garbage: seq<byte>, junk: nat -> byte, d: nat)
    requires |block| == NOT_MAPPED && d > 0 && NOT_MAPPED % d == 0
    ensures RunInUnits(LosingOps(block, garbage, junk), NOT_MAPPED, d)
  {
    DividesMeaning(d, NOT_MAPPED);
    SumOfMultiples(d, NOT_MAPPED, NOT_MAPPED);
    SumOfMultiples(d, 2 * NOT_MAPPED, 2 * NOT_MAPPED);
    DividesMeaning(d, 4 * NOT_MAPPED);
  }
}
