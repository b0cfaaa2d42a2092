/** `wbtl_file`: a file whose blocks are remapped, and whose writes are collected in two buffers. It refines a map from
    logical offsets to bytes, whenever the outstanding backend write lands.
 */
module WbtlFile {
  import opened Options
  import opened Bytes
  import opened Copying
  import opened FreeSpace
  import opened WbtlView
  import opened WbtlRuns

  /** The backend file after a region of it was discarded. */
  function Scribbled(s: seq<byte>, pos: nat, size: nat, junk: nat -> byte): (r: seq<byte>)
    ensures Spared(s, pos, size, r)
  {
    seq(|s|, (x: nat) requires x < |s| => if pos <= x < pos + size then junk(x) else s[x])
  }

  class WbtlFile {
    const writeBlockSize: nat
    const writeBuffer: seq<array<byte>>
    var sz: nat
    var addressMapping: map<nat, nat>
    var reverseMapping: map<nat, Place>
    var freeSpace: Regions
    var freeBytes: nat
    var bufferAddress: seq<Option<nat>>
    var curBuf: nat
    var curPos: nat
    var backendRequest: Request
    /** the backend file */
    var storage: seq<byte>
    /** the map that the file stands for */
    ghost var contents: map<nat, seq<byte>>

    ghost predicate TwoBuffers()
      reads this
    {
      && |writeBuffer| == 2 && writeBuffer[0] != writeBuffer[1]
      && |bufferAddress| == 2 && curBuf < 2
    }

    ghost function Now(): View
      reads this, writeBuffer
      requires TwoBuffers()
    {
      View(writeBlockSize, sz, addressMapping, reverseMapping, freeSpace,
           bufferAddress[curBuf], writeBuffer[curBuf][..], curPos,
           bufferAddress[1 - curBuf], writeBuffer[1 - curBuf][..], backendRequest,
           storage, contents)
    }

    ghost predicate Valid()
      reads this, writeBuffer
    {
      TwoBuffers() && Shape(Now()) && Consistent(Now()) && freeBytes == SumOfSizes(freeSpace)
    }

    constructor (writeBufferSize: nat)
      requires writeBufferSize > 0
      ensures Valid() && fresh(writeBuffer)
      ensures IsNew(Now(), writeBufferSize)
    {
      writeBlockSize := writeBufferSize;
      var b0, b1 := new byte[writeBufferSize](_ => 0), new byte[writeBufferSize](_ => 0);
      writeBuffer := [b0, b1];
      sz, addressMapping, reverseMapping, freeSpace, freeBytes := 0, map[], map[], map[], 0;
      bufferAddress := [None, None];
      curBuf, curPos := 1, writeBufferSize;
      backendRequest := NoRequest;
      storage := [];
      contents := map[];
      new;
      NewKeeps(Now(), writeBufferSize);
    }

    /** The invariant in the terms of the file: the byte counts, and the two mappings. */
    lemma Accounted()
      requires Valid()
      ensures sz == freeBytes + SumOfSizes(Sizes(reverseMapping)) + (writeBlockSize - curPos)
      ensures forall l, p :: l in addressMapping && addressMapping[l] == p <==> p in reverseMapping && reverseMapping[p].logical == l
    {
      Open(Now());
      SpaceAccounted(Now());
    }

    /** The backend write, if there is one, completes. */
    method Land()
      requires Valid()
      modifies this`backendRequest, this`storage
      ensures Valid() && Now() == Settled(old(Now()))
    {
      SettledKeeps(Now());
      Wait();
    }

    method Wait()
      requires TwoBuffers() && Shape(Now())
      modifies this`backendRequest, this`storage
      ensures TwoBuffers() && Now() == Settled(old(Now()))
    {
      if backendRequest == Pending {
        storage := Patched(storage, bufferAddress[1 - curBuf].value, writeBuffer[1 - curBuf][..]);
        backendRequest := Landed;
      }
    }

    /** `_add_free_region`, for a region that is not free: it does not throw. */
    method AddFreeRegion(pos: nat, size: nat)
      requires Coalesced(freeSpace) && freeBytes == SumOfSizes(freeSpace) && size > 0 && !Overlaps(freeSpace, pos, size)
      modifies this`freeSpace, this`freeBytes
      ensures Coalesced(freeSpace) && freeBytes == SumOfSizes(freeSpace) && Adds(old(freeSpace), pos, size, freeSpace)
    {
      var ok, m := AddRegion(freeSpace, pos, size);
      AddsSum(freeSpace, pos, size, m);
      freeSpace := m;
      freeBytes := freeBytes + size;
    }

    /** `set_size`; `junk` is what the backend has in its new bytes. */
    method SetSize(newSize: nat, junk: nat -> byte)
      requires Valid() && sz <= newSize
      modifies this
      ensures Valid() && Resizes(old(Now()), newSize, Now())
    {
      ghost var v := Now();
      if sz < newSize {
        BeforeGrow(v, newSize - sz);
        AddFreeRegion(sz, newSize - sz);
        storage := storage + seq(newSize - sz, (x: nat) => junk(x));
        sz := newSize;
        Grow(v, Now());
      }
    }

    /** `discard`; the backend may leave anything in the discarded region. */
    method Discard(offset: nat, size: nat, junk: nat -> byte)
      requires Valid() && (offset in contents ==> size == |contents[offset]|)
      modifies this`addressMapping, this`reverseMapping, this`freeSpace, this`freeBytes, this`storage, this`contents
      ensures Valid() && Discards(old(Now()), offset, Now())
      ensures contents == old(contents) - {offset}
    {
      ghost var v := Now();
      Keys(v);
      if offset in addressMapping {
        BeforeDiscard(v, offset);
        var physical := addressMapping[offset];
        Release(offset, size);
        storage := Scribbled(storage, physical, size, junk);
        contents := contents - {offset};
        DiscardsFrom(v, offset, freeSpace, storage, Now());
      }
      DiscardsKeeps(v, offset, Now());
    }

    /** Takes a block out of both mappings and frees its space. */
    method Release(offset: nat, size: nat)
      requires TwoBuffers() && Coalesced(freeSpace) && freeBytes == SumOfSizes(freeSpace) && size > 0
      requires offset in addressMapping && !Overlaps(freeSpace, addressMapping[offset], size)
      modifies this`addressMapping, this`reverseMapping, this`freeSpace, this`freeBytes
      ensures Coalesced(freeSpace) && freeBytes == SumOfSizes(freeSpace)
      ensures Adds(old(freeSpace), old(addressMapping[offset]), size, freeSpace)
      ensures addressMapping == old(addressMapping) - {offset} && reverseMapping == old(reverseMapping) - {old(addressMapping[offset])}
    {
      var physical := addressMapping[offset];
      addressMapping := addressMapping - {offset};
      AddFreeRegion(physical, size);
      reverseMapping := reverseMapping - {physical};
    }

    /** `get_next_write_block`, first fit; `None` where the library throws. */
    method GetNextWriteBlock() returns (r: Option<nat>)
      requires Coalesced(freeSpace) && freeBytes == SumOfSizes(freeSpace) && writeBlockSize > 0
      modifies this`freeSpace, this`freeBytes
      ensures Coalesced(freeSpace) && freeBytes == SumOfSizes(freeSpace)
      ensures r.Some? <==> Fits(old(freeSpace), writeBlockSize)
      ensures r.None? ==> freeSpace == old(freeSpace)
      ensures r.Some? ==> IsFirstFit(old(freeSpace), writeBlockSize, r.value)
      ensures r.Some? ==> Takes(old(freeSpace), r.value, writeBlockSize, freeSpace)
                          && forall x :: Within(r.value, writeBlockSize, x) ==> !In(freeSpace, x)
    {
      var m;
      r, m := TakeFirstFit(freeSpace, writeBlockSize);
      if r.Some? {
        TakesSum(freeSpace, r.value, writeBlockSize, m);
        freeSpace := m;
        freeBytes := freeBytes - writeBlockSize;
      }
    }

    /** The current buffer is full: its rest is free, its write is issued once the previous write has landed, and the
        other buffer takes over.
     */
    method NextBuffer() returns (ok: bool)
      requires Valid()
      modifies this`freeSpace, this`freeBytes, this`backendRequest, this`storage, this`curBuf, this`bufferAddress, this`curPos
      ensures ok ==> Valid() && curPos == 0 && Switches(old(Now()), Now())
      ensures !ok ==> TwoBuffers() && RunsOut(old(Now()), Now())
    {
      ghost var v := Now();
      if bufferAddress[curBuf].Some? {
        Flush();
      } else {
        FlushedNothing(v);
      }
      ghost var e := Now().(curPos := writeBlockSize);
      FlushedKeeps(v, e);
      ok := SwitchBuffer(e);
    }

    method Flush()
      requires Valid() && bufferAddress[curBuf].Some?
      modifies this`freeSpace, this`freeBytes, this`backendRequest, this`storage
      ensures TwoBuffers() && freeBytes == SumOfSizes(freeSpace) && IsFlushed(old(Now()), Now().(curPos := writeBlockSize))
    {
      ghost var v := Now();
      FreeTail();
      FlushedByParts(v, Now());
      Wait();
    }

    method FreeTail()
      requires Valid() && bufferAddress[curBuf].Some?
      modifies this`freeSpace, this`freeBytes
      ensures TwoBuffers() && freeBytes == SumOfSizes(freeSpace) && Shape(Now()) && IsClosed(old(Now()), Now().(curPos := writeBlockSize))
    {
      if curPos < writeBlockSize {
        BeforeClose(Now());
        AddFreeRegion(bufferAddress[curBuf].value + curPos, writeBlockSize - curPos);
      }
    }

    /** Issues the write of the current buffer, if it has an address, and makes the other buffer the current one. */
    method SwitchBuffer(ghost e: View) returns (ok: bool)
      requires TwoBuffers() && freeBytes == SumOfSizes(freeSpace)
      requires e == Now().(curPos := writeBlockSize) && Consistent(e) && Shape(e) && e.request != Pending
      modifies this`freeSpace, this`freeBytes, this`backendRequest, this`curBuf, this`bufferAddress, this`curPos
      ensures ok ==> Valid() && curPos == 0 && TakesOver(e, Now())
      ensures !ok ==> TwoBuffers() && !Fits(e.free, e.wbs) && Now() == Flipped(e).(curPos := old(curPos))
    {
      Flip(e);
      var address := GetNextWriteBlock();
      ok := address.Some?;
      if ok {
        Occupy(address.value, e);
      }
    }

    method Flip(ghost e: View)
      requires TwoBuffers() && e == Now().(curPos := writeBlockSize)
      modifies this`backendRequest, this`curBuf
      ensures TwoBuffers() && Now() == Flipped(e).(curPos := curPos)
    {
      if bufferAddress[curBuf].Some? {
        backendRequest := Pending;
      }
      curBuf := 1 - curBuf;
    }

    method Occupy(address: nat, ghost v: View)
      requires TwoBuffers() && Now() == Flipped(v).(free := freeSpace, curPos := curPos) && freeBytes == SumOfSizes(freeSpace)
      requires Consistent(v) && IsSwitched(v, address, Flipped(v).(free := freeSpace, cur := Some(address), curPos := 0))
      modifies this`bufferAddress, this`curPos
      ensures Valid() && Now().cur == Some(address) && IsSwitched(v, address, Now())
    {
      bufferAddress := bufferAddress[curBuf := Some(address)];
      curPos := 0;
      Switch(v, address, Now());
    }

    /** `swrite`; not `ok` where the library throws: the block does not fit into the current buffer, and no free region is
        as large as a write block, although the rest of the buffer is free.
     */
    method Write(offset: nat, data: seq<byte>, junk: nat -> byte) returns (ok: bool)
      requires Valid() && 0 < |data| <= writeBlockSize && (offset in contents ==> |data| == |contents[offset]|)
      modifies this, writeBuffer
      ensures ok ==> Valid() && Writes(old(Now()), offset, data, Now()) && contents == old(contents)[offset := data]
      ensures !ok ==> TwoBuffers() && WriteFails(old(Now()), offset, data, Now()) && contents == old(contents) - {offset}
    {
      ghost var v := Now();
      if offset in addressMapping {
        Discard(offset, |data|, junk);
      }
      DiscardsKeeps(v, offset, Now());
      ok := Store(offset, data);
      if ok {
        WritesKeeps(v, offset, data, Now());
      }
    }

    /** Puts a block into the current buffer, if it has room for it, and otherwise into the next one. */
    method Store(offset: nat, data: seq<byte>) returns (ok: bool)
      requires Valid() && offset !in contents && 0 < |data| <= writeBlockSize
      modifies this`freeSpace, this`freeBytes, this`backendRequest, this`storage, this`curBuf, this`bufferAddress, this`curPos,
               this`addressMapping, this`reverseMapping, this`contents, writeBuffer
      ensures ok ==> Valid() && Stores(old(Now()), offset, data, Now())
      ensures !ok ==> TwoBuffers() && |data| > writeBlockSize - old(curPos) && RunsOut(old(Now()), Now()) && contents == old(contents)
    {
      ghost var v := Now();
      ok := true;
      if |data| > writeBlockSize - curPos {
        ok := NextBuffer();
      }
      if ok {
        ghost var r := Now();
        assert MakesRoom(v, |data|, r);
        Put(offset, data);
        StoresFrom(v, offset, data, r, Now());
      }
    }

    method Put(offset: nat, data: seq<byte>)
      requires TwoBuffers() && Shape(Now()) && 0 < |data| <= writeBlockSize - curPos
      modifies this`addressMapping, this`reverseMapping, this`curPos, this`contents, writeBuffer
      ensures TwoBuffers() && Puts(old(Now()), offset, data, Now())
    {
      var address := bufferAddress[curBuf].value;
      CopyInto(writeBuffer[curBuf], curPos, data);
      addressMapping := addressMapping[offset := address + curPos];
      reverseMapping := reverseMapping[address + curPos := Place(offset, |data|)];
      curPos := curPos + |data|;
      contents := contents[offset := data];
    }

    /** `sread`. `garbage` stands for the uninitialised bytes that are returned for an unmapped offset. */
    method Read(offset: nat, bytes: nat, garbage: seq<byte>) returns (r: seq<byte>)
      requires Valid() && |garbage| == bytes && (offset in contents ==> bytes == |contents[offset]|)
      ensures |r| == bytes
      ensures offset in contents && Readable(Now(), offset) ==> r == contents[offset]
      ensures offset in contents && !Readable(Now(), offset) ==> r == garbage
      ensures offset !in contents ==> ReadsAt(0xffff_ffff, garbage, r)
    {
      Keys(Now());
      if offset in contents {
        ReadWhere(offset);
      }
      r := ReadAt(if offset in addressMapping then addressMapping[offset] else NOT_MAPPED, bytes, garbage);
    }

    /** What is read at an address: bytes of the current or else of the previous buffer, and otherwise nothing or bytes of
        the backend.
     */
    ghost predicate ReadsAt(physical: nat, garbage: seq<byte>, r: seq<byte>)
      requires Valid()
      reads this, writeBuffer
    {
      if InBuffer(bufferAddress[curBuf], writeBlockSize, physical) then BytesOf(curBuf, physical, r)
      else if InBuffer(bufferAddress[1 - curBuf], writeBlockSize, physical) then BytesOf(1 - curBuf, physical, r)
      else if physical == NOT_MAPPED then r == garbage
      else FoundIn(storage, physical, r)
    }

    method ReadAt(physical: nat, bytes: nat, garbage: seq<byte>) returns (r: seq<byte>)
      requires Valid() && |garbage| == bytes
      requires
        || physical == NOT_MAPPED || physical + bytes <= |storage|
        || exists b :: 0 <= b < 2 && InBuffer(bufferAddress[b], writeBlockSize, physical)
      ensures |r| == bytes && ReadsAt(physical, garbage, r)
    {
      if InBuffer(bufferAddress[curBuf], writeBlockSize, physical) {
        r := FromBuffer(curBuf, physical, bytes, garbage);
      } else if InBuffer(bufferAddress[1 - curBuf], writeBlockSize, physical) {
        r := FromBuffer(1 - curBuf, physical, bytes, garbage);
      } else if physical == NOT_MAPPED {
        r := garbage;
      } else {
        r := storage[physical..physical + bytes];
      }
    }

    /** The bytes at an address of a buffer, unless they reach over its end. */
    ghost predicate BytesOf(buffer: nat, physical: nat, r: seq<byte>)
      requires Valid() && buffer < 2 && InBuffer(bufferAddress[buffer], writeBlockSize, physical)
      reads this, writeBuffer
    {
      physical + |r| <= bufferAddress[buffer].value + writeBlockSize ==>
        FoundIn(writeBuffer[buffer][..], physical - bufferAddress[buffer].value, r)
    }

    /** Bytes of a buffer. A mapped block never reaches over the end of the buffer; an unmapped one may, and the
        library then fails an assertion or copies what lies behind the buffer.
     */
    method FromBuffer(buffer: nat, physical: nat, bytes: nat, garbage: seq<byte>) returns (r: seq<byte>)
      requires Valid() && buffer < 2 && |garbage| == bytes && InBuffer(bufferAddress[buffer], writeBlockSize, physical)
      ensures |r| == bytes
      ensures BytesOf(buffer, physical, r)
    {
      var from := physical - bufferAddress[buffer].value;
      if from + bytes <= writeBlockSize {
        r := writeBuffer[buffer][..][from..from + bytes];
      } else {
        r := garbage;
      }
    }

    /** Where the bytes of a mapped block are. */
    lemma ReadWhere(offset: nat)
      requires Valid() && offset in contents
      ensures offset in addressMapping
      ensures
        var physical, data := addressMapping[offset], contents[offset];
        if InBuffer(bufferAddress[curBuf], writeBlockSize, physical) then
          FoundIn(writeBuffer[curBuf][..], physical - bufferAddress[curBuf].value, data)
        else if InBuffer(bufferAddress[1 - curBuf], writeBlockSize, physical) then
          FoundIn(writeBuffer[1 - curBuf][..], physical - bufferAddress[1 - curBuf].value, data)
        else FoundIn(storage, physical, data)
    {
      BlockRead(Now(), offset);
    }
  }

  // ----- whole runs

  /** What the library demands of its callers: the file does not shrink, and a logical offset is always used with one
      byte count, of at most a write block.
   */
  ghost predicate LegalOp(ops: seq<Op>, i: nat, count: nat -> nat, wbs: nat)
    requires i < |ops|
  {
    match ops[i]
    case SetSize(newSize, _) => SizeAfter(ops, i) <= newSize
    case Write(offset, data, _) => 0 < |data| <= wbs && |data| == count(offset)
    case Read(offset, bytes, garbage) => |garbage| == bytes == count(offset)
    case Discard(offset, size, _) => size == count(offset)
    case Land => true
  }

  ghost predicate Legal(ops: seq<Op>, count: nat -> nat, wbs: nat) {
    forall i :: 0 <= i < |ops| ==> LegalOp(ops, i, count, wbs)
  }

  ghost predicate Counts(m: map<nat, seq<byte>>, count: nat -> nat) {
    forall l :: l in m ==> |m[l]| == count(l)
  }

  /** The read `ops[i]` returned the bytes that were last written to a mapped offset. */
  ghost predicate ReadRight(ops: seq<Op>, i: nat, answer: seq<byte>)
    requires i < |ops|
  {
    ops[i].Read? && ops[i].offset in Plain(ops, i) ==> answer == Plain(ops, i)[ops[i].offset]
  }

  /** The read `ops[i]` of a mapped offset returned the bytes that were last written, unless the block could not be read
      in the state `v`; then it returned the filler.
   */
  ghost predicate Answered(ops: seq<Op>, i: nat, v: View, answer: seq<byte>)
    requires i < |ops|
  {
    if ops[i].Read? && !Readable(v, ops[i].offset) then answer == ops[i].garbage else ReadRight(ops, i, answer)
  }

  ghost predicate AllAnswered(ops: seq<Op>, views: seq<View>, answers: seq<seq<byte>>) {
    |answers| <= |ops| && |answers| <= |views| && forall i :: 0 <= i < |answers| ==> Answered(ops, i, views[i], answers[i])
  }

  ghost predicate Fails(op: Op, v: View) {
    op.Write? && exists v' :: WriteFails(v, op.offset, op.data, v')
  }

  method Step(file: WbtlFile, op: Op) returns (ok: bool, answer: seq<byte>)
    requires file.Valid()
    requires op.SetSize? ==> file.sz <= op.newSize
    requires op.Write? ==> 0 < |op.data| <= file.writeBlockSize && (op.offset in file.contents ==> |op.data| == |file.contents[op.offset]|)
    requires op.Read? ==> |op.garbage| == op.bytes && (op.offset in file.contents ==> op.bytes == |file.contents[op.offset]|)
    requires op.Discard? ==> op.offset in file.contents ==> op.size == |file.contents[op.offset]|
    modifies file, file.writeBuffer
    ensures ok ==> file.Valid() && Steps(op, old(file.Now()), file.Now())
    ensures !ok ==> Fails(op, old(file.Now()))
    ensures op.Read? && op.offset in old(file.contents) ==>
              answer == if Readable(old(file.Now()), op.offset) then old(file.contents)[op.offset] else op.garbage
  {
    ok, answer := true, [];
    match op
    case SetSize(newSize, junk) =>
      file.SetSize(newSize, junk);
    case Write(offset, data, junk) =>
      ok := file.Write(offset, data, junk);
    case Read(offset, bytes, garbage) =>
      answer := file.Read(offset, bytes, garbage);
    case Discard(offset, size, junk) =>
      file.Discard(offset, size, junk);
    case Land =>
      file.Land();
  }

  /** The file and the answers after `|answers|` operations. */
  ghost predicate At(file: WbtlFile, ops: seq<Op>, views: seq<View>, answers: seq<seq<byte>>)
    reads file, file.writeBuffer
  {
    && file.Valid() && |views| == |answers| + 1 && IsRun(ops, file.writeBlockSize, views)
    && views[|answers|] == file.Now() && AllAnswered(ops, views, answers)
  }

  lemma {:induction false} PlainCounts(ops: seq<Op>, n: nat, count: nat -> nat, wbs: nat)
    requires Legal(ops, count, wbs) && n <= |ops|
    ensures Counts(Plain(ops, n), count)
  {
    if n == 0 {
    } else {
      PlainCounts(ops, n - 1, count, wbs);
      assert LegalOp(ops, n - 1, count, wbs);
    }
  }

  lemma RunLonger(ops: seq<Op>, wbs: nat, views: seq<View>, v: View)
    requires IsRun(ops, wbs, views) && |views| <= |ops| && Steps(ops[|views| - 1], views[|views| - 1], v)
    ensures IsRun(ops, wbs, views + [v])
  {
  }

  method Next(file: WbtlFile, ops: seq<Op>, ghost views: seq<View>, answers: seq<seq<byte>>, ghost count: nat -> nat)
    returns (ok: bool, ghost views': seq<View>, answers': seq<seq<byte>>)
    requires Legal(ops, count, file.writeBlockSize)
    requires At(file, ops, views, answers) && |answers| < |ops|
    modifies file, file.writeBuffer
    ensures ok ==> |answers'| == |answers| + 1 && At(file, ops, views', answers')
    ensures !ok ==> answers' == answers && views' == views && Fails(ops[|answers|], views[|answers|])
  {
    ghost var done := |answers|;
    assert LegalOp(ops, done, count, file.writeBlockSize);
    PlainCounts(ops, done, count, file.writeBlockSize);
    RunRefinesPlain(ops, file.writeBlockSize, views, done);
    var answer;
    ok, answer := Step(file, ops[|answers|]);
    answers', views' := answers, views;
    if ok {
      Keys(views[done]);
      RunLonger(ops, file.writeBlockSize, views, file.Now());
      assert Answered(ops, done, views[done], answer);
      answers', views' := answers + [answer], views + [file.Now()];
    }
  }

  /** Over every run, up to the first write that finds no space, every read of a mapped offset returns the bytes that
      were last written there, unless that block could not be read in the state before the read. In a file of at most
      0xffffffff bytes every block can be read, and so it can if sizes and blocks are multiples of a number that does not
      divide 0xffffffff.
   */
  method Run(wbs: nat, ops: seq<Op>, ghost count: nat -> nat) returns (answers: seq<seq<byte>>, ghost views: seq<View>)
    requires wbs > 0 && Legal(ops, count, wbs)
    ensures IsRun(ops, wbs, views) && |views| == |answers| + 1 && AllAnswered(ops, views, answers)
    ensures |answers| < |ops| ==> Fails(ops[|answers|], views[|answers|])
    ensures forall i :: 0 <= i < |answers| && SizeAfter(ops, i) <= NOT_MAPPED ==> ReadRight(ops, i, answers[i])
    ensures (exists d :: RunInUnits(ops, wbs, d) && NOT_MAPPED % d != 0) ==>
              forall i :: 0 <= i < |answers| ==> ReadRight(ops, i, answers[i])
  {
    var file := new WbtlFile(wbs);
    answers, views := [], [file.Now()];
    var ok := true;
    while ok && |answers| < |ops|
      invariant fresh(file) && fresh(file.writeBuffer) && file.writeBlockSize == wbs
      invariant IsRun(ops, wbs, views) && |views| == |answers| + 1 && AllAnswered(ops, views, answers)
      invariant if ok then At(file, ops, views, answers) else |answers| < |ops| && Fails(ops[|answers|], views[|answers|])
      decreases |ops| - |answers|, ok
    {
      ok, views, answers := Next(file, ops, views, answers, count);
    }
    AnswersRight(ops, wbs, views, answers);
  }

  lemma AnswersRight(ops: seq<Op>, wbs: nat, views: seq<View>, answers: seq<seq<byte>>)
    requires IsRun(ops, wbs, views) && |views| == |answers| + 1 && AllAnswered(ops, views, answers)
    ensures forall i :: 0 <= i < |answers| && SizeAfter(ops, i) <= NOT_MAPPED ==> ReadRight(ops, i, answers[i])
    ensures (exists d :: RunInUnits(ops, wbs, d) && NOT_MAPPED % d != 0) ==>
              forall i :: 0 <= i < |answers| ==> ReadRight(ops, i, answers[i])
  {
    forall i | 0 <= i < |answers| && SizeAfter(ops, i) <= NOT_MAPPED ensures ReadRight(ops, i, answers[i]) {
      RunRefinesPlain(ops, wbs, views, i);
      if ops[i].Read? && ops[i].offset in Plain(ops, i) {
        SmallReadable(views[i], ops[i].offset);
      }
    }
    if d :| RunInUnits(ops, wbs, d) && NOT_MAPPED % d != 0 {
      forall i | 0 <= i < |answers| ensures ReadRight(ops, i, answers[i]) {
        if ops[i].Read? {
          AlignedReadable(ops, wbs, views, d, i, ops[i].offset);
        }
      }
    }
  }

  /** Neither condition can be dropped: after four writes of blocks of 0xffffffff bytes, which are multiples of every
      divisor of 0xffffffff, the second block is read as if it were not mapped.
   */
  method LosingRun(block: seq<byte>, garbage: seq<byte>, junk: nat -> byte) returns (answers: seq<seq<byte>>, ghost views: seq<View>)
    requires |block| == |garbage| == NOT_MAPPED
    ensures |answers| == 6 && IsRun(LosingOps(block, garbage, junk), NOT_MAPPED, views)
    ensures LosingOps(block, garbage, junk)[5] == Read(1, NOT_MAPPED, garbage) && answers[5] == garbage
    ensures 1 in Plain(LosingOps(block, garbage, junk), 5) && Plain(LosingOps(block, garbage, junk), 5)[1] == block
    ensures forall d: nat :: d > 0 && NOT_MAPPED % d == 0 ==> RunInUnits(LosingOps(block, garbage, junk), NOT_MAPPED, d)
  {
    var ops := LosingOps(block, garbage, junk);
    LosingLegal(block, garbage, junk);
    answers, views := Run(NOT_MAPPED, ops, _ => NOT_MAPPED);
    LosingSucceeds(block, garbage, junk, views);
    LosingRead(block, garbage, junk, views, answers);
    forall d: nat | d > 0 && NOT_MAPPED % d == 0 ensures RunInUnits(ops, NOT_MAPPED, d) {
      LosingUnits(block, garbage, junk, d);
    }
  }

  lemma LosingLegal(block: seq<byte>, garbage: seq<byte>, junk: nat -> byte)
    requires |block| == |garbage| == NOT_MAPPED
    ensures Legal(LosingOps(block, garbage, junk), _ => NOT_MAPPED, NOT_MAPPED)
  {
  }

  lemma LosingSucceeds(block: seq<byte>, garbage: seq<byte>, junk: nat -> byte, views: seq<View>)
    requires |block| == NOT_MAPPED && IsRun(LosingOps(block, garbage, junk), NOT_MAPPED, views)
    ensures |views| <= 6 ==> !Fails(LosingOps(block, garbage, junk)[|views| - 1], views[|views| - 1])
  {
    var ops, n := LosingOps(block, garbage, junk), |views| - 1;
    if n < 6 && ops[n].Write? {
      LosingViews(block, garbage, junk, views, n - 1);
      FilledFits(views[n], n - 1, block);
    }
  }

  lemma LosingRead(block: seq<byte>, garbage: seq<byte>, junk: nat -> byte, views: seq<View>, answers: seq<seq<byte>>)
    requires |block| == NOT_MAPPED && IsRun(LosingOps(block, garbage, junk), NOT_MAPPED, views)
    requires |answers| == 6 && |views| == 7 && AllAnswered(LosingOps(block, garbage, junk), views, answers)
    ensures answers[5] == garbage
    ensures 1 in Plain(LosingOps(block, garbage, junk), 5) && Plain(LosingOps(block, garbage, junk), 5)[1] == block
  {
    var ops := LosingOps(block, garbage, junk);
    LosingViews(block, garbage, junk, views, 4);
    FilledUnreadable(views[5]);
    assert Answered(ops, 5, views[5], answers[5]);
    assert 1 in Plain(ops, 3) && Plain(ops, 3)[1] == block;
    assert 1 in Plain(ops, 4) && Plain(ops, 4)[1] == block;
  }
}
