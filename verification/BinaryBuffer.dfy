/** `binary_buffer` and `binary_reader`: a growing byte buffer and the cursor that reads it back. */
module BinaryBuffer {
  import opened Bytes
  import opened Closed
  import opened Copying
  import opened Varint

  // ----- the branches of put_varint

  /** The bytes of a 32-bit number. */
  function Bytes32(v: nat): seq<byte> {
    if v < 128 then [Low(v, 0)]
    else if v < 128 * 128 then [High(v, 0), Low(v, 1)]
    else if v < 128 * 128 * 128 then [High(v, 0), High(v, 1), Low(v, 2)]
    else if v < 128 * 128 * 128 * 128 then [High(v, 0), High(v, 1), High(v, 2), Low(v, 3)]
    else [High(v, 0), High(v, 1), High(v, 2), High(v, 3), Low(v, 4)]
  }

  /** The bytes of a 64-bit number of more than 32 bits, by its length. */
  function Long(v: nat, n: nat): seq<byte>
    requires 5 <= n <= 10
  {
    [High(v, 0), High(v, 1), High(v, 2), High(v, 3)] +
    match n
    case 5 => [Low(v, 4)]
    case 6 => [High(v, 4), Low(v, 5)]
    case 7 => [High(v, 4), High(v, 5), Low(v, 6)]
    case 8 => [High(v, 4), High(v, 5), High(v, 6), Low(v, 7)]
    case 9 => [High(v, 4), High(v, 5), High(v, 6), High(v, 7), Low(v, 8)]
    case 10 => [High(v, 4), High(v, 5), High(v, 6), High(v, 7), High(v, 8), Low(v, 9)]
  }

  /** The bytes of a 64-bit number. */
  function Bytes64(v: nat): seq<byte> {
    if v < 128 * 128 * 128 * 128 then Bytes32(v)
    else if v < 0x8_0000_0000 then Long(v, 5)
    else if v < 0x400_0000_0000 then Long(v, 6)
    else if v < 0x2_0000_0000_0000 then Long(v, 7)
    else if v < 0x100_0000_0000_0000 then Long(v, 8)
    else if v < 0x8000_0000_0000_0000 then Long(v, 9)
    else Long(v, 10)
  }

  /** The bytes of the branch for numbers of `n` bytes. */
  ghost predicate ByShifts(v: nat, n: nat, s: seq<byte>) {
    |s| == n && n > 0 && s[n - 1] == Low(v, n - 1) && forall k :: 0 <= k < n - 1 ==> s[k] == High(v, k)
  }

  lemma Encoded(v: nat, n: nat, s: seq<byte>)
    requires n > 0 && v < Pow128(n) && (n > 1 ==> v >= Pow128(n - 1)) && ByShifts(v, n, s)
    ensures s == Encode(v)
  {
    EncodeByShifts(v, n);
  }

  lemma Powers128()
    ensures Pow128(1) == 128 && Pow128(2) == 128 * 128 && Pow128(3) == 128 * 128 * 128 && Pow128(4) == 128 * 128 * 128 * 128
    ensures Pow128(5) == 0x8_0000_0000 && Pow128(6) == 0x400_0000_0000 && Pow128(7) == 0x2_0000_0000_0000
    ensures Pow128(8) == 0x100_0000_0000_0000 && Pow128(9) == 0x8000_0000_0000_0000 && Pow128(10) == 0x40_0000_0000_0000_0000
  {
    assert Pow128(1) == 128 * Pow128(0) && Pow128(2) == 128 * Pow128(1) && Pow128(3) == 128 * Pow128(2) && Pow128(4) == 128 * Pow128(3);
    assert Pow128(5) == 128 * Pow128(4) && Pow128(6) == 128 * Pow128(5) && Pow128(7) == 128 * Pow128(6);
    assert Pow128(8) == 128 * Pow128(7) && Pow128(9) == 128 * Pow128(8) && Pow128(10) == 128 * Pow128(9);
  }

  lemma LongEncoded(v: nat, n: nat)
    requires 5 <= n <= 10 && Pow128(n - 1) <= v < Pow128(n)
    ensures Long(v, n) == Encode(v)
  {
    Encoded(v, n, Long(v, n));
  }

  /** The branches for 32 bits write the standard form. */
  lemma Bytes32Encoded(v: nat)
    requires v < 0x1_0000_0000
    ensures Bytes32(v) == Encode(v)
  {
    Powers128();
    Encoded(v, |Bytes32(v)|, Bytes32(v));
  }

  /** The branches for 64 bits write the standard form. */
  lemma Bytes64Encoded(v: nat)
    requires v < 0x1_0000_0000_0000_0000
    ensures Bytes64(v) == Encode(v)
  {
    Powers128();
    if v < 128 * 128 * 128 * 128 {
      Bytes32Encoded(v);
    } else {
      LongEncoded(v, if v < 0x8_0000_0000 then 5 else if v < 0x400_0000_0000 then 6 else if v < 0x2_0000_0000_0000 then 7
                     else if v < 0x100_0000_0000_0000 then 8 else if v < 0x8000_0000_0000_0000 then 9 else 10);
    }
  }

  // ----- writing

  /** The next larger size of a buffer. */
  ghost function Grown(size: nat): nat {
    if size < 256 then 512 else if size < 1024 * 1024 then 2 * size else size + 1024 * 1024
  }

  class Buffer {
    var data: array<byte>
    var size: nat

    ghost predicate Valid()
      reads this
    {
      size <= data.Length
    }

    ghost function Contents(): seq<byte>
      requires Valid()
      reads this, data
    {
      data[..size]
    }

    constructor ()
      ensures Valid() && fresh(data) && Contents() == []
    {
      data, size := new byte[0], 0;
    }

    /** Grows the capacity: first to 512, then by doubling, from a megabyte on by a megabyte at a time. */
    method Dynalloc(n: nat)
      requires Valid()
      modifies this`data
      ensures Valid() && data.Length >= n && Contents() == old(Contents()) && (data == old(data) || fresh(data))
      ensures old(data.Length) >= n ==> data == old(data)
      ensures old(data.Length) < n ==>
                Grown(old(data.Length)) <= data.Length && exists s :: old(data.Length) <= s < n && data.Length == Grown(s)
    {
      if data.Length < n {
        var newSize := data.Length;
        while newSize < n
          invariant newSize == data.Length || Grown(data.Length) <= newSize
          invariant newSize == data.Length || exists s :: data.Length <= s < n && newSize == Grown(s)
          decreases n - newSize
        {
          assert Grown(newSize) > newSize;
          if newSize < 256 {
            newSize := 512;
          } else if newSize < 1024 * 1024 {
            newSize := 2 * newSize;
          } else {
            newSize := newSize + 1024 * 1024;
          }
        }
        Realloc(newSize);
      }
    }

    method Realloc(newSize: nat)
      requires Valid() && newSize >= data.Length
      modifies this`data
      ensures Valid() && data.Length == newSize && Contents() == old(Contents()) && fresh(data)
    {
      var from, to := data, new byte[newSize](_ => 0);
      var i := 0;
      while i < size
        invariant i <= size <= from.Length && to[..i] == from[..i]
      {
        to[i] := from[i];
        i := i + 1;
      }
      data := to;
    }

    method Append(bytes: seq<byte>)
      requires Valid()
      modifies this, data
      ensures Valid() && Contents() == old(Contents()) + bytes && (data == old(data) || fresh(data))
    {
      if size + |bytes| > data.Length {
        Dynalloc(size + |bytes|);
      }
      ghost var before := Contents();
      CopyInto(data, size, bytes);
      size := size + |bytes|;
      assert data[..size] == before + bytes;
    }

    method Put(x: byte)
      requires Valid()
      modifies this, data
      ensures Valid() && Contents() == old(Contents()) + [x] && (data == old(data) || fresh(data))
    {
      Append([x]);
    }

    /** One `put` after the other. */
    method PutEach(s: seq<byte>)
      requires Valid()
      modifies this, data
      ensures Valid() && Contents() == old(Contents()) + s && (data == old(data) || fresh(data))
    {
      ghost var before := Contents();
      var i := 0;
      while i < |s|
        invariant i <= |s| && Valid() && Contents() == before + s[..i] && (data == old(data) || fresh(data))
      {
        Put(s[i]);
        assert s[..i + 1] == s[..i] + [s[i]];
        i := i + 1;
      }
      assert s[..i] == s;
    }

    method PutVarint32(v: nat)
      requires Valid() && v < 0x1_0000_0000
      modifies this, data
      ensures Valid() && Contents() == old(Contents()) + Encode(v) && (data == old(data) || fresh(data))
    {
      Bytes32Encoded(v);
      PutEach(Bytes32(v));
    }

    method PutVarint64(v: nat)
      requires Valid() && v < 0x1_0000_0000_0000_0000
      modifies this, data
      ensures Valid() && Contents() == old(Contents()) + Encode(v) && (data == old(data) || fresh(data))
    {
      Bytes64Encoded(v);
      PutEach(Bytes64(v));
    }

    method PutString(s: seq<byte>)
      requires Valid() && |s| < 0x1_0000_0000
      modifies this, data
      ensures Valid() && Contents() == old(Contents()) + Encode(|s|) + s && (data == old(data) || fresh(data))
    {
      PutVarint32(|s|);
      Append(s);
    }
  }

  // ----- reading

  /** `u << 7i` */
  function LeftShift(u: nat, i: nat): nat {
    if i == 0 then u else 128 * LeftShift(u, i - 1)
  }

  /** The result of a varint whose first `i` bytes are worth `v`, from the result of the rest. */
  ghost function Shifted(r: Result<nat>, i: nat, v: nat): Result<nat> {
    if r.Ok? then Ok(v + LeftShift(r.value, i), r.next) else r
  }

  lemma {:induction false} Distributed(u: nat, x: nat, i: nat)
    ensures LeftShift(u + 128 * x, i) == LeftShift(u, i) + LeftShift(x, i + 1)
  {
    if i == 0 {
      assert LeftShift(x, 1) == 128 * LeftShift(x, 0);
    } else {
      Distributed(u, x, i - 1);
    }
  }

  lemma {:induction false} ShiftedOk(x: nat, next: nat, i: nat, v: nat, worth: nat)
    requires v + LeftShift(x, i) == worth
    ensures Shifted(Ok(x, next), i, v) == Ok(worth, next)
  {
  }

  lemma {:induction false} ShiftedNext(x: nat, next: nat, i: nat, v: nat, u: nat)
    ensures Shifted(Ok(u + 128 * x, next), i, v) == Shifted(Ok(x, next), i + 1, v + LeftShift(u, i))
  {
    var worth := v + LeftShift(u, i) + LeftShift(x, i + 1);
    Distributed(u, x, i);
    ShiftedOk(u + 128 * x, next, i, v, worth);
    ShiftedOk(x, next, i + 1, v + LeftShift(u, i), worth);
  }

  /** `i` bytes from `start` on are read and worth `v`; kept closed. */
  ghost predicate Reading(s: seq<byte>, start: nat, at: nat, w: Width, i: nat, v: nat) {
    i <= w.last && forall j: nat :: Same(j, i) && j <= w.last ==> Decode(s, start, w, 0) == Shifted(Decode(s, at, w, j), j, v)
  }

  lemma ReadingStart(s: seq<byte>, at: nat, w: Width)
    ensures Reading(s, at, at, w, 0, 0)
  {
  }

  /** What the next byte decides. */
  lemma ReadingByte(s: seq<byte>, start: nat, at: nat, w: Width, i: nat, v: nat)
    requires Reading(s, start, at, w, i, v)
    ensures at >= |s| ==> Decode(s, start, w, 0) == Underflow
    ensures at < |s| && i == w.last && s[at] as nat >= w.top ==> Decode(s, start, w, 0) == Overflow
    ensures at < |s| && (if i == w.last then s[at] as nat < w.top else s[at] < 128) ==>
              Decode(s, start, w, 0) == Ok(v + LeftShift(s[at] as nat, i), at + 1)
    ensures at < |s| && i < w.last && s[at] >= 128 ==> Reading(s, start, at + 1, w, i + 1, v + LeftShift(s[at] as nat - 128, i))
  {
    assert Same(i, i);
    if at < |s| && i < w.last && s[at] >= 128 {
      var rest := Decode(s, at + 1, w, i + 1);
      if rest.Ok? {
        ShiftedNext(rest.value, rest.next, i, v, s[at] as nat - 128);
      }
    }
  }

  class Reader {
    const data: seq<byte>
    var curr: nat

    constructor (bytes: seq<byte>)
      ensures data == bytes && curr == 0
    {
      data, curr := bytes, 0;
    }

    /** The next byte; not `ok` where the library throws an underflow error. */
    method Get() returns (ok: bool, u: nat)
      modifies this`curr
      ensures ok <==> old(curr) < |data|
      ensures ok ==> u == data[old(curr)] as nat && curr == old(curr) + 1
      ensures !ok ==> u == 0 && curr == old(curr)
    {
      ok, u := curr < |data|, 0;
      if ok {
        u := data[curr] as nat;
        curr := curr + 1;
      }
    }

    /** Byte after byte, while the high bit is set; the last byte there may be is checked for overflow. The library has this
        loop unrolled, once for each width.
     */
    method GetVarint(w: Width) returns (r: Result<nat>)
      modifies this`curr
      ensures r == Decode(data, old(curr), w, 0)
      ensures r.Ok? ==> curr == r.next
    {
      var v: nat, i: nat := 0, 0;
      ReadingStart(data, curr, w);
      while i < w.last
        invariant i <= w.last && Reading(data, old(curr), curr, w, i, v)
      {
        ReadingByte(data, old(curr), curr, w, i, v);
        var ok, u := Get();
        if !ok {
          return Underflow;
        }
        if u < 128 {
          return Ok(v + LeftShift(u, i), curr);
        }
        v := v + LeftShift(u - 128, i);
        i := i + 1;
      }
      ReadingByte(data, old(curr), curr, w, i, v);
      var ok, u := Get();
      if !ok {
        return Underflow;
      }
      r := if u >= w.top then Overflow else Ok(v + LeftShift(u, i), curr);
    }

    method GetVarint32() returns (r: Result<nat>)
      modifies this`curr
      ensures r == Decode(data, old(curr), W32, 0)
      ensures r.Ok? ==> curr == r.next
    {
      r := GetVarint(W32);
    }

    method GetVarint64() returns (r: Result<nat>)
      modifies this`curr
      ensures r == Decode(data, old(curr), W64, 0)
      ensures r.Ok? ==> curr == r.next
    {
      r := GetVarint(W64);
    }

    method GetString() returns (r: Result<seq<byte>>)
      modifies this`curr
      ensures r == StringAt(data, old(curr))
      ensures r.Ok? ==> curr == r.next
      ensures
        var len := Decode(data, old(curr), W32, 0);
        r.Ok? <==> len.Ok? && len.next + len.value <= |data|
    {
      var len := GetVarint32();
      if !len.Ok? {
        return if len.Overflow? then Overflow else Underflow;
      }
      if curr + len.value > |data| {
        return Underflow;
      }
      r := Ok(data[curr..curr + len.value], curr + len.value);
      curr := curr + len.value;
    }
  }

  /** A string is there exactly if its length can be decoded and that number of bytes follows. */
  function StringAt(s: seq<byte>, at: nat): (r: Result<seq<byte>>)
    ensures
      match Decode(s, at, W32, 0)
      case Ok(len, next) =>
        if next + len <= |s| then r.Ok? && |r.value| == len && HasAt(s, next, r.value) && r.next == next + len
        else r == Underflow
      case Overflow => r == Overflow
      case Underflow => r == Underflow
  {
    match Decode(s, at, W32, 0)
    case Ok(len, next) => if next + len > |s| then Underflow else Ok(s[next..next + len], next + len)
    case Overflow => Overflow
    case Underflow => Underflow
  }

  // ----- any sequence of items

  datatype Item = V32(v: nat) | V64(v: nat) | Text(s: seq<byte>)

  predicate Storable(x: Item) {
    match x
    case V32(v) => v < 0x1_0000_0000
    case V64(v) => v < 0x1_0000_0000_0000_0000
    case Text(s) => |s| < 0x1_0000_0000
  }

  function Stored(x: Item): seq<byte> {
    match x
    case V32(v) => Encode(v)
    case V64(v) => Encode(v)
    case Text(s) => Encode(|s|) + s
  }

  /** The item can be stored, and `piece` is how; kept closed. */
  ghost predicate Fit(x: Item, piece: seq<byte>) {
    forall y :: Same(y, x) ==> Storable(y) && Stored(y) == piece
  }

  ghost predicate AllFit(items: seq<Item>, parts: seq<seq<byte>>) {
    |parts| == |items| && forall i :: 0 <= i < |items| ==> Fit(items[i], parts[i])
  }

  /** The bytes of each item. */
  ghost function Pieces(items: seq<Item>): (r: seq<seq<byte>>)
    requires forall i :: 0 <= i < |items| ==> Storable(items[i])
    ensures AllFit(items, r)
  {
    seq(|items|, i requires 0 <= i < |items| => Stored(items[i]))
  }

  /** The first `n` pieces, one behind the other. */
  ghost function JoinTo(parts: seq<seq<byte>>, n: nat): seq<byte>
    requires n <= |parts|
  {
    if n == 0 then [] else JoinTo(parts, n - 1) + parts[n - 1]
  }

  method PutItem(b: Buffer, x: Item, ghost piece: seq<byte>)
    requires b.Valid() && Fit(x, piece)
    modifies b, b.data
    ensures b.Valid() && b.Contents() == old(b.Contents()) + piece && (b.data == old(b.data) || fresh(b.data))
  {
    assert Same(x, x);
    match x
    case V32(v) => b.PutVarint32(v);
    case V64(v) => b.PutVarint64(v);
    case Text(s) => b.PutString(s);
  }

  /** Reads an item of the kind of `like`. */
  method GetItem(r: Reader, like: Item, ghost piece: seq<byte>) returns (x: Item)
    requires Fit(like, piece) && HasAt(r.data, r.curr, piece)
    modifies r`curr
    ensures x == like && r.curr == old(r.curr) + |piece|
  {
    assert Same(like, like);
    ItemReadBack(r.data, r.curr, like);
    match like
    case V32(_) =>
      var v := r.GetVarint32();
      x := V32(v.value);
    case V64(_) =>
      var v := r.GetVarint64();
      x := V64(v.value);
    case Text(_) =>
      var s := r.GetString();
      x := Text(s.value);
  }

  lemma ItemReadBack(s: seq<byte>, at: nat, x: Item)
    requires Storable(x) && HasAt(s, at, Stored(x))
    ensures x.V32? ==> Decode(s, at, W32, 0) == Ok(x.v, at + |Stored(x)|)
    ensures x.V64? ==> Decode(s, at, W64, 0) == Ok(x.v, at + |Stored(x)|)
    ensures x.Text? ==> StringAt(s, at) == Ok(x.s, at + |Stored(x)|)
  {
    Limits();
    match x
    case V32(v) => RoundTrip(v, s, at, W32, 0);
    case V64(v) => RoundTrip(v, s, at, W64, 0);
    case Text(t) =>
      TwoParts(s, at, Encode(|t|), t);
      RoundTrip(|t|, s, at, W32, 0);
  }

  lemma TwoParts(s: seq<byte>, at: nat, a: seq<byte>, b: seq<byte>)
    requires HasAt(s, at, a + b)
    ensures HasAt(s, at, a) && HasAt(s, at + |a|, b)
  {
    assert s[at..at + |a|] == s[at..at + |a + b|][..|a|] == a;
    assert s[at + |a|..at + |a| + |b|] == s[at..at + |a + b|][|a|..] == b;
  }

  ghost predicate IsPrefix(a: seq<byte>, b: seq<byte>) {
    |a| <= |b| && b[..|a|] == a
  }

  lemma LongerPrefix(a: seq<byte>, b: seq<byte>, c: seq<byte>)
    requires IsPrefix(a, b)
    ensures IsPrefix(a, b + c)
  {
    assert (b + c)[..|a|] == b[..|a|];
  }

  lemma {:induction false} JoinPrefix(parts: seq<seq<byte>>, i: nat, j: nat)
    requires i <= j <= |parts|
    ensures IsPrefix(JoinTo(parts, i), JoinTo(parts, j))
    decreases j
  {
    if i >= j {
    } else {
      JoinPrefix(parts, i, j - 1);
      LongerPrefix(JoinTo(parts, i), JoinTo(parts, j - 1), parts[j - 1]);
    }
  }

  lemma PartOfPrefix(a: seq<byte>, b: seq<byte>, all: seq<byte>)
    requires IsPrefix(a + b, all)
    ensures HasAt(all, |a|, b)
  {
    assert all[|a|..|a| + |b|] == all[..|a + b|][|a|..] == b;
  }

  /** Piece `n` is where the first `n` pieces end. */
  lemma PieceAt(parts: seq<seq<byte>>, n: nat)
    requires n < |parts|
    ensures HasAt(JoinTo(parts, |parts|), |JoinTo(parts, n)|, parts[n])
    ensures |JoinTo(parts, n + 1)| == |JoinTo(parts, n)| + |parts[n]|
  {
    JoinPrefix(parts, n + 1, |parts|);
    PartOfPrefix(JoinTo(parts, n), parts[n], JoinTo(parts, |parts|));
  }

  /** Any sequence of items, put into a buffer and read back by the matching calls, comes back, and the reader has used up
      exactly the bytes that were written, through any number of buffer growths.
   */
  method WriteAndRead(items: seq<Item>) returns (back: seq<Item>, used: nat, size: nat)
    requires forall i :: 0 <= i < |items| ==> Storable(items[i])
    ensures back == items && used == size
  {
    ghost var parts := Pieces(items);
    var b := WriteAll(items, parts);
    var r := new Reader(b.data[..b.size]);
    back := ReadAll(r, items, parts);
    used, size := r.curr, b.size;
  }

  method WriteAll(items: seq<Item>, ghost parts: seq<seq<byte>>) returns (b: Buffer)
    requires AllFit(items, parts)
    ensures b.Valid() && b.Contents() == JoinTo(parts, |parts|)
  {
    b := new Buffer();
    var i := 0;
    while i < |items|
      invariant i <= |items| && b.Valid() && fresh(b) && fresh(b.data) && b.Contents() == JoinTo(parts, i)
    {
      PutItem(b, items[i], parts[i]);
      i := i + 1;
    }
  }

  method ReadAll(r: Reader, items: seq<Item>, ghost parts: seq<seq<byte>>) returns (back: seq<Item>)
    requires AllFit(items, parts) && r.curr == 0 && r.data == JoinTo(parts, |parts|)
    modifies r`curr
    ensures back == items && r.curr == |r.data|
  {
    back := [];
    while |back| < |items|
      invariant |back| <= |items| && back == items[..|back|] && r.curr == |JoinTo(parts, |back|)|
    {
      PieceAt(parts, |back|);
      var x := GetItem(r, items[|back|], parts[|back|]);
      back := back + [x];
    }
  }
}
