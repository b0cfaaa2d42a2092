/** Variable-length integers: seven bits a byte, the low ones first, the high bit set on all bytes but the last. */
module Varint {
  import opened Bytes
  import opened Multiples

  datatype Result<T> = Ok(value: T, next: nat) | Underflow | Overflow

  function Encode(v: nat): (s: seq<byte>)
    ensures |s| > 0
  {
    if v < 128 then [v as byte] else [(v % 128 + 128) as byte] + Encode(v / 128)
  }

  /** A reader for at most `last + 1` bytes, of which the last one has to be below `top`. `i` bytes have been read. */
  datatype Width = Width(last: nat, top: nat)

  const W32: Width := Width(4, 16)
  const W64: Width := Width(9, 2)

  function Decode(s: seq<byte>, at: nat, w: Width, i: nat): Result<nat>
    requires i <= w.last
    decreases w.last - i
  {
    if at >= |s| then Underflow
    else
      var u := s[at] as nat;
      if i == w.last then if u >= w.top then Overflow else Ok(u, at + 1)
      else if u < 128 then Ok(u, at + 1)
      else
        var rest := Decode(s, at + 1, w, i + 1);
        if rest.Ok? then Ok(u - 128 + 128 * rest.value, rest.next) else rest
  }

  /** What is left to encode after `i` bytes. */
  ghost function Limit(w: Width, i: nat): nat
    requires i <= w.last
    decreases w.last - i
  {
    if i == w.last then w.top else 128 * Limit(w, i + 1)
  }

  /** The bytes at `at` are `b`. */
  ghost predicate HasAt(s: seq<byte>, at: nat, b: seq<byte>) {
    at + |b| <= |s| && s[at..at + |b|] == b
  }

  lemma {:induction false} RoundTrip(v: nat, s: seq<byte>, at: nat, w: Width, i: nat)
    requires i <= w.last && v < Limit(w, i) && w.top <= 128 && HasAt(s, at, Encode(v))
    ensures Decode(s, at, w, i) == Ok(v, at + |Encode(v)|)
    decreases w.last - i
  {
    var b := Encode(v);
    assert s[at] == s[at..at + |b|][0] == b[0];
    if v < 128 {
    } else {
      var rest := Encode(v / 128);
      assert i < w.last;
      assert s[at + 1..at + 1 + |rest|] == s[at..at + |b|][1..] == rest;
      RoundTrip(v / 128, s, at + 1, w, i + 1);
    }
  }

  /** 32 and 64 bits: the widths are those of the two readers. */
  lemma Limits()
    ensures Limit(W32, 0) == 0x1_0000_0000 && Limit(W64, 0) == 0x1_0000_0000_0000_0000
  {
    assert Limit(W32, 2) == 128 * 128 * 16;
    assert Limit(W64, 7) == 128 * 128 * 2;
    assert Limit(W64, 5) == 128 * 128 * Limit(W64, 7);
    assert Limit(W64, 3) == 128 * 128 * Limit(W64, 5);
    assert Limit(W64, 1) == 128 * 128 * Limit(W64, 3);
  }

  // ----- the unrolled form

  function Pow128(k: nat): (r: nat)
    ensures r > 0
  {
    if k == 0 then 1 else 128 * Pow128(k - 1)
  }

  /** `(v >> 7k) & 0x7F`. */
  function Low(v: nat, k: nat): byte {
    (v / Pow128(k) % 128) as byte
  }

  /** `((v >> 7k) & 0x7F) | 0x80`. */
  function High(v: nat, k: nat): byte {
    (v / Pow128(k) % 128 + 128) as byte
  }

  lemma NextDigit(v: nat, k: nat)
    ensures Low(v / 128, k) == Low(v, k + 1) && High(v / 128, k) == High(v, k + 1)
  {
    ShiftTwice(v, k);
  }

  lemma ShiftTwice(v: nat, k: nat)
    ensures v / 128 / Pow128(k) == v / Pow128(k + 1)
  {
    Division(v, 128, Pow128(k));
  }

  lemma Division(v: nat, a: nat, b: nat)
    requires a > 0 && b > 0
    ensures v / a / b == v / (a * b)
  {
    DivisionRange(v, a, b, v / a, v / a / b);
    Unique(v, a * b, v / a / b);
  }

  lemma DivisionRange(v: nat, a: nat, b: nat, x: nat, q: nat)
    requires a > 0 && b > 0 && x == v / a && q == x / b
    ensures a * b > 0 && q * (a * b) <= v < (q + 1) * (a * b)
  {
    Floor(v, a);
    Floor(x, b);
    RangeProduct(v, a, b, x, q);
  }

  lemma RangeProduct(v: nat, a: nat, b: nat, x: nat, q: nat)
    requires a > 0 && b > 0 && x * a <= v < x * a + a && q * b <= x < q * b + b
    ensures a * b > 0 && q * (a * b) <= v < (q + 1) * (a * b)
  {
    Scaled(q * b, x, q * b + b, a);
    Regroup(q, a, b);
  }

  lemma Regroup(q: nat, a: nat, b: nat)
    requires a > 0 && b > 0
    ensures a * b > 0 && q * b * a == q * (a * b) && (q * b + b) * a == (q + 1) * (a * b)
  {
    assert (q * b + b) * a == q * b * a + b * a;
  }

  lemma Scaled(x: int, y: int, z: int, a: nat)
    requires x <= y < z
    ensures x * a <= y * a && y * a + a <= z * a
  {
    assert (y + 1) * a <= z * a;
  }

  lemma Unique(v: nat, p: nat, q: nat)
    requires p > 0 && q * p <= v < (q + 1) * p
    ensures v / p == q
  {
    Floor(v, p);
    var d := v / p;
    if d < q {
      Scaled(d, d, q, p);
    } else if d > q {
      Scaled(q, q, d, p);
    }
  }

  /** The `n` bytes of a number below `128^n`, by shifts. */
  lemma {:induction false} EncodeByShifts(v: nat, n: nat)
    requires n > 0 && v < Pow128(n) && (n > 1 ==> v >= Pow128(n - 1))
    ensures |Encode(v)| == n && Encode(v)[n - 1] == Low(v, n - 1)
    ensures forall k :: 0 <= k < n - 1 ==> Encode(v)[k] == High(v, k)
    decreases n
  {
    if n == 1 {
    } else {
      QuotientRange(v, n);
      EncodeByShifts(v / 128, n - 1);
      NextDigit(v, n - 2);
      forall k | 0 <= k < n - 1 ensures Encode(v)[k] == High(v, k) {
        if k > 0 {
          NextDigit(v, k - 1);
          assert Encode(v)[k] == Encode(v / 128)[k - 1];
        }
      }
    }
  }

  lemma QuotientRange(v: nat, n: nat)
    requires n > 1 && Pow128(n - 1) <= v < Pow128(n)
    ensures v >= 128 && v / 128 < Pow128(n - 1) && (n > 2 ==> v / 128 >= Pow128(n - 2))
  {
    assert Pow128(n) == 128 * Pow128(n - 1) && Pow128(n - 1) == 128 * Pow128(n - 2);
  }
}
