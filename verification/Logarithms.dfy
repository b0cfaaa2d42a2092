/** Logarithms to base two. */
module Logarithms {
  import opened Powers

  /** The greatest `k` with `2^k <= n`; 0 for 0. */
  function FloorLog2(n: nat): (k: nat)
    ensures n > 0 ==> Pow2(k) <= n < 2 * Pow2(k)
  {
    if n <= 1 then 0 else 1 + FloorLog2(n / 2)
  }

  /** The least `k` with `n <= 2^k`. */
  function CeilLog2(n: nat): (k: nat)
    ensures n <= Pow2(k) && (k > 0 ==> Pow2(k - 1) < n)
  {
    if n <= 1 then 0 else FloorLog2(n - 1) + 1
  }

  lemma {:induction false} AtLeastLog2(n: nat, p: nat)
    requires n > 0
    ensures FloorLog2(n) >= p <==> Pow2(p) <= n
  {
    if p == 0 {
    } else if n == 1 {
      assert Pow2(p) == 2 * Pow2(p - 1);
    } else {
      AtLeastLog2(n / 2, p - 1);
    }
  }

  lemma {:induction false} LogMonotone(a: nat, b: nat)
    requires 0 < a <= b
    ensures FloorLog2(a) <= FloorLog2(b)
  {
    if a == 1 {
    } else {
      LogMonotone(a / 2, b / 2);
    }
  }

  lemma FourTimes(a: nat, b: nat)
    requires 0 < 4 * a <= b
    ensures FloorLog2(a) + 2 <= FloorLog2(b)
  {
    var half, quarter := b / 2, b / 2 / 2;
    assert FloorLog2(b) == 1 + FloorLog2(half) && FloorLog2(half) == 1 + FloorLog2(quarter);
    LogMonotone(a, quarter);
  }

  lemma SixteenTimes(n: nat)
    requires n >= 16
    ensures FloorLog2(n) == 4 + FloorLog2(n / 16)
  {
    var half, quarter, eighth := n / 2, n / 4, n / 8;
    assert half / 2 == quarter && quarter / 2 == eighth && eighth / 2 == n / 16;
    assert FloorLog2(half) == 1 + FloorLog2(quarter);
    assert FloorLog2(eighth) == 1 + FloorLog2(n / 16);
  }

  /** By bytes, then by bits. */
  method Ilog2Floor(n: nat) returns (p: nat)
    ensures p == FloorLog2(n)
  {
    var i := n;
    p := 0;
    while i >= 256
      invariant p + FloorLog2(i) == FloorLog2(n)
    {
      SixteenTimes(i);
      SixteenTimes(i / 16);
      assert i / 16 / 16 == i / 256;
      i, p := i / 256, p + 8;
    }
    i := i / 2;
    while i != 0
      invariant p + (if i == 0 then 0 else 1 + FloorLog2(i)) == FloorLog2(n)
    {
      p := p + 1;
      i := i / 2;
    }
  }

  method Ilog2Ceil(n: nat) returns (p: nat)
    ensures p == CeilLog2(n)
  {
    if n <= 1 {
      return 0;
    }
    p := Ilog2Floor(n - 1);
    p := p + 1;
  }
}
