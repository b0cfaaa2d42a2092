/** Quotients, and multiples of a number by subtraction instead of `%`. */
module Multiples {
  lemma Floor(a: int, p: int)
    requires p > 0
    ensures a / p * p <= a < a / p * p + p
  {
  }

  /** `d` divides `x`, by subtraction. */
  ghost predicate Divides(d: nat, x: nat)
    requires d > 0
  {
    x == 0 || (x >= d && Divides(d, x - d))
  }

  /** The greatest multiple of `d` up to `x`. */
  ghost function UnitOf(x: nat, d: nat): nat
    requires d > 0
  {
    if x < d then 0 else d + UnitOf(x - d, d)
  }

  lemma RemainderBelow(d: nat, x: nat)
    requires d > 0 && x >= d
    ensures (x - d) % d == x % d && (x - d) / d + 1 == x / d
  {
    var q, r := x / d, x % d;
    var q', r' := (x - d) / d, (x - d) % d;
    assert d * q + r == d * (q' + 1) + r';
    QuotientUnique(d, q, r, q' + 1, r');
  }

  lemma QuotientUnique(d: nat, q: nat, r: nat, q': nat, r': nat)
    requires d * q + r == d * q' + r' && r < d && r' < d
    ensures q == q' && r == r'
  {
    if q < q' {
      MultipleAbove(d, q, q');
    } else if q' < q {
      MultipleAbove(d, q', q);
    }
  }

  lemma {:induction false} MultipleAbove(d: nat, q: nat, q': nat)
    requires q < q'
    ensures d * q + d <= d * q'
  {
    assert d * q' == d * (q' - 1) + d;
    if q + 1 >= q' {
    } else {
      MultipleAbove(d, q, q' - 1);
    }
  }

  /** `div_ceil`: the quotient, rounded up, by subtraction. */
  ghost function DivCeil(n: nat, d: nat): nat
    requires d > 0
  {
    if n == 0 then 0 else if n <= d then 1 else 1 + DivCeil(n - d, d)
  }

  lemma {:induction false} DivCeilMeaning(n: nat, d: nat)
    requires d > 0
    ensures DivCeil(n, d) == n / d + if n % d != 0 then 1 else 0
  {
    if n >= d {
      RemainderBelow(d, n);
      DivCeilMeaning(n - d, d);
    } else {
      QuotientUnique(d, n / d, n % d, 0, n);
    }
  }

  lemma {:induction false} DividesMeaning(d: nat, x: nat)
    requires d > 0
    ensures Divides(d, x) <==> x % d == 0
  {
    if x >= d {
      RemainderBelow(d, x);
      DividesMeaning(d, x - d);
    } else {
      QuotientUnique(d, x / d, x % d, 0, x);
    }
  }

  lemma {:induction false} SumOfMultiples(d: nat, a: nat, b: nat)
    requires d > 0 && Divides(d, a) && Divides(d, b)
    ensures Divides(d, a + b)
  {
    if a == 0 {
    } else {
      SumOfMultiples(d, a - d, b);
      assert a + b - d == a - d + b;
    }
  }

  lemma {:induction false} DifferenceOfMultiples(d: nat, a: nat, b: nat)
    requires d > 0 && Divides(d, a) && Divides(d, b) && b <= a
    ensures Divides(d, a - b)
  {
    if b == 0 {
    } else {
      DifferenceOfMultiples(d, a - d, b - d);
    }
  }

  lemma {:induction false} BelowMultiple(d: nat, x: nat, end: nat)
    requires d > 0 && Divides(d, end)
    ensures x < end <==> UnitOf(x, d) < end
  {
    if x < d || end == 0 {
    } else {
      BelowMultiple(d, x - d, end - d);
    }
  }

  lemma {:induction false} SameUnit(d: nat, x: nat)
    requires d > 0 && !Divides(d, x)
    ensures x > 0 && UnitOf(x - 1, d) == UnitOf(x, d)
  {
    if x < d {
    } else {
      SameUnit(d, x - d);
    }
  }
}
