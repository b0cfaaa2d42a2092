/** Range minima, and the sparse table that answers them with two look-ups. */
module SparseTable {
  import opened Powers
  import opened Logarithms

  function Min(a: nat, b: nat): nat {
    if a <= b then a else b
  }

  /** The minimum of `v[i..j]`, both ends included. */
  function RangeMin(v: seq<nat>, i: nat, j: nat): nat
    requires i <= j < |v|
    decreases j - i
  {
    if i == j then v[i] else Min(v[i], RangeMin(v, i + 1, j))
  }

  ghost predicate IsMin(v: seq<nat>, i: nat, j: nat, m: nat)
    requires i <= j < |v|
  {
    && (exists k :: i <= k <= j && v[k] == m)
    && (forall k :: i <= k <= j ==> m <= v[k])
  }

  lemma {:induction false} RangeMinMeaning(v: seq<nat>, i: nat, j: nat, m: nat)
    requires i <= j < |v|
    ensures m == RangeMin(v, i, j) <==> IsMin(v, i, j, m)
    decreases j - i
  {
    if i >= j {
    } else {
      var r := RangeMin(v, i + 1, j);
      RangeMinMeaning(v, i + 1, j, r);
      assert IsMin(v, i + 1, j, r);
    }
    RangeMinAttained(v, i, j);
  }

  lemma {:induction false} RangeMinAttained(v: seq<nat>, i: nat, j: nat)
    requires i <= j < |v|
    ensures IsMin(v, i, j, RangeMin(v, i, j))
    decreases j - i
  {
    if i < j {
      RangeMinAttained(v, i + 1, j);
    } else {
      assert v[i] == RangeMin(v, i, j);
    }
  }

  /** Two ranges that cover a third one without a gap. They may overlap. */
  lemma Covered(v: seq<nat>, i: nat, j: nat, a: nat, b: nat)
    requires i <= a <= b + 1 && i <= b <= j < |v| && a <= j
    ensures RangeMin(v, i, j) == Min(RangeMin(v, i, b), RangeMin(v, a, j))
  {
    RangeMinAttained(v, i, b);
    RangeMinAttained(v, a, j);
    RangeMinMeaning(v, i, j, Min(RangeMin(v, i, b), RangeMin(v, a, j)));
  }

  lemma {:induction false} Shifted(v: seq<nat>, w: seq<nat>, from: nat, i: nat, j: nat)
    requires from + |w| <= |v| && w == v[from..from + |w|] && i <= j < |w|
    ensures RangeMin(w, i, j) == RangeMin(v, from + i, from + j)
    decreases j - i
  {
    if i >= j {
    } else {
      Shifted(v, w, from, i + 1, j);
    }
  }

  lemma {:induction false} Pow2Monotone(k: nat, l: nat)
    requires k <= l
    ensures Pow2(k) <= Pow2(l)
    decreases l
  {
    if k >= l {
    } else {
      Pow2Monotone(k, l - 1);
    }
  }

  /** Row `k` has the minima of all ranges of `2^k` elements. */
  ghost predicate IsRow(v: seq<nat>, row: seq<nat>, width: nat) {
    && 0 < width <= |v| && |row| == |v| - width + 1
    && forall i :: 0 <= i < |row| ==> row[i] == RangeMin(v, i, i + width - 1)
  }

  ghost predicate AreRows(v: seq<nat>, rows: seq<seq<nat>>) {
    forall k :: 0 <= k < |rows| ==> IsRow(v, rows[k], Pow2(k))
  }

  method AddRow(v: seq<nat>, rows: seq<seq<nat>>) returns (rows': seq<seq<nat>>)
    requires |rows| > 0 && AreRows(v, rows) && Pow2(|rows|) <= |v|
    ensures |rows'| == |rows| + 1 && AreRows(v, rows')
  {
    var k := |rows| - 1;
    var row := NextRow(v, rows[k], Pow2(k));
    rows' := rows + [row];
  }

  class Table {
    var rows: seq<seq<nat>>

    ghost predicate Valid(v: seq<nat>)
      reads this
    {
      |v| > 0 && |rows| == FloorLog2(|v|) + 1 && AreRows(v, rows)
    }

    constructor (field: seq<nat>)
      requires |field| > 0
      ensures Valid(field)
    {
      var dimK := FloorLog2(|field|) + 1;
      var table := [field];
      while |table| < dimK
        invariant 0 < |table| <= dimK && AreRows(field, table)
      {
        Pow2Monotone(|table|, dimK - 1);
        table := AddRow(field, table);
      }
      rows := table;
    }

    /** The minimum of any range, from two rows' entries that overlap. */
    method Query(ghost v: seq<nat>, i: nat, j: nat) returns (m: nat)
      requires Valid(v) && i <= j < |v|
      ensures m == RangeMin(v, i, j)
    {
      var k := FloorLog2(j - i + 1);
      LogMonotone(j - i + 1, |v|);
      assert IsRow(v, rows[k], Pow2(k));
      var r := rows[k][i];
      var s := rows[k][j - Pow2(k) + 1];
      Covered(v, i, j, j - Pow2(k) + 1, i + Pow2(k) - 1);
      m := if r <= s then r else s;
    }
  }

  lemma TwoHalves(v: seq<nat>, row: seq<nat>, width: nat, i: nat)
    requires IsRow(v, row, width) && i + 2 * width <= |v|
    ensures RangeMin(v, i, i + 2 * width - 1) == Min(row[i], row[i + width])
  {
    Covered(v, i, i + 2 * width - 1, i + width, i + width - 1);
  }

  /** The loop over one row, with its early exit. */
  method NextRow(v: seq<nat>, row: seq<nat>, width: nat) returns (next: seq<nat>)
    requires IsRow(v, row, width) && 2 * width <= |v|
    ensures IsRow(v, next, 2 * width)
  {
    next := [];
    var i := 0;
    while i + width < |v|
      invariant i == |next| <= |v| - 2 * width
      invariant forall x :: 0 <= x < |next| ==> next[x] == RangeMin(v, x, x + 2 * width - 1)
    {
      TwoHalves(v, row, width, i);
      if row[i] <= row[i + width] {
        next := next + [row[i]];
      } else {
        next := next + [row[i + width]];
      }
      if i == |v| - 2 * width {
        break;
      }
      i := i + 1;
    }
  }
}
