/** Batched range minimum queries over pages: what the parts of a query are and how their answers are put together. */
module PagedRmq {
  import opened Options
  import opened Sorting
  import opened SparseTable

  datatype Query = Query(id: nat, i: nat, j: nat)
  datatype LeftRmq = LeftRmq(id: nat, i: nat, j: nat, k: nat)
  datatype RightRmq = RightRmq(id: nat, i: nat, j: nat, k: nat, tmpK: nat)
  datatype FinalPair = FinalPair(id: nat, min: nat)

  /** `count` pages of `span` elements; the last one has `endPart` elements if that is not 0. */
  datatype Pages = Pages(length: nat, span: nat, endPart: nat, count: nat)

  function Left(p: Pages, k: nat): nat {
    if k == 0 then 0 else Left(p, k - 1) + p.span
  }

  /** The last element of page `k`. */
  function Right(p: Pages, k: nat): int {
    Left(p, k) + (if k + 1 == p.count && p.endPart > 0 then p.endPart else p.span) - 1
  }

  ghost predicate ValidPages(p: Pages) {
    && p.span > 0 && p.count > 0 && p.endPart < p.span && (p.endPart > 0 ==> p.count > 1)
    && Right(p, p.count - 1) + 1 == p.length
  }

  lemma {:induction false} LeftIsProduct(p: Pages, k: nat)
    ensures Left(p, k) == k * p.span
  {
    if k == 0 {
    } else {
      LeftIsProduct(p, k - 1);
      assert (k - 1) * p.span + p.span == k * p.span;
    }
  }

  /** The page borders for a page size; the choice of the size is not part of this model. */
  method Initialize(length: nat, span: nat) returns (p: Pages)
    requires 1 <= span <= length
    ensures ValidPages(p) && p.length == length && p.span == span
  {
    var tmp := length / span;
    assert tmp > 0;
    if length % span != 0 {
      p := Pages(length, span, length - tmp * span, tmp + 1);
    } else {
      p := Pages(length, span, 0, tmp);
    }
    LeftIsProduct(p, tmp);
    assert length == tmp * span + length % span;
  }

  lemma {:induction false} LeftMonotone(p: Pages, k: nat, l: nat)
    requires k <= l
    ensures Left(p, k) <= Left(p, l) && (k < l ==> Left(p, k) + p.span <= Left(p, l))
    decreases l
  {
    if k >= l {
    } else {
      LeftMonotone(p, k, l - 1);
    }
  }

  /** Pages follow each other, and end within the values. */
  lemma PageEnds(p: Pages, k: nat)
    requires ValidPages(p) && k < p.count
    ensures Left(p, k) <= Right(p, k) < p.length
    ensures k + 1 < p.count ==> Right(p, k) + 1 == Left(p, k + 1)
  {
    LeftMonotone(p, k, p.count - 1);
  }

  ghost predicate InPage(p: Pages, k: nat, x: nat) {
    k < p.count && Left(p, k) <= x <= Right(p, k)
  }

  // ----- the parts of a query

  ghost predicate ValidQuery(p: Pages, q: Query) {
    q.i <= q.j < p.length
  }

  /** The part in the page of the left end. */
  ghost predicate IsLeftPart(p: Pages, q: Query, l: LeftRmq) {
    && InPage(p, l.k, q.i) && q.i <= q.j
    && l == LeftRmq(q.id, q.i - Left(p, l.k), (if q.j <= Right(p, l.k) then q.j else Right(p, l.k)) - Left(p, l.k), l.k)
  }

  /** The part in the page of the right end, if that is another page. */
  ghost predicate IsRightPart(p: Pages, q: Query, l: LeftRmq, r: RightRmq) {
    InPage(p, r.k, q.j) && l.k < r.k && r == RightRmq(q.id, 0, q.j - Left(p, r.k), r.k, l.k)
  }

  ghost predicate IsSplit(p: Pages, q: Query, l: LeftRmq, r: Option<RightRmq>) {
    && IsLeftPart(p, q, l)
    && (if q.j <= Right(p, l.k) then r == None else r.Some? && IsRightPart(p, q, l, r.value))
  }

  /** The walk over the pages for one query. */
  method SplitOne(p: Pages, q: Query) returns (l: LeftRmq, r: Option<RightRmq>)
    requires ValidPages(p) && ValidQuery(p, q)
    ensures IsSplit(p, q, l, r)
  {
    l, r := LeftRmq(0, 0, 0, 0), None;
    var finishedI, tmpK := false, 0;
    var leftBorder, rightBorder := 0, p.span - 1;
    var k := 0;
    PageEnds(p, 0);
    while k < p.count
      invariant k <= p.count
      invariant k < p.count ==> leftBorder == Left(p, k) && rightBorder == Right(p, k)
      invariant r == None && (finishedI ==> IsLeftPart(p, q, l) && l.k < k && tmpK == l.k && Right(p, l.k) < q.j)
      invariant if finishedI then k == p.count ==> q.j > Right(p, p.count - 1) else k == p.count ==> q.i > Right(p, p.count - 1)
      invariant k < p.count ==> (if finishedI then q.j else q.i) >= leftBorder
    {
      PageEnds(p, k);
      if leftBorder <= q.i <= rightBorder && !finishedI {
        if leftBorder <= q.j <= rightBorder {
          l := LeftRmq(q.id, q.i - leftBorder, q.j - leftBorder, k);
          return;
        }
        l := LeftRmq(q.id, q.i - leftBorder, rightBorder - leftBorder, k);
        finishedI, tmpK := true, k;
      } else if leftBorder <= q.j <= rightBorder && finishedI {
        r := Some(RightRmq(q.id, 0, q.j - leftBorder, k, tmpK));
        return;
      }
      leftBorder := rightBorder + 1;
      rightBorder := rightBorder + (if k + 2 == p.count && p.endPart > 0 then p.endPart else p.span);
      k := k + 1;
    }
  }

  // ----- the answers

  /** The answer to a left part: a minimum within its page. */
  ghost function LeftPair(v: seq<nat>, p: Pages, l: LeftRmq): FinalPair {
    FinalPair(l.id, if l.i <= l.j && Left(p, l.k) + l.j < |v| then RangeMin(v, Left(p, l.k) + l.i, Left(p, l.k) + l.j) else 0)
  }

  /** The answer to a right part: a minimum from the page behind that of the left part on. */
  ghost function RightPair(v: seq<nat>, p: Pages, r: RightRmq): FinalPair {
    FinalPair(r.id, if Left(p, r.tmpK + 1) <= Left(p, r.k) + r.j < |v| then RangeMin(v, Left(p, r.tmpK + 1), Left(p, r.k) + r.j) else 0)
  }

  /** The pairs of a query: one, or two with the same id. */
  ghost function Block(v: seq<nat>, p: Pages, l: LeftRmq, r: Option<RightRmq>): seq<FinalPair> {
    [LeftPair(v, p, l)] + if r.None? then [] else [RightPair(v, p, r.value)]
  }

  function BlockMin(b: seq<FinalPair>): nat
    requires |b| > 0
  {
    if |b| == 1 then b[0].min else Min(b[0].min, b[1].min)
  }

  /** The parts of a query together have its answer. */
  lemma Recombined(v: seq<nat>, p: Pages, q: Query, l: LeftRmq, r: Option<RightRmq>)
    requires ValidPages(p) && p.length == |v| && ValidQuery(p, q) && IsSplit(p, q, l, r)
    ensures BlockMin(Block(v, p, l, r)) == RangeMin(v, q.i, q.j)
    ensures forall x :: 0 <= x < |Block(v, p, l, r)| ==> Block(v, p, l, r)[x].id == q.id
  {
    PageEnds(p, l.k);
    if r.Some? {
      PageEnds(p, r.value.k);
      LeftMonotone(p, l.k + 1, r.value.k);
      Covered(v, q.i, q.j, Left(p, l.k + 1), Right(p, l.k));
    }
  }

  /** What the queries' parts are answered with, query after query. */
  ghost function Blocks(v: seq<nat>, p: Pages, ls: seq<LeftRmq>, rs: seq<Option<RightRmq>>, from: nat): seq<FinalPair>
    requires |rs| == |ls| && from <= |ls|
    decreases |ls| - from
  {
    if from == |ls| then [] else Block(v, p, ls[from], rs[from]) + Blocks(v, p, ls, rs, from + 1)
  }

  ghost function LeftPairs(v: seq<nat>, p: Pages, ls: seq<LeftRmq>): seq<FinalPair> {
    seq(|ls|, i requires 0 <= i < |ls| => LeftPair(v, p, ls[i]))
  }

  ghost function RightPairs(v: seq<nat>, p: Pages, rs: seq<RightRmq>): seq<FinalPair> {
    seq(|rs|, i requires 0 <= i < |rs| => RightPair(v, p, rs[i]))
  }

  /** The right parts that there are. */
  function Present(rs: seq<Option<RightRmq>>, from: nat): seq<RightRmq>
    requires from <= |rs|
    decreases |rs| - from
  {
    if from == |rs| then [] else (if rs[from].None? then [] else [rs[from].value]) + Present(rs, from + 1)
  }

  lemma {:induction false} PresentAppend(rs: seq<Option<RightRmq>>, r: Option<RightRmq>, from: nat)
    requires from <= |rs|
    ensures Present(rs + [r], from) == Present(rs, from) + if r.None? then [] else [r.value]
    decreases |rs| - from
  {
    if from < |rs| {
      PresentAppend(rs, r, from + 1);
    } else {
      assert Present(rs + [r], from + 1) == [];
    }
  }

  lemma LeftPairsHead(v: seq<nat>, p: Pages, ls: seq<LeftRmq>, from: nat)
    requires from < |ls|
    ensures multiset(LeftPairs(v, p, ls[from..])) == multiset{LeftPair(v, p, ls[from])} + multiset(LeftPairs(v, p, ls[from + 1..]))
  {
    assert LeftPairs(v, p, ls[from..]) == [LeftPair(v, p, ls[from])] + LeftPairs(v, p, ls[from + 1..]);
  }

  lemma RightPairsHead(v: seq<nat>, p: Pages, r: RightRmq, rs: seq<RightRmq>)
    ensures multiset(RightPairs(v, p, [r] + rs)) == multiset{RightPair(v, p, r)} + multiset(RightPairs(v, p, rs))
  {
    assert RightPairs(v, p, [r] + rs) == [RightPair(v, p, r)] + RightPairs(v, p, rs);
  }

  lemma BlockPairs(v: seq<nat>, p: Pages, l: LeftRmq, r: Option<RightRmq>)
    ensures multiset(Block(v, p, l, r)) ==
            multiset{LeftPair(v, p, l)} + if r.None? then multiset{} else multiset{RightPair(v, p, r.value)}
  {
  }

  /** The sorters may mix the parts, but all pairs together are the pairs of the queries. */
  lemma {:induction false} BlocksMixed(v: seq<nat>, p: Pages, ls: seq<LeftRmq>, rs: seq<Option<RightRmq>>, from: nat)
    requires |rs| == |ls| && from <= |ls|
    ensures multiset(Blocks(v, p, ls, rs, from)) == multiset(LeftPairs(v, p, ls[from..])) + multiset(RightPairs(v, p, Present(rs, from)))
    decreases |ls| - from
  {
    if from >= |ls| {
    } else {
      BlocksMixed(v, p, ls, rs, from + 1);
      LeftPairsHead(v, p, ls, from);
      BlockPairs(v, p, ls[from], rs[from]);
      if rs[from].Some? {
        RightPairsHead(v, p, rs[from].value, Present(rs, from + 1));
      } else {
        assert Present(rs, from) == Present(rs, from + 1);
      }
    }
  }

  lemma LeftsRearranged(v: seq<nat>, p: Pages, s: seq<LeftRmq>, t: seq<LeftRmq>, perm: seq<nat>)
    requires Rearranged(s, t, perm)
    ensures multiset(LeftPairs(v, p, s)) == multiset(LeftPairs(v, p, t))
  {
    RearrangedMultiset(LeftPairs(v, p, s), LeftPairs(v, p, t), perm);
  }

  lemma RightsRearranged(v: seq<nat>, p: Pages, s: seq<RightRmq>, t: seq<RightRmq>, perm: seq<nat>)
    requires Rearranged(s, t, perm)
    ensures multiset(RightPairs(v, p, s)) == multiset(RightPairs(v, p, t))
  {
    RearrangedMultiset(RightPairs(v, p, s), RightPairs(v, p, t), perm);
  }

  // ----- pairs that are sorted by id

  ghost predicate ById(f: seq<FinalPair>) {
    forall x, y :: 0 <= x < y < |f| ==> f[x].id <= f[y].id
  }

  lemma WithoutHead(f: seq<FinalPair>, rest: multiset<FinalPair>)
    requires |f| > 0 && multiset(f) == multiset{f[0]} + rest
    ensures multiset(f[1..]) == rest
  {
    assert f == [f[0]] + f[1..];
    assert multiset(f) == multiset{f[0]} + multiset(f[1..]);
    assert multiset(f[1..]) == multiset(f) - multiset{f[0]} == rest;
  }

  /** The first of the sorted pairs is one of the least id. */
  lemma HeadIsLeast(f: seq<FinalPair>, least: multiset<FinalPair>, rest: seq<FinalPair>, id: nat)
    requires ById(f) && multiset(f) == least + multiset(rest) && |least| > 0
    requires (forall x :: x in least ==> x.id == id) && (forall y :: 0 <= y < |rest| ==> rest[y].id > id)
    ensures |f| > 0 && f[0] in least
  {
    var x :| x in least;
    assert x in multiset(f) && x in f;
    assert f[0] in multiset(f);
  }

  /** However a sorter arranges the pairs, the block of the least id comes first. */
  lemma OneComesFirst(f: seq<FinalPair>, b: FinalPair, rest: seq<FinalPair>)
    requires ById(f) && multiset(f) == multiset{b} + multiset(rest)
    requires forall y :: 0 <= y < |rest| ==> rest[y].id > b.id
    ensures |f| > 0 && f[0] == b && multiset(f[1..]) == multiset(rest) && (|f| > 1 ==> f[1].id != b.id)
  {
    HeadIsLeast(f, multiset{b}, rest, b.id);
    WithoutHead(f, multiset(rest));
    if |f| > 1 {
      assert f[1..][0] in multiset(rest);
    }
  }

  lemma TwoComeFirst(f: seq<FinalPair>, b: FinalPair, c: FinalPair, rest: seq<FinalPair>)
    requires ById(f) && multiset(f) == multiset{b, c} + multiset(rest) && b.id == c.id
    requires forall y :: 0 <= y < |rest| ==> rest[y].id > b.id
    ensures |f| > 1 && multiset(f[2..]) == multiset(rest) && multiset{f[0], f[1]} == multiset{b, c}
  {
    HeadIsLeast(f, multiset{b, c}, rest, b.id);
    var tail, other := f[1..], if f[0] == b then c else b;
    assert multiset{b, c} == multiset{f[0]} + multiset{other};
    WithoutHead(f, multiset{other} + multiset(rest));
    HeadIsLeast(tail, multiset{other}, rest, b.id);
    WithoutHead(tail, multiset(rest));
    assert tail[1..] == f[2..];
  }
}
