/** `sparseTableAlgo`: answers a batch of range minimum queries page by page. */
module SparseTableAlgo {
  import opened Options
  import opened Sorting
  import opened SparseTable
  import opened PagedRmq

  ghost predicate GoodLeft(p: Pages, l: LeftRmq) {
    l.k < p.count && l.i <= l.j && Left(p, l.k) + l.j <= Right(p, l.k)
  }

  ghost predicate GoodRight(p: Pages, r: RightRmq) {
    r.tmpK < r.k < p.count && r.i == 0 && Left(p, r.k) + r.j <= Right(p, r.k)
  }

  ghost predicate LeftsByPage(p: Pages, ls: seq<LeftRmq>) {
    && (forall x :: 0 <= x < |ls| ==> GoodLeft(p, ls[x]))
    && (forall x, y :: 0 <= x < y < |ls| ==> ls[x].k <= ls[y].k)
  }

  ghost predicate RightsByPage(p: Pages, rs: seq<RightRmq>) {
    && (forall x :: 0 <= x < |rs| ==> GoodRight(p, rs[x]))
    && (forall x, y :: 0 <= x < y < |rs| ==> rs[x].k <= rs[y].k)
  }

  // ----- splitting

  /** All queries are split, and the right parts are collected. */
  ghost predicate AllSplit(p: Pages, qs: seq<Query>, ls: seq<LeftRmq>, rs: seq<Option<RightRmq>>) {
    |ls| == |qs| && |rs| == |qs| && forall x :: 0 <= x < |qs| ==> IsSplit(p, qs[x], ls[x], rs[x])
  }

  method SplitAll(p: Pages, qs: seq<Query>) returns (ls: seq<LeftRmq>, rights: seq<RightRmq>, ghost rs: seq<Option<RightRmq>>)
    requires ValidPages(p) && forall x :: 0 <= x < |qs| ==> ValidQuery(p, qs[x])
    ensures |ls| == |qs| && forall x :: 0 <= x < |qs| ==> IsLeftPart(p, qs[x], ls[x])
    ensures AllSplit(p, qs, ls, rs) && rights == Present(rs, 0)
  {
    ls, rights, rs := [], [], [];
    while |ls| < |qs|
      invariant |ls| <= |qs| && AllSplit(p, qs[..|ls|], ls, rs) && rights == Present(rs, 0)
    {
      var l, r := SplitOne(p, qs[|ls|]);
      PresentAppend(rs, r, 0);
      rs := rs + [r];
      if r.Some? {
        rights := rights + [r.value];
      }
      ls := ls + [l];
    }
    assert qs[..|ls|] == qs;
  }

  lemma {:induction false} PresentGood(p: Pages, qs: seq<Query>, ls: seq<LeftRmq>, rs: seq<Option<RightRmq>>, from: nat)
    requires ValidPages(p) && AllSplit(p, qs, ls, rs) && from <= |rs|
    ensures forall x :: 0 <= x < |Present(rs, from)| ==> GoodRight(p, Present(rs, from)[x])
    decreases |rs| - from
  {
    if from >= |rs| {
    } else {
      PresentGood(p, qs, ls, rs, from + 1);
      assert IsSplit(p, qs[from], ls[from], rs[from]);
    }
  }

  // ----- answering

  /** One page of the stream, with its minimum; `limit` is the largest value that there is. */
  method ReadPage(v: seq<nat>, leftBorder: nat, rightBorder: nat, limit: nat) returns (page: seq<nat>, min: nat)
    requires leftBorder <= rightBorder < |v| && AtMost(v, limit)
    ensures page == v[leftBorder..rightBorder + 1] && min == RangeMin(v, leftBorder, rightBorder)
  {
    min := limit;
    page := [];
    var i := leftBorder;
    while i <= rightBorder
      invariant leftBorder <= i <= rightBorder + 1 && page == v[leftBorder..i]
      invariant min <= limit && (i == leftBorder ==> min == limit)
      invariant i > leftBorder ==> min == RangeMin(v, leftBorder, i - 1)
    {
      var temp := v[i];
      page := page + [temp];
      if i > leftBorder {
        Covered(v, leftBorder, i, i, i - 1);
      }
      if temp < min {
        min := temp;
      }
      i := i + 1;
    }
  }

  ghost predicate AreMinima(v: seq<nat>, p: Pages, minima: seq<nat>)
    requires ValidPages(p) && p.length == |v|
  {
    |minima| <= p.count && forall n :: 0 <= n < |minima| ==> MinimumOf(v, p, n, minima[n])
  }

  ghost predicate MinimumOf(v: seq<nat>, p: Pages, n: nat, m: nat)
    requires ValidPages(p) && p.length == |v| && n < p.count
  {
    PageEnds(p, n);
    m == RangeMin(v, Left(p, n), Right(p, n))
  }

  /** `getArrayMin`: the minima of the pages between `tmpK` and `k`. */
  method GetArrayMin(minima: seq<nat>, pageMin: nat, k: nat, tmpK: nat, ghost v: seq<nat>, ghost p: Pages) returns (min: nat)
    requires ValidPages(p) && p.length == |v| && AreMinima(v, p, minima) && tmpK < k < |minima|
    ensures Between(v, p, pageMin, k, tmpK, min)
  {
    min := pageMin;
    var lastPages := k - 1 - tmpK;
    var q := 1;
    while q <= lastPages
      invariant 1 <= q <= lastPages + 1
      invariant Between(v, p, pageMin, k, k - q, min)
    {
      BetweenNext(v, p, pageMin, k, k - q, min, minima[k - q]);
      if min > minima[k - q] {
        min := minima[k - q];
      }
      q := q + 1;
    }
  }

  /** `min` is the minimum of `pageMin` and the pages behind `from` and before `k`. */
  ghost predicate Between(v: seq<nat>, p: Pages, pageMin: nat, k: nat, from: nat, min: nat)
    requires ValidPages(p) && p.length == |v| && from < k < p.count
  {
    if from + 1 == k then min == pageMin
    else
      PageEnds(p, k - 1);
      LeftMonotone(p, from + 1, k - 1);
      min == Min(pageMin, RangeMin(v, Left(p, from + 1), Right(p, k - 1)))
  }

  lemma BetweenNext(v: seq<nat>, p: Pages, pageMin: nat, k: nat, from: nat, min: nat, m: nat)
    requires ValidPages(p) && p.length == |v| && 0 < from < k < p.count
    requires Between(v, p, pageMin, k, from, min) && MinimumOf(v, p, from, m)
    ensures Between(v, p, pageMin, k, from - 1, Min(min, m))
  {
    PageEnds(p, from);
    PageEnds(p, k - 1);
    if from + 1 < k {
      LeftMonotone(p, from + 1, k - 1);
      Covered(v, Left(p, from), Right(p, k - 1), Left(p, from + 1), Right(p, from));
    }
  }

  lemma BetweenMeaning(v: seq<nat>, p: Pages, pageMin: nat, k: nat, from: nat, min: nat)
    requires ValidPages(p) && p.length == |v| && from < k < p.count && Between(v, p, pageMin, k, from, min) && Left(p, k) < |v|
    ensures
      var here, there := Left(p, k), Left(p, from + 1);
      there <= here && min == if there == here then pageMin else Min(pageMin, RangeMin(v, there, here - 1))
  {
    if from + 1 < k {
      PageEnds(p, k - 1);
      LeftMonotone(p, from + 1, k - 1);
    }
  }

  /** The answer to one right part. */
  lemma RightAnswer(v: seq<nat>, p: Pages, r: RightRmq, pageMin: nat, min: nat)
    requires ValidPages(p) && p.length == |v| && GoodRight(p, r)
    requires Left(p, r.k) + r.j < |v| && pageMin == RangeMin(v, Left(p, r.k), Left(p, r.k) + r.j)
    requires Between(v, p, pageMin, r.k, r.tmpK, min)
    ensures FinalPair(r.id, min) == RightPair(v, p, r)
  {
    BetweenMeaning(v, p, pageMin, r.k, r.tmpK, min);
    JoinedMin(v, Left(p, r.tmpK + 1), Left(p, r.k), Left(p, r.k) + r.j, pageMin, min);
  }

  /** The minimum of a range from those of its two parts, the first of which may be empty. */
  lemma JoinedMin(v: seq<nat>, from: nat, here: nat, to: nat, pageMin: nat, min: nat)
    requires from <= here <= to < |v| && pageMin == RangeMin(v, here, to)
    requires min == if from == here then pageMin else Min(pageMin, RangeMin(v, from, here - 1))
    ensures min == RangeMin(v, from, to)
  {
    if from < here {
      Covered(v, from, to, here, here - 1);
    }
  }

  /** Page `n`, from the stream, with its sparse table. */
  ghost predicate PageTable(v: seq<nat>, p: Pages, n: nat, page: seq<nat>)
    requires ValidPages(p) && p.length == |v| && n < p.count
  {
    PageEnds(p, n);
    page == v[Left(p, n)..Right(p, n) + 1]
  }

  method AnswerLeft(ghost v: seq<nat>, ghost p: Pages, n: nat, table: Table, ghost page: seq<nat>, l: LeftRmq) returns (pair: FinalPair)
    requires ValidPages(p) && p.length == |v| && n < p.count && PageTable(v, p, n, page) && table.Valid(page)
    requires GoodLeft(p, l) && l.k == n
    ensures pair == LeftPair(v, p, l)
  {
    PageEnds(p, n);
    Shifted(v, page, Left(p, n), l.i, l.j);
    var min := table.Query(page, l.i, l.j);
    pair := FinalPair(l.id, min);
  }

  lemma LeftPairsNext(v: seq<nat>, p: Pages, ls: seq<LeftRmq>, a: nat, b: nat)
    requires a <= b < |ls|
    ensures LeftPairs(v, p, ls[a..b + 1]) == LeftPairs(v, p, ls[a..b]) + [LeftPair(v, p, ls[b])]
  {
  }

  lemma RightPairsNext(v: seq<nat>, p: Pages, rs: seq<RightRmq>, a: nat, b: nat)
    requires a <= b < |rs|
    ensures RightPairs(v, p, rs[a..b + 1]) == RightPairs(v, p, rs[a..b]) + [RightPair(v, p, rs[b])]
  {
  }

  /** The left parts of page `n`. */
  method AnswerLefts(ghost v: seq<nat>, ghost p: Pages, n: nat, table: Table, ghost page: seq<nat>, ls: seq<LeftRmq>, a: nat)
    returns (pairs: seq<FinalPair>, b: nat)
    requires ValidPages(p) && p.length == |v| && n < p.count && PageTable(v, p, n, page) && table.Valid(page)
    requires LeftsByPage(p, ls) && a <= |ls| && forall x :: a <= x < |ls| ==> ls[x].k >= n
    ensures a <= b <= |ls| && pairs == LeftPairs(v, p, ls[a..b]) && forall x :: b <= x < |ls| ==> ls[x].k > n
  {
    pairs, b := [], a;
    while b < |ls| && ls[b].k <= n
      invariant a <= b <= |ls| && pairs == LeftPairs(v, p, ls[a..b])
    {
      var pair := AnswerLeft(v, p, n, table, page, ls[b]);
      LeftPairsNext(v, p, ls, a, b);
      pairs := pairs + [pair];
      b := b + 1;
    }
  }

  method AnswerRight(ghost v: seq<nat>, ghost p: Pages, n: nat, table: Table, ghost page: seq<nat>, minima: seq<nat>, r: RightRmq)
    returns (pair: FinalPair)
    requires ValidPages(p) && p.length == |v| && n < p.count && PageTable(v, p, n, page) && table.Valid(page)
    requires AreMinima(v, p, minima) && |minima| == n + 1 && GoodRight(p, r) && r.k == n
    ensures pair == RightPair(v, p, r)
  {
    PageEnds(p, n);
    Shifted(v, page, Left(p, n), 0, r.j);
    var pageMin := table.Query(page, r.i, r.j);
    var min := GetArrayMin(minima, pageMin, r.k, r.tmpK, v, p);
    RightAnswer(v, p, r, pageMin, min);
    pair := FinalPair(r.id, min);
  }

  /** The right parts of page `n`. */
  method AnswerRights(ghost v: seq<nat>, ghost p: Pages, n: nat, table: Table, ghost page: seq<nat>, minima: seq<nat>,
                      rs: seq<RightRmq>, a: nat)
    returns (pairs: seq<FinalPair>, b: nat)
    requires ValidPages(p) && p.length == |v| && n < p.count && PageTable(v, p, n, page) && table.Valid(page)
    requires AreMinima(v, p, minima) && |minima| == n + 1
    requires RightsByPage(p, rs) && a <= |rs| && forall x :: a <= x < |rs| ==> rs[x].k >= n
    ensures a <= b <= |rs| && pairs == RightPairs(v, p, rs[a..b]) && forall x :: b <= x < |rs| ==> rs[x].k > n
  {
    pairs, b := [], a;
    while b < |rs| && rs[b].k <= n
      invariant a <= b <= |rs| && pairs == RightPairs(v, p, rs[a..b])
    {
      var pair := AnswerRight(v, p, n, table, page, minima, rs[b]);
      RightPairsNext(v, p, rs, a, b);
      pairs := pairs + [pair];
      b := b + 1;
    }
  }

  // ----- the algorithm

  ghost function Answer(v: seq<nat>, q: Query): nat {
    if q.i <= q.j < |v| then RangeMin(v, q.i, q.j) else 0
  }

  /** The ids are given in the order of the queries. */
  ghost predicate IdsRise(qs: seq<Query>) {
    forall x, y :: 0 <= x < y < |qs| ==> qs[x].id < qs[y].id
  }

  lemma LeftPairsSplit(v: seq<nat>, p: Pages, ls: seq<LeftRmq>, a: nat, b: nat)
    requires a <= b <= |ls|
    ensures LeftPairs(v, p, ls[..b]) == LeftPairs(v, p, ls[..a]) + LeftPairs(v, p, ls[a..b])
  {
  }

  lemma RightPairsSplit(v: seq<nat>, p: Pages, rs: seq<RightRmq>, a: nat, b: nat)
    requires a <= b <= |rs|
    ensures RightPairs(v, p, rs[..b]) == RightPairs(v, p, rs[..a]) + RightPairs(v, p, rs[a..b])
  {
  }

  ghost predicate AtMost(v: seq<nat>, limit: nat) {
    forall x :: 0 <= x < |v| ==> v[x] <= limit
  }

  /** The size of the page that is added to the right border. */
  function PageSize(p: Pages, k: nat): nat {
    if k + 1 == p.count && p.endPart > 0 then p.endPart else p.span
  }

  lemma BordersNext(p: Pages, n: nat)
    requires ValidPages(p) && n + 1 <= p.count
    ensures n + 1 < p.count ==> Left(p, n + 1) == Right(p, n) + 1 && Right(p, n + 1) == Right(p, n) + PageSize(p, n + 1)
  {
    if n + 1 < p.count {
      PageEnds(p, n);
    }
  }

  /** Before page `n`: the parts of the earlier pages are answered, and the minima of these pages are known. */
  ghost predicate Progress(v: seq<nat>, p: Pages, ls: seq<LeftRmq>, rs: seq<RightRmq>, n: nat, a: nat, b: nat, minima: seq<nat>,
                           pairs: seq<FinalPair>)
    requires ValidPages(p) && p.length == |v|
  {
    && n <= p.count && a <= |ls| && b <= |rs| && |minima| == n && AreMinima(v, p, minima)
    && (forall x :: a <= x < |ls| ==> ls[x].k >= n) && (forall x :: b <= x < |rs| ==> rs[x].k >= n)
    && multiset(pairs) == multiset(LeftPairs(v, p, ls[..a])) + multiset(RightPairs(v, p, rs[..b]))
  }

  lemma NoneAnswered(v: seq<nat>, p: Pages, ls: seq<LeftRmq>, rs: seq<RightRmq>)
    requires ValidPages(p) && p.length == |v|
    ensures Progress(v, p, ls, rs, 0, 0, 0, [], []) && Left(p, 0) == 0 && Right(p, 0) == p.span - 1
  {
    assert LeftPairs(v, p, ls[..0]) == [] && RightPairs(v, p, rs[..0]) == [];
  }

  lemma AllAnswered(v: seq<nat>, p: Pages, ls: seq<LeftRmq>, rs: seq<RightRmq>, a: nat, b: nat, minima: seq<nat>, pairs: seq<FinalPair>)
    requires ValidPages(p) && p.length == |v| && LeftsByPage(p, ls) && RightsByPage(p, rs)
    requires Progress(v, p, ls, rs, p.count, a, b, minima, pairs)
    ensures multiset(pairs) == multiset(LeftPairs(v, p, ls)) + multiset(RightPairs(v, p, rs))
  {
    assert a < |ls| ==> GoodLeft(p, ls[a]);
    assert b < |rs| ==> GoodRight(p, rs[b]);
    assert ls[..a] == ls && rs[..b] == rs;
  }

  lemma Collected(v: seq<nat>, p: Pages, ls: seq<LeftRmq>, rs: seq<RightRmq>, a: nat, b: nat, a': nat, b': nat, pairs: seq<FinalPair>)
    requires a <= a' <= |ls| && b <= b' <= |rs|
    requires multiset(pairs) == multiset(LeftPairs(v, p, ls[..a])) + multiset(RightPairs(v, p, rs[..b]))
    ensures multiset(pairs + LeftPairs(v, p, ls[a..a']) + RightPairs(v, p, rs[b..b']))
            == multiset(LeftPairs(v, p, ls[..a'])) + multiset(RightPairs(v, p, rs[..b']))
  {
    LeftPairsSplit(v, p, ls, a, a');
    RightPairsSplit(v, p, rs, b, b');
  }

  method AnswerPage(v: seq<nat>, limit: nat, ghost p: Pages, ls: seq<LeftRmq>, rs: seq<RightRmq>, n: nat,
                    leftBorder: nat, rightBorder: nat, a: nat, b: nat, minima: seq<nat>, pairs: seq<FinalPair>)
    returns (a': nat, b': nat, minima': seq<nat>, pairs': seq<FinalPair>)
    requires ValidPages(p) && p.length == |v| && AtMost(v, limit)
    requires n < p.count && leftBorder == Left(p, n) && rightBorder == Right(p, n)
    requires LeftsByPage(p, ls) && RightsByPage(p, rs) && Progress(v, p, ls, rs, n, a, b, minima, pairs)
    ensures Progress(v, p, ls, rs, n + 1, a', b', minima', pairs')
  {
    PageEnds(p, n);
    var page, min := ReadPage(v, leftBorder, rightBorder, limit);
    minima' := minima + [min];
    assert MinimumOf(v, p, n, min);
    var table := new Table(page);
    var lefts, rights;
    lefts, a' := AnswerLefts(v, p, n, table, page, ls, a);
    rights, b' := AnswerRights(v, p, n, table, page, minima', rs, b);
    Collected(v, p, ls, rs, a, b, a', b', pairs);
    pairs' := pairs + lefts + rights;
  }

  class SparseTableAlgo {
    var pages: Pages
    var leftSorter: seq<LeftRmq>
    var rightSorter: seq<RightRmq>
    var collectiveSorter: seq<FinalPair>
    var minBorderArray: seq<nat>

    constructor ()
      ensures collectiveSorter == [] && minBorderArray == []
    {
      pages := Pages(0, 0, 0, 0);
      leftSorter, rightSorter, collectiveSorter, minBorderArray := [], [], [], [];
    }

    method Initialize(length: nat, span: nat)
      requires 1 <= span <= length
      modifies this`pages
      ensures ValidPages(pages) && pages.length == length
    {
      pages := PagedRmq.Initialize(length, span);
    }

    /** Splits the queries and sorts the parts by page. */
    method SplitAndSortRmq(qs: seq<Query>)
      returns (ghost ls: seq<LeftRmq>, ghost rs: seq<Option<RightRmq>>, ghost leftPerm: seq<nat>, ghost rightPerm: seq<nat>)
      requires ValidPages(pages) && forall x :: 0 <= x < |qs| ==> ValidQuery(pages, qs[x])
      modifies this`leftSorter, this`rightSorter
      ensures AllSplit(pages, qs, ls, rs)
      ensures Rearranged(ls, leftSorter, leftPerm) && LeftsByPage(pages, leftSorter)
      ensures Rearranged(Present(rs, 0), rightSorter, rightPerm) && RightsByPage(pages, rightSorter)
    {
      var lefts, rights;
      lefts, rights, rs := SplitAll(pages, qs);
      ls := lefts;
      leftSorter, leftPerm := Sort(lefts, (a: LeftRmq, b: LeftRmq) => a.k <= b.k);
      rightSorter, rightPerm := Sort(rights, (a: RightRmq, b: RightRmq) => a.k <= b.k);
      PresentGood(pages, qs, ls, rs, 0);
      forall x | 0 <= x < |leftSorter| ensures GoodLeft(pages, leftSorter[x]) {
        assert IsSplit(pages, qs[leftPerm[x]], ls[leftPerm[x]], rs[leftPerm[x]]);
        PageEnds(pages, leftSorter[x].k);
      }
    }

    /** Goes through the pages, and answers the parts that belong to each. */
    method AnswerTuple(v: seq<nat>, limit: nat)
      requires ValidPages(pages) && pages.length == |v| && AtMost(v, limit)
      requires LeftsByPage(pages, leftSorter) && RightsByPage(pages, rightSorter) && collectiveSorter == [] && minBorderArray == []
      modifies this`collectiveSorter, this`minBorderArray
      ensures multiset(collectiveSorter) == multiset(LeftPairs(v, pages, leftSorter)) + multiset(RightPairs(v, pages, rightSorter))
    {
      var leftBorder, rightBorder := 0, pages.span - 1;
      var a, b, n := 0, 0, 0;
      NoneAnswered(v, pages, leftSorter, rightSorter);
      while n < pages.count
        invariant n < pages.count ==> leftBorder == Left(pages, n) && rightBorder == Right(pages, n)
        invariant Progress(v, pages, leftSorter, rightSorter, n, a, b, minBorderArray, collectiveSorter)
      {
        PageEnds(pages, n);
        a, b, minBorderArray, collectiveSorter :=
          AnswerPage(v, limit, pages, leftSorter, rightSorter, n, leftBorder, rightBorder, a, b, minBorderArray, collectiveSorter);
        BordersNext(pages, n);
        leftBorder := rightBorder + 1;
        rightBorder := rightBorder + PageSize(pages, n + 1);
        n := n + 1;
      }
      AllAnswered(v, pages, leftSorter, rightSorter, a, b, minBorderArray, collectiveSorter);
    }

    /** Puts the answers of the two parts of a query together. */
    method AnswerRmq(ghost v: seq<nat>, ghost qs: seq<Query>, ghost ls: seq<LeftRmq>, ghost rs: seq<Option<RightRmq>>)
      returns (results: seq<nat>)
      requires ValidPages(pages) && pages.length == |v| && AllSplit(pages, qs, ls, rs) && IdsRise(qs)
      requires forall x :: 0 <= x < |qs| ==> ValidQuery(pages, qs[x])
      requires multiset(collectiveSorter) == multiset(Blocks(v, pages, ls, rs, 0))
      ensures |results| == |qs| && forall x :: 0 <= x < |qs| ==> results[x] == Answer(v, qs[x])
    {
      var f, perm := Sort(collectiveSorter, (a: FinalPair, b: FinalPair) => a.id <= b.id);
      RearrangedMultiset(collectiveSorter, f, perm);
      results := [];
      PairsLeft(f, v, pages, ls, rs, 0);
      while |f| > 0
        invariant Answered(f, v, pages, qs, ls, rs, results)
        decreases |f|
      {
        results, f := TakeAnswer(f, results, v, pages, qs, ls, rs);
      }
    }
  }

  /** The first queries have their answers, and `f` has the pairs of the others. */
  ghost predicate Answered(f: seq<FinalPair>, v: seq<nat>, p: Pages, qs: seq<Query>, ls: seq<LeftRmq>, rs: seq<Option<RightRmq>>,
                           results: seq<nat>)
    requires |ls| == |qs| == |rs|
  {
    AnswersOf(v, qs, results) && Waiting(f, v, p, ls, rs, |results|)
  }

  ghost predicate AnswersOf(v: seq<nat>, qs: seq<Query>, results: seq<nat>) {
    |results| <= |qs| && forall x :: 0 <= x < |results| ==> results[x] == Answer(v, qs[x])
  }

  /** `f` has the pairs of the queries from `done` on. */
  ghost predicate Waiting(f: seq<FinalPair>, v: seq<nat>, p: Pages, ls: seq<LeftRmq>, rs: seq<Option<RightRmq>>, done: nat)
    requires done <= |ls| == |rs|
  {
    ById(f) && multiset(f) == multiset(Blocks(v, p, ls, rs, done)) && (|f| == 0 ==> done == |ls|)
  }

  /** One round of `answerRMQ`: the answer from the one or two pairs in front. */
  method TakeAnswer(f: seq<FinalPair>, results: seq<nat>, ghost v: seq<nat>, ghost p: Pages, ghost qs: seq<Query>,
                    ghost ls: seq<LeftRmq>, ghost rs: seq<Option<RightRmq>>)
    returns (results': seq<nat>, f': seq<FinalPair>)
    requires ValidPages(p) && p.length == |v| && AllSplit(p, qs, ls, rs) && IdsRise(qs)
    requires forall x :: 0 <= x < |qs| ==> ValidQuery(p, qs[x])
    requires Answered(f, v, p, qs, ls, rs, results) && |f| > 0
    ensures Answered(f', v, p, qs, ls, rs, results') && |f'| < |f|
  {
    NextAnswer(f, v, p, qs, ls, rs, results);
    var m;
    m, f' := TakeFront(f, Answer(v, qs[|results|]), multiset(Blocks(v, p, ls, rs, |results| + 1)));
    AnswersNext(v, qs, results, m);
    WaitingNext(f', v, p, ls, rs, |results| + 1);
    results' := results + [m];
    assert |results'| == |results| + 1;
  }

  /** The pairs in front give the next answer. */
  lemma NextAnswer(f: seq<FinalPair>, v: seq<nat>, p: Pages, qs: seq<Query>, ls: seq<LeftRmq>, rs: seq<Option<RightRmq>>, results: seq<nat>)
    requires ValidPages(p) && p.length == |v| && AllSplit(p, qs, ls, rs) && IdsRise(qs)
    requires forall x :: 0 <= x < |qs| ==> ValidQuery(p, qs[x])
    requires Answered(f, v, p, qs, ls, rs, results) && |f| > 0
    ensures |results| < |qs| && ById(f) && Front(f, Answer(v, qs[|results|]), multiset(Blocks(v, p, ls, rs, |results| + 1)))
  {
    PairsLeft(f, v, p, ls, rs, |results|);
    FrontBlock(f, v, p, qs, ls, rs, |results|);
  }

  lemma AnswersNext(v: seq<nat>, qs: seq<Query>, results: seq<nat>, m: nat)
    requires AnswersOf(v, qs, results) && |results| < |qs| && m == Answer(v, qs[|results|])
    ensures AnswersOf(v, qs, results + [m])
  {
  }

  lemma WaitingNext(f: seq<FinalPair>, v: seq<nat>, p: Pages, ls: seq<LeftRmq>, rs: seq<Option<RightRmq>>, done: nat)
    requires done <= |ls| == |rs| && ById(f) && multiset(f) == multiset(Blocks(v, p, ls, rs, done))
    ensures Waiting(f, v, p, ls, rs, done)
  {
    PairsLeft(f, v, p, ls, rs, done);
  }

  method TakeFront(f: seq<FinalPair>, ghost answer: nat, ghost rest: multiset<FinalPair>) returns (m: nat, f': seq<FinalPair>)
    requires ById(f) && Front(f, answer, rest)
    ensures m == answer && ById(f') && multiset(f') == rest && |f'| < |f|
  {
    f' := f;
    var id, min := f'[0].id, f'[0].min;
    if |f'| > 1 {
      f' := f'[1..];
    }
    if id == f'[0].id {
      m := if min >= f'[0].min then f'[0].min else min;
      f' := f'[1..];
    } else {
      m := min;
    }
  }

  lemma {:induction false} BlocksIds(v: seq<nat>, p: Pages, qs: seq<Query>, ls: seq<LeftRmq>, rs: seq<Option<RightRmq>>, from: nat, id: nat)
    requires AllSplit(p, qs, ls, rs) && IdsRise(qs) && from <= |qs| && forall x :: from <= x < |qs| ==> qs[x].id > id
    ensures forall y :: 0 <= y < |Blocks(v, p, ls, rs, from)| ==> Blocks(v, p, ls, rs, from)[y].id > id
    decreases |qs| - from
  {
    if from >= |qs| {
    } else {
      BlocksIds(v, p, qs, ls, rs, from + 1, id);
      assert IsSplit(p, qs[from], ls[from], rs[from]);
    }
  }

  /** The front of the sorted pairs: `m` is their answer, and `rest` is what remains. */
  ghost predicate Front(f: seq<FinalPair>, m: nat, rest: multiset<FinalPair>) {
    && |f| > 0
    && (|| (m == f[0].min && multiset(f[1..]) == rest && (|f| > 1 ==> f[1].id != f[0].id))
        || (|f| > 1 && f[0].id == f[1].id && m == Min(f[0].min, f[1].min) && multiset(f[2..]) == rest))
  }

  lemma OneInFront(f: seq<FinalPair>, b: FinalPair, rest: seq<FinalPair>)
    requires ById(f) && multiset(f) == multiset{b} + multiset(rest) && forall y :: 0 <= y < |rest| ==> rest[y].id > b.id
    ensures Front(f, b.min, multiset(rest))
  {
    OneComesFirst(f, b, rest);
  }

  lemma TwoInFront(f: seq<FinalPair>, b: FinalPair, c: FinalPair, rest: seq<FinalPair>)
    requires ById(f) && multiset(f) == multiset{b, c} + multiset(rest) && b.id == c.id && forall y :: 0 <= y < |rest| ==> rest[y].id > b.id
    ensures Front(f, Min(b.min, c.min), multiset(rest))
  {
    TwoComeFirst(f, b, c, rest);
    assert f[0] in multiset{b, c} && f[1] in multiset{b, c};
    assert (f[0] == b && f[1] == c) || (f[0] == c && f[1] == b) by {
      assert multiset{b, c}[f[0]] == multiset{f[0], f[1]}[f[0]];
    }
  }

  /** There are pairs as long as there are queries. */
  lemma PairsLeft(f: seq<FinalPair>, v: seq<nat>, p: Pages, ls: seq<LeftRmq>, rs: seq<Option<RightRmq>>, done: nat)
    requires |rs| == |ls| && done <= |ls| && multiset(f) == multiset(Blocks(v, p, ls, rs, done))
    ensures |f| == 0 <==> done == |ls|
  {
    assert |multiset(f)| == |f| && |multiset(Blocks(v, p, ls, rs, done))| == |Blocks(v, p, ls, rs, done)|;
  }

  lemma BlockInFront(f: seq<FinalPair>, b: seq<FinalPair>, rest: seq<FinalPair>, id: nat)
    requires ById(f) && 1 <= |b| <= 2 && multiset(f) == multiset(b) + multiset(rest)
    requires (forall x :: 0 <= x < |b| ==> b[x].id == id) && (forall y :: 0 <= y < |rest| ==> rest[y].id > id)
    ensures Front(f, BlockMin(b), multiset(rest))
  {
    if |b| == 1 {
      assert b == [b[0]];
      OneInFront(f, b[0], rest);
    } else {
      assert b == [b[0], b[1]];
      TwoInFront(f, b[0], b[1], rest);
    }
  }

  /** The pairs in front are those of the next query. */
  lemma FrontBlock(f: seq<FinalPair>, v: seq<nat>, p: Pages, qs: seq<Query>, ls: seq<LeftRmq>, rs: seq<Option<RightRmq>>, done: nat)
    requires ValidPages(p) && p.length == |v| && AllSplit(p, qs, ls, rs) && IdsRise(qs) && done < |qs|
    requires ValidQuery(p, qs[done])
    requires ById(f) && multiset(f) == multiset(Blocks(v, p, ls, rs, done))
    ensures Front(f, Answer(v, qs[done]), multiset(Blocks(v, p, ls, rs, done + 1)))
  {
    assert IsSplit(p, qs[done], ls[done], rs[done]);
    Recombined(v, p, qs[done], ls[done], rs[done]);
    BlocksIds(v, p, qs, ls, rs, done + 1, qs[done].id);
    BlockInFront(f, Block(v, p, ls[done], rs[done]), Blocks(v, p, ls, rs, done + 1), qs[done].id);
  }

  /** The batch: every query gets its range minimum, for every page size. */
  method AnswerAll(v: seq<nat>, limit: nat, span: nat, qs: seq<Query>) returns (results: seq<nat>)
    requires 1 <= span <= |v| && AtMost(v, limit)
    requires IdsRise(qs) && forall x :: 0 <= x < |qs| ==> qs[x].i <= qs[x].j < |v|
    ensures |results| == |qs| && forall x :: 0 <= x < |qs| ==> results[x] == RangeMin(v, qs[x].i, qs[x].j)
  {
    var algo := new SparseTableAlgo();
    algo.Initialize(|v|, span);
    ghost var ls, rs, leftPerm, rightPerm := algo.SplitAndSortRmq(qs);
    algo.AnswerTuple(v, limit);
    LeftsRearranged(v, algo.pages, ls, algo.leftSorter, leftPerm);
    RightsRearranged(v, algo.pages, Present(rs, 0), algo.rightSorter, rightPerm);
    BlocksMixed(v, algo.pages, ls, rs, 0);
    assert ls[0..] == ls;
    results := algo.AnswerRmq(v, qs, ls, rs);
  }
}
