/** Kasai's computation of the LCP array from a text and its suffix array. */
module Kasai {
  import opened Closed
  import opened SuffixOrder
  import opened Sorting
  import opened KeyedSort

  // ----- longest common prefixes

  /** Length of the longest common prefix of the suffixes at `i` and `j`. */
  function Lcp(t: Text, i: nat, j: nat): (h: nat)
    requires i <= |t| && j <= |t|
    ensures i + h <= |t| && j + h <= |t|
    decreases |t| - i
  {
    if i < |t| && j < |t| && t[i] == t[j] then 1 + Lcp(t, i + 1, j + 1) else 0
  }

  /** It is common, and it cannot be prolonged. */
  lemma {:induction false} LcpMeaning(t: Text, i: nat, j: nat)
    requires i <= |t| && j <= |t|
    ensures var h := Lcp(t, i, j);
            t[i..i + h] == t[j..j + h] && (i + h < |t| && j + h < |t| ==> t[i + h] != t[j + h])
    decreases |t| - i
  {
    if i >= |t| || j >= |t| || t[i] != t[j] {
    } else {
      LcpMeaning(t, i + 1, j + 1);
      var h := Lcp(t, i, j);
      assert t[i..i + h] == [t[i]] + t[i + 1..i + h];
      assert t[j..j + h] == [t[j]] + t[j + 1..j + h];
    }
  }

  /** A known common prefix can be skipped. */
  lemma {:induction false} LcpSkip(t: Text, i: nat, j: nat, h: nat)
    requires i <= |t| && j <= |t| && h <= Lcp(t, i, j)
    ensures i + h <= |t| && j + h <= |t| && Lcp(t, i, j) == h + Lcp(t, i + h, j + h)
    decreases h
  {
    if h == 0 {
    } else {
      LcpSkip(t, i + 1, j + 1, h - 1);
    }
  }

  /** A suffix between two others shares at least as much with the greater one. */
  lemma {:induction false} LcpBetween(t: Text, a: nat, b: nat, c: nat)
    requires a <= |t| && b <= |t| && c <= |t|
    requires (SufLess(t, a, b) || a == b) && SufLess(t, b, c)
    ensures Lcp(t, a, c) <= Lcp(t, b, c)
    decreases |t| - a
  {
    if a == b || a >= |t| || c >= |t| || t[a] != t[c] {
    } else {
      LcpBetween(t, a + 1, b + 1, c + 1);
    }
  }

  /** Stepping one position on in the text loses at most one character of the common prefix with
      the predecessor in the array; a position without predecessor loses them all. */
  lemma NextHeight(t: Text, sa: seq<nat>, isa: seq<nat>, i: nat)
    requires IsSuffixArray(t, sa) && InverseOf(sa, isa) && i + 1 < |t|
    requires isa[i] > 0 && Lcp(t, i, sa[isa[i] - 1]) > 0
    ensures isa[i + 1] == 0 ==> Lcp(t, i, sa[isa[i] - 1]) == 1
    ensures isa[i + 1] > 0 ==> Lcp(t, i, sa[isa[i] - 1]) - 1 <= Lcp(t, i + 1, sa[isa[i + 1] - 1])
  {
    var j := sa[isa[i] - 1];
    assert SufLess(t, j, i);
    LcpSymmetric(t, i, j);
    if j + 1 < |t| {
      ArrayOrder(t, sa, isa[j + 1], isa[i + 1]);
      var p := sa[isa[i + 1] - 1];
      ArrayOrder(t, sa, isa[j + 1], isa[i + 1] - 1);
      LcpBetween(t, j + 1, p, i + 1);
      LcpSymmetric(t, i + 1, p);
    }
  }

  lemma {:induction false} LcpSymmetric(t: Text, i: nat, j: nat)
    requires i <= |t| && j <= |t|
    ensures Lcp(t, i, j) == Lcp(t, j, i)
    decreases |t| - i
  {
    if i >= |t| || j >= |t| {
    } else {
      LcpSymmetric(t, i + 1, j + 1);
    }
  }

  ghost predicate InverseOf(sa: seq<nat>, isa: seq<nat>) {
    && |isa| == |sa|
    && (forall p :: 0 <= p < |isa| ==> isa[p] < |sa| && sa[isa[p]] == p)
    && (forall k :: 0 <= k < |sa| ==> sa[k] < |isa| && isa[sa[k]] == k)
  }

  // ----- the stream of (SA[k], k, SA[k - 1]) sorted by its first component

  function IndexStream(sa: seq<nat>): (r: seq<Triple>)
    ensures |r| == |sa|
    ensures forall k :: 0 <= k < |r| ==> r[k] == Triple(sa[k], k, if k == 0 then 0 else sa[k - 1])
  {
    seq(|sa|, k requires 0 <= k < |sa| => Triple(sa[k], k, if k == 0 then 0 else sa[k - 1]))
  }

  /** `sa_index_stream_type`: numbers the entries and keeps the previous one. */
  method SaIndexStream(sa: seq<nat>) returns (r: seq<Triple>)
    ensures r == IndexStream(sa)
  {
    r := [];
    if |sa| > 0 {
      var counter := 0;
      var curr := Triple(sa[0], counter, 0);
      r := [curr];
      counter := 1;
      while counter < |sa|
        invariant 1 <= counter <= |sa| && curr == IndexStream(sa)[counter - 1]
        invariant r == IndexStream(sa)[..counter]
      {
        curr := Triple(sa[counter], counter, curr.first);
        r := r + [curr];
        counter := counter + 1;
      }
    }
  }

  ghost function ByPosition(sa: seq<nat>): (e: seq<Triple>)
    requires IsPermutation(sa, |sa|)
    ensures |e| == |sa| && forall i :: 0 <= i < |e| ==> e[i] == IndexStream(sa)[Inverse(sa)[i]]
  {
    seq(|sa|, i requires 0 <= i < |sa| => IndexStream(sa)[Inverse(sa)[i]])
  }

  lemma StreamMembers(sa: seq<nat>, x: Triple)
    requires IsPermutation(sa, |sa|)
    ensures x in IndexStream(sa) <==> x in ByPosition(sa)
  {
    if x in IndexStream(sa) {
      InByPosition(sa, x);
    }
    if x in ByPosition(sa) {
      InIndexStream(sa, x);
    }
  }

  lemma InByPosition(sa: seq<nat>, x: Triple)
    requires IsPermutation(sa, |sa|) && x in IndexStream(sa)
    ensures x in ByPosition(sa)
  {
    var k :| 0 <= k < |sa| && IndexStream(sa)[k] == x;
    assert ByPosition(sa)[sa[k]] == x;
  }

  lemma InIndexStream(sa: seq<nat>, x: Triple)
    requires IsPermutation(sa, |sa|) && x in ByPosition(sa)
    ensures x in IndexStream(sa)
  {
    var i :| 0 <= i < |sa| && ByPosition(sa)[i] == x;
    assert IndexStream(sa)[Inverse(sa)[i]] == x;
  }

  lemma SortedStream(sa: seq<nat>, r: seq<Triple>, place: seq<nat>)
    requires IsPermutation(sa, |sa|) && Rearranged(IndexStream(sa), r, place) && SortedBy(r, TripleLe)
    ensures r == ByPosition(sa)
  {
    RearrangedMembers(IndexStream(sa), r, place);
    forall x ensures x in r <==> x in ByPosition(sa) { StreamMembers(sa, x); }
    forall i, j | 0 <= i < j < |r| ensures r[i].first < r[j].first {
      assert place[i] != place[j];
    }
    StrictlySortedUnique(r, ByPosition(sa), (x: Triple) => x.first);
  }

  // ----- the main loop

  /** Entry k of the LCP array compares the suffixes at SA[k - 1] and SA[k]. */
  ghost function LcpEntry(t: Text, sa: seq<nat>, k: nat): nat
    requires k < |sa| && forall k :: 0 <= k < |sa| ==> sa[k] < |t|
  {
    if k == 0 then 0 else Lcp(t, sa[k - 1], sa[k])
  }

  ghost function LcpArray(t: Text, sa: seq<nat>): (lcp: seq<nat>)
    requires |sa| == |t| && forall k :: 0 <= k < |sa| ==> sa[k] < |t|
    ensures |lcp| == |t|
    ensures forall k :: 0 <= k < |t| ==> lcp[k] == LcpEntry(t, sa, k)
  {
    seq(|t|, k requires 0 <= k < |t| => LcpEntry(t, sa, k))
  }

  ghost function Positive(): nat -> bool {
    o => o > 0
  }

  ghost function Every(): nat -> bool {
    o => true
  }

  /** The pair for rank 0 is pushed first, out of turn. */
  lemma AddZero(m: seq<Pair>, table: seq<nat>, perm: seq<nat>)
    requires |table| > 0 && table[0] == 0 && IsPermutation(perm, |table|)
    requires Pushed(m, table, perm, |perm|, Positive())
    ensures Pushed([Pair(0, 0)] + m, table, perm, |perm|, Every())
  {
    var m' := [Pair(0, 0)] + m;
    Surjective(perm, |table|);
    assert 0 in perm && perm[..|perm|] == perm;
    assert forall i :: 0 < i < |m'| ==> m'[i] == m[i - 1];
    assert m'[0] in m' && forall x :: x in m ==> x in m';
  }

  /** The inner loop extends the height from a lower bound to the common prefix. */
  method Extend(t: Text, i: nat, j: nat, h0: nat) returns (h: nat)
    requires i < |t| && j < |t| && h0 <= Lcp(t, i, j)
    ensures h == Lcp(t, i, j) && h >= h0
  {
    h := h0;
    LcpSkip(t, i, j, h);
    while i + h < |t| && j + h < |t| && t[i + h] == t[j + h]
      invariant h0 <= h && i + h <= |t| && j + h <= |t|
      invariant Lcp(t, i, j) == h + Lcp(t, i + h, j + h)
      decreases |t| - h
    {
      h := h + 1;
    }
  }

  /** What `h` is known to be when position `i` is reached. */
  ghost predicate HeightOk(t: Text, sa: seq<nat>, isa: seq<nat>, i: nat, h: nat)
    requires |sa| == |t| && InverseOf(sa, isa)
  {
    i < |t| ==> if isa[i] == 0 then h == 0 else h <= Lcp(t, i, sa[isa[i] - 1])
  }

  lemma HeightStep(t: Text, sa: seq<nat>, isa: seq<nat>, i: nat, h: nat)
    requires IsSuffixArray(t, sa) && InverseOf(sa, isa) && i < |t|
    requires h == if isa[i] == 0 then 0 else Lcp(t, i, sa[isa[i] - 1])
    ensures HeightOk(t, sa, isa, i + 1, if h > 0 then h - 1 else 0)
  {
    if h > 0 && i + 1 < |t| { NextHeight(t, sa, isa, i); }
  }

  lemma AtPosition(t: Text, sa: seq<nat>, i: nat)
    requires |sa| == |t| && IsPermutation(sa, |sa|) && i < |t|
    ensures var x, k := ByPosition(sa)[i], Inverse(sa)[i];
            x.second == k && (k > 0 ==> x.third == sa[k - 1] && LcpArray(t, sa)[k] == Lcp(t, i, x.third))
  {
    var k := Inverse(sa)[i];
    if k > 0 { LcpSymmetric(t, i, sa[k - 1]); }
  }

  ghost predicate ArrayOk(t: Text, sa: seq<nat>, isa: seq<nat>) {
    IsSuffixArray(t, sa) && IsPermutation(sa, |sa|) && isa == Inverse(sa) && IsPermutation(isa, |t|)
  }

  lemma PushVisited(t: Text, sa: seq<nat>, isa: seq<nat>, m: seq<Pair>, i: nat, out: seq<Pair>)
    requires ArrayOk(t, sa, isa) && i < |t| && Pushed(m, LcpArray(t, sa), isa, i, Positive())
    requires out == if isa[i] > 0 then [Pair(isa[i], LcpArray(t, sa)[isa[i]])] else []
    ensures Pushed(m + out, LcpArray(t, sa), isa, i + 1, Positive())
  {
    PushOne(m, LcpArray(t, sa), isa, i, Positive());
    assert m + [] == m;
  }

  ghost predicate VisitedTo(t: Text, isaSort: seq<Triple>, sa: seq<nat>, isa: seq<nat>, m: seq<Pair>, i: nat, h: nat) {
    && ArrayOk(t, sa, isa) && isaSort == ByPosition(sa) && i <= |t|
    && HeightOk(t, sa, isa, i, h) && Pushed(m, LcpArray(t, sa), isa, i, Positive())
  }

  /** The first `i` positions are done, and `h` is what is known about the next one; kept closed. */
  ghost predicate Visited(t: Text, isaSort: seq<Triple>, sa: seq<nat>, isa: seq<nat>, m: seq<Pair>, i: nat, h: nat) {
    i <= |t| == |isaSort| && forall k: nat :: Same(k, i) ==> VisitedTo(t, isaSort, sa, isa, m, k, h)
  }

  /** What the loop body finds: the rank, its predecessor, and a height that is not too large. */
  lemma OpenVisit(t: Text, isaSort: seq<Triple>, sa: seq<nat>, isa: seq<nat>, m: seq<Pair>, i: nat, h: nat)
    requires i < |t| && Visited(t, isaSort, sa, isa, m, i, h)
    ensures var x := isaSort[i]; if x.second > 0 then x.third < |t| && h <= Lcp(t, i, x.third) else h == 0
  {
    assert Same(i, i);
    AtPosition(t, sa, i);
  }

  /** What it leaves: the entry for the rank, and a height for the next position. */
  lemma CloseVisit(t: Text, isaSort: seq<Triple>, sa: seq<nat>, isa: seq<nat>, m: seq<Pair>, i: nat, h0: nat, h: nat)
    requires i < |t| && Visited(t, isaSort, sa, isa, m, i, h0)
    requires isaSort[i].second > 0 ==> isaSort[i].third < |t|
    requires h == if isaSort[i].second > 0 then Lcp(t, i, isaSort[i].third) else 0
    ensures
      var k := isaSort[i].second;
      Visited(t, isaSort, sa, isa, m + (if k > 0 then [Pair(k, h)] else []), i + 1, if h > 0 then h - 1 else 0) && h <= |t|
  {
    assert Same(i, i);
    AtPosition(t, sa, i);
    HeightStep(t, sa, isa, i, h);
    PushVisited(t, sa, isa, m, i, if isa[i] > 0 then [Pair(isa[i], h)] else []);
  }

  /** The loop body for text position `i`; `steps` counts how often `h` is incremented. */
  method Visit(t: Text, isaSort: seq<Triple>, i: nat, h0: nat, m0: seq<Pair>, ghost sa: seq<nat>, ghost isa: seq<nat>)
    returns (m: seq<Pair>, h: nat, ghost steps: nat)
    requires i < |t| && Visited(t, isaSort, sa, isa, m0, i, h0)
    ensures Visited(t, isaSort, sa, isa, m, i + 1, h)
    ensures h0 + steps <= h + 1 && h <= |t|
  {
    OpenVisit(t, isaSort, sa, isa, m0, i, h0);
    h, m, steps := h0, m0, 0;
    var k := isaSort[i].second;
    if k > 0 {
      var j := isaSort[i].third;
      h := Extend(t, i, j, h);
      steps := h - h0;
      m := m + [Pair(k, h)];
    }
    CloseVisit(t, isaSort, sa, isa, m0, i, h0, h);
    assert m0 + [] == m0;
    if h > 0 {
      h := h - 1;
    }
  }

  lemma VisitedNone(t: Text, isaSort: seq<Triple>, sa: seq<nat>, isa: seq<nat>)
    requires ArrayOk(t, sa, isa) && isaSort == ByPosition(sa)
    ensures Visited(t, isaSort, sa, isa, [], 0, 0)
  {
  }

  /** One pass over the text. */
  method Heights(t: Text, isaSort: seq<Triple>, ghost sa: seq<nat>, ghost isa: seq<nat>) returns (m: seq<Pair>, ghost steps: nat)
    requires ArrayOk(t, sa, isa) && isaSort == ByPosition(sa)
    ensures Pushed(m, LcpArray(t, sa), isa, |isa|, Positive())
    ensures steps <= 2 * |t|
  {
    VisitedNone(t, isaSort, sa, isa);
    m, steps := AllHeights(t, isaSort, sa, isa);
    var n: nat := |t|;
    assert Same(n, n);
  }

  method AllHeights(t: Text, isaSort: seq<Triple>, ghost sa: seq<nat>, ghost isa: seq<nat>) returns (m: seq<Pair>, ghost steps: nat)
    requires Visited(t, isaSort, sa, isa, [], 0, 0)
    ensures exists h: nat :: Visited(t, isaSort, sa, isa, m, |t|, h)
    ensures steps <= 2 * |t|
  {
    var h: nat, i: nat := 0, 0;
    m, steps := [], 0;
    while i < |isaSort|
      invariant 0 <= i <= |t| && Visited(t, isaSort, sa, isa, m, i, h)
      invariant steps <= h + i && h <= |t|
    {
      ghost var more;
      m, h, more := Visit(t, isaSort, i, h, m, sa, isa);
      steps, i := steps + more, i + 1;
    }
  }

  lemma InverseIsPermutation(sa: seq<nat>)
    requires IsPermutation(sa, |sa|)
    ensures IsPermutation(Inverse(sa), |sa|)
  {
  }

  /** Main theorem: from a true suffix array the loop yields the LCP array, with at most 2n
      increments in all. */
  method LcpKasai(t: Text, sa: seq<nat>) returns (lcp: seq<nat>, ghost steps: nat)
    requires IsSuffixArray(t, sa)
    ensures lcp == LcpArray(t, sa)
    ensures steps <= 2 * |t|
  {
    forall a, b | 0 <= a < b < |sa| ensures sa[a] != sa[b] { ArrayOrder(t, sa, a, b); }
    var stream := SaIndexStream(sa);
    var isaSort, place := Sort(stream, TripleLe);
    SortedStream(sa, isaSort, place);
    InverseIsPermutation(sa);
    var m;
    m, steps := Heights(t, isaSort, sa, Inverse(sa));
    ghost var table := LcpArray(t, sa);
    if |t| == 0 {
      return [], steps;
    }
    AddZero(m, table, Inverse(sa));
    ghost var e := Indexed(table);
    forall x: Pair | x.first < |table| && x.second == table[x.first] ensures x in e {
      assert e[x.first] == x;
    }
    var r := SortPairs([Pair(0, 0)] + m, table, Inverse(sa), Every(), e);
    lcp := Seconds(r);
  }
}
