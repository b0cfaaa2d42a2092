/** Why the skew algorithm is right: the order of triples, of the reduced string and of the
    (character, rank) tuples, each tied to the order of the suffixes of the text.
 */
module SkewOrder {
  import opened SuffixOrder

  /** All characters were raised by one, so that 0 can mark the places behind the end. */
  ghost predicate Raised(t: Text) {
    forall k :: 0 <= k < |t| ==> t[k] > 0
  }

  function Ch(t: Text, i: nat): nat {
    if i < |t| then t[i] else 0
  }

  // ----- triples

  predicate TripleLess(t: Text, p: nat, q: nat) {
    || Ch(t, p) < Ch(t, q)
    || (Ch(t, p) == Ch(t, q) && (|| Ch(t, p + 1) < Ch(t, q + 1)
                                 || (Ch(t, p + 1) == Ch(t, q + 1) && Ch(t, p + 2) < Ch(t, q + 2))))
  }

  /** Unequal triples decide the order of two suffixes.  Equal triples of different positions hold
      no end mark, and the order is that of the suffixes three places further. */
  lemma TripleStep(t: Text, p: nat, q: nat)
    requires Raised(t) && p <= |t| && q <= |t| && p != q
    ensures TripleLess(t, p, q) ==> SufLess(t, p, q)
    ensures TripleLess(t, q, p) ==> !SufLess(t, p, q)
    ensures !TripleLess(t, p, q) && !TripleLess(t, q, p) ==>
              p + 3 <= |t| && q + 3 <= |t| && (SufLess(t, p, q) <==> SufLess(t, p + 3, q + 3))
  {
    if p < |t| && q < |t| && t[p] == t[q] {
      assert SufLess(t, p, q) <==> SufLess(t, p + 1, q + 1);
      if p + 1 < |t| && q + 1 < |t| && t[p + 1] == t[q + 1] {
        assert SufLess(t, p + 1, q + 1) <==> SufLess(t, p + 2, q + 2);
      }
    }
  }

  // ----- the reduced string

  /** How many quads the text yields: a dummy is added behind a text of length 1 mod 3. */
  function QuadCount(n: nat): nat {
    if n % 3 == 1 then n + 1 else n
  }

  /** Length of the reduced string. */
  function Mod12Count(n: nat): nat {
    2 * (n / 3) + (if n % 3 == 0 then 0 else 1)
  }

  /** The k-th position that is 1 or 2 mod 3. */
  function Pos(o: nat): nat {
    3 * (o / 2) + 1 + o % 2
  }

  ghost predicate IsPos(n: nat, p: nat) {
    p % 3 != 0 && p < QuadCount(n)
  }

  /** Where position `p` is found in the reduced string: first the names of the positions that
      are 1 mod 3, then those of the positions that are 2 mod 3. */
  function Idx(n: nat, p: nat): nat {
    if p % 3 == 1 then p / 3 else (Mod12Count(n) + 1) / 2 + p / 3
  }

  lemma IdxInRange(n: nat, p: nat)
    requires IsPos(n, p)
    ensures Idx(n, p) < Mod12Count(n)
    ensures p % 3 == 1 ==> Idx(n, p) < (Mod12Count(n) + 1) / 2
  {
  }

  /** The characters of `r` order the positions as their triples do. */
  ghost predicate IsReduced(t: Text, r: seq<nat>) {
    && |r| == Mod12Count(|t|)
    && (forall p, q :: IsPos(|t|, p) && IsPos(|t|, q) ==>
          (IdxInRange(|t|, p); IdxInRange(|t|, q);
          (r[Idx(|t|, p)] < r[Idx(|t|, q)] <==> TripleLess(t, p, q))))
  }

  /** The step to the next triple is the step to the next character of the reduced string, unless
      the triple is the last of all: then both suffixes are empty. */
  lemma NextIdx(n: nat, p: nat)
    requires IsPos(n, p) && p + 3 <= n
    ensures if p + 3 == n && n % 3 == 2
            then Idx(n, p) + 1 == Mod12Count(n)
            else IsPos(n, p + 3) && Idx(n, p + 3) == Idx(n, p) + 1 && Idx(n, p) + 1 < Mod12Count(n)
  {
  }

  lemma NamesOrder(t: Text, r: seq<nat>, p: nat, q: nat)
    requires IsReduced(t, r) && IsPos(|t|, p) && IsPos(|t|, q)
    ensures Idx(|t|, p) < |r| && Idx(|t|, q) < |r| && (r[Idx(|t|, p)] < r[Idx(|t|, q)] <==> TripleLess(t, p, q))
  {
    IdxInRange(|t|, p);
    IdxInRange(|t|, q);
  }

  /** Main lemma: the reduced string orders its suffixes exactly as the text orders its suffixes
      at the positions that are 1 or 2 mod 3, the dummy included. */
  lemma {:induction false} ReducedOrder(t: Text, r: seq<nat>, p: nat, q: nat)
    requires Raised(t) && IsReduced(t, r)
    requires IsPos(|t|, p) && IsPos(|t|, q) && p != q
    ensures |r| == Mod12Count(|t|) && Idx(|t|, p) < |r| && Idx(|t|, q) < |r|
    ensures SufLess(r, Idx(|t|, p), Idx(|t|, q)) <==> SufLess(t, p, q)
    decreases |t| - p
  {
    var n := |t|;
    NamesOrder(t, r, p, q);
    NamesOrder(t, r, q, p);
    TripleStep(t, p, q);
    if TripleLess(t, p, q) || TripleLess(t, q, p) {
    } else {
      NextIdx(n, p);
      NextIdx(n, q);
      if IsPos(n, p + 3) && IsPos(n, q + 3) {
        ReducedOrder(t, r, p + 3, q + 3);
      }
    }
  }

  /** When no two triples agree, the names themselves are ranks. */
  lemma UniqueNamesOrder(t: Text, r: seq<nat>, p: nat, q: nat)
    requires Raised(t) && IsReduced(t, r)
    requires IsPos(|t|, p) && IsPos(|t|, q)
    requires forall a, b :: 0 <= a < b < |r| ==> r[a] != r[b]
    ensures Idx(|t|, p) < |r| && Idx(|t|, q) < |r|
    ensures r[Idx(|t|, p)] < r[Idx(|t|, q)] <==> SufLess(t, p, q)
  {
    IdxInRange(|t|, p);
    IdxInRange(|t|, q);
    if p == q {
      Irreflexive(t, p);
    } else {
      assert Idx(|t|, p) != Idx(|t|, q);
      TripleStep(t, p, q);
      assert r[Idx(|t|, p)] < r[Idx(|t|, q)] || r[Idx(|t|, q)] < r[Idx(|t|, p)];
    }
  }

  /** The recursion gets a shorter string, and again one of at least three characters. */
  lemma ReducedLength(t: Text, r: seq<nat>, a: nat, b: nat)
    requires Raised(t) && IsReduced(t, r) && |t| >= 3
    requires a < b < |r| && r[a] == r[b]
    ensures 3 <= |r| < |t|
  {
    var n := |t|;
    if n < 5 {
      assert n == 3 ==> IsPos(n, 1) && IsPos(n, 2) && Idx(n, 1) == 0 && Idx(n, 2) == 1;
      assert n == 4 ==> IsPos(n, 1) && IsPos(n, 2) && IsPos(n, 4) && Idx(n, 1) == 0 && Idx(n, 2) == 2 && Idx(n, 4) == 1;
      var p := if a == 0 then 1 else 4;
      var q := if n == 3 || b == 2 then 2 else 4;
      assert Idx(n, p) == a && Idx(n, q) == b;
      TripleStep(t, p, q);
      assert false;
    }
  }

  // ----- ranks and tuples

  /** A text with the ranks of its suffixes at positions 1 and 2 mod 3. */
  datatype Ranked = Ranked(t: Text, isa1: seq<nat>, isa2: seq<nat>) {

    ghost predicate Fits() {
      |isa1| >= (|t| + 1) / 3 && |isa2| >= |t| / 3
    }

    /** Rank plus one, as `build_sa` adds it; 0 behind the end. */
    function Rank(p: nat): nat
      requires Fits() && (p < |t| ==> p % 3 != 0)
    {
      if p >= |t| then 0 else 1 + if p % 3 == 1 then isa1[p / 3] else isa2[p / 3]
    }

    ghost predicate Ok() {
      && Raised(t)
      && Fits()
      && (forall p: nat, q: nat :: p < |t| && q < |t| && p % 3 != 0 && q % 3 != 0 ==>
            (Rank(p) < Rank(q) <==> SufLess(t, p, q)))
    }

    lemma RankOrder(p: nat, q: nat)
      requires Ok() && p <= |t| && q <= |t|
      requires (p < |t| ==> p % 3 != 0) && (q < |t| ==> q % 3 != 0)
      ensures Rank(p) < Rank(q) <==> SufLess(t, p, q)
    {
    }

    // the three kinds of tuples handed to the merger

    function Mod0(i: nat): Quint
      requires Fits() && i % 3 == 0 && i < |t|
    {
      Quint(i, t[i], Ch(t, i + 1), Rank(i + 1), Rank(i + 2))
    }

    function Mod1(i: nat): Quad
      requires Fits() && i % 3 == 1 && i < |t|
    {
      Quad(i, Rank(i), t[i], Rank(i + 1))
    }

    function Mod2(i: nat): Quint
      requires Fits() && i % 3 == 2 && i < |t|
    {
      Quint(i, Rank(i), t[i], Ch(t, i + 1), Rank(i + 2))
    }
  }

  datatype Quad = Quad(first: nat, second: nat, third: nat, fourth: nat)
  datatype Quint = Quint(first: nat, second: nat, third: nat, fourth: nat, fifth: nat)

  // ----- the comparisons

  predicate LessMod0(a: Quint, b: Quint) {
    if a.second == b.second then a.fourth < b.fourth else a.second < b.second
  }

  predicate Mod1LessMod2(s1: Quad, s2: Quint) {
    s1.second < s2.second
  }

  predicate Mod0LessMod2(s0: Quint, s2: Quint) {
    if s0.second == s2.third then
      if s0.third == s2.fourth then s0.fifth < s2.fifth else s0.third < s2.fourth
    else s0.second < s2.third
  }

  predicate Mod0LessMod1(s0: Quint, s1: Quad) {
    if s0.second == s1.third then s0.fourth < s1.fourth else s0.second < s1.third
  }

  /** One character, then the rank of the rest. */
  lemma CharThenRank(k: Ranked, i: nat, j: nat)
    requires k.Ok() && i < |k.t| && j < |k.t|
    requires i + 1 < |k.t| ==> (i + 1) % 3 != 0
    requires j + 1 < |k.t| ==> (j + 1) % 3 != 0
    ensures SufLess(k.t, i, j) <==> if k.t[i] == k.t[j] then k.Rank(i + 1) < k.Rank(j + 1) else k.t[i] < k.t[j]
  {
    k.RankOrder(i + 1, j + 1);
  }

  lemma LessMod0Meaning(k: Ranked, i: nat, j: nat)
    requires k.Ok() && i < |k.t| && j < |k.t| && i % 3 == 0 && j % 3 == 0
    ensures LessMod0(k.Mod0(i), k.Mod0(j)) <==> SufLess(k.t, i, j)
  {
    CharThenRank(k, i, j);
  }

  lemma Mod0LessMod1Meaning(k: Ranked, i: nat, j: nat)
    requires k.Ok() && i < |k.t| && j < |k.t| && i % 3 == 0 && j % 3 == 1
    ensures Mod0LessMod1(k.Mod0(i), k.Mod1(j)) <==> SufLess(k.t, i, j)
  {
    CharThenRank(k, i, j);
  }

  lemma Mod1LessMod2Meaning(k: Ranked, i: nat, j: nat)
    requires k.Ok() && i < |k.t| && j < |k.t| && i % 3 == 1 && j % 3 == 2
    ensures Mod1LessMod2(k.Mod1(i), k.Mod2(j)) <==> SufLess(k.t, i, j)
  {
    k.RankOrder(i, j);
  }

  lemma Mod0LessMod2Meaning(k: Ranked, i: nat, j: nat)
    requires k.Ok() && i < |k.t| && j < |k.t| && i % 3 == 0 && j % 3 == 2
    ensures Mod0LessMod2(k.Mod0(i), k.Mod2(j)) <==> SufLess(k.t, i, j)
  {
    if k.t[i] == k.t[j] && i + 1 < |k.t| && j + 1 < |k.t| {
      k.RankOrder(i + 2, j + 2);
      assert SufLess(k.t, i, j) <==> SufLess(k.t, i + 1, j + 1);
    }
  }
}
