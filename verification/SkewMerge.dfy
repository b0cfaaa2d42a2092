/** `build_sa` and `merge_sa`: the suffix array of a text from the ranks of two thirds of its suffixes. */
module SkewMerge {
  import opened Closed
  import opened SuffixOrder
  import opened SkewOrder

  // ----- chains of positions in increasing suffix order

  ghost predicate Chain(t: Text, s: seq<nat>) {
    && (forall i :: 0 <= i < |s| ==> s[i] < |t|)
    && (forall i, j :: 0 <= i < j < |s| ==> SufLess(t, s[i], s[j]))
  }

  ghost predicate Before(t: Text, p: nat, s: seq<nat>) {
    p < |t| && forall i :: 0 <= i < |s| ==> s[i] < |t| && SufLess(t, p, s[i])
  }

  lemma BeforeHead(t: Text, p: nat, s: seq<nat>)
    requires Chain(t, s) && p < |t| && (s != [] ==> SufLess(t, p, s[0]))
    ensures Before(t, p, s)
  {
    forall i | 0 <= i < |s| ensures SufLess(t, p, s[i]) {
      if i > 0 { Transitive(t, p, s[0], s[i]); }
    }
  }

  ghost predicate AllBefore(t: Text, out: seq<nat>, s: seq<nat>) {
    forall i :: 0 <= i < |out| ==> Before(t, out[i], s)
  }

  function Firsts5(s: seq<Quint>): (r: seq<nat>)
    ensures |r| == |s| && forall i :: 0 <= i < |r| ==> r[i] == s[i].first
  {
    seq(|s|, i requires 0 <= i < |s| => s[i].first)
  }

  function Firsts4(s: seq<Quad>): (r: seq<nat>)
    ensures |r| == |s| && forall i :: 0 <= i < |r| ==> r[i] == s[i].first
  {
    seq(|s|, i requires 0 <= i < |s| => s[i].first)
  }

  // ----- progress of the merge

  /** The output is a chain before all that is left, and `all` is what was taken plus what is left. */
  ghost predicate Progress(t: Text, out: seq<nat>, rest: seq<nat>, all: seq<nat>) {
    && Chain(t, out)
    && AllBefore(t, out, rest)
    && (forall x :: x in all ==> x in out || x in rest)
  }

  lemma ProgressStep(t: Text, out: seq<nat>, x: nat, rest: seq<nat>, all: seq<nat>, taken: bool)
    requires Progress(t, out, rest, all)
    requires taken ==> rest != [] && rest[0] == x
    requires Before(t, x, if taken then rest[1..] else rest)
    requires Chain(t, out + [x])
    ensures Progress(t, out + [x], if taken then rest[1..] else rest, all)
  {
    var rest' := if taken then rest[1..] else rest;
    forall i | 0 <= i < |out| + 1 ensures Before(t, (out + [x])[i], rest') {
      if i < |out| {
        assert Before(t, out[i], rest);
      }
    }
    forall y | y in all ensures y in out + [x] || y in rest' {
      if y in rest && y !in rest' {
        assert y == x && (out + [x])[|out|] == y;
      }
    }
  }

  lemma TailChain(t: Text, s: seq<nat>, i: nat)
    requires Chain(t, s) && i <= |s|
    ensures Chain(t, s[i..]) && (i < |s| <==> s[i..] != []) && (i < |s| ==> s[i..][0] == s[i])
  {
  }

  lemma HeadBefore(t: Text, s: seq<nat>)
    requires Chain(t, s) && s != []
    ensures Before(t, s[0], s[1..])
  {
  }

  lemma AppendToChain(t: Text, out: seq<nat>, s: seq<nat>)
    requires Chain(t, out) && AllBefore(t, out, s) && s != [] && s[0] < |t|
    ensures Chain(t, out + [s[0]])
  {
    forall i | 0 <= i < |out| ensures SufLess(t, out[i], s[0]) {
      assert Before(t, out[i], s);
    }
  }

  // ----- the three sorted tuple streams

  ghost predicate Tuples0(k: Ranked, a: seq<Quint>) {
    k.Fits() && forall i :: 0 <= i < |a| ==> a[i].first < |k.t| && a[i].first % 3 == 0 && a[i] == k.Mod0(a[i].first)
  }

  ghost predicate Tuples1(k: Ranked, b: seq<Quad>) {
    k.Fits() && forall i :: 0 <= i < |b| ==> b[i].first < |k.t| && b[i].first % 3 == 1 && b[i] == k.Mod1(b[i].first)
  }

  ghost predicate Tuples2(k: Ranked, c: seq<Quint>) {
    k.Fits() && forall i :: 0 <= i < |c| ==> c[i].first < |k.t| && c[i].first % 3 == 2 && c[i] == k.Mod2(c[i].first)
  }

  /** The tuples of the three classes of positions, each in suffix order. */
  ghost predicate StreamsOf(k: Ranked, a: seq<Quint>, b: seq<Quad>, c: seq<Quint>) {
    && k.Ok()
    && Tuples0(k, a) && Tuples1(k, b) && Tuples2(k, c)
    && Chain(k.t, Firsts5(a)) && Chain(k.t, Firsts4(b)) && Chain(k.t, Firsts5(c))
  }

  /** The three-way merge of the sorted tuples. */
  class MergeSa {
    ghost const k: Ranked
    const a: seq<Quint>
    const b: seq<Quad>
    const c: seq<Quint>
    var ia: nat            // stream positions
    var ib: nat
    var ic: nat
    var s0: Quint
    var s1: Quad
    var s2: Quint
    var selected: int
    var done: seq<bool>
    var index: nat
    var mergeResult: nat

    /** `StreamsOf(k, a, b, c)`, phrased so that a proof that only passes it on does not look inside. */
    ghost predicate Streams() {
      forall r :: Same(r, k) ==> StreamsOf(r, a, b, c)
    }

    lemma InRange()
      requires Streams()
      ensures forall i :: 0 <= i < |a| ==> a[i].first < |k.t|
      ensures forall i :: 0 <= i < |b| ==> b[i].first < |k.t|
      ensures forall i :: 0 <= i < |c| ==> c[i].first < |k.t|
    {
      OpenStreams();
    }

    lemma OpenStreams()
      requires Streams()
      ensures StreamsOf(k, a, b, c)
    {
      assert Same(k, k);
    }

    ghost predicate Heads()
      reads this
    {
      && Streams()
      && ia <= |a| && ib <= |b| && ic <= |c| && |done| == 3
      && (done[0] <==> ia == |a|) && (done[1] <==> ib == |b|) && (done[2] <==> ic == |c|)
      && (!done[0] ==> s0 == a[ia] && s0.first < |k.t|)
      && (!done[1] ==> s1 == b[ib] && s1.first < |k.t|)
      && (!done[2] ==> s2 == c[ic] && s2.first < |k.t|)
    }

    /** The positions still to come from stream `j`. */
    ghost function Rest(j: nat): seq<nat>
      reads this
      requires j <= 2 && ia <= |a| && ib <= |b| && ic <= |c|
    {
      if j == 0 then Firsts5(a)[ia..] else if j == 1 then Firsts4(b)[ib..] else Firsts5(c)[ic..]
    }

    /** The selected head precedes the other two. */
    ghost predicate Chosen()
      reads this
      requires Heads()
    {
      && 0 <= selected <= 2 && !done[selected]
      && mergeResult == (if selected == 0 then s0.first else if selected == 1 then s1.first else s2.first)
      && (selected != 0 && !done[0] ==> SufLess(k.t, mergeResult, s0.first))
      && (selected != 1 && !done[1] ==> SufLess(k.t, mergeResult, s1.first))
      && (selected != 2 && !done[2] ==> SufLess(k.t, mergeResult, s2.first))
    }

    ghost predicate Valid()
      reads this
    {
      Heads() && (!Empty() ==> Chosen())
    }

    constructor (ghost ranked: Ranked, x1: seq<Quint>, x2: seq<Quad>, x3: seq<Quint>)
      requires StreamsOf(ranked, x1, x2, x3)
      requires x1 != [] && x2 != [] && x3 != []
      ensures Valid() && k == ranked && a == x1 && b == x2 && c == x3
      ensures ia == 0 && ib == 0 && ic == 0
    {
      k, a, b, c := ranked, x1, x2, x3;
      ia, ib, ic, selected, index, mergeResult := 0, 0, 0, -1, 0, 0;
      done := [false, false, false];
      s0, s1, s2 := x1[0], x2[0], x3[0];
      new;
      Merge();
    }

    predicate Empty()
      reads this
    {
      ia >= |a| && ib >= |b| && ic >= |c|
    }

    lemma HeadOrders()
      requires Heads()
      ensures !done[0] && !done[1] ==> (Mod0LessMod1(s0, s1) <==> SufLess(k.t, s0.first, s1.first))
      ensures !done[0] && !done[1] ==> (!Mod0LessMod1(s0, s1) <==> SufLess(k.t, s1.first, s0.first))
      ensures !done[1] && !done[2] ==> (Mod1LessMod2(s1, s2) <==> SufLess(k.t, s1.first, s2.first))
      ensures !done[1] && !done[2] ==> (!Mod1LessMod2(s1, s2) <==> SufLess(k.t, s2.first, s1.first))
      ensures !done[0] && !done[2] ==> (Mod0LessMod2(s0, s2) <==> SufLess(k.t, s0.first, s2.first))
      ensures !done[0] && !done[2] ==> (!Mod0LessMod2(s0, s2) <==> SufLess(k.t, s2.first, s0.first))
    {
      OpenStreams();
      if !done[0] && !done[1] {
        Mod0LessMod1Meaning(k, s0.first, s1.first);
        Total(k.t, s0.first, s1.first);
      }
      if !done[1] && !done[2] {
        Mod1LessMod2Meaning(k, s1.first, s2.first);
        Total(k.t, s1.first, s2.first);
      }
      if !done[0] && !done[2] {
        Mod0LessMod2Meaning(k, s0.first, s2.first);
        Total(k.t, s0.first, s2.first);
      }
    }

    /** Of three heads, the tests below pick the least although each only compares two. */
    lemma HeadCycle()
      requires Heads() && !done[0] && !done[1] && !done[2]
      ensures SufLess(k.t, s0.first, s1.first) && SufLess(k.t, s2.first, s0.first) ==> SufLess(k.t, s2.first, s1.first)
      ensures SufLess(k.t, s1.first, s0.first) && SufLess(k.t, s2.first, s1.first) ==> SufLess(k.t, s2.first, s0.first)
    {
      OpenStreams();
      if SufLess(k.t, s0.first, s1.first) && SufLess(k.t, s2.first, s0.first) {
        Transitive(k.t, s2.first, s0.first, s1.first);
      }
      if SufLess(k.t, s1.first, s0.first) && SufLess(k.t, s2.first, s1.first) {
        Transitive(k.t, s2.first, s1.first, s0.first);
      }
    }

    method Merge()
      requires Heads() && !Empty()
      modifies this`selected, this`mergeResult
      ensures Valid()
    {
      HeadOrders();
      if !done[0] && !done[1] && !done[2] {
        HeadCycle();
      }
      if done[0] {
        if done[2] || (!done[1] && Mod1LessMod2(s1, s2)) {
          selected, mergeResult := 1, s1.first;
        } else {
          selected, mergeResult := 2, s2.first;
        }
      } else if done[1] || Mod0LessMod1(s0, s1) {
        if done[2] || Mod0LessMod2(s0, s2) {
          selected, mergeResult := 0, s0.first;
        } else {
          selected, mergeResult := 2, s2.first;
        }
      } else {
        if done[2] || Mod1LessMod2(s1, s2) {
          selected, mergeResult := 1, s1.first;
        } else {
          selected, mergeResult := 2, s2.first;
        }
      }
    }

    method Advance()
      requires Valid() && !Empty()
      modifies this
      ensures Valid()
      ensures forall j: nat :: j <= 2 ==> Rest(j) == if old(selected) == j then old(Rest(j))[1..] else old(Rest(j))
    {
      InRange();
      if selected == 0 {
        ia := ia + 1;
        if ia < |a| { s0 := a[ia]; } else { done := done[0 := true]; }
      } else if selected == 1 {
        ib := ib + 1;
        if ib < |b| { s1 := b[ib]; } else { done := done[1 := true]; }
      } else {
        ic := ic + 1;
        if ic < |c| { s2 := c[ic]; } else { done := done[2 := true]; }
      }
      index := index + 1;
      if !Empty() {
        Merge();
      }
    }

    lemma RestChain(j: nat)
      requires Heads() && j <= 2
      ensures Chain(k.t, Rest(j)) && (!done[j] <==> Rest(j) != [])
      ensures !done[j] ==> Rest(j)[0] == if j == 0 then s0.first else if j == 1 then s1.first else s2.first
    {
      StreamChains();
      if j == 0 {
        TailChain(k.t, Firsts5(a), ia);
      } else if j == 1 {
        TailChain(k.t, Firsts4(b), ib);
      } else {
        TailChain(k.t, Firsts5(c), ic);
      }
    }

    lemma StreamChains()
      requires Streams()
      ensures Chain(k.t, Firsts5(a)) && Chain(k.t, Firsts4(b)) && Chain(k.t, Firsts5(c))
    {
      OpenStreams();
    }

    /** The chosen position precedes everything that is left once it is taken out. */
    lemma ChosenPrecedes(j: nat)
      requires Valid() && !Empty() && j <= 2
      ensures mergeResult < |k.t|
      ensures selected == j ==> Rest(j) != [] && Rest(j)[0] == mergeResult
      ensures Before(k.t, mergeResult, if selected == j then Rest(j)[1..] else Rest(j))
    {
      RestChain(j);
      RestChain(selected);
      if selected != j {
        BeforeHead(k.t, mergeResult, Rest(j));
      } else {
        HeadBefore(k.t, Rest(j));
      }
    }

    ghost predicate Merged(out: seq<nat>, all: seq<seq<nat>>)
      reads this
      requires Heads() && |all| == 3
    {
      && |out| + |Rest(0)| + |Rest(1)| + |Rest(2)| == |a| + |b| + |c|
      && Progress(k.t, out, Rest(0), all[0]) && Progress(k.t, out, Rest(1), all[1]) && Progress(k.t, out, Rest(2), all[2])
    }

    lemma MergedStep(out: seq<nat>, all: seq<nat>, all': seq<nat>, j: nat)
      requires Valid() && !Empty() && j <= 2
      requires Progress(k.t, out, Rest(j), all) && Progress(k.t, out, Rest(selected), all')
      ensures selected == j ==> |Rest(j)| > 0
      ensures Progress(k.t, out + [mergeResult], if selected == j then Rest(j)[1..] else Rest(j), all)
    {
      ChosenPrecedes(selected);
      AppendToChain(k.t, out, Rest(selected));
      ChosenPrecedes(j);
      ProgressStep(k.t, out, mergeResult, Rest(j), all, selected == j);
    }

    /** Appends the current result and steps on. */
    method Take(out: seq<nat>, ghost all: seq<seq<nat>>) returns (out': seq<nat>)
      requires Valid() && !Empty() && |all| == 3 && Merged(out, all)
      modifies this
      ensures Valid() && out' == out + [old(mergeResult)] && Merged(out', all)
    {
      MergedStep(out, all[0], all[selected], 0);
      MergedStep(out, all[1], all[selected], 1);
      MergedStep(out, all[2], all[selected], 2);
      out' := out + [mergeResult];
      Advance();
    }
  }

  /** Runs the merge to its end. */
  method MergeAll(ghost k: Ranked, a: seq<Quint>, b: seq<Quad>, c: seq<Quint>) returns (out: seq<nat>)
    requires StreamsOf(k, a, b, c)
    requires a != [] && b != [] && c != []
    ensures Chain(k.t, out) && |out| == |a| + |b| + |c|
    ensures forall i :: 0 <= i < |a| ==> a[i].first in out
    ensures forall i :: 0 <= i < |b| ==> b[i].first in out
    ensures forall i :: 0 <= i < |c| ==> c[i].first in out
  {
    var m := new MergeSa(k, a, b, c);
    out := [];
    ghost var all := [Firsts5(a), Firsts4(b), Firsts5(c)];
    while !m.Empty()
      invariant m.Valid() && fresh(m) && m.k == k && m.a == a && m.b == b && m.c == c
      invariant m.Merged(out, all)
      decreases |a| + |b| + |c| - |out|
    {
      out := m.Take(out, all);
    }
    assert forall i :: 0 <= i < |a| ==> a[i].first in all[0];
    assert forall i :: 0 <= i < |b| ==> b[i].first in all[1];
    assert forall i :: 0 <= i < |c| ==> c[i].first in all[2];
  }
}
