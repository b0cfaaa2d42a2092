/** The stream objects of the skew algorithm up to the naming of the triples. */
module SkewStreams {
  import opened SuffixOrder
  import opened SkewOrder
  import opened KeyedSort

  /** The text of a level: the input with every character raised by one. */
  function Raise(input: seq<nat>): (t: Text)
    ensures |t| == |input| && forall k :: 0 <= k < |t| ==> t[k] == input[k] + 1
  {
    seq(|input|, k requires 0 <= k < |input| => input[k] + 1)
  }

  function QuadAt(t: Text, i: nat): Quad {
    Quad(i, Ch(t, i), Ch(t, i + 1), Ch(t, i + 2))
  }

  /** The first `n` characters, or all. */
  function Prefix(t: Text, n: nat): Text {
    if n <= |t| then t[..n] else t
  }

  /** The window at position `counter`: the stream stands two characters further on, or at its end. */
  ghost predicate WindowAt(input: seq<nat>, next: nat, current: Quad, counter: nat, z3z: nat, finished: bool) {
    && counter <= QuadCount(|input|)
    && next == (if counter + 2 <= |input| then counter + 2 else |input|)
    && current == QuadAt(Raise(input), counter)
    && z3z == counter % 3
    && (finished <==> counter == QuadCount(|input|))
  }

  /** The character that leaves the window belongs to the text unless it is behind the end. */
  lemma PrefixNext(t: Text, counter: nat)
    requires forall i :: 0 <= i < |t| ==> t[i] != 0
    ensures Prefix(t, counter + 1) == if Ch(t, counter) != 0 then Prefix(t, counter) + [Ch(t, counter)] else Prefix(t, counter)
  {
  }

  lemma WindowNext(input: seq<nat>, next: nat, current: Quad, counter: nat, z3z: nat, finished: bool)
    requires WindowAt(input, next, current, counter, z3z, finished) && counter < QuadCount(|input|)
    ensures
      var next' := if next < |input| then next + 1 else next;
      var current' := Quad(counter + 1, current.third, current.fourth, if next' < |input| then input[next'] + 1 else 0);
      var z3z' := if z3z + 1 == 3 then 0 else z3z + 1;
      WindowAt(input, next', current', counter + 1, z3z', current'.second == 0 && z3z' != 1)
  {
    LastNext(input, counter);
  }

  /** Slides a window of three characters over the input and collects the text on the way. */
  class MakeQuads {
    const input: seq<nat>
    var next: nat          // position of the input stream
    var current: Quad
    var counter: nat
    var z3z: nat
    var finished: bool
    var text: seq<nat>

    ghost predicate Valid()
      reads this
    {
      |input| > 0 && WindowAt(input, next, current, counter, z3z, finished) && text == Prefix(Raise(input), counter)
    }

    constructor (data: seq<nat>)
      requires |data| > 0
      ensures Valid() && input == data && counter == 0
    {
      input := data;
      next, counter, z3z, finished, text := 0, 0, 0, false, [];
      var second := data[0] + 1;
      var third, fourth, a := 0, 0, 1;
      if a < |data| {
        third := data[a] + 1;
        a := a + 1;
      }
      if a < |data| {
        fourth := data[a] + 1;
      }
      current := Quad(0, second, third, fourth);
      next := a;
    }

    predicate Empty()
      reads this
      requires Valid()
      ensures Empty() <==> counter == QuadCount(|input|)
    {
      next == |input| && finished
    }

    method Advance()
      requires Valid() && !Empty()
      modifies this
      ensures Valid() && counter == old(counter) + 1
    {
      PrefixNext(Raise(input), counter);
      WindowNext(input, next, current, counter, z3z, finished);
      if current.second != 0 {
        text := text + [current.second];
      }
      z3z := z3z + 1;
      if z3z == 3 {
        z3z := 0;
      }
      counter := counter + 1;
      if next < |input| {
        next := next + 1;
      }
      current := Quad(counter, current.third, current.fourth, if next < |input| then input[next] + 1 else 0);
      if current.second == 0 && z3z != 1 {
        finished := true;
      }
    }
  }

  /** The first window without a character, or the second if it is needed for a position 1 mod 3, is the last one. */
  lemma LastNext(input: seq<nat>, counter: nat)
    requires counter < QuadCount(|input|)
    ensures (Ch(Raise(input), counter + 1) == 0 && (counter + 1) % 3 != 1) <==> counter + 1 == QuadCount(|input|)
  {
  }

  /** From one position that is not 0 mod 3 to the next one, or to the end of the quads. */
  lemma NextPos(n: nat, counter: nat, o: nat)
    requires n > 0 && counter < QuadCount(n) && Pos(o) == counter && o <= Mod12Count(n)
    ensures o < Mod12Count(n)
    ensures
      var next := if counter + 1 < QuadCount(n) && (counter + 1) % 3 == 0 then counter + 2 else counter + 1;
      && next <= QuadCount(n)
      && (next < QuadCount(n) ==> Pos(o + 1) == next)
      && (next == QuadCount(n) ==> o + 1 == Mod12Count(n))
  {
    var q, e, m, z := o / 2, o % 2, n / 3, n % 3;
    assert o == 2 * q + e && n == 3 * m + z && counter == 3 * q + 1 + e;
    if e == 1 {
      assert (counter + 1) % 3 == 0 && Pos(o + 1) == counter + 2;
    } else {
      assert (counter + 1) % 3 == 2 && Pos(o + 1) == counter + 1;
    }
  }

  /** The quads at positions 1 and 2 mod 3, numbered consecutively. */
  class ExtractMod12 {
    const source: MakeQuads
    var counter: nat
    var outputCounter: nat
    var result: Quad

    ghost predicate Valid()
      reads this, source
    {
      && source.Valid()
      && counter == source.counter
      && outputCounter <= Mod12Count(|source.input|)
      && (source.counter < QuadCount(|source.input|) ==>
            && Pos(outputCounter) == counter
            && result == QuadAt(Raise(source.input), counter).(first := outputCounter))
      && (source.counter == QuadCount(|source.input|) ==> outputCounter == Mod12Count(|source.input|))
    }

    constructor (a: MakeQuads)
      requires a.Valid() && a.counter == 0
      modifies a
      ensures Valid() && source == a && outputCounter == 0
    {
      source := a;
      counter, outputCounter, result := 0, 0, Quad(0, 0, 0, 0);
      new;
      a.Advance();
      counter := counter + 1;
      if !a.Empty() {
        result := a.current.(first := outputCounter);
      }
    }

    predicate Empty()
      reads this, source
      requires Valid()
    {
      source.Empty()
    }

    method Advance()
      requires Valid() && !Empty()
      modifies this, source
      ensures Valid() && outputCounter == old(outputCounter) + 1
    {
      NextPos(|source.input|, counter, outputCounter);
      source.Advance();
      counter, outputCounter := counter + 1, outputCounter + 1;
      if !source.Empty() && counter % 3 == 0 {
        source.Advance();
        counter := counter + 1;
      }
      if !source.Empty() {
        result := source.current.(first := outputCounter);
      }
    }
  }

  /** Runs the two streams: the quads of the reduced positions in order, and the whole text. */
  method Mod12Quads(input: seq<nat>) returns (quads: seq<Quad>, text: Text)
    requires |input| > 0
    ensures text == Raise(input)
    ensures |quads| == Mod12Count(|input|)
    ensures forall o :: 0 <= o < |quads| ==> quads[o] == QuadAt(text, Pos(o)).(first := o)
  {
    var source := new MakeQuads(input);
    var mod12 := new ExtractMod12(source);
    quads := [];
    while !mod12.Empty()
      invariant mod12.Valid() && mod12.source == source && source.input == input
      invariant fresh(mod12) && fresh(source)
      invariant |quads| == mod12.outputCounter
      invariant forall o :: 0 <= o < |quads| ==> quads[o] == QuadAt(Raise(input), Pos(o)).(first := o)
      decreases Mod12Count(|input|) - |quads|
    {
      quads := quads + [mod12.result];
      mod12.Advance();
    }
    text := source.text;
  }

  // ----- sorting and naming

  predicate LessQuad(a: Quad, b: Quad) {
    if a.second == b.second then
      if a.third == b.third then a.fourth < b.fourth else a.third < b.third
    else a.second < b.second
  }

  predicate QuadEq(a: Quad, b: Quad) {
    a.second == b.second && a.third == b.third && a.fourth == b.fourth
  }

  /** The name of the k-th quad: how many times the triple changed before it. */
  function NameOf(s: seq<Quad>, k: nat): nat
    requires k < |s|
  {
    if k == 0 then 0
    else NameOf(s, k - 1) + if QuadEq(s[k - 1], s[k]) then 0 else 1
  }

  ghost predicate NoRepeat(s: seq<Quad>, k: nat)
    requires k <= |s|
  {
    forall l :: 0 < l < k ==> !QuadEq(s[l - 1], s[l]) || s[l].second == 0
  }

  /** Gives ascending names to a sorted stream of quads. */
  class Naming {
    const source: seq<Quad>
    var k: nat             // position of the input stream
    var unique: bool
    var lexname: nat
    var prev: Quad
    var result: Pair

    ghost predicate Valid()
      reads this
    {
      && |source| > 0
      && k <= |source|
      && (k < |source| ==>
            && prev == source[k]
            && lexname == NameOf(source, k)
            && result == Pair(source[k].first, lexname))
      && (unique <==> NoRepeat(source, if k < |source| then k + 1 else k))
    }

    constructor (a: seq<Quad>)
      requires |a| > 0
      ensures Valid() && source == a && k == 0
    {
      source := a;
      k, unique, lexname, prev, result := 0, true, 0, a[0], Pair(a[0].first, 0);
    }

    predicate Empty()
      reads this
    {
      k >= |source|
    }

    method Advance()
      requires Valid() && !Empty()
      modifies this
      ensures Valid() && k == old(k) + 1
    {
      k := k + 1;
      if k == |source| {
        return;
      }
      var curr := source[k];
      if !QuadEq(prev, curr) {
        lexname := lexname + 1;
      } else if curr.second != 0 {
        unique := false;
      }
      result := Pair(curr.first, lexname);
      prev := curr;
    }
  }

  lemma {:induction false} NamesRise(s: seq<Quad>, k: nat, l: nat)
    requires forall i, j :: 0 <= i < j < |s| ==> !LessQuad(s[j], s[i])
    requires k <= l < |s|
    ensures NameOf(s, k) <= NameOf(s, l)
    ensures NameOf(s, k) == NameOf(s, l) <==> QuadEq(s[k], s[l])
    ensures NameOf(s, k) < NameOf(s, l) <==> LessQuad(s[k], s[l])
    decreases l - k
  {
    if k >= l {
    } else {
      NamesRise(s, k, l - 1);
    }
  }
}
