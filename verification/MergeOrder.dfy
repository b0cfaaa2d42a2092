/** Why merging from a shared pool of blocks is right.

    A cursor that runs out of elements gets the next block of the consumption order, whichever run
    that block came from.  The consumption order lists all blocks of all runs by their first
    element, blocks of one run in their own order.
 */
module MergeOrder {
  import opened Sorting
  import opened Sums

  /** Blocks in consumption order, with the run each belongs to (`owner`). */
  ghost predicate ConsumeOrder<T(!new)>(blocks: seq<seq<T>>, owner: seq<nat>, nruns: nat, size: nat, key: T -> int) {
    && size > 0 && |owner| == |blocks|
    && (forall b :: 0 <= b < |blocks| ==> |blocks[b]| == size && owner[b] < nruns)
    && (forall b, i, j :: 0 <= b < |blocks| && 0 <= i < j < size ==> key(blocks[b][i]) <= key(blocks[b][j]))
    && (forall b, c :: 0 <= b < c < |blocks| ==> key(blocks[b][0]) <= key(blocks[c][0]))
    && (forall b, c, i :: 0 <= b < c < |blocks| && owner[b] == owner[c] && 0 <= i < size ==>
          key(blocks[b][i]) <= key(blocks[c][0]))
  }

  /** A cursor: block number and position in it. */
  datatype Cursor = Cursor(pos: nat, block: nat)

  /** The state of the merge: a cursor for each run, and how far each block is consumed. */
  datatype State = State(cursors: seq<Cursor>, next: nat, progress: seq<nat>)

  ghost predicate Valid(n: nat, size: nat, s: State) {
    && |s.progress| == n && s.next <= n
    && (forall j :: 0 <= j < |s.cursors| ==> s.cursors[j].pos <= size && s.cursors[j].block < s.next)
    && (forall j, l :: 0 <= j < l < |s.cursors| ==> s.cursors[j].block != s.cursors[l].block)
    && (forall j :: 0 <= j < |s.cursors| ==> s.progress[s.cursors[j].block] == s.cursors[j].pos)
    // an empty cursor is left only when no block is left
    && (forall j :: 0 <= j < |s.cursors| && s.cursors[j].pos == size ==> s.next == n)
    && (forall b :: s.next <= b < n ==> s.progress[b] == 0)
    && (forall b :: 0 <= b < s.next ==> s.progress[b] == size || exists j :: 0 <= j < |s.cursors| && s.cursors[j].block == b)
  }

  ghost predicate Active(s: State, size: nat, j: nat) {
    j < |s.cursors| && s.cursors[j].pos < size
  }

  ghost function Current<T>(blocks: seq<seq<T>>, s: State, size: nat, j: nat): T
    requires Valid(|blocks|, size, s) && Active(s, size, j)
    requires forall b :: 0 <= b < |blocks| ==> |blocks[b]| == size
  {
    blocks[s.cursors[j].block][s.cursors[j].pos]
  }

  /** Cursor `w` shows a least element among all cursors. */
  ghost predicate Least<T(!new)>(blocks: seq<seq<T>>, size: nat, key: T -> int, s: State, w: nat)
    requires Valid(|blocks|, size, s) && forall b :: 0 <= b < |blocks| ==> |blocks[b]| == size
  {
    && Active(s, size, w)
    && forall j :: Active(s, size, j) ==> key(Current(blocks, s, size, w)) <= key(Current(blocks, s, size, j))
  }

  // ----- the key lemma

  ghost function Owners(s: State, owner: seq<nat>): (r: seq<nat>)
    requires forall j :: 0 <= j < |s.cursors| ==> s.cursors[j].block < |owner|
    ensures |r| == |s.cursors| && forall j :: 0 <= j < |r| ==> r[j] == owner[s.cursors[j].block]
  {
    seq(|s.cursors|, j requires 0 <= j < |s.cursors| => owner[s.cursors[j].block])
  }

  /** While all cursors are active, some current element is not above the next block.  Either two
      cursors stand in one run, and the one behind is below the first element of the one ahead, or
      every run has a cursor, and the run of the next block has one in an earlier block. */
  lemma SomeCursorBelowNext<T(!new)>(blocks: seq<seq<T>>, owner: seq<nat>, size: nat, key: T -> int, s: State) returns (j: nat)
    requires ConsumeOrder(blocks, owner, |s.cursors|, size, key) && Valid(|blocks|, size, s)
    requires forall j :: 0 <= j < |s.cursors| ==> s.cursors[j].pos < size
    requires s.next < |blocks|
    ensures j < |s.cursors| && key(Current(blocks, s, size, j)) <= key(blocks[s.next][0])
  {
    var r := Owners(s, owner);
    if a, c :| 0 <= a < c < |r| && r[a] == r[c] {
      j := if s.cursors[a].block < s.cursors[c].block then a else c;
      var l := if s.cursors[a].block < s.cursors[c].block then c else a;
      assert key(blocks[s.cursors[l].block][0]) <= key(blocks[s.next][0]);
    } else {
      Surjective(r, |r|);
      assert owner[s.next] in r;
      j :| 0 <= j < |r| && r[j] == owner[s.next];
    }
  }

  /** A current element that is least among the cursors is least among all that is left. */
  lemma LeastCursorIsLeast<T(!new)>(blocks: seq<seq<T>>, owner: seq<nat>, size: nat, key: T -> int, s: State, w: nat, b: nat, i: nat)
    requires ConsumeOrder(blocks, owner, |s.cursors|, size, key) && Valid(|blocks|, size, s)
    requires Least(blocks, size, key, s, w)
    requires b < |blocks| && s.progress[b] <= i < size
    ensures key(Current(blocks, s, size, w)) <= key(blocks[b][i])
  {
    if b < s.next {
      var j :| 0 <= j < |s.cursors| && s.cursors[j].block == b;
      assert Active(s, size, j);
    } else {
      var j := SomeCursorBelowNext(blocks, owner, size, key, s);
      assert Active(s, size, j);
      assert b > s.next ==> key(blocks[s.next][0]) <= key(blocks[b][0]);
    }
  }

  /** Something is left exactly when some cursor is active. */
  lemma LeftMeansActive(n: nat, size: nat, s: State, b: nat) returns (j: nat)
    requires Valid(n, size, s) && |s.cursors| > 0 && b < n && s.progress[b] < size
    ensures Active(s, size, j)
  {
    if b < s.next {
      j :| 0 <= j < |s.cursors| && s.cursors[j].block == b;
    } else {
      j := 0;
    }
  }

  // ----- one step

  /** Cursor `w` moves on; an exhausted one gets the next block. */
  ghost function Step(n: nat, size: nat, s: State, w: nat): State
    requires Valid(n, size, s) && Active(s, size, w)
  {
    var c := s.cursors[w];
    var progress := s.progress[c.block := s.progress[c.block] + 1];
    if c.pos + 1 == size && s.next < n then State(s.cursors[w := Cursor(0, s.next)], s.next + 1, progress)
    else State(s.cursors[w := c.(pos := c.pos + 1)], s.next, progress)
  }

  lemma StepValid(n: nat, size: nat, s: State, w: nat)
    requires Valid(n, size, s) && Active(s, size, w)
    ensures Valid(n, size, Step(n, size, s, w))
  {
    var t := Step(n, size, s, w);
    forall b | 0 <= b < t.next ensures t.progress[b] == size || exists j :: 0 <= j < |t.cursors| && t.cursors[j].block == b {
      StepHolds(n, size, s, w, b);
    }
  }

  /** A block that was handed out is finished or in the hands of a cursor. */
  lemma StepHolds(n: nat, size: nat, s: State, w: nat, b: nat)
    requires Valid(n, size, s) && Active(s, size, w) && b < Step(n, size, s, w).next
    ensures
      var t := Step(n, size, s, w);
      b < |t.progress| && (t.progress[b] == size || exists j :: 0 <= j < |t.cursors| && t.cursors[j].block == b)
  {
    var t := Step(n, size, s, w);
    if b == s.next {
      assert t.cursors[w].block == b;
    } else if s.progress[b] != size {
      var j :| 0 <= j < |s.cursors| && s.cursors[j].block == b;
      assert j != w ==> t.cursors[j].block == b;
      assert j == w && t.next == s.next ==> t.cursors[w].block == b;
    }
  }

  // ----- what is left, as a multiset

  /** What is left of each block. */
  ghost function Rests<T>(blocks: seq<seq<T>>, progress: seq<nat>): (r: seq<multiset<T>>)
    requires |blocks| == |progress| && forall b :: 0 <= b < |blocks| ==> progress[b] <= |blocks[b]|
    ensures |r| == |blocks| && forall b :: 0 <= b < |blocks| ==> r[b] == multiset(blocks[b][progress[b]..])
  {
    seq(|blocks|, b requires 0 <= b < |blocks| => multiset(blocks[b][progress[b]..]))
  }

  ghost function Left<T>(blocks: seq<seq<T>>, progress: seq<nat>): multiset<T>
    requires |blocks| == |progress| && forall b :: 0 <= b < |blocks| ==> progress[b] <= |blocks[b]|
  {
    SumTo(Rests(blocks, progress), |blocks|)
  }

  lemma DropFirst<T>(block: seq<T>, pos: nat)
    requires pos < |block|
    ensures multiset(block[pos..]) == multiset(block[pos + 1..]) + multiset{block[pos]}
  {
    assert block[pos..] == [block[pos]] + block[pos + 1..];
  }

  lemma LeftStep<T>(blocks: seq<seq<T>>, progress: seq<nat>, b: nat)
    requires |blocks| == |progress| && forall c :: 0 <= c < |blocks| ==> progress[c] <= |blocks[c]|
    requires b < |blocks| && progress[b] < |blocks[b]|
    ensures Left(blocks, progress) == Left(blocks, progress[b := progress[b] + 1]) + multiset{blocks[b][progress[b]]}
  {
    DropFirst(blocks[b], progress[b]);
    SumDrop(Rests(blocks, progress), Rests(blocks, progress[b := progress[b] + 1]), b, blocks[b][progress[b]], |blocks|);
  }

  /** The elements of the first `n` blocks. */
  function ConcatTo<T>(blocks: seq<seq<T>>, n: nat): seq<T>
    requires n <= |blocks|
  {
    if n == 0 then [] else ConcatTo(blocks, n - 1) + blocks[n - 1]
  }

  function Concat<T>(blocks: seq<seq<T>>): seq<T> {
    ConcatTo(blocks, |blocks|)
  }

  /** At the start everything is left, at the end nothing. */
  lemma {:induction false} LeftAll<T>(blocks: seq<seq<T>>, progress: seq<nat>, n: nat)
    requires n <= |blocks| == |progress|
    requires forall b :: 0 <= b < |blocks| ==> progress[b] == 0
    ensures SumTo(Rests(blocks, progress), n) == multiset(ConcatTo(blocks, n))
  {
    if n == 0 {
    } else {
      LeftAll(blocks, progress, n - 1);
      assert blocks[n - 1][0..] == blocks[n - 1];
    }
  }

  lemma {:induction false} LeftSize<T>(blocks: seq<seq<T>>, progress: seq<nat>, size: nat, n: nat)
    requires n <= |blocks| == |progress|
    requires forall b :: 0 <= b < |blocks| ==> progress[b] <= |blocks[b]| == size
    ensures |SumTo(Rests(blocks, progress), n)| > 0 ==> exists b :: 0 <= b < n && progress[b] < size
    ensures |SumTo(Rests(blocks, progress), n)| == 0 ==> forall b :: 0 <= b < n ==> progress[b] == size
  {
    if n == 0 {
    } else {
      LeftSize(blocks, progress, size, n - 1);
      assert |multiset(blocks[n - 1][progress[n - 1]..])| == size - progress[n - 1];
    }
  }

  // ----- the output so far

  ghost predicate SortedOut<T(!new)>(out: seq<T>, key: T -> int) {
    forall i, j :: 0 <= i < j < |out| ==> key(out[i]) <= key(out[j])
  }

  ghost predicate FitsBlocks<T>(blocks: seq<seq<T>>, size: nat, progress: seq<nat>) {
    |progress| == |blocks| && forall b :: 0 <= b < |blocks| ==> progress[b] <= size == |blocks[b]|
  }

  /** No element of `out` is above an element that is left. */
  ghost predicate NotAbove<T(!new)>(blocks: seq<seq<T>>, size: nat, key: T -> int, progress: seq<nat>, out: seq<T>)
    requires FitsBlocks(blocks, size, progress)
  {
    forall o, b, i :: 0 <= o < |out| && 0 <= b < |blocks| && progress[b] <= i < size ==> key(out[o]) <= key(blocks[b][i])
  }

  /** The output is sorted, not above what is left, and together they are all elements. */
  ghost predicate Merging<T(!new)>(blocks: seq<seq<T>>, size: nat, key: T -> int, s: State, out: seq<T>) {
    && Valid(|blocks|, size, s)
    && FitsBlocks(blocks, size, s.progress)
    && SortedOut(out, key)
    && NotAbove(blocks, size, key, s.progress, out)
    && AllElements(blocks, size, s.progress, out)
  }

  lemma ProgressBound(n: nat, size: nat, s: State)
    requires Valid(n, size, s)
    ensures forall b :: 0 <= b < n ==> s.progress[b] <= size
  {
  }

  lemma NotAboveStep<T(!new)>(blocks: seq<seq<T>>, size: nat, key: T -> int, progress: seq<nat>, progress': seq<nat>, out: seq<T>, x: T)
    requires FitsBlocks(blocks, size, progress) && FitsBlocks(blocks, size, progress')
    requires NotAbove(blocks, size, key, progress, out) && NotAbove(blocks, size, key, progress', [x])
    requires forall b :: 0 <= b < |blocks| ==> progress[b] <= progress'[b]
    ensures NotAbove(blocks, size, key, progress', out + [x])
  {
    forall o, b, i | 0 <= o < |out| + 1 && 0 <= b < |blocks| && progress'[b] <= i < size
      ensures key((out + [x])[o]) <= key(blocks[b][i])
    {
      if o == |out| {
        assert key([x][0]) <= key(blocks[b][i]);
      } else {
        assert key(out[o]) <= key(blocks[b][i]);
      }
    }
  }

  lemma CurrentNotAbove<T(!new)>(blocks: seq<seq<T>>, owner: seq<nat>, size: nat, key: T -> int, s: State, w: nat)
    requires ConsumeOrder(blocks, owner, |s.cursors|, size, key) && Valid(|blocks|, size, s)
    requires Least(blocks, size, key, s, w)
    ensures FitsBlocks(blocks, size, s.progress)
    ensures NotAbove(blocks, size, key, s.progress, [Current(blocks, s, size, w)])
  {
    ProgressBound(|blocks|, size, s);
    forall b, i | 0 <= b < |blocks| && s.progress[b] <= i < size
      ensures key(Current(blocks, s, size, w)) <= key(blocks[b][i])
    {
      LeastCursorIsLeast(blocks, owner, size, key, s, w, b, i);
    }
  }

  lemma AppendSorted<T(!new)>(blocks: seq<seq<T>>, size: nat, key: T -> int, s: State, out: seq<T>, w: nat)
    requires Merging(blocks, size, key, s, out) && Active(s, size, w)
    ensures SortedOut(out + [Current(blocks, s, size, w)], key)
  {
    var x, c := Current(blocks, s, size, w), s.cursors[w];
    forall o | 0 <= o < |out| ensures key(out[o]) <= key(x) {
      assert x == blocks[c.block][c.pos];
    }
  }

  lemma MergeStepOrder<T(!new)>(blocks: seq<seq<T>>, owner: seq<nat>, size: nat, key: T -> int, s: State, out: seq<T>, w: nat)
    requires ConsumeOrder(blocks, owner, |s.cursors|, size, key) && Merging(blocks, size, key, s, out)
    requires Least(blocks, size, key, s, w)
    ensures FitsBlocks(blocks, size, Step(|blocks|, size, s, w).progress)
    ensures NotAbove(blocks, size, key, Step(|blocks|, size, s, w).progress, out + [Current(blocks, s, size, w)])
  {
    var x, t := Current(blocks, s, size, w), Step(|blocks|, size, s, w);
    CurrentNotAbove(blocks, owner, size, key, s, w);
    ProgressRises(blocks, size, key, s, w, x);
    NotAboveStep(blocks, size, key, s.progress, t.progress, out, x);
  }

  ghost predicate AllElements<T>(blocks: seq<seq<T>>, size: nat, progress: seq<nat>, out: seq<T>)
    requires FitsBlocks(blocks, size, progress)
  {
    multiset(out) + Left(blocks, progress) == multiset(Concat(blocks))
  }

  lemma AllElementsStep<T>(blocks: seq<seq<T>>, size: nat, progress: seq<nat>, progress': seq<nat>, out: seq<T>, b: nat, x: T)
    requires FitsBlocks(blocks, size, progress) && FitsBlocks(blocks, size, progress')
    requires b < |blocks| && progress[b] < size && x == blocks[b][progress[b]] && progress' == progress[b := progress[b] + 1]
    requires AllElements(blocks, size, progress, out)
    ensures AllElements(blocks, size, progress', out + [x])
  {
    LeftStep(blocks, progress, b);
    assert multiset(out + [x]) == multiset(out) + multiset{x};
  }

  lemma StepProgress(n: nat, size: nat, s: State, w: nat)
    requires Valid(n, size, s) && Active(s, size, w)
    ensures var b := s.cursors[w].block; Step(n, size, s, w).progress == s.progress[b := s.progress[b] + 1]
  {
  }

  /** Emitting the least current element keeps the invariant of the merge. */
  lemma MergeStep<T(!new)>(blocks: seq<seq<T>>, owner: seq<nat>, size: nat, key: T -> int, s: State, out: seq<T>, w: nat)
    requires ConsumeOrder(blocks, owner, |s.cursors|, size, key) && Merging(blocks, size, key, s, out)
    requires Least(blocks, size, key, s, w)
    ensures Merging(blocks, size, key, Step(|blocks|, size, s, w), out + [Current(blocks, s, size, w)])
  {
    StepValid(|blocks|, size, s, w);
    AppendSorted(blocks, size, key, s, out, w);
    MergeStepOrder(blocks, owner, size, key, s, out, w);
    StepProgress(|blocks|, size, s, w);
    AllElementsStep(blocks, size, s.progress, Step(|blocks|, size, s, w).progress, out, s.cursors[w].block, Current(blocks, s, size, w));
  }

  lemma ProgressRises<T(!new)>(blocks: seq<seq<T>>, size: nat, key: T -> int, s: State, w: nat, x: T)
    requires FitsBlocks(blocks, size, s.progress) && Valid(|blocks|, size, s) && Active(s, size, w)
    requires NotAbove(blocks, size, key, s.progress, [x])
    ensures var t := Step(|blocks|, size, s, w);
            && FitsBlocks(blocks, size, t.progress)
            && NotAbove(blocks, size, key, t.progress, [x])
            && forall b :: 0 <= b < |blocks| ==> s.progress[b] <= t.progress[b]
  {
  }
}
