/** `loser_tree` over `run_cursor2` cursors, updated in place. */
module LoserTree {
  import opened Closed
  import opened Powers
  import opened Logarithms
  import opened Tournament
  import opened MergeOrder
  import opened MergeTree
  import opened Prefetcher

  /** A cursor into a buffer of the prefetcher. */
  datatype RunCursor = RunCursor(pos: nat, buffer: nat)

  class LoserTree<T(0, !new)> {
    const size: nat
    const key: T -> int
    const logK: nat
    const k: nat
    const nruns: nat
    const prefetcher: BlockPrefetcher<T>
    const current: array<RunCursor>
    const entry: array<nat>

    ghost const job: Job<T>
    ghost const start: Tree            // the state before the first element
    ghost var st: State                // where the cursors stand
    ghost var emitted: nat

    constructor (p: BlockPrefetcher<T>, runs: nat, blockSize: nat, sortKey: T -> int, ghost owner: seq<nat>)
      requires p.Valid() && p.nextconsume == 0 && p.returned == {} && p.hold == runs
      requires 1 <= runs <= |p.consume| && ConsumeOrder(p.consume, owner, runs, blockSize, sortKey)
      modifies p
      ensures Invariant() && emitted == 0 && prefetcher == p && size == blockSize && key == sortKey && nruns == runs
      ensures job.blocks == p.consume && job.owner == owner
      ensures fresh(current) && fresh(entry)
    {
      var height := Ilog2Ceil(runs);
      var width := Pow2(height);
      size, key, logK, k, nruns, prefetcher := blockSize, sortKey, height, width, runs, p;
      current := new RunCursor[width](_ => RunCursor(0, 0));
      entry := new nat[2 * width](_ => 0);
      job := Job(p.consume, owner, blockSize, sortKey, runs, height);
      st := FirstState(|p.consume|, runs);
      start, emitted := FirstTreeOf(Job(p.consume, owner, blockSize, sortKey, runs, height)), 0;
      new;
      Start();
    }

    method Start()
      requires Setup() && prefetcher.Valid() && prefetcher.nextconsume == 0 && prefetcher.returned == {}
      requires 1 <= nruns <= |job.blocks| && ConsumeOrder(job.blocks, job.owner, nruns, size, key)
      requires job == Job(job.blocks, job.owner, size, key, nruns, logK)
      requires st == FirstState(|job.blocks|, nruns) && start == FirstTreeOf(job) && emitted == 0
      modifies current, entry, prefetcher
      ensures Invariant()
    {
      FirstStarted(job);
      FirstStateValid(|job.blocks|, nruns, size);
      Build();
    }

    /** Fills the tree for the first time. */
    method Build()
      requires Setup() && prefetcher.Valid() && prefetcher.nextconsume == 0 && prefetcher.returned == {}
      requires nruns <= |job.blocks| && st == FirstState(|job.blocks|, nruns) && Valid(|job.blocks|, size, st)
      modifies current, entry, prefetcher
      ensures Linked() && entry[..] == FirstEntries(k, Keys(job, st))
    {
      PullFirst();
      MakeInf();
      LinkedShows();
      InitFirst(k, Keys(job, st), entry[..]);
      var w := InitWinner(1, Keys(job, st));
      entry[0] := w;
    }

    /** Gives the first blocks to the cursors of the runs. */
    method PullFirst()
      requires Setup() && prefetcher.Valid() && prefetcher.nextconsume == 0 && prefetcher.returned == {}
      requires nruns <= |job.blocks|
      modifies current, entry, prefetcher
      ensures prefetcher.Valid() && prefetcher.nextconsume == nruns
      ensures forall l :: 0 <= l < nruns ==> current[l].pos == 0 && prefetcher.Holds(current[l].buffer, l)
      ensures forall x :: k <= x < k + nruns ==> entry[x] == x - k
    {
      var i := 0;
      while i < nruns
        invariant 0 <= i <= nruns && prefetcher.Valid() && prefetcher.nextconsume == i && prefetcher.returned == {} && Pulled(i)
      {
        PullNext(i);
        i := i + 1;
      }
    }

    /** The first `i` cursors have their blocks. */
    ghost predicate Pulled(i: nat)
      reads current, entry, prefetcher
    {
      && i <= nruns && nruns <= current.Length && k + nruns <= entry.Length
      && (forall l :: 0 <= l < i ==> current[l].pos == 0 && prefetcher.Holds(current[l].buffer, l))
      && (forall x :: k <= x < k + i ==> entry[x] == x - k)
    }

    method PullNext(i: nat)
      requires Setup() && prefetcher.Valid() && prefetcher.nextconsume == i < nruns <= |job.blocks| && prefetcher.returned == {} && Pulled(i)
      modifies current, entry, prefetcher`nextconsume
      ensures prefetcher.Valid() && prefetcher.nextconsume == i + 1 && Pulled(i + 1)
    {
      var buffer := prefetcher.PullBlock();
      current[i] := RunCursor(0, buffer);
      entry[k + i] := i;
    }

    /** The leaves beyond the runs become infinite. */
    method MakeInf()
      requires Setup()
      modifies current, entry
      ensures forall l :: 0 <= l < nruns ==> current[l] == old(current[l])
      ensures forall l :: nruns <= l < k ==> current[l].pos == size
      ensures forall x :: k <= x < k + nruns ==> entry[x] == old(entry[x])
      ensures forall x :: k + nruns <= x < 2 * k ==> entry[x] == x - k
    {
      var i := nruns;
      while i < k
        invariant nruns <= i <= k
        invariant forall l :: 0 <= l < nruns ==> current[l] == old(current[l])
        invariant forall l :: nruns <= l < i ==> current[l].pos == size
        invariant forall x :: k <= x < k + nruns ==> entry[x] == old(entry[x])
        invariant forall x :: k + nruns <= x < k + i ==> entry[x] == x - k
      {
        current[i] := current[i].(pos := size);
        entry[k + i] := i;
        i := i + 1;
      }
    }

    /** Plays the subtree of `root`, leaving the losers in its nodes. */
    method InitWinner(root: nat, ghost v: seq<Key>) returns (w: nat)
      requires Shows(v) && |v| == k && entry.Length == 2 * k && 1 <= root < 2 * k
      modifies entry
      ensures (entry[..], w) == Init(k, v, root, old(entry[..]))
      decreases 2 * k - root
    {
      if root >= k {
        return root - k;
      }
      var left := InitWinner(2 * root, v);
      var right := InitWinner(2 * root + 1, v);
      if CursorLess(current[left], current[right]) {
        entry[root] := right;
        w := left;
      } else {
        entry[root] := left;
        w := right;
      }
    }

    ghost predicate Setup() {
      && job.Sized() && job.size == size && job.key == key && job.logK == logK && job.K() == k && job.nruns == nruns
      && job.blocks == prefetcher.consume && prefetcher.hold == nruns
      && current.Length == k && entry.Length == 2 * k
    }

    /** The cursors show the state `st`. */
    ghost predicate Linked()
      reads this`st, prefetcher, current
    {
      && Setup() && prefetcher.Valid()
      && Valid(|job.blocks|, size, st) && |st.cursors| == nruns && st.next == prefetcher.nextconsume
      && (forall i :: 0 <= i < nruns ==>
            && current[i].pos == st.cursors[i].pos
            && (current[i].pos < size ==> prefetcher.Holds(current[i].buffer, st.cursors[i].block)))
      && (forall i :: nruns <= i < k ==> current[i].pos == size)
    }

    ghost predicate Entries()
      reads entry
    {
      entry.Length == 2 * k && forall x :: 0 <= x < entry.Length ==> entry[x] < k
    }

    ghost predicate Invariant()
      reads this`st, this`emitted, prefetcher, current, entry
    {
      && Linked() && Entries()
      && Begun(job, start) && TreeAt(job, start, emitted, Tree(entry[..], st))
    }

    // ----- run_cursor2

    predicate Empty(c: RunCursor) {
      c.pos >= size
    }

    ghost predicate InBounds(c: RunCursor)
      reads prefetcher`readBuffers
    {
      c.pos < size ==> c.buffer < |prefetcher.readBuffers| && c.pos < |prefetcher.readBuffers[c.buffer]|
    }

    function Elem(c: RunCursor): T
      requires !Empty(c) && InBounds(c)
      reads prefetcher`readBuffers
    {
      prefetcher.readBuffers[c.buffer][c.pos]
    }

    ghost function KeyNow(c: RunCursor): Key
      requires InBounds(c)
      reads prefetcher`readBuffers
    {
      if Empty(c) then Inf else Fin(key(Elem(c)))
    }

    /** The leaves show the keys `v`. */
    ghost predicate Shows(v: seq<Key>)
      reads prefetcher`readBuffers, current
    {
      |v| == current.Length && forall a :: 0 <= a < |v| ==> InBounds(current[a]) && KeyNow(current[a]) == v[a]
    }

    /** `run_cursor2_cmp` on two cursors of the tree. */
    predicate CursorLess(a: RunCursor, b: RunCursor)
      requires InBounds(a) && InBounds(b)
      reads prefetcher`readBuffers
      ensures CursorLess(a, b) <==> Beats(KeyNow(a), KeyNow(b))
    {
      if Empty(b) then true
      else if Empty(a) then false
      else key(Elem(a)) < key(Elem(b))
    }

    lemma LinkedElem(i: nat)
      requires Linked() && i < nruns && !Empty(current[i])
      ensures InBounds(current[i]) && Active(st, size, i) && Elem(current[i]) == Current(job.blocks, st, size, i)
    {
      assert prefetcher.Holds(current[i].buffer, st.cursors[i].block);
    }

    lemma LinkedShows()
      requires Linked()
      ensures Shows(Keys(job, st))
    {
      forall a | 0 <= a < k ensures InBounds(current[a]) && KeyNow(current[a]) == KeyAt(job, st, a) {
        if a < nruns && !Empty(current[a]) { LinkedElem(a); }
      }
    }

    /** The winner's cursor moves on; an exhausted buffer is exchanged for the next block. */
    method Advance(w: nat)
      requires Linked() && Active(st, size, w)
      modifies current, prefetcher, this`st
      ensures Linked() && st == Step(|job.blocks|, size, old(st), w)
    {
      StepValid(|job.blocks|, size, st, w);
      var c := current[w].(pos := current[w].pos + 1);
      if c.pos >= size {
        Exchange(w, c);
      } else {
        current[w] := c;
        st := Step(|job.blocks|, size, st, w);
      }
    }

    /** The block of the cursor is consumed. */
    method Exchange(w: nat, c: RunCursor)
      requires Linked() && Active(st, size, w) && Valid(|job.blocks|, size, Step(|job.blocks|, size, st, w))
      requires c == current[w].(pos := current[w].pos + 1) && c.pos >= size
      modifies current, prefetcher, this`st
      ensures Linked() && st == Step(|job.blocks|, size, old(st), w)
    {
      ghost var b := st.cursors[w].block;
      var more, next := prefetcher.BlockConsumed(c.buffer, b);
      assert forall i :: 0 <= i < nruns && i != w && current[i].pos < size ==> prefetcher.Holds(current[i].buffer, st.cursors[i].block);
      current[w] := if more then RunCursor(0, next) else c;
      st := Step(|job.blocks|, size, st, w);
    }

    // ----- replaying

    /** The entry at node `i` takes over if it beats the winner. */
    method Contest(i: nat, w0: nat, ghost v: seq<Key>) returns (w: nat)
      requires Shows(v) && |v| == k && Entries() && i < entry.Length && w0 < k
      modifies entry
      ensures Entries() && w < k && (entry[..], w) == Duel(old(entry[..]), v, i, w0)
    {
      w := w0;
      if CursorLess(current[entry[i]], current[w]) {
        w := entry[i];
        entry[i] := w0;
      }
    }

    /** The loop of `multi_merge_k`. */
    method ReplayK(w0: nat, ghost v: seq<Key>) returns (w: nat)
      requires Shows(v) && |v| == k && Entries() && w0 < k
      modifies entry
      ensures Entries() && w < k && (entry[..], w) == Replay(old(entry[..]), v, (k + w0) / 2, w0)
    {
      w := w0;
      var i := (w0 + k) / 2;
      while i > 0
        invariant 0 <= i < entry.Length && w < k && Entries()
        invariant Replay(old(entry[..]), v, (k + w0) / 2, w0) == Replay(entry[..], v, i, w)
      {
        w := Contest(i, w, v);
        i := i / 2;
      }
    }

    method ContestAt(s: nat, w0: nat, ghost v: seq<Key>) returns (w: nat)
      requires Shows(v) && |v| == k == Pow2(logK) && Entries() && w0 < k && 1 <= s <= logK
      modifies entry
      ensures Entries() && w < k && UnrolledReplay(old(entry[..]), v, logK, s, w0) == UnrolledReplay(entry[..], v, logK, s + 1, w)
    {
      ghost var e := entry[..];
      w := Contest(Up(w0 + k, s), w0, v);
      UnrolledOnce(e, v, logK, s, w0, entry[..], w);
    }

    /** The unrolled form: every index is computed afresh from the current winner. */
    method ReplayUnrolled(w0: nat, ghost v: seq<Key>) returns (w: nat)
      requires Shows(v) && |v| == k == Pow2(logK) && Entries() && w0 < k
      modifies entry
      ensures Entries() && w < k && (entry[..], w) == UnrolledReplay(old(entry[..]), v, logK, 1, w0)
    {
      w := w0;
      var s := 1;
      while s <= logK
        invariant 1 <= s <= logK + 1 && w < k && Entries()
        invariant UnrolledReplay(old(entry[..]), v, logK, 1, w0) == UnrolledReplay(entry[..], v, logK, s, w)
      {
        w := ContestAt(s, w, v);
        s := s + 1;
      }
    }

    /** `multi_merge` picks the unrolled form up to height 10. */
    method Reseat(w0: nat, ghost v: seq<Key>) returns (w: nat)
      requires Shows(v) && |v| == k == Pow2(logK) && Entries() && w0 < k
      requires ReplaysAgree(logK, entry[..], v, w0)
      modifies entry
      ensures Entries() && w < k
      ensures entry[..][0 := w] == Reseated(old(entry[..]), v, w0)
    {
      ghost var e := entry[..];
      if logK <= 10 {
        w := ReplayUnrolled(w0, v);
        ReseatedUnrolled(logK, e, v, w0, entry[..], w);
      } else {
        w := ReplayK(w0, v);
        ReseatedFrom(e, v, w0, entry[..], w);
      }
    }

    // ----- multi_merge

    /** One turn of the merge loop, with the winner kept in a local variable. */
    method Turn(winner: nat, ghost out: seq<T>) returns (x: T, w: nat)
      requires Linked() && Entries() && InTurn(job, start, emitted, entry[..], winner, st) && OutputAt(job, start, emitted, out)
      modifies current, prefetcher, entry, this`st, this`emitted
      ensures Linked() && Entries() && w < k && emitted == old(emitted) + 1
      ensures TreeAt(job, start, emitted, Tree(entry[..][0 := w], st)) && OutputAt(job, start, emitted, out + [x])
    {
      ghost var e, st0, n := entry[..], st, emitted;
      x := TakeTop(winner);
      w := ReseatNow(winner);
      emitted := emitted + 1;
      TurnDone(job, start, n, emitted, e, winner, st0, Tree(entry[..][0 := w], st), out);
    }

    /** The element of the winner; both replays of the winner agree then. */
    method TakeTop(winner: nat) returns (x: T)
      requires Linked() && Entries() && InTurn(job, start, emitted, entry[..], winner, st)
      modifies current, prefetcher, this`st
      ensures Linked() && Entries() && winner < k && Active(old(st), size, winner)
      ensures st == Step(|job.blocks|, size, old(st), winner) && x == Current(job.blocks, old(st), size, winner)
      ensures ReplaysAgree(logK, entry[..], Keys(job, st), winner)
    {
      BeforeTurn(job, start, emitted, entry[..], winner, st);
      x := Pop(winner);
    }

    method ReseatNow(w0: nat) returns (w: nat)
      requires Linked() && Entries() && w0 < k && ReplaysAgree(logK, entry[..], Keys(job, st), w0)
      modifies entry
      ensures Linked() && Entries() && w < k && entry[..][0 := w] == Reseated(old(entry[..]), Keys(job, st), w0)
    {
      LinkedShows();
      w := Reseat(w0, Keys(job, st));
    }

    method Pop(winner: nat) returns (x: T)
      requires Linked() && Active(st, size, winner)
      modifies current, prefetcher, this`st
      ensures Linked() && st == Step(|job.blocks|, size, old(st), winner) && x == Current(job.blocks, old(st), size, winner)
    {
      LinkedElem(winner);
      x := Elem(current[winner]);
      Advance(winner);
    }

    /** Between two turns: the winner is in a variable, `out` has come after `base`. */
    ghost predicate Merging(winner: nat, base: seq<T>, out: seq<T>)
      reads this`st, this`emitted, prefetcher, current, entry
    {
      && Linked() && Entries() && Begun(job, start) && winner < k
      && TreeAt(job, start, emitted, Tree(entry[..][0 := winner], st)) && OutputAt(job, start, emitted, base + out)
    }

    method Append(winner: nat, out: seq<T>, ghost base: seq<T>) returns (out': seq<T>, w: nat)
      requires Merging(winner, base, out) && emitted < |Concat(job.blocks)|
      modifies current, prefetcher, entry, this`st, this`emitted
      ensures Merging(w, base, out') && emitted == old(emitted) + 1 && |out'| == |out| + 1
    {
      var x;
      x, w := Turn(winner, base + out);
      out' := out + [x];
      assert base + out' == base + out + [x];
    }

    /** The next `count` elements of the merge, a block of output. */
    method MultiMerge(count: nat) returns (out: seq<T>)
      requires Invariant() && emitted + count <= |Concat(job.blocks)|
      modifies current, prefetcher, entry, this`st, this`emitted
      ensures Invariant() && emitted == old(emitted) + count && |out| == count
      ensures Output(job, start, emitted) == Output(job, start, old(emitted)) + out
    {
      ghost var base := Output(job, start, emitted);
      var winner: nat := entry[0];
      out := [];
      assert entry[..][0 := winner] == entry[..] && base + out == base;
      while |out| < count
        invariant |out| <= count && emitted == old(emitted) + |out|
        invariant Merging(winner, base, out)
      {
        out, winner := Append(winner, out, base);
      }
      entry[0] := winner;
      assert Same(emitted, emitted);
    }
  }
}
