/** The merge as a function: one emission of the loser tree, any number of emissions, and the proof
    that the elements come out in order.
 */
module MergeTree {
  import opened Closed
  import opened Powers
  import opened Tournament
  import opened MergeOrder

  /** A merge job: the blocks in consumption order, their runs, the block size, the sort key, the
      number of runs and the height of the tree. */
  datatype Job<!T> = Job(blocks: seq<seq<T>>, owner: seq<nat>, size: nat, key: T -> int, nruns: nat, logK: nat) {
    function K(): nat { Pow2(logK) }

    ghost predicate Sized() {
      size > 0 && nruns <= K() && forall b :: 0 <= b < |blocks| ==> |blocks[b]| == size
    }
  }

  /** The state of a loser tree: its entries and its cursors. */
  datatype Tree = Tree(entry: seq<nat>, st: State)

  ghost predicate Ready<T>(j: Job<T>, m: Tree) {
    && j.Sized()
    && Valid(|j.blocks|, j.size, m.st)
    && |m.st.cursors| == j.nruns
    && |m.entry| == 2 * j.K() && forall x :: 0 <= x < |m.entry| ==> m.entry[x] < j.K()
  }

  ghost function KeyAt<T>(j: Job<T>, s: State, i: nat): Key
    requires j.Sized() && Valid(|j.blocks|, j.size, s)
  {
    if Active(s, j.size, i) then Fin(j.key(Current(j.blocks, s, j.size, i))) else Inf
  }

  /** What the leaves show; leaves without a cursor show infinity. */
  ghost function Keys<T>(j: Job<T>, s: State): (v: seq<Key>)
    requires j.Sized() && Valid(|j.blocks|, j.size, s)
    ensures |v| == j.K() && forall i :: 0 <= i < |v| ==> v[i] == KeyAt(j, s, i)
  {
    seq(j.K(), i requires 0 <= i < j.K() => KeyAt(j, s, i))
  }

  // ----- the start

  /** Each run's cursor at the start of one of the first blocks. */
  ghost function FirstState(n: nat, nruns: nat): (s: State)
    requires nruns <= n
    ensures |s.cursors| == nruns && s.next == nruns && |s.progress| == n
    ensures forall i :: 0 <= i < nruns ==> s.cursors[i] == Cursor(0, i)
    ensures forall b :: 0 <= b < n ==> s.progress[b] == 0
  {
    State(seq(nruns, i requires 0 <= i < nruns => Cursor(0, i)), nruns, seq(n, _ => 0))
  }

  lemma FirstStateValid(n: nat, nruns: nat, size: nat)
    requires nruns <= n && size > 0
    ensures Valid(n, size, FirstState(n, nruns))
  {
    var s := FirstState(n, nruns);
    forall b | 0 <= b < s.next
      ensures s.progress[b] == size || exists i :: 0 <= i < |s.cursors| && s.cursors[i].block == b
    {
      assert s.cursors[b].block == b;
    }
  }

  ghost function FirstTreeOf<T>(j: Job<T>): Tree
    requires j.Sized() && j.nruns <= |j.blocks|
  {
    var s := FirstState(|j.blocks|, j.nruns);
    FirstStateValid(|j.blocks|, j.nruns, j.size);
    Tree(FirstEntries(j.K(), Keys(j, s)), s)
  }

  // ----- emissions

  /** One turn of the merge loop: the winner's element is emitted, its cursor moves on, and its way
      to the root is replayed. */
  ghost function Emit<T>(j: Job<T>, m: Tree): (r: Tree)
    requires Ready(j, m)
    ensures Ready(j, r)
  {
    var w := m.entry[0];
    if !Active(m.st, j.size, w) then m
    else
      StepValid(|j.blocks|, j.size, m.st, w);
      var st := Step(|j.blocks|, j.size, m.st, w);
      Tree(Reseated(m.entry, Keys(j, st), w), st)
  }

  ghost function Shown<T>(j: Job<T>, m: Tree): seq<T>
    requires Ready(j, m)
  {
    if Active(m.st, j.size, m.entry[0]) then [Current(j.blocks, m.st, j.size, m.entry[0])] else []
  }

  ghost function After<T>(j: Job<T>, m: Tree, n: nat): (r: Tree)
    requires Ready(j, m)
    ensures Ready(j, r)
  {
    if n == 0 then m else Emit(j, After(j, m, n - 1))
  }

  ghost function Output<T>(j: Job<T>, m: Tree, n: nat): seq<T>
    requires Ready(j, m)
  {
    if n == 0 then [] else Output(j, m, n - 1) + Shown(j, After(j, m, n - 1))
  }

  // ----- the tournament stays valid and its winner is least

  /** The entries are the losers of a valid tournament, and entry 0 is its winner. */
  ghost predicate Played(k: nat, entry: seq<nat>, v: seq<Key>) {
    exists win :: TreeOk(k, entry, win, v) && win[1] == entry[0]
  }

  ghost predicate Sound<T(!new)>(j: Job<T>, m: Tree) {
    && Ready(j, m)
    && ConsumeOrder(j.blocks, j.owner, j.nruns, j.size, j.key)
    && Played(j.K(), m.entry, Keys(j, m.st))
  }

  lemma StepKeys<T>(j: Job<T>, s: State, w: nat)
    requires j.Sized() && Valid(|j.blocks|, j.size, s) && Active(s, j.size, w)
    ensures Valid(|j.blocks|, j.size, Step(|j.blocks|, j.size, s, w))
    ensures forall i :: 0 <= i < j.K() && i != w ==> Keys(j, Step(|j.blocks|, j.size, s, w))[i] == Keys(j, s)[i]
  {
    StepValid(|j.blocks|, j.size, s, w);
    var t := Step(|j.blocks|, j.size, s, w);
    forall i | 0 <= i < j.K() && i != w ensures KeyAt(j, t, i) == KeyAt(j, s, i) {
      if i < |s.cursors| { assert t.cursors[i] == s.cursors[i]; }
    }
  }

  lemma SetRoot(k: nat, entry: seq<nat>, win: seq<nat>, v: seq<Key>, w: nat)
    requires TreeOk(k, entry, win, v)
    ensures TreeOk(k, entry[0 := w], win, v)
  {
    var e := entry[0 := w];
    forall x | 1 <= x < k ensures Match(e, win, v, x) {
      assert Match(entry, win, v, x);
    }
  }

  /** Replaying the winner's way after its key changed makes the tournament valid again. */
  lemma ReplayPlayed(k: nat, entry: seq<nat>, v: seq<Key>, v': seq<Key>)
    requires k >= 1 && |v| == |v'| == k && |entry| == 2 * k && forall x :: 0 <= x < |entry| ==> entry[x] < k
    requires Played(k, entry, v)
    requires forall i :: 0 <= i < k && i != entry[0] ==> v'[i] == v[i]
    ensures Played(k, Reseated(entry, v', entry[0]), v')
  {
    var win :| TreeOk(k, entry, win, v) && win[1] == entry[0];
    var win' := ReplayWinners(k, entry, win, v, v');
    assert TreeOk(k, Reseated(entry, v', entry[0]), win', v') && win'[1] == Reseated(entry, v', entry[0])[0];
  }

  lemma ReplayWinners(k: nat, entry: seq<nat>, win: seq<nat>, v: seq<Key>, v': seq<Key>) returns (win': seq<nat>)
    requires k >= 1 && |v| == |v'| == k && |entry| == 2 * k && forall x :: 0 <= x < |entry| ==> entry[x] < k
    requires TreeOk(k, entry, win, v) && win[1] == entry[0]
    requires forall i :: 0 <= i < k && i != entry[0] ==> v'[i] == v[i]
    ensures TreeOk(k, Reseated(entry, v', entry[0]), win', v') && win'[1] == Reseated(entry, v', entry[0])[0]
  {
    var w := entry[0];
    StartClimb(k, entry, win, v, v');
    win' := ReplayTree(k, entry, win, v', k + w);
    var r := Replay(entry, v', (k + w) / 2, w);
    ReseatTree(k, entry, v', w, win', r.0, r.1);
  }

  lemma ReseatTree(k: nat, entry: seq<nat>, v: seq<Key>, w: nat, win: seq<nat>, e: seq<nat>, x: nat)
    requires k >= 1 && |v| == k && |entry| == 2 * k && w < k && forall x :: 0 <= x < |entry| ==> entry[x] < k
    requires (e, x) == Replay(entry, v, (k + w) / 2, w) && TreeOk(k, e, win, v) && win[1] == x
    ensures TreeOk(k, Reseated(entry, v, w), win, v) && win[1] == Reseated(entry, v, w)[0]
  {
    ReseatedFrom(entry, v, w, e, x);
    SetRoot(k, e, win, v, x);
  }

  lemma EmitPlayed<T>(j: Job<T>, m: Tree)
    requires Ready(j, m) && Played(j.K(), m.entry, Keys(j, m.st))
    ensures Played(j.K(), Emit(j, m).entry, Keys(j, Emit(j, m).st))
  {
    var w := m.entry[0];
    if Active(m.st, j.size, w) {
      StepKeys(j, m.st, w);
      ReplayPlayed(j.K(), m.entry, Keys(j, m.st), Keys(j, Step(|j.blocks|, j.size, m.st, w)));
    }
  }

  lemma EmitSound<T(!new)>(j: Job<T>, m: Tree)
    requires Sound(j, m)
    ensures Sound(j, Emit(j, m))
  {
    EmitPlayed(j, m);
  }

  lemma WinnerIsLeast<T(!new)>(j: Job<T>, m: Tree, a: nat)
    requires Sound(j, m) && Active(m.st, j.size, a)
    ensures Least(j.blocks, j.size, j.key, m.st, m.entry[0])
  {
    var k, v := j.K(), Keys(j, m.st);
    var win :| TreeOk(k, m.entry, win, v) && win[1] == m.entry[0];
    forall i: nat | Active(m.st, j.size, i) ensures Le(v[m.entry[0]], v[i]) {
      WinnerLeast(k, m.entry, win, v, k + i);
    }
    assert Le(v[m.entry[0]], v[a]);
  }

  /** As long as something is left, the next emission extends the sorted output. */
  lemma EmitMerging<T(!new)>(j: Job<T>, m: Tree, out: seq<T>)
    requires Sound(j, m) && j.nruns > 0 && Merging(j.blocks, j.size, j.key, m.st, out)
    requires |out| < |Concat(j.blocks)|
    ensures |Shown(j, m)| == 1
    ensures Merging(j.blocks, j.size, j.key, Emit(j, m).st, out + Shown(j, m))
  {
    var left := Left(j.blocks, m.st.progress);
    assert |multiset(out)| + |left| == |multiset(Concat(j.blocks))|;
    LeftSize(j.blocks, m.st.progress, j.size, |j.blocks|);
    var b :| 0 <= b < |j.blocks| && m.st.progress[b] < j.size;
    var a := LeftMeansActive(|j.blocks|, j.size, m.st, b);
    WinnerIsLeast(j, m, a);
    MergeStep(j.blocks, j.owner, j.size, j.key, m.st, out, m.entry[0]);
  }

  /** `Sound(j, After(j, m, n))`, phrased so that a proof that only passes it on does not look inside. */
  ghost predicate SoundAt<T(!new)>(j: Job<T>, m: Tree, n: nat)
    requires Ready(j, m)
  {
    forall x: nat :: Same(x, n) ==> Sound(j, After(j, m, x))
  }

  lemma SoundNext<T(!new)>(j: Job<T>, m: Tree, n: nat)
    requires Ready(j, m) && SoundAt(j, m, n)
    ensures SoundAt(j, m, n + 1)
  {
    assert Same(n, n);
    EmitSound(j, After(j, m, n));
    assert After(j, m, n + 1) == Emit(j, After(j, m, n));
  }

  lemma {:induction false} AlwaysSound<T(!new)>(j: Job<T>, m: Tree, n: nat)
    requires Ready(j, m) && SoundAt(j, m, 0)
    ensures SoundAt(j, m, n)
  {
    if n > 0 {
      var k: nat := n - 1;
      AlwaysSound(j, m, k);
      SoundNext(j, m, k);
      assert k + 1 == n;
    }
  }

  lemma AfterSound<T(!new)>(j: Job<T>, m: Tree, n: nat)
    requires Sound(j, m)
    ensures Sound(j, After(j, m, n))
  {
    assert After(j, m, 0) == m;
    AlwaysSound(j, m, n);
    assert Same(n, n);
  }

  /** The state before the first emission. */
  ghost predicate Started<T(!new)>(j: Job<T>, m: Tree) {
    Sound(j, m) && j.nruns > 0 && Merging(j.blocks, j.size, j.key, m.st, [])
  }

  /** `Started(j, m)`, phrased so that a proof that only passes it on does not look inside. */
  ghost predicate Begun<T(!new)>(j: Job<T>, m: Tree) {
    Ready(j, m) && forall t :: Same(t, m) ==> Started(j, t)
  }

  lemma OpenStart<T(!new)>(j: Job<T>, m: Tree)
    requires Begun(j, m)
    ensures Started(j, m)
  {
    assert Same(m, m);
  }

  ghost predicate Progressed<T(!new)>(j: Job<T>, m: Tree, n: nat)
    requires Ready(j, m)
  {
    |Output(j, m, n)| == n && Merging(j.blocks, j.size, j.key, After(j, m, n).st, Output(j, m, n))
  }

  /** `Progressed(j, m, n)`, likewise. */
  ghost predicate Reached<T(!new)>(j: Job<T>, m: Tree, n: nat)
    requires Ready(j, m)
  {
    forall x: nat :: Same(x, n) ==> Progressed(j, m, x)
  }

  lemma EmitProgressed<T(!new)>(j: Job<T>, m: Tree, n: nat)
    requires Started(j, m) && Progressed(j, m, n) && n < |Concat(j.blocks)|
    ensures Progressed(j, m, n + 1)
  {
    AfterSound(j, m, n);
    var m', o := After(j, m, n), Output(j, m, n);
    EmitMerging(j, m', o);
    assert After(j, m, n + 1) == Emit(j, m');
    assert Output(j, m, n + 1) == o + Shown(j, m');
  }

  lemma ReachedNext<T(!new)>(j: Job<T>, m: Tree, n: nat)
    requires Begun(j, m) && n < |Concat(j.blocks)| && Reached(j, m, n)
    ensures Reached(j, m, n + 1)
  {
    OpenStart(j, m);
    assert Same(n, n);
    EmitProgressed(j, m, n);
  }

  lemma FirstStarted<T(!new)>(j: Job<T>)
    requires j.Sized() && 1 <= j.nruns <= |j.blocks| && ConsumeOrder(j.blocks, j.owner, j.nruns, j.size, j.key)
    ensures Started(j, FirstTreeOf(j))
  {
    var m := FirstTreeOf(j);
    FirstStateValid(|j.blocks|, j.nruns, j.size);
    FirstTree(j.K(), m.entry, Keys(j, m.st));
    assert TreeOk(j.K(), m.entry, Winners(j.K(), Keys(j, m.st)), Keys(j, m.st));
    LeftAll(j.blocks, m.st.progress, |j.blocks|);
  }

  /** An emission when the entries are given with another value at the root. */
  lemma EmitWithoutRoot<T>(j: Job<T>, m: Tree, e: seq<nat>, w: nat)
    requires Ready(j, m) && |e| == 2 * j.K() && e[0] < j.K() && m.entry == e[0 := w] && Active(m.st, j.size, w)
    ensures Valid(|j.blocks|, j.size, Step(|j.blocks|, j.size, m.st, w))
    ensures forall x :: 0 <= x < |e| ==> e[x] < j.K()
    ensures Emit(j, m) == Tree(Reseated(e, Keys(j, Step(|j.blocks|, j.size, m.st, w)), w), Step(|j.blocks|, j.size, m.st, w))
  {
    StepValid(|j.blocks|, j.size, m.st, w);
    forall x | 0 < x < |e| ensures e[x] < j.K() { assert e[x] == m.entry[x]; }
    ReseatIgnoresRoot(e, Keys(j, Step(|j.blocks|, j.size, m.st, w)), w, w);
  }

  /** In every state of a run, unrolled and plain replay do the same. */
  lemma SameReplay<T(!new)>(j: Job<T>, m: Tree, n: nat, e: seq<nat>, w: nat, st: State)
    requires Begun(j, m) && n < |Concat(j.blocks)|
    requires |e| == 2 * j.K() && w < j.K() && Tree(e[0 := w], st) == After(j, m, n)
    requires forall x :: 0 <= x < |e| ==> e[x] < j.K()
    ensures Active(st, j.size, w) && Valid(|j.blocks|, j.size, st) && j.Sized()
    ensures Valid(|j.blocks|, j.size, Step(|j.blocks|, j.size, st, w))
    ensures ReplaysAgree(j.logK, e, Keys(j, Step(|j.blocks|, j.size, st, w)), w)
  {
    WinnerActive(j, m, n);
    OpenStart(j, m);
    AfterSound(j, m, n);
    StepKeys(j, st, w);
    SameReplayFrom(j.logK, e, w, Keys(j, st), Keys(j, Step(|j.blocks|, j.size, st, w)));
  }

  lemma SameReplayFrom(n: nat, e: seq<nat>, w: nat, v: seq<Key>, v': seq<Key>)
    requires |e| == 2 * Pow2(n) && w < Pow2(n) && Played(Pow2(n), e[0 := w], v)
    requires |v'| == |v| == Pow2(n) && forall i :: 0 <= i < |v| && i != w ==> v'[i] == v[i]
    requires forall x :: 0 <= x < |e| ==> e[x] < |v|
    ensures ReplaysAgree(n, e, v', w)
  {
    var win := ClimbFrom(Pow2(n), e, w, v, v');
    ClimbingAgree(n, e, win, v', w);
  }

  lemma ClimbFrom(k: nat, e: seq<nat>, w: nat, v: seq<Key>, v': seq<Key>) returns (win: seq<nat>)
    requires k >= 1 && |e| == 2 * k && w < k && Played(k, e[0 := w], v)
    requires |v'| == |v| == k && forall i :: 0 <= i < k && i != w ==> v'[i] == v[i]
    ensures Climbing(k, e, win, v', k + w) && win[k + w] == w
  {
    win :| TreeOk(k, e[0 := w], win, v) && win[1] == e[0 := w][0];
    SetRoot(k, e[0 := w], win, v, e[0]);
    assert e[0 := w][0 := e[0]] == e;
    StartClimb(k, e, win, v, v');
  }

  lemma {:induction false} AlwaysReached<T(!new)>(j: Job<T>, m: Tree, n: nat)
    requires Begun(j, m) && n <= |Concat(j.blocks)|
    ensures Reached(j, m, n)
    decreases n
  {
    if n == 0 {
      OpenStart(j, m);
      assert Progressed(j, m, 0);
    } else {
      AlwaysReached(j, m, n - 1);
      ReachedNext(j, m, n - 1);
    }
  }

  /** After any number of emissions the output is sorted and the rest is still to come. */
  lemma OutputMerging<T(!new)>(j: Job<T>, m: Tree, n: nat)
    requires Begun(j, m) && n <= |Concat(j.blocks)|
    ensures Progressed(j, m, n)
  {
    AlwaysReached(j, m, n);
    assert Same(n, n);
  }

  /** The winner shows an element as long as any is left. */
  lemma WinnerActive<T(!new)>(j: Job<T>, m: Tree, n: nat)
    requires Begun(j, m) && n < |Concat(j.blocks)|
    ensures Active(After(j, m, n).st, j.size, After(j, m, n).entry[0])
  {
    OutputMerging(j, m, n);
    OpenStart(j, m);
    AfterSound(j, m, n);
    EmitMerging(j, After(j, m, n), Output(j, m, n));
  }

  /** `After(j, m, n) == t`, likewise. */
  ghost predicate TreeAt<T>(j: Job<T>, m: Tree, n: nat, t: Tree)
    requires Ready(j, m)
  {
    forall x: nat :: Same(x, n) ==> After(j, m, x) == t
  }

  /** `Output(j, m, n) == out`, likewise. */
  ghost predicate OutputAt<T>(j: Job<T>, m: Tree, n: nat, out: seq<T>)
    requires Ready(j, m)
  {
    forall x: nat :: Same(x, n) ==> Output(j, m, x) == out
  }

  /** One turn of the merge loop, with the winner `w` kept beside the entries `e`. */
  ghost predicate InTurn<T(!new)>(j: Job<T>, m: Tree, n: nat, e: seq<nat>, w: nat, st: State) {
    && Begun(j, m) && n < |Concat(j.blocks)|
    && |e| == 2 * j.K() && w < j.K() && (forall x :: 0 <= x < |e| ==> e[x] < j.K())
    && TreeAt(j, m, n, Tree(e[0 := w], st))
  }

  lemma BeforeTurn<T(!new)>(j: Job<T>, m: Tree, n: nat, e: seq<nat>, w: nat, st: State)
    requires InTurn(j, m, n, e, w, st)
    ensures Active(st, j.size, w) && Valid(|j.blocks|, j.size, st) && j.Sized()
    ensures Valid(|j.blocks|, j.size, Step(|j.blocks|, j.size, st, w))
    ensures ReplaysAgree(j.logK, e, Keys(j, Step(|j.blocks|, j.size, st, w)), w)
  {
    assert Same(n, n);
    SameReplay(j, m, n, e, w, st);
  }

  lemma TurnDone<T(!new)>(j: Job<T>, m: Tree, n: nat, n': nat, e: seq<nat>, w: nat, st: State, t: Tree, out: seq<T>)
    requires InTurn(j, m, n, e, w, st) && OutputAt(j, m, n, out) && n' == n + 1
    requires Active(st, j.size, w) && Valid(|j.blocks|, j.size, st) && t.st == Step(|j.blocks|, j.size, st, w)
    requires Valid(|j.blocks|, j.size, t.st) && t.entry == Reseated(e, Keys(j, t.st), w)
    ensures TreeAt(j, m, n', t)
    ensures OutputAt(j, m, n', out + [Current(j.blocks, st, j.size, w)])
  {
    assert Same(n, n);
    EmitWithoutRoot(j, After(j, m, n), e, w);
    assert After(j, m, n + 1) == Emit(j, After(j, m, n));
    assert Output(j, m, n + 1) == Output(j, m, n) + Shown(j, After(j, m, n));
  }

  /** Emitting everything gives a sorted permutation. */
  lemma AllEmitted<T(!new)>(j: Job<T>, s: State, out: seq<T>)
    requires Merging(j.blocks, j.size, j.key, s, out) && |out| == |Concat(j.blocks)|
    ensures SortedOut(out, j.key) && multiset(out) == multiset(Concat(j.blocks))
  {
    assert |multiset(out)| + |Left(j.blocks, s.progress)| == |multiset(Concat(j.blocks))|;
    assert Left(j.blocks, s.progress) == multiset{};
  }
}
