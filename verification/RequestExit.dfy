/** The disk queue over whole runs: which requests are added and cancelled, and what the worker leaves behind when it exits. */
module RequestExit {
  import opened Options
  import opened RequestQueue

  // ----- adding and cancelling

  /** The last call of the thread. */
  ghost function LastCall(events: seq<Event>, thread: nat): Option<Event> {
    if events == [] then None
    else
      var n := |events| - 1;
      if (events[n].AddCheck? || events[n].CancelCheck?) && events[n].thread == thread then Some(events[n]) else LastCall(events[..n], thread)
  }

  /** The caller works on the request of its last call. */
  ghost predicate CallersFit(s: State, events: seq<Event>) {
    forall t :: t in s.callers ==>
      && (s.callers[t].Adding? ==> LastCall(events, t) == Some(AddCheck(t, s.callers[t].what)))
      && (s.callers[t].Cancelling? ==> LastCall(events, t) == Some(CancelCheck(t, s.callers[t].what)))
  }

  lemma LastCallNext(events: seq<Event>, e: Event, t: nat)
    ensures LastCall(events + [e], t) == if (e.AddCheck? || e.CancelCheck?) && e.thread == t then Some(e) else LastCall(events, t)
  {
    assert (events + [e])[..|events|] == events;
  }

  lemma CallersFitNext(s: State, events: seq<Event>, e: Event)
    requires CallersFit(s, events) && Next(s, e).Some?
    ensures CallersFit(Next(s, e).value, events + [e])
  {
    var s' := Next(s, e).value;
    forall t | t in s'.callers && (s'.callers[t].Adding? || s'.callers[t].Cancelling?)
      ensures LastCall(events + [e], t) == Some(if s'.callers[t].Adding? then AddCheck(t, s'.callers[t].what) else CancelCheck(t, s'.callers[t].what))
    {
      LastCallNext(events, e, t);
    }
  }

  /** Over all runs, a thread adds or cancels the request for which it called last. */
  lemma {:induction false} CallersAsked(events: seq<Event>)
    requires Run(INITIAL, events).Some?
    ensures CallersFit(Run(INITIAL, events).value, events)
    decreases |events|
  {
    if events == [] {
    } else {
      var n := |events| - 1;
      assert events == events[..n] + [events[n]];
      RunOneMore(INITIAL, events[..n], events[n]);
      CallersAsked(events[..n]);
      CallersFitNext(Run(INITIAL, events[..n]).value, events[..n], events[n]);
    }
  }

  /** A submission is that of the thread that pushes, and goes to the end of its queue. */
  lemma AddsTheRequest(s: State, e: Event)
    requires Next(s, e).Some? && Next(s, e).value.added != s.added
    ensures e.AddPush? && e.thread in s.callers && s.callers[e.thread].Adding?
    ensures
      var s', what := Next(s, e).value, s.callers[e.thread].what;
      && s'.added == s.added + [what]
      && Queue(s', what.kind) == Queue(s, what.kind) + [|s.added|]
      && (forall kind :: kind != what.kind ==> Queue(s', kind) == Queue(s, kind))
  {
  }

  /** A cancel takes out the request of the thread that cancels, the earliest one if it was submitted more than once, and no
      other.
   */
  lemma CancelsTheRequest(s: State, e: Event) returns (x: nat)
    requires Reachable(s) && Next(s, e).Some? && Next(s, e).value.cancelled != s.cancelled
    ensures e.CancelErase? && e.thread in s.callers && s.callers[e.thread].Cancelling?
    ensures
      var s', what := Next(s, e).value, s.callers[e.thread].what;
      && s'.cancelled == s.cancelled + [x] && x in Queue(s, what.kind) && x < |s.added| && s.added[x] == what
      && (forall y :: y in Queue(s, what.kind) && y < |s.added| && s.added[y] == what ==> x <= y)
      && (forall kind, y :: y in Queue(s', kind) <==> y in Queue(s, kind) && y != x)
  {
    ReachableInv(s);
    CancelledByErase(s, e);
    EraseLogged(s, e.thread);
    x := Erases(s, e.thread);
  }

  lemma CancelledByErase(s: State, e: Event)
    requires Next(s, e).Some? && Next(s, e).value.cancelled != s.cancelled
    ensures e.CancelErase? && e.thread in s.callers && s.callers[e.thread].Cancelling? && Found(s, s.callers[e.thread].what)
  {
  }

  /** What is left of the queues after an erase. */
  lemma Erases(s: State, t: nat) returns (x: nat)
    requires InOrder(s) && CancelStep(s, CancelErase(t)).Some? && Found(s, s.callers[t].what)
    ensures
      var s', what := CancelStep(s, CancelErase(t)).value, s.callers[t].what;
      && x == Queue(s, what.kind)[Place(s, what)]
      && (forall y :: y in Queue(s, what.kind) && y < |s.added| && s.added[y] == what ==> x <= y)
      && (forall kind, y :: y in Queue(s', kind) <==> y in Queue(s, kind) && y != x)
  {
    var what := s.callers[t].what;
    var q, i := Queue(s, what.kind), Place(s, what);
    x := q[i];
    FirstOfQueue(s.added, s.served, q, what);
    ErasedMembers(q, i);
    OtherQueue(s, what.kind, x);
  }

  lemma FirstOfQueue(added: seq<Submission>, served: seq<nat>, q: seq<nat>, what: Submission)
    requires QueueInOrder(added, served, q, what.kind) && Find(added, q, what) < |q|
    ensures forall y :: y in q && y < |added| && added[y] == what ==> q[Find(added, q, what)] <= y
  {
    forall y | y in q && y < |added| && added[y] == what ensures q[Find(added, q, what)] <= y {
      var j :| 0 <= j < |q| && q[j] == y;
    }
  }

  lemma ErasedMembers(q: seq<nat>, i: nat)
    requires Increasing(q) && i < |q|
    ensures forall y :: y in q[..i] + q[i + 1..] <==> y in q && y != q[i]
  {
    forall y | y in q && y != q[i] ensures y in q[..i] + q[i + 1..] {
      var j :| 0 <= j < |q| && q[j] == y;
      assert y in (if j < i then q[..i] else q[i + 1..]);
    }
  }

  lemma OtherQueue(s: State, kind: Kind, x: nat)
    requires InOrder(s) && x in Queue(s, kind)
    ensures forall other :: other != kind ==> x !in Queue(s, other)
  {
    assert IsKind(s.added, x, kind);
  }

  /** `cancel_request` says that the request was still queued if and only if it was, and then it is cancelled. */
  lemma AnswersTruly(s: State, t: nat)
    requires Reachable(s) && Next(s, CancelErase(t)).Some?
    ensures
      var s', what := Next(s, CancelErase(t)).value, s.callers[t].what;
      var queued := exists x :: x in Queue(s, what.kind) && x < |s.added| && s.added[x] == what;
      && s'.answers == s.answers + [Answer(what, queued)]
      && (queued <==> s'.cancelled != s.cancelled)
  {
    ReachableInv(s);
    EraseLogged(s, t);
    var what := s.callers[t].what;
    var q := Queue(s, what.kind);
    if Found(s, what) {
      assert q[Place(s, what)] in q;
    } else {
      forall x | x in q && x < |s.added| ensures s.added[x] != what {
        var j :| 0 <= j < |q| && q[j] == x;
      }
    }
  }

  /** Over all interleavings, the cancelled requests are exactly those for which `cancel_request` has answered true. */
  lemma CancelledAsAnswered(s: State)
    requires Reachable(s)
    ensures (forall i :: 0 <= i < |s.cancelled| ==> s.cancelled[i] < |s.added|) && Granted(s.answers) == Named(s.added, s.cancelled)
  {
    ReachableInv(s);
  }

  /** The worker serves what it popped. */
  lemma ServesThePopped(s: State)
    requires Reachable(s) && s.worker.Serving?
    ensures s.served != [] && s.worker.ticket == s.served[|s.served| - 1]
  {
    ReachableInv(s);
  }

  // ----- the exit of the worker

  /** The event with which the worker makes its exit certain. */
  ghost predicate Exits(s: State, e: Event) {
    e == WorkerTest && Next(s, e).Some? && Next(s, e).value.worker == Testing(0)
  }

  /** If the worker exits while nobody is inside of an operation, both queues are empty if and only if the stop token was
      posted before; otherwise exactly one request is left behind.
   */
  lemma ExitLeaves(s: State)
    requires Reachable(s) && s.callers == map[] && Exits(s, WorkerTest)
    ensures |s.readQueue| + |s.writeQueue| == if s.stopPosted then 0 else 1
  {
    ReachableInv(s);
    assert Threads(s, true) == {} && Threads(s, false) == {};
  }

  /** A stopped queue stays empty. */
  ghost predicate Closed(s: State) {
    s.callers == map[] && s.threadState != Running && s.readQueue == [] && s.writeQueue == []
  }

  lemma {:induction false} ClosedForever(s: State, events: seq<Event>)
    requires Closed(s) && Run(s, events).Some?
    ensures Closed(Run(s, events).value) && Run(s, events).value.added == s.added
    decreases |events|
  {
    if events == [] {
    } else {
      ClosedStep(s, events[0]);
      ClosedForever(Next(s, events[0]).value, events[1..]);
    }
  }

  lemma ClosedStep(s: State, e: Event)
    requires Closed(s) && Next(s, e).Some?
    ensures Closed(Next(s, e).value) && Next(s, e).value.added == s.added
  {
  }

  /** The exit of a run: the event with which the worker made it certain. */
  ghost predicate IsExit(events: seq<Event>, i: nat) {
    i < |events| && Run(INITIAL, events[..i]).Some? && Exits(Run(INITIAL, events[..i]).value, events[i])
  }

  lemma ExitStays(events: seq<Event>, e: Event, i: nat)
    requires IsExit(events, i)
    ensures IsExit(events + [e], i)
  {
    assert (events + [e])[..i] == events[..i];
  }

  /** Only the exit brings the worker to the end of its loop. */
  lemma ExitStep(s: State, e: Event)
    requires Next(s, e).Some? && Next(s, e).value.worker in {Testing(0), Leaving} && s.worker !in {Testing(0), Leaving}
    ensures Exits(s, e)
  {
  }

  /** Over all runs, a worker that has left the loop, or ended, has made its exit before, when it took the last token. */
  lemma {:induction false} LeftThroughExit(events: seq<Event>)
    requires Run(INITIAL, events).Some? && Run(INITIAL, events).value.worker in {Testing(0), Leaving}
    ensures exists i :: IsExit(events, i)
    decreases |events|
  {
    if events == [] {
    } else {
      var n := |events| - 1;
      var first, e := events[..n], events[n];
      assert events == first + [e];
      RunOneMore(INITIAL, first, e);
      var s := Run(INITIAL, first).value;
      if s.worker in {Testing(0), Leaving} {
        LeftThroughExit(first);
        var i :| IsExit(first, i);
        ExitStays(first, e, i);
      } else {
        ExitStep(s, e);
        assert IsExit(events, n);
      }
    }
  }

  /** From its exit on the worker can do nothing but leave. */
  lemma {:induction false} NothingButLeave(s: State, events: seq<Event>)
    requires s.worker in {Testing(0), Leaving} && Run(s, events).Some?
    ensures Run(s, events).value.worker in {Testing(0), Leaving} && (s.worker == Leaving ==> Run(s, events).value.worker == Leaving)
    decreases |events|
  {
    if events == [] {
    } else {
      NothingButLeave(Next(s, events[0]).value, events[1..]);
    }
  }

  /** Over all runs: when the worker has left, it had made its exit with exactly one token for a queued request, for the
      stop, or for a cancel under way. If nobody was inside of an operation and the stop token was posted then, every submitted
      request has been served or cancelled, and the queues stay empty; otherwise one request was left behind.
   */
  lemma NothingLost(events: seq<Event>) returns (i: nat)
    requires Run(INITIAL, events).Some? && Run(INITIAL, events).value.worker == Leaving
    ensures IsExit(events, i)
    ensures
      var exit, s := Run(INITIAL, events[..i]).value, Run(INITIAL, events).value;
      && |exit.readQueue| + |exit.writeQueue| + |Threads(exit, false)| + StopTokens(exit) == 1 + |Threads(exit, true)|
      && (exit.callers == map[] ==> |exit.readQueue| + |exit.writeQueue| == if exit.stopPosted then 0 else 1)
      && (exit.callers == map[] && exit.stopPosted ==> Closed(s) && forall ticket: nat :: ticket < |s.added| ==> ticket in s.served || ticket in s.cancelled)
  {
    LeftThroughExit(events);
    i :| IsExit(events, i);
    var exit, s := Run(INITIAL, events[..i]).value, Run(INITIAL, events).value;
    assert Reachable(exit) && Reachable(s);
    ReachableInv(exit);
    assert events == events[..i] + events[i..];
    RunSplit(INITIAL, events[..i], events[i..]);
    if exit.callers == map[] {
      ExitLeaves(exit);
      if exit.stopPosted {
        ClosedForever(exit, events[i..]);
        AllGone(s);
      }
    }
  }

  /** A request that is in no queue was served or cancelled. */
  lemma AllGone(s: State)
    requires Reachable(s) && s.readQueue == [] && s.writeQueue == []
    ensures forall ticket: nat :: ticket < |s.added| ==> ticket in s.served || ticket in s.cancelled
  {
    forall ticket: nat | ticket < |s.added| ensures ticket in s.served || ticket in s.cancelled {
      LeavesOnce(s, ticket);
    }
  }

  lemma {:induction false} StepTo(s: State, e: Event) returns (s': State)
    requires Reachable(s) && Next(s, e).Some?
    ensures Reachable(s') && Some(s') == Next(s, e)
  {
    ReachableNext(s, e);
    s' := Next(s, e).value;
  }

  lemma RunThree(s: State, events: seq<Event>, s1: State, s2: State, s3: State)
    requires |events| == 3 && Next(s, events[0]) == Some(s1) && Next(s1, events[1]) == Some(s2) && Next(s2, events[2]) == Some(s3)
    ensures Run(s, events) == Some(s3)
  {
    assert events[1..][0] == events[1] && events[1..][1..] == events[2..] && events[2..][0] == events[2] && events[2..][1..] == [];
    assert Run(s3, []) == Some(s3);
    assert Run(s2, events[2..]) == Some(s3);
    assert Run(s1, events[1..]) == Some(s3);
  }

  lemma Calling(s: State, s1: State, t: nat, kind: Kind)
    requires !Locked(s, kind) && s1.callers.Keys <= s.callers.Keys + {t} && t in s1.callers && !s1.callers[t].Erased?
    requires forall u :: u in s1.callers && u != t ==> s1.callers[u] == s.callers[u]
    ensures !Locked(s1, kind)
  {
  }

  lemma PushStep(s: State, s1: State, t: nat, what: Submission, s2: State)
    requires s1 == s.(callers := s.callers[t := Adding(what)]) && s2 == Pushed(s, what).(callers := s.callers[t := Posting])
    requires !Locked(s, what.kind)
    ensures Next(s1, AddPush(t)) == Some(s2)
  {
    Calling(s, s1, t, what.kind);
    assert s1.callers[t := Posting] == s2.callers;
  }

  lemma PostStep(s: State, t: nat, s': State)
    requires t in s.callers && s.callers[t] == Posting && s' == s.(sem := s.sem + 1, callers := s.callers - {t})
    ensures Next(s, AddPost(t)) == Some(s')
  {
  }

  /** A running queue takes every request of every thread that is not inside yet. */
  lemma AddRun(s: State, t: nat, what: Submission, events: seq<Event>)
    requires t !in s.callers && !Locked(s, what.kind) && s.threadState == Running && events == [AddCheck(t, what), AddPush(t), AddPost(t)]
    ensures Run(s, events) == Some(Pushed(s, what).(sem := s.sem + 1))
  {
    var s1, s2 := s.(callers := s.callers[t := Adding(what)]), Pushed(s, what).(callers := s.callers[t := Posting]);
    var s3 := Pushed(s, what).(sem := s.sem + 1);
    PushStep(s, s1, t, what, s2);
    assert s2.callers - {t} == s.callers;
    PostStep(s2, t, s3);
    RunThree(s, events, s1, s2, s3);
  }

  /** Every thread that is not inside yet can ask to cancel every request, and gets its answer. */
  lemma CancelAnswered(s: State, t: nat, what: Submission) returns (s': State)
    requires Reachable(s) && t !in s.callers && !Locked(s, what.kind) && s.threadState == Running
    ensures Reachable(s')
    ensures s'.answers == s.answers + [Answer(what, exists x :: x in Queue(s, what.kind) && x < |s.added| && s.added[x] == what)]
  {
    var s1 := StepTo(s, CancelCheck(t, what));
    Calling(s, s1, t, what.kind);
    AnswersTruly(s1, t);
    s' := StepTo(s1, CancelErase(t));
  }

  lemma ReachableRun(s: State, events: seq<Event>)
    requires Reachable(s) && Run(s, events).Some?
    ensures Reachable(Run(s, events).value)
  {
    var first :| Run(INITIAL, first) == Some(s);
    RunSplit(INITIAL, first, events);
    assert Run(INITIAL, first + events) == Run(s, events);
  }

  lemma RequestAdded(s: State, what: Submission) returns (s': State)
    requires Reachable(s) && s.callers == map[] && s.threadState == Running
    ensures Reachable(s') && s' == Pushed(s, what).(sem := s.sem + 1)
  {
    var events := [AddCheck(0, what), AddPush(0), AddPost(0)];
    AddRun(s, 0, what, events);
    ReachableRun(s, events);
    s' := Pushed(s, what).(sem := s.sem + 1);
  }

  lemma TwoWrites() returns (s: State)
    ensures Reachable(s) && s.callers == map[] && s.threadState == Running && !s.stopPosted
    ensures s.worker == Waiting && s.sem == 2 && s.writePhase && |s.writeQueue| == 2
  {
    s := INITIAL;
    assert Run(s, []) == Some(s);
    s := RequestAdded(s, Submission(0, Write));
    s := RequestAdded(s, Submission(0, Write));
  }

  /** The race of `stop_thread`: the state is set before the token is posted, and in between the worker may leave and end with
      a request in the queue, where it stays whatever happens.
   */
  lemma LeftBehind() returns (s: State)
    ensures Reachable(s) && s.threadState == Terminated && |s.writeQueue| == 1
    ensures forall events :: Run(s, events).Some? ==> Run(s, events).value.writeQueue == s.writeQueue
  {
    s := TwoWrites();
    ReachableNext(s, StopSet);
    s := Next(s, StopSet).value;
    s := PopsOne(s);
    s := ChecksState(s);
    s := Ends(s);
    forall events | Run(s, events).Some? ensures Run(s, events).value.writeQueue == s.writeQueue {
      NothingMoves(s, events);
    }
  }

  lemma Ends(s: State) returns (s': State)
    requires Reachable(s) && s.worker == Closing && s.sem == 1 && s.threadState == Terminating
    ensures Reachable(s') && s' == s.(sem := 0, worker := Leaving, threadState := Terminated)
  {
    s' := StepTo(s, WorkerTest);
    s' := StepTo(s', WorkerDecide);
    s' := StepTo(s', WorkerEnd);
  }

  lemma {:induction false} NothingMoves(s: State, events: seq<Event>)
    requires s.threadState == Terminated && s.worker == Leaving && s.callers == map[] && Run(s, events).Some?
    ensures Run(s, events).value.writeQueue == s.writeQueue
    decreases |events|
  {
    if events == [] {
    } else {
      NothingMoves(Next(s, events[0]).value, events[1..]);
    }
  }

  lemma ChecksState(s: State) returns (s': State)
    requires Reachable(s) && s.worker.Serving? && s.threadState == Terminating
    ensures Reachable(s') && s' == s.(worker := Closing)
  {
    ReachableNext(s, WorkerServed);
    s' := Next(s, WorkerServed).value;
    ReachableNext(s', WorkerCheck);
    s' := Next(s', WorkerCheck).value;
  }

  lemma PopsOne(s: State) returns (s': State)
    requires Reachable(s) && s.callers == map[]
    requires s.worker == Waiting && s.sem > 0 && s.writePhase && s.writeQueue != []
    ensures Reachable(s') && s'.threadState == s.threadState && s'.callers == map[] && s'.stopPosted == s.stopPosted
    ensures s'.worker.Serving? && s'.sem == s.sem - 1 && s'.writeQueue == s.writeQueue[1..]
  {
    ReachableNext(s, WorkerDown);
    s' := Next(s, WorkerDown).value;
    ReachableNext(s', WorkerPop);
    s' := Next(s', WorkerPop).value;
  }
}
