/** Progress of the disk queue: a queue that is stopped serves everything and ends, and the states in which nobody can go on. */
module RequestProgress {
  import opened Options
  import opened RequestQueue
  import opened RequestExit

  // ----- a stopped queue ends

  predicate IsWorkers(e: Event) {
    || e == WorkerDown || e == WorkerPop || e == WorkerReturn || e == WorkerServed || e == WorkerCheck || e == WorkerTest
    || e == WorkerDecide || e == WorkerEnd
  }

  /** What the worker does next. */
  function Upcoming(s: State): Event {
    match s.worker
    case Waiting => WorkerDown
    case Holding => WorkerPop
    case Returning => WorkerReturn
    case Serving(_) => WorkerServed
    case Checking => WorkerCheck
    case Closing => WorkerTest
    case Testing(_) => WorkerDecide
    case Leaving => WorkerEnd
  }

  function Queued(s: State): nat {
    |s.readQueue| + |s.writeQueue|
  }

  /** The stop token is posted, nobody is inside of an operation, and if the worker is on its way out nothing is left. */
  ghost predicate Stopping(s: State) {
    Inv(s) && s.callers == map[] && s.stopPosted && (s.worker in {Testing(0), Leaving} ==> Queued(s) == 0)
  }

  /** A bound on the rounds that are left: two for each request, since a round may find the queue of its phase empty. */
  function Rounds(s: State): nat {
    if Queued(s) > 0 then 2 * Queued(s) + if Queue(s, PhaseKind(s)) == [] then 1 else 0
    else if s.worker == Waiting || s.worker == Holding || (s.worker.Testing? && s.worker.left > 0) then 1
    else 0
  }

  /** How far the worker is from the next look at a queue. */
  function Distance(s: State): nat {
    match s.worker
    case Serving(_) => 7
    case Returning => 7
    case Checking => 6
    case Closing => 5
    case Testing(_) => 4
    case Waiting => 3
    case Holding => 2
    case Leaving => if s.threadState == Terminated then 0 else 1
  }

  function Measure(s: State): nat {
    8 * Rounds(s) + Distance(s)
  }

  lemma StoppingTokens(s: State)
    requires Stopping(s)
    ensures s.sem + WorkerTokens(s.worker) == Queued(s) + 1 && s.threadState != Running && (forall kind :: !Locked(s, kind))
  {
    assert Threads(s, true) == {} && Threads(s, false) == {};
  }

  /** `Stopping`, as far as the next step of the worker depends on it. */
  ghost predicate OnItsOwn(s: State) {
    && s.sem + WorkerTokens(s.worker) == Queued(s) + 1 && s.threadState == Terminating && s.callers == map[] && s.stopPosted
    && (s.worker in {Testing(0), Leaving} ==> Queued(s) == 0)
  }

  lemma PopGoesOn(s: State)
    requires OnItsOwn(s) && s.worker == Holding
    ensures Next(s, WorkerPop).Some? && Measure(Next(s, WorkerPop).value) < Measure(s)
    ensures Next(s, WorkerPop).value.worker.Serving? || Next(s, WorkerPop).value.worker == Returning
    ensures Next(s, WorkerPop).value.callers == map[] && Next(s, WorkerPop).value.stopPosted
  {
    assert forall kind :: !Locked(s, kind);
  }

  lemma OthersGoOn(s: State)
    requires OnItsOwn(s) && s.worker != Holding
    ensures
      var s' := Next(s, Upcoming(s));
      && s'.Some? && s'.value.callers == map[] && s'.value.stopPosted && Queued(s'.value) == Queued(s)
      && Measure(s'.value) < Measure(s)
      && (s'.value.worker in {Testing(0), Leaving} ==> Queued(s) == 0)
  {
  }

  /** The worker can always go on, comes closer to its end with every step, and leaves only when nothing is left. */
  lemma GoesOn(s: State)
    requires Stopping(s) && s.threadState != Terminated
    ensures Next(s, Upcoming(s)).Some? && Measure(Next(s, Upcoming(s)).value) < Measure(s) && Stopping(Next(s, Upcoming(s)).value)
  {
    StoppingTokens(s);
    if s.worker == Holding {
      PopGoesOn(s);
    } else {
      OthersGoOn(s);
    }
    StepKeeps(s, Upcoming(s));
  }

  /** The worker has no choice. */
  lemma NoChoice(s: State, e: Event)
    requires IsWorkers(e) && Next(s, e).Some?
    ensures e == Upcoming(s) && (s.worker == Leaving ==> s.threadState != Terminated)
  {
  }

  ghost predicate OnlyWorkers(events: seq<Event>) {
    forall i :: 0 <= i < |events| ==> IsWorkers(events[i])
  }

  /** However long the worker is watched, it makes at most `Measure(s)` steps, and is never stuck before it has ended. */
  lemma {:induction false} StepsBounded(s: State, events: seq<Event>)
    requires Stopping(s) && OnlyWorkers(events) && Run(s, events).Some?
    ensures
      var s' := Run(s, events).value;
      |events| + Measure(s') <= Measure(s) && Stopping(s') && (s'.threadState != Terminated ==> Next(s', Upcoming(s')).Some?)
    decreases |events|
  {
    if events == [] {
      if s.threadState != Terminated {
        GoesOn(s);
      }
    } else {
      NoChoice(s, events[0]);
      GoesOn(s);
      StepsBounded(Next(s, events[0]).value, events[1..]);
    }
  }

  /** The end of the run of the worker. */
  lemma {:induction false} ReachesEnd(s: State) returns (events: seq<Event>)
    requires Stopping(s)
    ensures OnlyWorkers(events) && Run(s, events).Some? && Run(s, events).value.threadState == Terminated
    decreases Measure(s)
  {
    if s.threadState == Terminated {
      events := [];
    } else {
      GoesOn(s);
      var rest := ReachesEnd(Next(s, Upcoming(s)).value);
      events := [Upcoming(s)] + rest;
      assert events[1..] == rest;
    }
  }

  /** Once the stop token is posted and nobody is inside of an operation, a worker that is not on its way out yet serves all
      that is queued and ends: every sequence of its steps is bounded and can be prolonged up to the end, and then every
      submitted request has been served or cancelled.
   */
  lemma StoppedQueueEnds(s: State, events: seq<Event>) returns (more: seq<Event>)
    requires Reachable(s) && s.callers == map[] && s.stopPosted && s.worker !in {Testing(0), Leaving}
    requires OnlyWorkers(events) && Run(s, events).Some?
    ensures |events| <= Measure(s) && OnlyWorkers(more) && Run(s, events + more).Some?
    ensures
      var end := Run(s, events + more).value;
      && end.threadState == Terminated && Closed(end)
      && forall ticket: nat :: ticket < |end.added| ==> ticket in end.served || ticket in end.cancelled
  {
    ReachableInv(s);
    StepsBounded(s, events);
    var s' := Run(s, events).value;
    more := ReachesEnd(s');
    RunSplit(s, events, more);
    var end := Run(s', more).value;
    StepsBounded(s', more);
    ReachableRun(s, events + more);
    AllGone(end);
  }

  /** The requests are submitted one after the other, and nobody cancels. */
  lemma {:induction false} AllAdded(requests: seq<Submission>) returns (s: State)
    ensures Reachable(s) && s.callers == map[] && s.threadState == Running && s.worker == Waiting && !s.stopPosted
    ensures s.added == requests && s.cancelled == []
  {
    if requests == [] {
      s := INITIAL;
      assert Run(s, []) == Some(s);
    } else {
      var n := |requests| - 1;
      s := AllAdded(requests[..n]);
      s := RequestAdded(s, requests[n]);
      assert requests == requests[..n] + [requests[n]];
    }
  }

  lemma WorkerKeeps(s: State, e: Event)
    requires IsWorkers(e) && Next(s, e).Some?
    ensures Next(s, e).value.added == s.added && Next(s, e).value.cancelled == s.cancelled
  {
  }

  lemma {:induction false} WorkersKeep(s: State, events: seq<Event>)
    requires OnlyWorkers(events) && Run(s, events).Some?
    ensures Run(s, events).value.added == s.added && Run(s, events).value.cancelled == s.cancelled
    decreases |events|
  {
    if events == [] {
    } else {
      WorkerKeeps(s, events[0]);
      WorkersKeep(Next(s, events[0]).value, events[1..]);
    }
  }

  /** Whatever requests are submitted, there is a run that serves them all and ends. */
  lemma AllServed(requests: seq<Submission>) returns (end: State)
    ensures Reachable(end) && end.added == requests && end.threadState == Terminated && Closed(end)
    ensures forall ticket: nat :: ticket < |requests| ==> ticket in end.served
  {
    var s := AllAdded(requests);
    s := StepTo(s, StopSet);
    s := StepTo(s, StopPost);
    var more := StoppedQueueEnds(s, []);
    assert [] + more == more;
    WorkersKeep(s, more);
    ReachableRun(s, more);
    end := Run(s, more).value;
  }

  // ----- who can be stuck

  /** Somebody who is inside of an operation, the worker or the stopping thread, can make a step. */
  ghost predicate CanMove(s: State) {
    exists e: Event :: !e.AddCheck? && !e.CancelCheck? && !e.StopSet? && Next(s, e).Some?
  }

  ghost predicate Idle(s: State) {
    && s.callers == map[] && s.worker == Waiting && s.sem == 0 && s.threadState == Running && !s.stopPosted
    && s.readQueue == [] && s.writeQueue == []
  }

  ghost predicate Ended(s: State) {
    s.callers == map[] && s.worker == Leaving && s.threadState == Terminated && s.stopPosted
  }

  /** Thread `t` has erased a request whose token the worker has taken. It holds the mutex for which the worker, and everybody
      else who is inside, waits, and waits for a token itself.
   */
  ghost predicate DeadlockedBy(s: State, t: nat) {
    && s.worker == Holding && s.sem == 0 && s.threadState == Running && !s.stopPosted && s.readQueue == [] && s.writeQueue == []
    && t in s.callers && s.callers[t] == Erased(PhaseKind(s))
    && (forall u :: u in s.callers && u != t ==>
          (s.callers[u].Adding? || s.callers[u].Cancelling?) && s.callers[u].what.kind == PhaseKind(s))
  }

  lemma NoPosting(s: State, t: nat)
    requires !CanMove(s) && t in s.callers
    ensures !s.callers[t].Posting? && (s.callers[t].Erased? ==> s.sem == 0)
    ensures s.callers[t].Adding? || s.callers[t].Cancelling? ==> Locked(s, s.callers[t].what.kind)
  {
    assert Next(s, AddPost(t)).None? && Next(s, AddPush(t)).None? && Next(s, CancelDown(t)).None? && Next(s, CancelErase(t)).None?;
  }

  lemma WorkerStuck(s: State)
    requires !CanMove(s)
    ensures s.worker in {Waiting, Holding, Closing, Leaving}
    ensures (s.worker == Waiting || s.worker == Closing ==> s.sem == 0) && (s.worker == Holding ==> Locked(s, PhaseKind(s)))
    ensures (s.worker == Leaving ==> s.threadState != Terminating) && (s.threadState != Running ==> s.stopPosted)
  {
    assert Next(s, Upcoming(s)).None? && Next(s, StopPost).None?;
  }

  /** If nobody waits for a token, the mutexes are free, and nobody is inside of an operation. */
  lemma NobodyInside(s: State)
    requires !CanMove(s) && (s.sem > 0 || Threads(s, false) == {})
    ensures s.callers == map[]
  {
    forall t | t in s.callers ensures !s.callers[t].Erased? {
      NoPosting(s, t);
      assert s.callers[t].Erased? ==> t in Threads(s, false);
    }
    assert forall kind :: !Locked(s, kind);
    if s.callers != map[] {
      var t :| t in s.callers;
      NoPosting(s, t);
    }
  }

  lemma PostingNone(s: State)
    requires !CanMove(s)
    ensures Threads(s, true) == {}
  {
    forall t | t in s.callers ensures !s.callers[t].Posting? {
      NoPosting(s, t);
    }
  }

  /** If the worker cannot go on with the token that it holds, a canceller has the mutex and waits for a token. */
  lemma HolderStuck(s: State) returns (t: nat)
    requires Inv(s) && !CanMove(s) && s.worker == Holding
    ensures DeadlockedBy(s, t)
  {
    WorkerStuck(s);
    PostingNone(s);
    t :| t in s.callers && s.callers[t] == Erased(PhaseKind(s));
    NoPosting(s, t);
    assert t in Threads(s, false) && Threads(s, false) == {t} + (Threads(s, false) - {t});
    assert |Threads(s, false)| == 1 && Threads(s, false) - {t} == {};
    forall u | u in s.callers && u != t
      ensures (s.callers[u].Adding? || s.callers[u].Cancelling?) && s.callers[u].what.kind == PhaseKind(s)
    {
      OtherWaits(s, t, u);
    }
  }

  lemma OtherWaits(s: State, t: nat, u: nat)
    requires !CanMove(s) && t in s.callers && s.callers[t] == Erased(PhaseKind(s)) && Threads(s, false) - {t} == {}
    requires u in s.callers && u != t
    ensures (s.callers[u].Adding? || s.callers[u].Cancelling?) && s.callers[u].what.kind == PhaseKind(s)
  {
    NoPosting(s, u);
    assert s.callers[u].Erased? ==> u in Threads(s, false) - {t};
    var kind := s.callers[u].what.kind;
    var v :| v in s.callers && s.callers[v] == Erased(kind);
    assert v != t ==> v in Threads(s, false) - {t};
  }

  lemma StuckStates(s: State)
    requires Inv(s) && !CanMove(s)
    ensures Idle(s) || Ended(s) || exists t :: DeadlockedBy(s, t)
  {
    WorkerStuck(s);
    PostingNone(s);
    if s.worker == Holding {
      var t := HolderStuck(s);
    } else {
      assert s.sem > 0 || |Threads(s, false)| == 0;
      NobodyInside(s);
    }
  }

  lemma IdleStuck(s: State, e: Event)
    requires Idle(s) || Ended(s)
    ensures Next(s, e).Some? ==> e.AddCheck? || e.CancelCheck? || e.StopSet?
  {
  }

  lemma DeadlockStuck(s: State, t: nat, e: Event)
    requires DeadlockedBy(s, t)
    ensures Next(s, e).Some? ==> e.AddCheck? || e.CancelCheck? || e.StopSet?
  {
    assert Locked(s, PhaseKind(s));
  }

  /** Over all interleavings: nobody can go on if and only if the queue is idle, or has ended, or a canceller and the worker wait
      for each other.
   */
  lemma StuckExactly(s: State)
    requires Reachable(s)
    ensures !CanMove(s) <==> Idle(s) || Ended(s) || exists t :: DeadlockedBy(s, t)
  {
    ReachableInv(s);
    if !CanMove(s) {
      StuckStates(s);
    } else {
      var e: Event :| !e.AddCheck? && !e.CancelCheck? && !e.StopSet? && Next(s, e).Some?;
      if Idle(s) || Ended(s) {
        IdleStuck(s, e);
      }
      forall t ensures !DeadlockedBy(s, t) {
        if DeadlockedBy(s, t) {
          DeadlockStuck(s, t, e);
        }
      }
    }
  }

  /** It happens: one write is queued, the worker takes its token, and before the worker has the mutex the write is cancelled. */
  lemma CancelDeadlock() returns (s: State)
    ensures Reachable(s) && DeadlockedBy(s, 0) && !CanMove(s)
  {
    s := INITIAL;
    assert Run(s, []) == Some(s);
    s := RequestAdded(s, Submission(0, Write));
    s := StepTo(s, WorkerDown);
    s := CancelsTaken(s);
    StuckExactly(s);
  }

  lemma CancelsTaken(s: State) returns (s': State)
    requires Reachable(s) && s.worker == Holding && s.sem == 0 && s.threadState == Running && !s.stopPosted && s.callers == map[]
    requires s.writePhase && s.writeQueue == [0] && s.readQueue == [] && s.added == [Submission(0, Write)]
    ensures Reachable(s') && DeadlockedBy(s', 0)
  {
    var what := Submission(0, Write);
    s' := StepTo(s, CancelCheck(0, what));
    assert Place(s', what) == 0;
    s' := StepTo(s', CancelErase(0));
  }
}
