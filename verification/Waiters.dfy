/** Waiting for a request: `request_with_waiters` and the state of `request_with_state`, as a state machine. Threads add and
    delete waiters while the worker, or a canceller, finishes the request. Only one of them does: a request leaves the queue
    once, see `RequestQueue.LeavesOnce`. Each event is one atomic action.
 */
module Waiters {
  import opened Options

  datatype RequestState = InProgress | Done | ReadyToDie

  /** The thread in `completed` or in `cancel`: before it sets the state to DONE, after that, after the user's callback,
      in the loop of `notify_waiters` with the switches that are left, behind the loop, at the end.
   */
  datatype Finisher = Before | Announced | CalledBack | Turning(rest: set<nat>) | Notified | Finished

  /** Who holds the mutex of the waiters. An adder has polled the state or not yet. */
  datatype Holder = Nobody | Notifier | Adder(switch: nat, polled: bool) | Deleter(switch: nat)

  /** What `add_waiter` and `delete_waiter` did, in the order in which they gave the mutex back. */
  datatype Call = Added(switch: nat, finished: bool) | Deleted(switch: nat)

  datatype State = State(
    state: RequestState, finisher: Finisher, cancelled: bool,
    holder: Holder, waiters: set<nat>, on: set<nat>, calls: seq<Call>)

  datatype Event =
    | SetDone(cancelled: bool)
    | Callback
    | LockNotify
    | TurnOn(switch: nat)
    | UnlockNotify
    | SetReady
    | AddLock(switch: nat)
    | AddPoll
    | AddInsert
    | DeleteLock(switch: nat)
    | DeleteErase

  function Initial(): State {
    State(InProgress, Before, false, Nobody, {}, {}, [])
  }

  /** A step of the thread that finishes the request. A cancelled request has no callback. */
  function FinisherStep(s: State, e: Event): Option<State> {
    match e
    case SetDone(cancelled) =>
      if s.finisher == Before then Some(s.(state := Done, finisher := Announced, cancelled := cancelled)) else None
    case Callback =>
      if s.finisher == Announced && !s.cancelled then Some(s.(finisher := CalledBack)) else None
    case LockNotify =>
      if s.finisher == (if s.cancelled then Announced else CalledBack) && s.holder == Nobody then
        Some(s.(holder := Notifier, finisher := Turning(s.waiters)))
      else None
    case TurnOn(switch) =>
      if s.finisher.Turning? && switch in s.finisher.rest then
        Some(s.(on := s.on + {switch}, finisher := Turning(s.finisher.rest - {switch})))
      else None
    case UnlockNotify =>
      if s.finisher == Turning({}) then Some(s.(holder := Nobody, finisher := Notified)) else None
    case SetReady =>
      if s.finisher == Notified then Some(s.(state := ReadyToDie, finisher := Finished)) else None
    case _ => None
  }

  /** A step of `add_waiter` or `delete_waiter`. */
  function WaiterStep(s: State, e: Event): Option<State> {
    match e
    case AddLock(switch) =>
      if s.holder == Nobody then Some(s.(holder := Adder(switch, false))) else None
    case AddPoll =>
      if s.holder.Adder? && !s.holder.polled then
        if s.state != InProgress then Some(s.(holder := Nobody, calls := s.calls + [Added(s.holder.switch, true)]))
        else Some(s.(holder := Adder(s.holder.switch, true)))
      else None
    case AddInsert =>
      if s.holder.Adder? && s.holder.polled then
        Some(s.(holder := Nobody, waiters := s.waiters + {s.holder.switch}, calls := s.calls + [Added(s.holder.switch, false)]))
      else None
    case DeleteLock(switch) =>
      if s.holder == Nobody then Some(s.(holder := Deleter(switch))) else None
    case DeleteErase =>
      if s.holder.Deleter? then
        Some(s.(holder := Nobody, waiters := s.waiters - {s.holder.switch}, calls := s.calls + [Deleted(s.holder.switch)]))
      else None
    case _ => None
  }

  function Next(s: State, e: Event): Option<State> {
    var f := FinisherStep(s, e);
    if f.Some? then f else WaiterStep(s, e)
  }

  function Run(s: State, events: seq<Event>): Option<State>
    decreases |events|
  {
    if events == [] then Some(s)
    else
      var next := Next(s, events[0]);
      if next.None? then None else Run(next.value, events[1..])
  }

  /** The switch waits: `add_waiter` returned false for it, and it was not deleted since. */
  predicate Waits(calls: seq<Call>, switch: nat) {
    calls != [] &&
    var last := calls[|calls| - 1];
    if last == Added(switch, false) then true
    else if last == Deleted(switch) then false
    else Waits(calls[..|calls| - 1], switch)
  }

  // ----- the invariant

  ghost predicate Phases(s: State) {
    && (s.finisher == Before <==> s.state == InProgress)
    && (s.finisher == Finished <==> s.state == ReadyToDie)
    && (s.finisher.Turning? <==> s.holder == Notifier)
  }

  /** A switch that polled too early is inserted before the notifier gets the mutex. */
  ghost predicate Reached(s: State) {
    && (s.holder.Adder? && s.holder.polled ==> s.finisher in {Before, Announced, CalledBack})
    && (s.finisher.Turning? ==> s.waiters <= s.on + s.finisher.rest)
    && (s.finisher in {Notified, Finished} ==> s.waiters <= s.on)
    && (s.finisher in {Before, Announced, CalledBack} ==> s.on == {})
  }

  ghost predicate Registered(s: State) {
    forall switch: nat :: switch in s.waiters <==> Waits(s.calls, switch)
  }

  /** While the request is in progress, nobody was told that it has finished. */
  ghost predicate NotFinishedYet(s: State) {
    s.state == InProgress ==> forall i :: 0 <= i < |s.calls| && s.calls[i].Added? ==> !s.calls[i].finished
  }

  /** A cancelled request is not called back. */
  ghost predicate CallbackFits(s: State) {
    s.cancelled ==> s.finisher != CalledBack
  }

  ghost predicate Inv(s: State) {
    Phases(s) && Reached(s) && Registered(s) && NotFinishedYet(s) && CallbackFits(s)
  }

  lemma WaitsNext(calls: seq<Call>, call: Call, switch: nat)
    ensures Waits(calls + [call], switch) ==
            if call == Added(switch, false) then true else if call == Deleted(switch) then false else Waits(calls, switch)
  {
    assert (calls + [call])[..|calls|] == calls;
  }

  lemma CallAdded(s: State, call: Call, waiters: set<nat>)
    requires Registered(s)
    requires waiters == match call
                        case Added(switch, finished) => if finished then s.waiters else s.waiters + {switch}
                        case Deleted(switch) => s.waiters - {switch}
    ensures Registered(s.(waiters := waiters, calls := s.calls + [call]))
  {
    forall switch: nat ensures switch in waiters <==> Waits(s.calls + [call], switch) {
      WaitsNext(s.calls, call, switch);
    }
  }

  lemma SameCalls(s: State, s': State)
    requires Registered(s) && s'.waiters == s.waiters && s'.calls == s.calls
    ensures Registered(s')
  {
  }

  lemma RegisteredKept(s: State, e: Event)
    requires Registered(s) && Next(s, e).Some?
    ensures Registered(Next(s, e).value)
  {
    var s' := Next(s, e).value;
    if s'.calls == s.calls {
      SameCalls(s, s');
    } else {
      CallAdded(s, s'.calls[|s.calls|], s'.waiters);
      SameCalls(s.(waiters := s'.waiters, calls := s'.calls), s');
    }
  }

  lemma StepKeeps(s: State, e: Event)
    requires Inv(s) && Next(s, e).Some?
    ensures Inv(Next(s, e).value)
  {
    RegisteredKept(s, e);
  }

  lemma {:induction false} RunKeeps(s: State, events: seq<Event>)
    requires Inv(s) && Run(s, events).Some?
    ensures Inv(Run(s, events).value)
    decreases |events|
  {
    if events == [] {
    } else {
      StepKeeps(s, events[0]);
      RunKeeps(Next(s, events[0]).value, events[1..]);
    }
  }

  /** No lost wakeup: over all interleavings, once the request is READY2DIE, every switch that waits is on; and no switch
      is turned on before the request is done.
   */
  lemma NoLostWakeup(events: seq<Event>, switch: nat)
    requires Run(Initial(), events).Some?
    ensures
      var s := Run(Initial(), events).value;
      && (s.state == ReadyToDie && Waits(s.calls, switch) ==> switch in s.on)
      && (switch in s.on ==> s.state != InProgress)
  {
    RunKeeps(Initial(), events);
  }

  /** Over all interleavings, `add_waiter` says that the request has finished only when it has. */
  lemma FinishedOnlyWhenDone(events: seq<Event>, i: nat)
    requires Run(Initial(), events).Some? && i < |Run(Initial(), events).value.calls|
    ensures
      var s := Run(Initial(), events).value;
      s.calls[i].Added? && s.calls[i].finished ==> s.state != InProgress
  {
    RunKeeps(Initial(), events);
  }

  /** An adder that has polled holds the mutex until it has inserted its switch. */
  lemma {:induction false} InsertComes(s: State, events: seq<Event>)
    requires Inv(s) && s.holder.Adder? && s.holder.polled && Run(s, events).Some?
    ensures
      var s' := Run(s, events).value;
      s.calls <= s'.calls && (|s'.calls| > |s.calls| ==> s'.calls[|s.calls|] == Added(s.holder.switch, false))
    decreases |events|
  {
    if events == [] {
    } else {
      StepKeeps(s, events[0]);
      var s1 := Next(s, events[0]).value;
      if events[0] == AddInsert {
        CallsGrow(s1, events[1..]);
      } else {
        InsertComes(s1, events[1..]);
      }
    }
  }

  lemma {:induction false} CallsGrow(s: State, events: seq<Event>)
    requires Run(s, events).Some?
    ensures s.calls <= Run(s, events).value.calls
    decreases |events|
  {
    if events == [] {
    } else {
      CallsGrow(Next(s, events[0]).value, events[1..]);
    }
  }

  /** Over all interleavings, the answer of `add_waiter` is whether the request had finished when it polled: the call that
      polls now is the next one to return, and returns that.
   */
  lemma AnswerIsThePoll(first: seq<Event>, rest: seq<Event>)
    requires Run(Initial(), first).Some? && Run(Run(Initial(), first).value, [AddPoll] + rest).Some?
    ensures
      var s := Run(Initial(), first).value;
      var s' := Run(s, [AddPoll] + rest).value;
      && s.holder.Adder? && s.calls <= s'.calls
      && (|s'.calls| > |s.calls| ==> s'.calls[|s.calls|] == Added(s.holder.switch, s.state != InProgress))
  {
    RunKeeps(Initial(), first);
    var s := Run(Initial(), first).value;
    var s1 := Next(s, AddPoll).value;
    StepKeeps(s, AddPoll);
    assert ([AddPoll] + rest)[1..] == rest;
    if s.state == InProgress {
      InsertComes(s1, rest);
    } else {
      CallsGrow(s1, rest);
    }
  }

  lemma {:induction false} RunOneMore(s: State, events: seq<Event>, e: Event)
    ensures Run(s, events + [e]) == if Run(s, events).None? then None else Next(Run(s, events).value, e)
    decreases |events|
  {
    if events == [] {
      assert [e][1..] == [];
      assert Next(s, e).Some? ==> Run(Next(s, e).value, []) == Next(s, e);
    } else {
      assert (events + [e])[1..] == events[1..] + [e];
      if Next(s, events[0]).Some? {
        RunOneMore(Next(s, events[0]).value, events[1..], e);
      }
    }
  }

  function Callbacks(events: seq<Event>): nat {
    if events == [] then 0
    else Callbacks(events[..|events| - 1]) + if events[|events| - 1] == Callback then 1 else 0
  }

  /** Over all interleavings, the user is called back once, before the waiters are notified, unless the request was cancelled. */
  lemma {:induction false} CalledBackOnce(events: seq<Event>)
    requires Run(Initial(), events).Some?
    ensures
      var s := Run(Initial(), events).value;
      Callbacks(events) == if s.cancelled || s.finisher in {Before, Announced} then 0 else 1
    decreases |events|
  {
    if events == [] {
    } else {
      var n := |events| - 1;
      assert events == events[..n] + [events[n]];
      RunOneMore(Initial(), events[..n], events[n]);
      CalledBackOnce(events[..n]);
      RunKeeps(Initial(), events[..n]);
    }
  }

  /** How many steps the holder of the mutex needs at most. */
  function Remaining(s: State): nat {
    match s.holder
    case Nobody => 0
    case Notifier => 1 + if s.finisher.Turning? then |s.finisher.rest| else 0
    case Adder(_, polled) => if polled then 1 else 2
    case Deleter(_) => 1
  }

  lemma HolderStep(s: State) returns (e: Event)
    requires Phases(s) && s.holder != Nobody
    ensures !e.AddLock? && !e.DeleteLock? && Next(s, e).Some? && Remaining(Next(s, e).value) < Remaining(s)
  {
    match s.holder
    case Adder(_, polled) => e := if polled then AddInsert else AddPoll;
    case Deleter(_) => e := DeleteErase;
    case Notifier =>
      if s.finisher.rest == {} {
        e := UnlockNotify;
      } else {
        var x :| x in s.finisher.rest;
        e := TurnOn(x);
      }
  }

  /** Over all interleavings, nobody is stuck: as long as the request is not READY2DIE or somebody has the mutex, the finisher or
      the holder of the mutex can go on.
   */
  lemma SomebodyCanGoOn(events: seq<Event>) returns (e: Event)
    requires Run(Initial(), events).Some?
    requires Run(Initial(), events).value.state != ReadyToDie || Run(Initial(), events).value.holder != Nobody
    ensures !e.AddLock? && !e.DeleteLock? && Next(Run(Initial(), events).value, e).Some?
  {
    RunKeeps(Initial(), events);
    var s := Run(Initial(), events).value;
    if s.holder != Nobody {
      e := HolderStep(s);
    } else {
      match s.finisher
      case Before => e := SetDone(false);
      case Announced => e := if s.cancelled then LockNotify else Callback;
      case CalledBack => e := LockNotify;
      case Notified => e := SetReady;
    }
  }

  ghost predicate NobodyAsks(events: seq<Event>) {
    forall i :: 0 <= i < |events| ==> !events[i].AddLock? && !events[i].DeleteLock?
  }

  /** Whoever has the mutex gives it back, without anybody else, and then every call can begin. */
  lemma {:induction false} MutexComesFree(s: State, switch: nat) returns (more: seq<Event>)
    requires Inv(s)
    ensures NobodyAsks(more) && Run(s, more).Some?
    ensures
      var s' := Run(s, more).value;
      s'.holder == Nobody && Next(s', AddLock(switch)).Some? && Next(s', DeleteLock(switch)).Some?
    decreases Remaining(s)
  {
    if s.holder == Nobody {
      more := [];
    } else {
      var e := HolderStep(s);
      StepKeeps(s, e);
      var rest := MutexComesFree(Next(s, e).value, switch);
      more := [e] + rest;
      assert more[1..] == rest;
    }
  }

  /** The notifier is on its way to turning on `waiting`. */
  ghost predicate TurnsOn(s: State, waiting: set<nat>) {
    match s.finisher
    case Turning(rest) => s.on + rest == waiting
    case Notified => s.on == waiting
    case Finished => s.on == waiting
    case _ => false
  }

  lemma {:induction false} GoesOnTurning(s: State, events: seq<Event>, waiting: set<nat>)
    requires TurnsOn(s, waiting) && Run(s, events).Some?
    ensures TurnsOn(Run(s, events).value, waiting)
    decreases |events|
  {
    if events == [] {
    } else {
      GoesOnTurning(Next(s, events[0]).value, events[1..], waiting);
    }
  }

  /** Over all interleavings, when the notification is over, the switches that are on are exactly those that waited when the
      notifier got the mutex.
   */
  lemma NotifiesExactly(first: seq<Event>, rest: seq<Event>, switch: nat)
    requires Run(Initial(), first).Some? && Run(Run(Initial(), first).value, [LockNotify] + rest).Some?
    ensures
      var s := Run(Initial(), first).value;
      var s' := Run(s, [LockNotify] + rest).value;
      s'.finisher in {Notified, Finished} ==> (switch in s'.on <==> Waits(s.calls, switch))
  {
    RunKeeps(Initial(), first);
    var s := Run(Initial(), first).value;
    assert ([LockNotify] + rest)[1..] == rest;
    GoesOnTurning(Next(s, LockNotify).value, rest, s.waiters);
  }

  /** From the moment the notifier has the mutex, nobody starts to wait. */
  lemma {:induction false} NobodyStartsToWait(s: State, events: seq<Event>, switch: nat)
    requires Inv(s) && (s.finisher.Turning? || s.finisher in {Notified, Finished}) && !Waits(s.calls, switch)
    requires Run(s, events).Some?
    ensures !Waits(Run(s, events).value.calls, switch)
    decreases |events|
  {
    if events == [] {
    } else {
      StepKeeps(s, events[0]);
      assert switch !in Next(s, events[0]).value.waiters;
      NobodyStartsToWait(Next(s, events[0]).value, events[1..], switch);
    }
  }
}
