/** The disk queue of `request_queue_impl_qwqr`: a worker thread, any number of threads that add and cancel requests, and
    the thread that stops the queue, as a state machine. Each event is one atomic action of one thread.
 */
module RequestQueue {
  import opened Options

  datatype Kind = Read | Write

  datatype Submission = Submission(request: nat, kind: Kind)

  /** A thread inside `add_request` or `cancel_request`: an adder before its push and between push and `sem++`; a
      canceller before its search and, still holding the mutex of the queue, between erase and `sem--`.
   */
  datatype Caller = Adding(what: Submission) | Posting | Cancelling(what: Submission) | Erased(kind: Kind)

  /** Where the worker is: before `sem--`; with the token it took; with a token that found its queue empty; serving;
      before it reads the thread state; before and after the `sem--` of the termination test; after the loop.
   */
  datatype Worker =
    | Waiting
    | Holding
    | Returning
    | Serving(ticket: nat)
    | Checking
    | Closing
    | Testing(left: nat)
    | Leaving

  datatype ThreadState = Running | Terminating | Terminated

  /** When a request was popped: how many submissions there had been at the worker's last round that found no write, and how
      many cancels at the pop.
   */
  datatype Mark = Mark(emptied: nat, cancels: nat)

  /** What `cancel_request` returns: whether the request was still in the queue. */
  datatype Answer = Answer(what: Submission, stillQueued: bool)

  /** Requests in the queues are known by their ticket, their place in the log `added` of submissions. `served` and
      `cancelled` are the tickets that left the queues, in this order, with a mark for each that was served; `emptied` is
      the number of submissions at the last round that found no write. `answers` are those of the cancels.
   */
  datatype State = State(
    sem: nat,
    readQueue: seq<nat>, writeQueue: seq<nat>,
    callers: map<nat, Caller>,
    worker: Worker, writePhase: bool,
    threadState: ThreadState, stopPosted: bool,
    added: seq<Submission>, served: seq<nat>, cancelled: seq<nat>,
    marks: seq<Mark>, emptied: nat, answers: seq<Answer>)

  datatype Event =
    | AddCheck(thread: nat, what: Submission)
    | AddPush(thread: nat)
    | AddPost(thread: nat)
    | CancelCheck(thread: nat, what: Submission)
    | CancelErase(thread: nat)
    | CancelDown(thread: nat)
    | StopSet
    | StopPost
    | WorkerDown
    | WorkerPop
    | WorkerReturn
    | WorkerServed
    | WorkerCheck
    | WorkerTest
    | WorkerDecide
    | WorkerEnd

  const INITIAL: State := State(0, [], [], map[], Waiting, true, Running, false, [], [], [], [], 0, [])

  // ----- the steps

  function Queue(s: State, kind: Kind): seq<nat> {
    if kind == Read then s.readQueue else s.writeQueue
  }

  function WithQueue(s: State, kind: Kind, q: seq<nat>): State {
    if kind == Read then s.(readQueue := q) else s.(writeQueue := q)
  }

  /** A canceller keeps the mutex while it waits for the semaphore. */
  predicate Locked(s: State, kind: Kind) {
    exists t :: t in s.callers && s.callers[t] == Erased(kind)
  }

  /** `find`: the first place of the request in the queue, or the length of the queue. */
  function Find(added: seq<Submission>, q: seq<nat>, what: Submission): (i: nat)
    ensures i <= |q|
    ensures forall j :: 0 <= j < i && q[j] < |added| ==> added[q[j]] != what
    ensures i < |q| ==> q[i] < |added| && added[q[i]] == what
  {
    if q == [] then 0
    else if q[0] < |added| && added[q[0]] == what then 0
    else 1 + Find(added, q[1..], what)
  }

  function Place(s: State, what: Submission): nat {
    Find(s.added, Queue(s, what.kind), what)
  }

  predicate Found(s: State, what: Submission) {
    Place(s, what) < |Queue(s, what.kind)|
  }

  /** The phase after a round in which the queue of the phase was empty or not. The priority is the constant `WRITE`. */
  function NextPhase(writePhase: bool, empty: bool): bool {
    !writePhase || !empty
  }

  function PhaseKind(s: State): Kind {
    if s.writePhase then Write else Read
  }

  function Pushed(s: State, what: Submission): State {
    WithQueue(s, what.kind, Queue(s, what.kind) + [|s.added|]).(added := s.added + [what])
  }

  function ErasedAt(s: State, kind: Kind, i: nat): State
    requires i < |Queue(s, kind)|
  {
    var q := Queue(s, kind);
    WithQueue(s, kind, q[..i] + q[i + 1..]).(cancelled := s.cancelled + [q[i]])
  }

  function Popped(s: State, kind: Kind): State
    requires Queue(s, kind) != []
  {
    var q := Queue(s, kind);
    WithQueue(s, kind, q[1..]).(served := s.served + [q[0]], marks := s.marks + [Mark(s.emptied, |s.cancelled|)])
  }

  /** A round that found the queue of its phase empty. */
  function FoundEmpty(s: State): State {
    if s.writePhase then s.(emptied := |s.added|) else s
  }

  /** A step of `add_request`, or `None` if the thread is not there or has to wait. */
  function AddStep(s: State, e: Event): Option<State>
    requires e.AddCheck? || e.AddPush? || e.AddPost?
  {
    match e
    case AddCheck(t, what) =>
      if t !in s.callers && s.threadState == Running then Some(s.(callers := s.callers[t := Adding(what)])) else None
    case AddPush(t) =>
      if t in s.callers && s.callers[t].Adding? && !Locked(s, s.callers[t].what.kind) then
        Some(Pushed(s, s.callers[t].what).(callers := s.callers[t := Posting]))
      else None
    case AddPost(t) =>
      if t in s.callers && s.callers[t].Posting? then Some(s.(sem := s.sem + 1, callers := s.callers - {t})) else None
  }

  /** A step of `cancel_request`. */
  function CancelStep(s: State, e: Event): Option<State>
    requires e.CancelCheck? || e.CancelErase? || e.CancelDown?
  {
    match e
    case CancelCheck(t, what) =>
      if t !in s.callers && s.threadState == Running then Some(s.(callers := s.callers[t := Cancelling(what)])) else None
    case CancelErase(t) =>
      if t in s.callers && s.callers[t].Cancelling? && !Locked(s, s.callers[t].what.kind) then
        var what := s.callers[t].what;
        var answers := s.answers + [Answer(what, Found(s, what))];
        if Found(s, what) then Some(ErasedAt(s, what.kind, Place(s, what)).(callers := s.callers[t := Erased(what.kind)], answers := answers))
        else Some(s.(callers := s.callers - {t}, answers := answers))
      else None
    case CancelDown(t) =>
      if t in s.callers && s.callers[t].Erased? && s.sem > 0 then Some(s.(sem := s.sem - 1, callers := s.callers - {t})) else None
  }

  /** A step of `stop_thread`. */
  function StopStep(s: State, e: Event): Option<State>
    requires e.StopSet? || e.StopPost?
  {
    match e
    case StopSet =>
      if s.threadState == Running then Some(s.(threadState := Terminating)) else None
    case StopPost =>
      if s.threadState != Running && !s.stopPosted then Some(s.(sem := s.sem + 1, stopPosted := true)) else None
  }

  /** A step of the worker. */
  function WorkerStep(s: State, e: Event): Option<State> {
    match e
    case WorkerDown =>
      if s.worker == Waiting && s.sem > 0 then Some(s.(sem := s.sem - 1, worker := Holding)) else None
    case WorkerPop =>
      if s.worker == Holding && !Locked(s, PhaseKind(s)) then
        var q := Queue(s, PhaseKind(s));
        var phase := NextPhase(s.writePhase, q == []);
        if q == [] then Some(FoundEmpty(s).(worker := Returning, writePhase := phase))
        else Some(Popped(s, PhaseKind(s)).(worker := Serving(q[0]), writePhase := phase))
      else None
    case WorkerReturn =>
      if s.worker == Returning then Some(s.(sem := s.sem + 1, worker := Checking)) else None
    case WorkerServed =>
      if s.worker.Serving? then Some(s.(worker := Checking)) else None
    case WorkerCheck =>
      if s.worker == Checking then Some(s.(worker := if s.threadState == Terminating then Closing else Waiting)) else None
    case WorkerTest =>
      if s.worker == Closing && s.sem > 0 then Some(s.(sem := s.sem - 1, worker := Testing(s.sem - 1))) else None
    case WorkerDecide =>
      if s.worker.Testing? then
        if s.worker.left == 0 then Some(s.(worker := Leaving)) else Some(s.(sem := s.sem + 1, worker := Waiting))
      else None
    case WorkerEnd =>
      if s.worker == Leaving && s.threadState == Terminating then Some(s.(threadState := Terminated)) else None
    case _ => None
  }

  /** The state after an event, or `None` if the event cannot happen. */
  function Next(s: State, e: Event): Option<State> {
    if e.AddCheck? || e.AddPush? || e.AddPost? then AddStep(s, e)
    else if e.CancelCheck? || e.CancelErase? || e.CancelDown? then CancelStep(s, e)
    else if e.StopSet? || e.StopPost? then StopStep(s, e)
    else WorkerStep(s, e)
  }

  /** The state after a run, or `None` if one of the events cannot happen. */
  function Run(s: State, events: seq<Event>): Option<State>
    decreases |events|
  {
    if events == [] then Some(s)
    else
      var next := Next(s, events[0]);
      if next.None? then None else Run(next.value, events[1..])
  }

  // ----- the invariant

  ghost function Threads(s: State, posting: bool): set<nat> {
    set t | t in s.callers && (if posting then s.callers[t].Posting? else s.callers[t].Erased?)
  }

  function WorkerTokens(w: Worker): nat {
    if w == Holding || w == Returning || w.Testing? || w == Leaving then 1 else 0
  }

  function StopTokens(s: State): nat {
    if s.stopPosted then 1 else 0
  }

  /** Every token of the semaphore stands for a queued request or for the stop. */
  ghost predicate TokensMatch(s: State) {
    s.sem + WorkerTokens(s.worker) + |Threads(s, true)| == |s.readQueue| + |s.writeQueue| + |Threads(s, false)| + StopTokens(s)
  }

  function Tickets(n: nat): seq<nat> {
    seq(n, i => i)
  }

  /** Every submission is in exactly one place, and there once. */
  ghost predicate EachOnce(s: State) {
    multiset(s.readQueue) + multiset(s.writeQueue) + multiset(s.served) + multiset(s.cancelled) == multiset(Tickets(|s.added|))
  }

  ghost predicate Increasing(q: seq<nat>) {
    forall i, j :: 0 <= i < j < |q| ==> q[i] < q[j]
  }

  predicate IsKind(added: seq<Submission>, ticket: nat, kind: Kind) {
    ticket < |added| && added[ticket].kind == kind
  }

  /** A queue has its requests in the order of submission, and what was served was submitted before them. */
  ghost predicate QueueInOrder(added: seq<Submission>, served: seq<nat>, q: seq<nat>, kind: Kind) {
    && Increasing(q)
    && (forall j :: 0 <= j < |q| ==> IsKind(added, q[j], kind))
    && (forall i, j :: 0 <= i < |served| && 0 <= j < |q| && IsKind(added, served[i], kind) ==> served[i] < q[j])
  }

  /** Requests of a kind are served in the order of submission. */
  ghost predicate ServedInOrder(added: seq<Submission>, served: seq<nat>) {
    && (forall i :: 0 <= i < |served| ==> served[i] < |added|)
    && (forall i, j, kind :: 0 <= i < j < |served| && IsKind(added, served[i], kind) && IsKind(added, served[j], kind) ==>
          served[i] < served[j])
  }

  ghost predicate InOrder(s: State) {
    && QueueInOrder(s.added, s.served, s.readQueue, Read)
    && QueueInOrder(s.added, s.served, s.writeQueue, Write)
    && ServedInOrder(s.added, s.served)
  }

  /** Only a queue that is being stopped lets the worker go. */
  ghost predicate StopFirst(s: State) {
    && (s.stopPosted ==> s.threadState != Running)
    && (s.worker == Closing || s.worker.Testing? || s.worker == Leaving ==> s.threadState != Running)
  }

  ghost predicate MarksFit(s: State) {
    && |s.marks| == |s.served| && s.emptied <= |s.added|
    && forall i :: 0 <= i < |s.marks| ==> s.marks[i].emptied <= |s.added| && s.marks[i].cancels <= |s.cancelled|
  }

  /** `served[i]` is a read. */
  ghost predicate ReadAt(s: State, i: nat) {
    i < |s.served| && i < |s.marks| && IsKind(s.added, s.served[i], Read)
  }

  /** When it is the turn of the reads, the queued writes came after the last round that found none. */
  ghost predicate TurnOfReads(s: State) {
    !s.writePhase ==> forall k :: 0 <= k < |s.writeQueue| ==> s.writeQueue[k] >= s.emptied
  }

  /** The ticket had left the queues when `served[i]` was popped. */
  ghost predicate GoneBefore(s: State, i: nat, ticket: nat)
    requires i < |s.served| && i < |s.marks|
  {
    ticket in s.served[..i] || (s.marks[i].cancels <= |s.cancelled| && ticket in s.cancelled[..s.marks[i].cancels])
  }

  ghost predicate ReadsWaited(s: State) {
    forall i: nat, w: nat :: ReadAt(s, i) && IsKind(s.added, w, Write) && w < s.marks[i].emptied ==> GoneBefore(s, i, w)
  }

  ghost predicate Turns(s: State) {
    MarksFit(s) && TurnOfReads(s) && ReadsWaited(s)
  }

  /** The requests of the cancels that found them. */
  ghost function Granted(answers: seq<Answer>): seq<Submission> {
    if answers == [] then []
    else
      var n := |answers| - 1;
      Granted(answers[..n]) + if answers[n].stillQueued then [answers[n].what] else []
  }

  /** The requests behind the tickets. */
  ghost function Named(added: seq<Submission>, tickets: seq<nat>): seq<Submission>
    requires forall i :: 0 <= i < |tickets| ==> tickets[i] < |added|
  {
    seq(|tickets|, i requires 0 <= i < |tickets| => added[tickets[i]])
  }

  /** The cancels that found their request have cancelled exactly that, in this order. */
  ghost predicate CancelsMatch(s: State) {
    (forall i :: 0 <= i < |s.cancelled| ==> s.cancelled[i] < |s.added|) && Granted(s.answers) == Named(s.added, s.cancelled)
  }

  /** The worker serves what it popped last, and only a worker that has left the loop ends the thread. */
  ghost predicate WorkerFits(s: State) {
    && (s.worker.Serving? ==> s.served != [] && s.worker.ticket == s.served[|s.served| - 1])
    && (s.threadState == Terminated ==> s.worker == Leaving)
  }

  ghost predicate Inv(s: State) {
    TokensMatch(s) && Ledger(s) && StopFirst(s) && Turns(s) && CancelsMatch(s) && WorkerFits(s)
  }

  // ----- every step keeps it

  lemma CallersChange(s: State, s': State, t: nat, posting: bool)
    requires s'.callers == s.callers - {t} || (t in s'.callers && s'.callers == s.callers[t := s'.callers[t]])
    ensures Threads(s', posting) - {t} == Threads(s, posting) - {t}
    ensures |Threads(s', posting)| == |Threads(s', posting) - {t}| + if t in Threads(s', posting) then 1 else 0
    ensures |Threads(s, posting)| == |Threads(s, posting) - {t}| + if t in Threads(s, posting) then 1 else 0
  {
    assert forall x :: x in Threads(s', posting) - {t} <==> x in Threads(s, posting) - {t};
  }

  lemma PushTokens(s: State, t: nat, what: Submission)
    requires TokensMatch(s) && t in s.callers && s.callers[t].Adding?
    ensures TokensMatch(Pushed(s, what).(callers := s.callers[t := Posting]))
  {
    var s' := Pushed(s, what).(callers := s.callers[t := Posting]);
    CallersChange(s, s', t, true);
    CallersChange(s, s', t, false);
    assert |s'.readQueue| + |s'.writeQueue| == |s.readQueue| + |s.writeQueue| + 1;
  }

  /** A thread enters an operation, or leaves it with the change of the semaphore that it owes. */
  lemma EnterTokens(s: State, t: nat, c: Caller)
    requires TokensMatch(s) && t !in s.callers && (c.Adding? || c.Cancelling?)
    ensures TokensMatch(s.(callers := s.callers[t := c]))
  {
    CallersChange(s, s.(callers := s.callers[t := c]), t, true);
    CallersChange(s, s.(callers := s.callers[t := c]), t, false);
  }

  lemma LeaveTokens(s: State, t: nat, sem: nat)
    requires TokensMatch(s) && t in s.callers
    requires sem == s.sem + (if s.callers[t].Posting? then 1 else if s.callers[t].Erased? then -1 else 0)
    ensures TokensMatch(s.(callers := s.callers - {t}, sem := sem))
  {
    CallersChange(s, s.(callers := s.callers - {t}, sem := sem), t, true);
    CallersChange(s, s.(callers := s.callers - {t}, sem := sem), t, false);
  }

  lemma AddTokens(s: State, e: Event)
    requires TokensMatch(s) && (e.AddCheck? || e.AddPush? || e.AddPost?) && AddStep(s, e).Some?
    ensures TokensMatch(AddStep(s, e).value)
  {
    match e
    case AddCheck(t, what) => EnterTokens(s, t, Adding(what));
    case AddPush(t) => PushTokens(s, t, s.callers[t].what);
    case AddPost(t) => LeaveTokens(s, t, s.sem + 1);
  }

  lemma EraseTokens(s: State, t: nat, kind: Kind, i: nat)
    requires TokensMatch(s) && t in s.callers && s.callers[t].Cancelling? && i < |Queue(s, kind)|
    ensures TokensMatch(ErasedAt(s, kind, i).(callers := s.callers[t := Erased(kind)]))
  {
    var s' := ErasedAt(s, kind, i).(callers := s.callers[t := Erased(kind)]);
    CallersChange(s, s', t, true);
    CallersChange(s, s', t, false);
    assert |s'.readQueue| + |s'.writeQueue| == |s.readQueue| + |s.writeQueue| - 1;
  }

  lemma CancelTokens(s: State, e: Event)
    requires TokensMatch(s) && (e.CancelCheck? || e.CancelErase? || e.CancelDown?) && CancelStep(s, e).Some?
    ensures TokensMatch(CancelStep(s, e).value)
  {
    match e
    case CancelCheck(t, what) => EnterTokens(s, t, Cancelling(what));
    case CancelErase(t) =>
      var what := s.callers[t].what;
      if Found(s, what) {
        EraseTokens(s, t, what.kind, Place(s, what));
      } else {
        LeaveTokens(s, t, s.sem);
      }
    case CancelDown(t) => LeaveTokens(s, t, s.sem - 1);
  }

  lemma WorkerTokensKept(s: State, e: Event)
    requires TokensMatch(s) && WorkerStep(s, e).Some?
    ensures TokensMatch(WorkerStep(s, e).value)
  {
    var s' := WorkerStep(s, e).value;
    assert Threads(s', true) == Threads(s, true) && Threads(s', false) == Threads(s, false);
    if e.WorkerPop? && Queue(s, PhaseKind(s)) != [] {
      assert |s'.readQueue| + |s'.writeQueue| == |s.readQueue| + |s.writeQueue| - 1;
    }
  }

  lemma StopTokensKept(s: State, e: Event)
    requires TokensMatch(s) && (e.StopSet? || e.StopPost?) && StopStep(s, e).Some?
    ensures TokensMatch(StopStep(s, e).value)
  {
    var s' := StopStep(s, e).value;
    assert Threads(s', true) == Threads(s, true) && Threads(s', false) == Threads(s, false);
  }

  ghost predicate Ledger(s: State) {
    EachOnce(s) && InOrder(s)
  }

  ghost predicate SameLedger(s: State, s': State) {
    && s'.readQueue == s.readQueue && s'.writeQueue == s.writeQueue
    && s'.added == s.added && s'.served == s.served && s'.cancelled == s.cancelled
  }

  lemma PushedOnce(s: State, what: Submission)
    requires EachOnce(s)
    ensures EachOnce(Pushed(s, what))
  {
    var q := Queue(s, what.kind);
    assert Tickets(|s.added| + 1) == Tickets(|s.added|) + [|s.added|];
    assert multiset(q + [|s.added|]) == multiset(q) + multiset{|s.added|};
  }

  lemma LogGrows(added: seq<Submission>, what: Submission, served: seq<nat>, q: seq<nat>, kind: Kind)
    requires QueueInOrder(added, served, q, kind) && ServedInOrder(added, served)
    ensures QueueInOrder(added + [what], served, q, kind)
  {
    forall ticket: nat, k | ticket < |added| ensures IsKind(added + [what], ticket, k) == IsKind(added, ticket, k) {
    }
  }

  lemma ServedLogGrows(added: seq<Submission>, what: Submission, served: seq<nat>)
    requires ServedInOrder(added, served)
    ensures ServedInOrder(added + [what], served)
  {
    forall ticket: nat, k | ticket < |added| ensures IsKind(added + [what], ticket, k) == IsKind(added, ticket, k) {
    }
  }

  lemma QueueGrows(added: seq<Submission>, what: Submission, served: seq<nat>, q: seq<nat>)
    requires QueueInOrder(added, served, q, what.kind) && ServedInOrder(added, served)
    ensures QueueInOrder(added + [what], served, q + [|added|], what.kind)
  {
    LogGrows(added, what, served, q, what.kind);
  }

  lemma PushedInOrder(s: State, what: Submission)
    requires InOrder(s)
    ensures InOrder(Pushed(s, what))
  {
    ServedLogGrows(s.added, what, s.served);
    if what.kind == Read {
      QueueGrows(s.added, what, s.served, s.readQueue);
      LogGrows(s.added, what, s.served, s.writeQueue, Write);
    } else {
      QueueGrows(s.added, what, s.served, s.writeQueue);
      LogGrows(s.added, what, s.served, s.readQueue, Read);
    }
  }

  lemma ErasedOnce(s: State, kind: Kind, i: nat)
    requires EachOnce(s) && i < |Queue(s, kind)|
    ensures EachOnce(ErasedAt(s, kind, i))
  {
    var q := Queue(s, kind);
    assert q == q[..i] + [q[i]] + q[i + 1..];
  }

  lemma QueueShrinks(added: seq<Submission>, served: seq<nat>, q: seq<nat>, kind: Kind, i: nat)
    requires QueueInOrder(added, served, q, kind) && i < |q|
    ensures QueueInOrder(added, served, q[..i] + q[i + 1..], kind)
  {
    var q' := q[..i] + q[i + 1..];
    assert forall j :: 0 <= j < |q'| ==> q'[j] == if j < i then q[j] else q[j + 1];
  }

  lemma ErasedInOrder(s: State, kind: Kind, i: nat)
    requires InOrder(s) && i < |Queue(s, kind)|
    ensures InOrder(ErasedAt(s, kind, i))
  {
    QueueShrinks(s.added, s.served, Queue(s, kind), kind, i);
  }

  lemma PoppedOnce(s: State, kind: Kind)
    requires EachOnce(s) && Queue(s, kind) != []
    ensures EachOnce(Popped(s, kind))
  {
    var q := Queue(s, kind);
    assert q == [q[0]] + q[1..];
  }

  lemma ServedGrows(added: seq<Submission>, served: seq<nat>, q: seq<nat>, kind: Kind)
    requires QueueInOrder(added, served, q, kind) && ServedInOrder(added, served) && q != []
    ensures ServedInOrder(added, served + [q[0]])
    ensures QueueInOrder(added, served + [q[0]], q[1..], kind)
  {
    assert IsKind(added, q[0], kind);
  }

  lemma OtherServed(added: seq<Submission>, served: seq<nat>, q: seq<nat>, kind: Kind, ticket: nat)
    requires QueueInOrder(added, served, q, kind) && !IsKind(added, ticket, kind)
    ensures QueueInOrder(added, served + [ticket], q, kind)
  {
  }

  lemma PoppedInOrder(s: State, kind: Kind)
    requires InOrder(s) && Queue(s, kind) != []
    ensures InOrder(Popped(s, kind))
  {
    var q := Queue(s, kind);
    assert IsKind(s.added, q[0], kind);
    ServedGrows(s.added, s.served, q, kind);
    if kind == Read {
      OtherServed(s.added, s.served, s.writeQueue, Write, q[0]);
    } else {
      OtherServed(s.added, s.served, s.readQueue, Read, q[0]);
    }
  }

  lemma LedgerSame(s: State, s': State)
    requires Ledger(s) && SameLedger(s, s')
    ensures Ledger(s')
  {
  }

  lemma AddLedger(s: State, e: Event)
    requires Ledger(s) && (e.AddCheck? || e.AddPush? || e.AddPost?) && AddStep(s, e).Some?
    ensures Ledger(AddStep(s, e).value)
  {
    if e.AddPush? {
      var what := s.callers[e.thread].what;
      PushedOnce(s, what);
      PushedInOrder(s, what);
      LedgerSame(Pushed(s, what), AddStep(s, e).value);
    } else {
      LedgerSame(s, AddStep(s, e).value);
    }
  }

  lemma CancelLedger(s: State, e: Event)
    requires Ledger(s) && (e.CancelCheck? || e.CancelErase? || e.CancelDown?) && CancelStep(s, e).Some?
    ensures Ledger(CancelStep(s, e).value)
  {
    if e.CancelErase? && Found(s, s.callers[e.thread].what) {
      var what := s.callers[e.thread].what;
      ErasedOnce(s, what.kind, Place(s, what));
      ErasedInOrder(s, what.kind, Place(s, what));
      LedgerSame(ErasedAt(s, what.kind, Place(s, what)), CancelStep(s, e).value);
    } else {
      LedgerSame(s, CancelStep(s, e).value);
    }
  }

  lemma WorkerLedger(s: State, e: Event)
    requires Ledger(s) && WorkerStep(s, e).Some?
    ensures Ledger(WorkerStep(s, e).value)
  {
    PopLogged(s, e);
    if e.WorkerPop? && Queue(s, PhaseKind(s)) != [] {
      PoppedOnce(s, PhaseKind(s));
      PoppedInOrder(s, PhaseKind(s));
      LedgerSame(Popped(s, PhaseKind(s)), WorkerStep(s, e).value);
    } else {
      LedgerSame(s, WorkerStep(s, e).value);
    }
  }

  /** What a step of the worker does to the log. */
  lemma PopLogged(s: State, e: Event)
    requires WorkerStep(s, e).Some?
    ensures
      var popped := if e.WorkerPop? && Queue(s, PhaseKind(s)) != [] then Popped(s, PhaseKind(s)) else s;
      SameLedger(popped, WorkerStep(s, e).value)
  {
  }

  lemma LedgerKept(s: State, e: Event)
    requires Ledger(s) && Next(s, e).Some?
    ensures Ledger(Next(s, e).value)
  {
    if e.AddCheck? || e.AddPush? || e.AddPost? {
      AddLedger(s, e);
    } else if e.CancelCheck? || e.CancelErase? || e.CancelDown? {
      CancelLedger(s, e);
    } else if e.StopSet? || e.StopPost? {
      LedgerSame(s, StopStep(s, e).value);
    } else {
      WorkerLedger(s, e);
    }
  }

  lemma TokensKept(s: State, e: Event)
    requires TokensMatch(s) && Next(s, e).Some?
    ensures TokensMatch(Next(s, e).value)
  {
    if e.AddCheck? || e.AddPush? || e.AddPost? {
      AddTokens(s, e);
    } else if e.CancelCheck? || e.CancelErase? || e.CancelDown? {
      CancelTokens(s, e);
    } else if e.StopSet? || e.StopPost? {
      StopTokensKept(s, e);
    } else {
      WorkerTokensKept(s, e);
    }
  }

  lemma StopFirstKept(s: State, e: Event)
    requires StopFirst(s) && Next(s, e).Some?
    ensures StopFirst(Next(s, e).value)
  {
  }

  // the turns of reads and writes

  lemma SameTurns(s: State, s': State)
    requires Turns(s) && SameLedger(s, s') && s'.marks == s.marks && s'.emptied == s.emptied && (s.writePhase == s'.writePhase || s'.writePhase)
    ensures Turns(s')
  {
    assert forall i: nat :: ReadAt(s', i) == ReadAt(s, i);
    assert forall i: nat, w :: ReadAt(s, i) && GoneBefore(s, i, w) ==> GoneBefore(s', i, w);
  }

  lemma PushedTurns(s: State, what: Submission)
    requires Turns(s) && ServedInOrder(s.added, s.served)
    ensures Turns(Pushed(s, what))
  {
    var s' := Pushed(s, what);
    forall ticket: nat, k | ticket < |s.added| ensures IsKind(s'.added, ticket, k) == IsKind(s.added, ticket, k) {
    }
    assert forall i: nat :: ReadAt(s', i) == ReadAt(s, i);
    assert forall i: nat, w :: ReadAt(s, i) && GoneBefore(s, i, w) ==> GoneBefore(s', i, w);
  }

  lemma ErasedTurns(s: State, kind: Kind, k: nat)
    requires Turns(s) && k < |Queue(s, kind)|
    ensures Turns(ErasedAt(s, kind, k))
  {
    var s' := ErasedAt(s, kind, k);
    assert forall i: nat :: ReadAt(s', i) == ReadAt(s, i);
    forall i: nat, w: nat | ReadAt(s, i) && GoneBefore(s, i, w) ensures GoneBefore(s', i, w) {
      assert s'.cancelled[..s.marks[i].cancels] == s.cancelled[..s.marks[i].cancels];
    }
  }

  /** A round that found no write: from here on the queued writes are later ones. */
  lemma EmptyTurns(s: State, s': State)
    requires Turns(s) && s.writePhase && s.writeQueue == [] && s' == FoundEmpty(s).(worker := s'.worker, writePhase := false)
    ensures Turns(s')
  {
    assert forall i: nat :: ReadAt(s', i) == ReadAt(s, i);
    assert forall i: nat, w :: ReadAt(s, i) && GoneBefore(s, i, w) ==> GoneBefore(s', i, w);
  }

  /** A write of an earlier round that is not queued any more was served or cancelled. */
  lemma NotQueued(s: State, w: nat)
    requires Ledger(s) && IsKind(s.added, w, Write) && w !in s.writeQueue
    ensures w in s.served || w in s.cancelled
  {
    TicketsOnce(|s.added|, w);
    var all := multiset(s.readQueue) + multiset(s.writeQueue) + multiset(s.served) + multiset(s.cancelled);
    assert all[w] == multiset(Tickets(|s.added|))[w] == 1;
    assert w !in s.readQueue;
  }

  lemma PoppedMarks(s: State, kind: Kind)
    requires MarksFit(s) && Queue(s, kind) != []
    ensures MarksFit(Popped(s, kind))
  {
  }

  lemma GoneStays(s: State, kind: Kind, i: nat, w: nat)
    requires MarksFit(s) && Queue(s, kind) != [] && i < |s.served| && GoneBefore(s, i, w)
    ensures MarksFit(Popped(s, kind)) && GoneBefore(Popped(s, kind), i, w)
  {
    assert Popped(s, kind).served[..i] == s.served[..i];
  }

  lemma PoppedWrite(s: State, s': State)
    requires Turns(s) && Ledger(s) && s.writePhase && s.writeQueue != []
    requires s' == Popped(s, Write).(worker := s'.worker, writePhase := true)
    ensures Turns(s')
  {
    var p := Popped(s, Write);
    PoppedMarks(s, Write);
    assert IsKind(s.added, s.writeQueue[0], Write);
    assert forall i: nat :: ReadAt(p, i) == ReadAt(s, i);
    forall i: nat, w: nat | ReadAt(p, i) && IsKind(p.added, w, Write) && w < p.marks[i].emptied ensures GoneBefore(p, i, w) {
      GoneStays(s, Write, i, w);
    }
    SameTurns(p, s');
  }

  lemma PoppedRead(s: State, s': State)
    requires Turns(s) && Ledger(s) && !s.writePhase && s.readQueue != []
    requires s' == Popped(s, Read).(worker := s'.worker, writePhase := true)
    ensures Turns(s')
  {
    var p := Popped(s, Read).(writePhase := true);
    PoppedMarks(s, Read);
    assert forall i: nat :: i < |s.served| ==> ReadAt(p, i) == ReadAt(s, i);
    forall i: nat, w: nat | ReadAt(p, i) && IsKind(p.added, w, Write) && w < p.marks[i].emptied ensures GoneBefore(p, i, w) {
      if i < |s.served| {
        GoneStays(s, Read, i, w);
      } else {
        NotQueued(s, w);
        assert p.served[..i] == s.served && p.cancelled[..p.marks[i].cancels] == s.cancelled;
      }
    }
    SameTurns(p, s');
  }

  lemma PopTurns(s: State)
    requires Turns(s) && Ledger(s) && WorkerStep(s, WorkerPop).Some?
    ensures Turns(WorkerStep(s, WorkerPop).value)
  {
    var s' := WorkerStep(s, WorkerPop).value;
    if Queue(s, PhaseKind(s)) == [] {
      if s.writePhase {
        EmptyTurns(s, s');
      } else {
        SameTurns(s, s');
      }
    } else if s.writePhase {
      PoppedWrite(s, s');
    } else {
      PoppedRead(s, s');
    }
  }

  lemma AddTurns(s: State, e: Event)
    requires Turns(s) && Ledger(s) && (e.AddCheck? || e.AddPush? || e.AddPost?) && AddStep(s, e).Some?
    ensures Turns(AddStep(s, e).value)
  {
    if e.AddPush? {
      PushedTurns(s, s.callers[e.thread].what);
      SameTurns(Pushed(s, s.callers[e.thread].what), AddStep(s, e).value);
    } else {
      SameTurns(s, AddStep(s, e).value);
    }
  }

  lemma CancelTurns(s: State, e: Event)
    requires Turns(s) && (e.CancelCheck? || e.CancelErase? || e.CancelDown?) && CancelStep(s, e).Some?
    ensures Turns(CancelStep(s, e).value)
  {
    if e.CancelErase? && Found(s, s.callers[e.thread].what) {
      var what := s.callers[e.thread].what;
      ErasedTurns(s, what.kind, Place(s, what));
      SameTurns(ErasedAt(s, what.kind, Place(s, what)), CancelStep(s, e).value);
    } else {
      SameTurns(s, CancelStep(s, e).value);
    }
  }

  lemma WorkerTurns(s: State, e: Event)
    requires Turns(s) && Ledger(s) && WorkerStep(s, e).Some?
    ensures Turns(WorkerStep(s, e).value)
  {
    if e.WorkerPop? {
      PopTurns(s);
    } else {
      SameTurns(s, WorkerStep(s, e).value);
    }
  }

  lemma TurnsKept(s: State, e: Event)
    requires Turns(s) && Ledger(s) && Next(s, e).Some?
    ensures Turns(Next(s, e).value)
  {
    if e.AddCheck? || e.AddPush? || e.AddPost? {
      AddTurns(s, e);
    } else if e.CancelCheck? || e.CancelErase? || e.CancelDown? {
      CancelTurns(s, e);
    } else if e.StopSet? || e.StopPost? {
      SameTurns(s, StopStep(s, e).value);
    } else {
      WorkerTurns(s, e);
    }
  }

  // the answers of the cancels

  lemma SameCancels(s: State, s': State)
    requires CancelsMatch(s) && s.added <= s'.added && s'.cancelled == s.cancelled && s'.answers == s.answers
    ensures CancelsMatch(s')
  {
    assert Named(s'.added, s'.cancelled) == Named(s.added, s.cancelled);
  }

  lemma GrantedNext(answers: seq<Answer>, a: Answer)
    ensures Granted(answers + [a]) == Granted(answers) + if a.stillQueued then [a.what] else []
  {
    assert (answers + [a])[..|answers|] == answers;
  }

  lemma NamedNext(added: seq<Submission>, tickets: seq<nat>, x: nat)
    requires x < |added| && forall i :: 0 <= i < |tickets| ==> tickets[i] < |added|
    ensures Named(added, tickets + [x]) == Named(added, tickets) + [added[x]]
  {
  }

  /** What a search and erase does to the log. */
  lemma EraseLogged(s: State, t: nat)
    requires CancelStep(s, CancelErase(t)).Some?
    ensures
      var s', what := CancelStep(s, CancelErase(t)).value, s.callers[t].what;
      && s'.added == s.added && s'.answers == s.answers + [Answer(what, Found(s, what))]
      && if Found(s, what) then
        var x := Queue(s, what.kind)[Place(s, what)];
        x < |s.added| && s.added[x] == what && s'.cancelled == s.cancelled + [x]
      else s'.cancelled == s.cancelled
  {
  }

  lemma AnswerKept(s: State, t: nat)
    requires CancelsMatch(s) && CancelStep(s, CancelErase(t)).Some?
    ensures CancelsMatch(CancelStep(s, CancelErase(t)).value)
  {
    var what := s.callers[t].what;
    EraseLogged(s, t);
    GrantedNext(s.answers, Answer(what, Found(s, what)));
    if Found(s, what) {
      NamedNext(s.added, s.cancelled, Queue(s, what.kind)[Place(s, what)]);
    }
  }

  lemma CancelsKept(s: State, e: Event)
    requires CancelsMatch(s) && Next(s, e).Some?
    ensures CancelsMatch(Next(s, e).value)
  {
    if e.CancelErase? {
      AnswerKept(s, e.thread);
    } else {
      SameCancels(s, Next(s, e).value);
    }
  }

  lemma WorkerFitsKept(s: State, e: Event)
    requires WorkerFits(s) && Next(s, e).Some?
    ensures WorkerFits(Next(s, e).value)
  {
  }

  lemma StepKeeps(s: State, e: Event)
    requires Inv(s) && Next(s, e).Some?
    ensures Inv(Next(s, e).value)
  {
    CancelsKept(s, e);
    WorkerFitsKept(s, e);
    TurnsKept(s, e);
    TokensKept(s, e);
    LedgerKept(s, e);
    StopFirstKept(s, e);
  }

  lemma {:induction false} RunKeeps(s: State, events: seq<Event>)
    requires Inv(s) && Run(s, events).Some?
    ensures Inv(Run(s, events).value)
    decreases |events|
  {
    if events == [] {
    } else {
      StepKeeps(s, events[0]);
      RunKeeps(Next(s, events[0]).value, events[1..]);
    }
  }

  // ----- what the invariant is for

  lemma InitialKept()
    ensures Inv(INITIAL)
  {
    var s := INITIAL;
    assert Threads(s, true) == {} && Threads(s, false) == {};
    assert Tickets(0) == [];
  }

  ghost predicate Reachable(s: State) {
    exists events :: Run(INITIAL, events) == Some(s)
  }

  lemma ReachableInv(s: State)
    requires Reachable(s)
    ensures Inv(s)
  {
    var events :| Run(INITIAL, events) == Some(s);
    InitialKept();
    RunKeeps(INITIAL, events);
  }

  lemma {:induction false} TicketsOnce(n: nat, ticket: nat)
    ensures multiset(Tickets(n))[ticket] == if ticket < n then 1 else 0
  {
    if n == 0 {
    } else {
      TicketsOnce(n - 1, ticket);
      assert Tickets(n) == Tickets(n - 1) + [n - 1];
    }
  }

  /** Over all interleavings, a submitted request is queued, or was served once, or was cancelled once; and never two of
      these.
   */
  lemma LeavesOnce(s: State, ticket: nat)
    requires Reachable(s)
    ensures multiset(s.readQueue)[ticket] + multiset(s.writeQueue)[ticket] + multiset(s.served)[ticket] + multiset(s.cancelled)[ticket]
            == if ticket < |s.added| then 1 else 0
  {
    ReachableInv(s);
    TicketsOnce(|s.added|, ticket);
    var all := multiset(s.readQueue) + multiset(s.writeQueue) + multiset(s.served) + multiset(s.cancelled);
    assert all[ticket] == multiset(Tickets(|s.added|))[ticket];
  }

  /** Over all interleavings, the requests of a kind are served in the order of their submission. */
  lemma FirstInFirstOut(s: State, i: nat, j: nat)
    requires Reachable(s) && i < j < |s.served| && s.served[i] < |s.added| && s.served[j] < |s.added|
    requires s.added[s.served[i]].kind == s.added[s.served[j]].kind
    ensures s.served[i] < s.served[j]
  {
    ReachableInv(s);
    assert IsKind(s.added, s.served[i], s.added[s.served[i]].kind) && IsKind(s.added, s.served[j], s.added[s.served[i]].kind);
  }

  /** Over all interleavings, when a read may be popped, every queued write was pushed after the round that found none. */
  lemma QueuedLater(s: State, w: nat)
    requires Reachable(s) && !s.writePhase && w in s.writeQueue
    ensures w >= s.emptied
  {
    ReachableInv(s);
  }

  /** Over all interleavings, a read is served only after every write that was queued at the worker's last look at the
      writes: each of them was served or cancelled before the read was popped.
   */
  lemma WritesComeFirst(s: State, i: nat, w: nat)
    requires Reachable(s) && i < |s.served| && IsKind(s.added, s.served[i], Read) && IsKind(s.added, w, Write)
    ensures |s.marks| == |s.served| && (w < s.marks[i].emptied ==> GoneBefore(s, i, w))
  {
    ReachableInv(s);
    assert ReadAt(s, i);
  }

  /** What one step does to the log, the queue of the writes and the served requests. */
  ghost predicate Grows(s: State, s': State) {
    && s.added <= s'.added
    && (forall w: nat :: w in s'.writeQueue ==> w in s.writeQueue || w >= |s.added|)
    && (s'.served == s.served || (|s'.served| == |s.served| + 1 && s.served <= s'.served))
  }

  lemma CancelGrows(s: State, e: Event)
    requires (e.CancelCheck? || e.CancelErase? || e.CancelDown?) && CancelStep(s, e).Some?
    ensures Grows(s, CancelStep(s, e).value)
  {
  }

  lemma WorkerGrows(s: State, e: Event)
    requires WorkerStep(s, e).Some?
    ensures Grows(s, WorkerStep(s, e).value)
  {
  }

  lemma StepGrows(s: State, e: Event)
    requires Next(s, e).Some?
    ensures Grows(s, Next(s, e).value)
  {
    if e.CancelCheck? || e.CancelErase? || e.CancelDown? {
      CancelGrows(s, e);
    } else if !(e.AddCheck? || e.AddPush? || e.AddPost? || e.StopSet? || e.StopPost?) {
      WorkerGrows(s, e);
    }
  }

  /** While a write is queued, the worker stays in the write phase, and comes back to it with its next round. */
  lemma StepServes(s: State, e: Event, w: nat)
    requires Ledger(s) && Next(s, e).Some? && w in s.writeQueue
    ensures
      var s' := Next(s, e).value;
      && (s.writePhase || s'.served != s.served ==> s'.writePhase)
      && (s.writePhase && s'.served != s.served ==> IsKind(s'.added, s'.served[|s'.served| - 1], Write))
  {
    if !e.WorkerPop? {
      OnlyPopServes(s, e);
    } else if s.writePhase {
      assert IsKind(s.added, s.writeQueue[0], Write);
    }
  }

  lemma OnlyPopServes(s: State, e: Event)
    requires Next(s, e).Some? && !e.WorkerPop?
    ensures Next(s, e).value.served == s.served && Next(s, e).value.writePhase == s.writePhase
  {
  }

  lemma {:induction false} NeverQueuedAgain(s: State, events: seq<Event>, w: nat)
    requires Inv(s) && Run(s, events).Some? && w < |s.added| && w !in s.writeQueue
    ensures w !in Run(s, events).value.writeQueue
    decreases |events|
  {
    if events == [] {
    } else {
      StepGrows(s, events[0]);
      StepKeeps(s, events[0]);
      NeverQueuedAgain(Next(s, events[0]).value, events[1..], w);
    }
  }

  /** Of the requests from place `from` on, all but perhaps the first are writes; all of them if `strict`. */
  ghost predicate OnlyWrites(s: State, from: nat, strict: bool) {
    forall i :: from <= i < |s.served| && (strict || from < i) ==> IsKind(s.added, s.served[i], Write)
  }

  lemma {:induction false} ServedWhileQueued(s: State, events: seq<Event>, w: nat)
    requires Inv(s) && Run(s, events).Some? && w in s.writeQueue && w in Run(s, events).value.writeQueue
    ensures
      var s' := Run(s, events).value;
      s.added <= s'.added && s.served <= s'.served && OnlyWrites(s', |s.served|, s.writePhase)
    decreases |events|
  {
    if events == [] {
    } else {
      var s1 := Next(s, events[0]).value;
      StepKeeps(s, events[0]);
      StepGrows(s, events[0]);
      StepServes(s, events[0], w);
      QueuedNow(s, w);
      if w !in s1.writeQueue {
        NeverQueuedAgain(s1, events[1..], w);
      }
      ServedWhileQueued(s1, events[1..], w);
      ServedFirst(s, s1, Run(s, events).value);
    }
  }

  lemma QueuedNow(s: State, w: nat)
    requires Ledger(s) && w in s.writeQueue
    ensures w < |s.added|
  {
    var k :| 0 <= k < |s.writeQueue| && s.writeQueue[k] == w;
    assert IsKind(s.added, s.writeQueue[k], Write);
  }

  lemma ServedFirst(s: State, s1: State, s': State)
    requires s1.added <= s'.added && s1.served <= s'.served && OnlyWrites(s', |s1.served|, s1.writePhase)
    requires s1.served == s.served || (|s1.served| == |s.served| + 1 && s.served <= s1.served)
    requires s.writePhase || s1.served != s.served ==> s1.writePhase
    requires s.writePhase && s1.served != s.served ==> IsKind(s1.added, s1.served[|s1.served| - 1], Write)
    ensures s.served <= s'.served && OnlyWrites(s', |s.served|, s.writePhase)
  {
    if s1.served != s.served && s.writePhase {
      assert IsKind(s'.added, s'.served[|s.served|], Write);
    }
  }

  /** Over all interleavings, while a write is queued the worker serves at most one read, and that before any write; it
      serves none if it was in its write phase when the write was queued.
   */
  lemma WaitsForOneRead(s: State, events: seq<Event>, w: nat)
    requires Reachable(s) && Run(s, events).Some? && w in s.writeQueue && w in Run(s, events).value.writeQueue
    ensures
      var s' := Run(s, events).value;
      && s.served <= s'.served
      && forall i :: |s.served| <= i < |s'.served| && (s.writePhase || |s.served| < i) ==> IsKind(s'.added, s'.served[i], Write)
  {
    ReachableInv(s);
    ServedWhileQueued(s, events, w);
  }

  /** The semaphore, the token of the worker and the adds that are not posted yet make up for the queued requests, the
      cancels that have not decremented yet and the posted stop token.
   */
  lemma Balance(s: State)
    requires Reachable(s)
    ensures s.sem + WorkerTokens(s.worker) + |Threads(s, true)| == |s.readQueue| + |s.writeQueue| + |Threads(s, false)| + StopTokens(s)
  {
    ReachableInv(s);
  }

  /** The worker blocks only when there is nothing to do: if it sleeps while nobody is inside of an operation, both
      queues are empty.
   */
  lemma SleepsOnlyIfEmpty(s: State)
    requires Reachable(s) && s.worker == Waiting && s.sem == 0 && s.callers == map[]
    ensures s.readQueue == [] && s.writeQueue == [] && !s.stopPosted
  {
    ReachableInv(s);
    assert Threads(s, true) == {} && Threads(s, false) == {};
  }

  /** A run is its first part and then the rest. */
  lemma {:induction false} RunSplit(s: State, first: seq<Event>, rest: seq<Event>)
    ensures Run(s, first + rest) == if Run(s, first).None? then None else Run(Run(s, first).value, rest)
    decreases |first|
  {
    if first == [] {
      assert first + rest == rest;
    } else {
      assert (first + rest)[1..] == first[1..] + rest;
      if Next(s, first[0]).Some? {
        RunSplit(Next(s, first[0]).value, first[1..], rest);
      }
    }
  }

  lemma RunOneMore(s: State, events: seq<Event>, e: Event)
    ensures Run(s, events + [e]) == if Run(s, events).None? then None else Next(Run(s, events).value, e)
  {
    RunSplit(s, events, [e]);
    if Run(s, events).Some? {
      var next := Next(Run(s, events).value, e);
      assert [e][1..] == [];
      assert next.Some? ==> Run(next.value, []) == next;
    }
  }

  lemma ReachableNext(s: State, e: Event)
    requires Reachable(s) && Next(s, e).Some?
    ensures Reachable(Next(s, e).value)
  {
    var events :| Run(INITIAL, events) == Some(s);
    RunOneMore(INITIAL, events, e);
    assert Run(INITIAL, events + [e]) == Some(Next(s, e).value);
  }
}
