/** The simulation of queued writing behind the prefetch schedule: its state, its steps, and what
    every step keeps.  The duality of Hutchinson, Sanders and Vitter ("Duality between prefetching
    and queued writing on parallel disks", 2005) runs it backwards: a block written late is
    prefetched early.
 */
module WriteSimulation {
  import opened Closed
  import opened Sorting

  /** Write completed. */
  datatype Event = Event(timestamp: nat, block: nat)

  /** The local variables of `simulate_async_write`: the next block to enter, the queues of the
      disks, the priority queue of events, the busy flags and the current time. */
  datatype Sim = Sim(i: int, queues: seq<seq<nat>>, events: set<Event>, busy: seq<bool>, oldtime: nat)

  /** Ghost record of the run: the time of every scheduled block, and the blocks written. */
  datatype Log = Log(time: map<nat, nat>, done: set<nat>)

  // ----- the invariant, in parts; `dk` gives the disk of each block

  ghost predicate Shape(dk: seq<nat>, s: Sim) {
    && -1 <= s.i < |dk|
    && |s.queues| == |s.busy|
    && (forall b :: 0 <= b < |dk| ==> dk[b] < |s.queues|)
  }

  /** Every block that entered is scheduled or waits, in decreasing order, in its disk's queue. */
  ghost predicate Placed(dk: seq<nat>, s: Sim, g: Log)
    requires Shape(dk, s)
  {
    && (forall b :: b in g.time ==> s.i < b < |dk|)
    && g.done <= g.time.Keys
    && (forall d, k :: 0 <= d < |s.queues| && 0 <= k < |s.queues[d]| ==>
          s.i < s.queues[d][k] < |dk| && dk[s.queues[d][k]] == d && s.queues[d][k] !in g.time)
    && (forall d, k, l :: 0 <= d < |s.queues| && 0 <= k < l < |s.queues[d]| ==> s.queues[d][l] < s.queues[d][k])
    && (forall b :: s.i < b < |dk| && b !in g.time ==> b in s.queues[dk[b]])
  }

  /** On one disk, a smaller block is written strictly later. */
  ghost predicate Later(dk: seq<nat>, g: Log) {
    forall b, c :: b in g.time && b < c < |dk| && dk[b] == dk[c] ==> c in g.time && g.time[c] < g.time[b]
  }

  ghost predicate Timed(s: Sim, g: Log)
  {
    forall b :: b in g.time ==>
      && 1 <= g.time[b] <= s.oldtime + 1
      && (if b in g.done then g.time[b] <= s.oldtime else g.time[b] >= s.oldtime)
  }

  /** A disk is busy when a block is scheduled on it for the next time step. */
  ghost predicate Flags(dk: seq<nat>, s: Sim, g: Log)
    requires Shape(dk, s) && Placed(dk, s, g)
  {
    forall b :: b in g.time && g.time[b] == s.oldtime + 1 ==> s.busy[dk[b]]
  }

  ghost predicate FlagsMeant(dk: seq<nat>, s: Sim, g: Log)
    requires Shape(dk, s) && Placed(dk, s, g)
  {
    forall d :: 0 <= d < |s.busy| && s.busy[d] ==> exists b :: b in g.time && dk[b] == d && g.time[b] == s.oldtime + 1
  }

  ghost predicate Pending(s: Sim, g: Log) {
    forall e :: e in s.events <==> e.block in g.time && e.block !in g.done && g.time[e.block] == e.timestamp
  }

  ghost predicate DiskPending(dk: seq<nat>, g: Log, d: nat) {
    exists b :: b in g.time && b !in g.done && b < |dk| && dk[b] == d
  }

  /** A disk with waiting blocks has a write under way; `except` is a disk still to be served. */
  ghost predicate Live(dk: seq<nat>, s: Sim, g: Log, except: int) {
    forall d :: 0 <= d < |s.queues| && d != except && s.queues[d] != [] ==> DiskPending(dk, g, d)
  }

  /** At most `m` blocks have entered and are not yet written. */
  ghost predicate Buffered(dk: seq<nat>, s: Sim, g: Log, m: int) {
    |dk| - 1 - s.i - |g.done| <= m
  }

  /** The larger blocks written after `b`, those without a time yet included. */
  ghost function Overtaken(n: nat, time: map<nat, nat>, b: nat): set<nat>
    requires b in time
  {
    set j | b < j < n && (j !in time || time[j] > time[b])
  }

  ghost predicate Bounded(dk: seq<nat>, g: Log, m: int) {
    forall b :: b in g.done && b in g.time ==> |Overtaken(|dk|, g.time, b)| <= m - 1
  }

  ghost predicate Safe(dk: seq<nat>, s: Sim, g: Log, m: int) {
    && Shape(dk, s)
    && Placed(dk, s, g)
    && Later(dk, g)
    && Timed(s, g)
    && Pending(s, g)
    && Bounded(dk, g, m)
    && s.oldtime <= |g.done|
  }

  // ----- scheduling the front of a queue

  function PopQueue(s: Sim, d: nat): Sim
    requires d < |s.queues| && s.queues[d] != []
  {
    s.(queues := s.queues[d := s.queues[d][1..]])
  }

  /** Event for the front of queue `d` at the next time step; the flag is not touched. */
  function Launch(s: Sim, d: nat): Sim
    requires d < |s.queues| && s.queues[d] != []
  {
    PopQueue(s, d).(events := s.events + {Event(s.oldtime + 1, s.queues[d][0])})
  }

  ghost function Scheduled(g: Log, b: nat, t: nat): Log {
    g.(time := g.time[b := t])
  }

  ghost predicate Idle(dk: seq<nat>, s: Sim, g: Log, d: nat) {
    forall b :: b in g.time && b < |dk| && dk[b] == d ==> g.time[b] <= s.oldtime
  }

  lemma LaunchPlaced(dk: seq<nat>, s: Sim, g: Log, d: nat)
    requires Shape(dk, s) && Placed(dk, s, g) && d < |s.queues| && s.queues[d] != []
    ensures Shape(dk, Launch(s, d)) && Placed(dk, Launch(s, d), Scheduled(g, s.queues[d][0], s.oldtime + 1))
  {
    var x, s', g' := s.queues[d][0], Launch(s, d), Scheduled(g, s.queues[d][0], s.oldtime + 1);
    forall b | s'.i < b < |dk| && b !in g'.time ensures b in s'.queues[dk[b]] {
      assert b in s.queues[dk[b]] && b != x;
    }
  }

  lemma LaunchLater(dk: seq<nat>, s: Sim, g: Log, d: nat)
    requires Shape(dk, s) && Placed(dk, s, g) && Later(dk, g) && d < |s.queues| && s.queues[d] != [] && Idle(dk, s, g, d)
    ensures Later(dk, Scheduled(g, s.queues[d][0], s.oldtime + 1))
  {
    var x, g' := s.queues[d][0], Scheduled(g, s.queues[d][0], s.oldtime + 1);
    assert forall c :: x < c < |dk| && dk[c] == d && c !in g.time ==> c in s.queues[d];
  }

  /** A newly scheduled block changes nothing for the blocks already written. */
  lemma ScheduledBounded(dk: seq<nat>, s: Sim, g: Log, b: nat, m: int)
    requires Timed(s, g) && Bounded(dk, g, m) && g.done <= g.time.Keys && b !in g.time
    ensures Bounded(dk, Scheduled(g, b, s.oldtime + 1), m)
  {
    var g' := Scheduled(g, b, s.oldtime + 1);
    forall c | c in g'.done && c in g'.time ensures |Overtaken(|dk|, g'.time, c)| <= m - 1 {
      assert Overtaken(|dk|, g'.time, c) == Overtaken(|dk|, g.time, c);
    }
  }

  lemma LaunchSafe(dk: seq<nat>, s: Sim, g: Log, d: nat, m: int)
    requires Safe(dk, s, g, m) && d < |s.queues| && s.queues[d] != [] && Idle(dk, s, g, d)
    ensures Safe(dk, Launch(s, d), Scheduled(g, s.queues[d][0], s.oldtime + 1), m)
    ensures DiskPending(dk, Scheduled(g, s.queues[d][0], s.oldtime + 1), d)
  {
    var x := s.queues[d][0];
    LaunchPlaced(dk, s, g, d);
    LaunchLater(dk, s, g, d);
    ScheduledBounded(dk, s, g, x, m);
    LaunchPending(dk, s, g, d);
  }

  lemma LaunchPending(dk: seq<nat>, s: Sim, g: Log, d: nat)
    requires Shape(dk, s) && Placed(dk, s, g) && Pending(s, g) && Timed(s, g) && d < |s.queues| && s.queues[d] != []
    ensures Pending(Launch(s, d), Scheduled(g, s.queues[d][0], s.oldtime + 1))
    ensures Timed(Launch(s, d), Scheduled(g, s.queues[d][0], s.oldtime + 1))
    ensures DiskPending(dk, Scheduled(g, s.queues[d][0], s.oldtime + 1), d)
  {
    var x, g' := s.queues[d][0], Scheduled(g, s.queues[d][0], s.oldtime + 1);
    assert x in g'.time && x !in g'.done && dk[x] == d;
  }

  lemma ScheduledLive(dk: seq<nat>, g: Log, b: nat, t: nat, d: nat)
    requires DiskPending(dk, g, d) && b !in g.time
    ensures DiskPending(dk, Scheduled(g, b, t), d)
  {
    var c :| c in g.time && c !in g.done && c < |dk| && dk[c] == d;
    assert c in Scheduled(g, b, t).time;
  }

  // ----- the three parts of an iteration

  /** After an event was taken off: what the rest of the iteration starts from. */
  ghost predicate Mid(dk: seq<nat>, s: Sim, g: Log, m: int, room: int, except: int) {
    && Safe(dk, s, g, m)
    && Live(dk, s, g, except)
    && Flags(dk, s, g) && FlagsMeant(dk, s, g)
    && Buffered(dk, s, g, room)
  }

  /** The loop invariant.  Before the first event the flags mean nothing. */
  ghost predicate Head(dk: seq<nat>, s: Sim, g: Log, m: int) {
    && Safe(dk, s, g, m)
    && Live(dk, s, g, -1)
    && (s.oldtime > 0 ==> Flags(dk, s, g) && FlagsMeant(dk, s, g))
    && Buffered(dk, s, g, m)
    && (s.i >= 0 ==> s.events != {})
  }

  ghost predicate IsTop(s: Sim, e: Event) {
    e in s.events && forall x :: x in s.events ==> e.timestamp <= x.timestamp
  }

  function AllFree(n: nat): (r: seq<bool>)
    ensures |r| == n && forall d :: 0 <= d < n ==> !r[d]
  {
    seq(n, _ => false)
  }

  function Pop(s: Sim, e: Event): Sim {
    s.(events := s.events - {e},
       busy := if s.oldtime != e.timestamp then AllFree(|s.busy|) else s.busy,
       oldtime := e.timestamp)
  }

  ghost function Written(g: Log, e: Event): Log {
    g.(done := g.done + {e.block})
  }

  ghost function Interval(lo: int, hi: int): (r: set<nat>)
    requires -1 <= lo < hi
    ensures |r| == hi - lo - 1
    ensures forall x: nat :: x in r <==> lo < x < hi
    decreases hi - lo
  {
    if lo + 1 == hi then {} else Interval(lo, hi - 1) + {hi - 1}
  }

  lemma StillInside(n: nat, i: int, done: set<nat>, others: set<nat>, m: int)
    requires -1 <= i < n && n - 1 - i - |done| <= m
    requires done <= Interval(i, n) && others <= Interval(i, n) - done
    ensures |others| <= m
  {
    SubsetSize(others, Interval(i, n) - done);
  }

  /** The heart of the schedule: when a block is written, fewer than `m` others are in the buffers,
      and every larger block still to be written is one of them. */
  lemma PopOvertaken(dk: seq<nat>, s: Sim, g: Log, m: int, e: Event)
    requires Shape(dk, s) && Placed(dk, s, g) && Timed(s, g) && Pending(s, g) && Buffered(dk, s, g, m) && IsTop(s, e)
    ensures |Overtaken(|dk|, g.time, e.block)| <= m - 1
    ensures |Written(g, e).done| == |g.done| + 1
  {
    var n, b := |dk|, e.block;
    var others, done := Overtaken(n, g.time, b), g.done + {b};
    assert forall j :: j in g.done ==> g.time[j] <= g.time[b];
    StillInside(n, s.i, done, others, m - 1);
  }

  lemma PopBounded(dk: seq<nat>, s: Sim, g: Log, m: int, e: Event)
    requires Safe(dk, s, g, m) && Buffered(dk, s, g, m) && IsTop(s, e)
    ensures Bounded(dk, Written(g, e), m)
  {
    PopOvertaken(dk, s, g, m, e);
  }

  lemma PopTimed(dk: seq<nat>, s: Sim, g: Log, e: Event)
    requires Shape(dk, s) && Placed(dk, s, g) && Timed(s, g) && Pending(s, g) && IsTop(s, e)
    ensures Shape(dk, Pop(s, e)) && Placed(dk, Pop(s, e), Written(g, e))
    ensures Timed(Pop(s, e), Written(g, e)) && Pending(Pop(s, e), Written(g, e))
    ensures s.oldtime <= e.timestamp <= s.oldtime + 1
  {
    assert e.block in g.time;
    forall b | b in g.time && b !in g.done ensures g.time[b] >= e.timestamp {
      assert Event(g.time[b], b) in s.events;
    }
  }

  lemma PopFlags(dk: seq<nat>, s: Sim, g: Log, m: int, e: Event)
    requires Head(dk, s, g, m) && IsTop(s, e)
    ensures Shape(dk, Pop(s, e)) && Placed(dk, Pop(s, e), Written(g, e))
    ensures Flags(dk, Pop(s, e), Written(g, e)) && FlagsMeant(dk, Pop(s, e), Written(g, e))
  {
    PopTimed(dk, s, g, e);
  }

  lemma PopSafe(dk: seq<nat>, s: Sim, g: Log, m: int, e: Event)
    requires Head(dk, s, g, m) && IsTop(s, e)
    ensures Safe(dk, Pop(s, e), Written(g, e), m)
    ensures Flags(dk, Pop(s, e), Written(g, e)) && FlagsMeant(dk, Pop(s, e), Written(g, e))
    ensures |Written(g, e).done| == |g.done| + 1
  {
    PopTimed(dk, s, g, e);
    PopFlags(dk, s, g, m, e);
    PopBounded(dk, s, g, m, e);
    PopOvertaken(dk, s, g, m, e);
  }

  lemma PopStep(dk: seq<nat>, s: Sim, g: Log, m: int, e: Event)
    requires Head(dk, s, g, m) && IsTop(s, e)
    ensures e.block < |dk| && Mid(dk, Pop(s, e), Written(g, e), m, m - 1, dk[e.block])
  {
    PopSafe(dk, s, g, m, e);
    forall d | 0 <= d < |s.queues| && d != dk[e.block] && s.queues[d] != [] ensures DiskPending(dk, Written(g, e), d) {
      var b :| b in g.time && b !in g.done && b < |dk| && dk[b] == d;
      assert b !in Written(g, e).done;
    }
  }

  function LaunchBusy(s: Sim, d: nat): Sim
    requires d < |s.queues| && |s.queues| == |s.busy| && s.queues[d] != []
  {
    Launch(s, d).(busy := s.busy[d := true])
  }

  lemma BusySafe(dk: seq<nat>, s: Sim, g: Log, m: int, d: nat)
    requires Safe(dk, s, g, m) && d < |s.busy|
    ensures Safe(dk, s.(busy := s.busy[d := true]), g, m)
  {
  }

  /** A flag that is set for a scheduled block keeps the meaning of all flags. */
  lemma BusyMeant(dk: seq<nat>, busy: seq<bool>, time: map<nat, nat>, now: nat, x: nat, d: nat, c: nat)
    requires x < |dk| && d < |busy| && dk[x] == d && x !in time && (forall b :: b in time ==> b < |dk|)
    requires forall c :: 0 <= c < |busy| && busy[c] ==> exists b :: b in time && dk[b] == c && time[b] == now
    requires c < |busy| && busy[d := true][c]
    ensures exists b :: b in time[x := now] && b < |dk| && dk[b] == c && time[x := now][b] == now
  {
    if c == d {
      assert x in time[x := now];
    } else {
      var b :| b in time && dk[b] == c && time[b] == now;
      assert b in time[x := now];
    }
  }

  lemma LaunchMeant(dk: seq<nat>, s: Sim, g: Log, d: nat)
    requires Shape(dk, s) && Placed(dk, s, g) && FlagsMeant(dk, s, g) && d < |s.queues| && s.queues[d] != []
    ensures
      var s', g' := LaunchBusy(s, d), Scheduled(g, s.queues[d][0], s.oldtime + 1);
      Shape(dk, s') && Placed(dk, s', g') && FlagsMeant(dk, s', g')
  {
    LaunchPlaced(dk, s, g, d);
    var x, s', g' := s.queues[d][0], LaunchBusy(s, d), Scheduled(g, s.queues[d][0], s.oldtime + 1);
    assert Placed(dk, s', g') by {
      assert s'.queues == Launch(s, d).queues && s'.i == Launch(s, d).i;
    }
    forall c: nat | c < |s'.busy| && s'.busy[c] ensures exists b :: b in g'.time && dk[b] == c && g'.time[b] == s'.oldtime + 1 {
      BusyMeant(dk, s.busy, g.time, s.oldtime + 1, x, d, c);
    }
  }

  lemma LaunchFlags(dk: seq<nat>, s: Sim, g: Log, m: int, d: nat)
    requires Safe(dk, s, g, m) && Flags(dk, s, g) && FlagsMeant(dk, s, g)
    requires d < |s.queues| && s.queues[d] != [] && !s.busy[d]
    ensures Safe(dk, LaunchBusy(s, d), Scheduled(g, s.queues[d][0], s.oldtime + 1), m)
    ensures Flags(dk, LaunchBusy(s, d), Scheduled(g, s.queues[d][0], s.oldtime + 1))
    ensures FlagsMeant(dk, LaunchBusy(s, d), Scheduled(g, s.queues[d][0], s.oldtime + 1))
  {
    LaunchSafe(dk, s, g, d, m);
    BusySafe(dk, Launch(s, d), Scheduled(g, s.queues[d][0], s.oldtime + 1), m, d);
    LaunchMeant(dk, s, g, d);
  }

  lemma LaunchStep(dk: seq<nat>, s: Sim, g: Log, m: int, room: int, except: int, d: nat)
    requires Mid(dk, s, g, m, room, except) && d < |s.queues| && s.queues[d] != [] && !s.busy[d]
    ensures Mid(dk, LaunchBusy(s, d), Scheduled(g, s.queues[d][0], s.oldtime + 1), m, room, if except == d then -1 else except)
    ensures LaunchBusy(s, d).events != {}
  {
    var x, s', g' := s.queues[d][0], LaunchBusy(s, d), Scheduled(g, s.queues[d][0], s.oldtime + 1);
    LaunchFlags(dk, s, g, m, d);
    LaunchPending(dk, s, g, d);
    forall c | 0 <= c < |s'.queues| && c != (if except == d then -1 else except) && s'.queues[c] != []
      ensures DiskPending(dk, g', c)
    {
      if c != d { ScheduledLive(dk, g, x, s.oldtime + 1, c); }
    }
    assert Event(s.oldtime + 1, x) in s'.events;
  }

  /** The next block comes in from the front of the sequence to be written. */
  function Enter(s: Sim, d: nat): Sim
    requires d < |s.queues| && |s.queues| == |s.busy| && s.i >= 0
  {
    if s.busy[d] then s.(queues := s.queues[d := s.queues[d] + [s.i]], i := s.i - 1)
    else if s.queues[d] != [] then LaunchBusy(s, d)
    else s.(events := s.events + {Event(s.oldtime + 1, s.i)}, i := s.i - 1, busy := s.busy[d := true])
  }

  ghost function EnterLog(s: Sim, g: Log, d: nat): Log
    requires d < |s.queues| && |s.queues| == |s.busy| && s.i >= 0
  {
    if s.busy[d] then g
    else Scheduled(g, if s.queues[d] != [] then s.queues[d][0] else s.i, s.oldtime + 1)
  }

  lemma EnterQueued(dk: seq<nat>, s: Sim, g: Log, m: int, room: int, except: int)
    requires Mid(dk, s, g, m, room - 1, except) && s.i >= 0 && s.busy[dk[s.i]]
    ensures Mid(dk, Enter(s, dk[s.i]), g, m, room, except)
    ensures Enter(s, dk[s.i]).events != {}
  {
    var d, s' := dk[s.i], Enter(s, dk[s.i]);
    var b :| b in g.time && dk[b] == d && g.time[b] == s.oldtime + 1;
    assert Event(s.oldtime + 1, b) in s.events;
    assert DiskPending(dk, g, d);
    EnterQueuedPlaced(dk, s, g);
  }

  lemma EnterQueuedMembers(dk: seq<nat>, s: Sim, g: Log, c: nat, k: nat)
    requires Shape(dk, s) && Placed(dk, s, g) && s.i >= 0 && c < |s.queues|
    requires var q := if c == dk[s.i] then s.queues[c] + [s.i] else s.queues[c]; k < |q|
    ensures var q := if c == dk[s.i] then s.queues[c] + [s.i] else s.queues[c];
            && s.i - 1 < q[k] < |dk| && dk[q[k]] == c && q[k] !in g.time
            && forall l :: k < l < |q| ==> q[l] < q[k]
  {
    var q := if c == dk[s.i] then s.queues[c] + [s.i] else s.queues[c];
    if k < |s.queues[c]| {
      assert q[k] == s.queues[c][k];
    }
  }

  lemma EnterQueuedCovers(dk: seq<nat>, s: Sim, g: Log, b: nat)
    requires Shape(dk, s) && Placed(dk, s, g) && s.i >= 0 && s.i - 1 < b < |dk| && b !in g.time
    ensures b in if dk[b] == dk[s.i] then s.queues[dk[b]] + [s.i] else s.queues[dk[b]]
  {
    if b != s.i {
      assert b in s.queues[dk[b]];
    }
  }

  lemma EnterQueuedPlaced(dk: seq<nat>, s: Sim, g: Log)
    requires Shape(dk, s) && Placed(dk, s, g) && s.i >= 0
    ensures var s' := s.(queues := s.queues[dk[s.i] := s.queues[dk[s.i]] + [s.i]], i := s.i - 1);
            Shape(dk, s') && Placed(dk, s', g)
  {
    var d := dk[s.i];
    var s' := s.(queues := s.queues[d := s.queues[d] + [s.i]], i := s.i - 1);
    forall c: nat, k: nat | c < |s'.queues| && k < |s'.queues[c]|
      ensures s'.i < s'.queues[c][k] < |dk| && dk[s'.queues[c][k]] == c && s'.queues[c][k] !in g.time
      ensures forall l :: k < l < |s'.queues[c]| ==> s'.queues[c][l] < s'.queues[c][k]
    {
      EnterQueuedMembers(dk, s, g, c, k);
    }
    forall b: nat | s'.i < b < |dk| && b !in g.time ensures b in s'.queues[dk[b]] {
      EnterQueuedCovers(dk, s, g, b);
    }
  }

  lemma EnterDirectLive(dk: seq<nat>, s: Sim, g: Log, except: int)
    requires Shape(dk, s) && Placed(dk, s, g) && Live(dk, s, g, except)
    requires s.i >= 0 && !s.busy[dk[s.i]] && s.queues[dk[s.i]] == []
    ensures Live(dk, Enter(s, dk[s.i]), EnterLog(s, g, dk[s.i]), except)
  {
    var d := dk[s.i];
    var s', g' := Enter(s, d), EnterLog(s, g, d);
    forall c | 0 <= c < |s'.queues| && c != except && s'.queues[c] != [] ensures DiskPending(dk, g', c) {
      ScheduledLive(dk, g, s.i, s.oldtime + 1, c);
    }
  }

  lemma EnterDirectMeant(dk: seq<nat>, s: Sim, g: Log)
    requires Shape(dk, s) && Placed(dk, s, g) && FlagsMeant(dk, s, g)
    requires s.i >= 0 && !s.busy[dk[s.i]] && s.queues[dk[s.i]] == []
    requires Shape(dk, Enter(s, dk[s.i])) && Placed(dk, Enter(s, dk[s.i]), EnterLog(s, g, dk[s.i]))
    ensures FlagsMeant(dk, Enter(s, dk[s.i]), EnterLog(s, g, dk[s.i]))
  {
    var d := dk[s.i];
    var s', g' := Enter(s, d), EnterLog(s, g, d);
    forall c: nat | c < |s'.busy| && s'.busy[c] ensures exists b :: b in g'.time && dk[b] == c && g'.time[b] == s'.oldtime + 1 {
      BusyMeant(dk, s.busy, g.time, s.oldtime + 1, s.i, d, c);
    }
  }

  lemma EnterDirect(dk: seq<nat>, s: Sim, g: Log, m: int, room: int, except: int)
    requires Mid(dk, s, g, m, room - 1, except) && s.i >= 0 && !s.busy[dk[s.i]] && s.queues[dk[s.i]] == []
    ensures Mid(dk, Enter(s, dk[s.i]), EnterLog(s, g, dk[s.i]), m, room, except)
    ensures Enter(s, dk[s.i]).events != {}
  {
    ScheduledBounded(dk, s, g, s.i, m);
    EnterDirectSafe(dk, s, g, m);
    EnterDirectLive(dk, s, g, except);
    EnterDirectMeant(dk, s, g);
    assert Event(s.oldtime + 1, s.i) in Enter(s, dk[s.i]).events;
  }

  lemma EnterDirectPlaced(dk: seq<nat>, s: Sim, g: Log)
    requires Shape(dk, s) && Placed(dk, s, g) && Timed(s, g) && Pending(s, g)
    requires s.i >= 0 && !s.busy[dk[s.i]] && s.queues[dk[s.i]] == []
    ensures Shape(dk, Enter(s, dk[s.i])) && Placed(dk, Enter(s, dk[s.i]), EnterLog(s, g, dk[s.i]))
    ensures Timed(Enter(s, dk[s.i]), EnterLog(s, g, dk[s.i])) && Pending(Enter(s, dk[s.i]), EnterLog(s, g, dk[s.i]))
  {
  }

  lemma EnterDirectLater(dk: seq<nat>, s: Sim, g: Log)
    requires Shape(dk, s) && Placed(dk, s, g) && Timed(s, g) && Later(dk, g) && Flags(dk, s, g)
    requires s.i >= 0 && !s.busy[dk[s.i]] && s.queues[dk[s.i]] == []
    ensures Later(dk, EnterLog(s, g, dk[s.i]))
  {
    assert forall c :: s.i < c < |dk| && dk[c] == dk[s.i] ==> c in g.time;
  }

  lemma EnterDirectSafe(dk: seq<nat>, s: Sim, g: Log, m: int)
    requires Safe(dk, s, g, m) && Flags(dk, s, g) && s.i >= 0 && !s.busy[dk[s.i]] && s.queues[dk[s.i]] == []
    ensures Safe(dk, Enter(s, dk[s.i]), EnterLog(s, g, dk[s.i]), m)
  {
    assert EnterLog(s, g, dk[s.i]) == Scheduled(g, s.i, s.oldtime + 1);
    ScheduledBounded(dk, s, g, s.i, m);
    EnterDirectPlaced(dk, s, g);
    EnterDirectLater(dk, s, g);
  }

  /** `Mid(dk, s, ...)`, phrased so that a proof that only passes it on does not look inside. */
  ghost predicate MidAt(dk: seq<nat>, s: Sim, g: Log, m: int, room: int, except: int) {
    Shape(dk, s) && forall t :: Same(t, s) ==> Mid(dk, t, g, m, room, except)
  }

  lemma OpenMid(dk: seq<nat>, s: Sim, g: Log, m: int, room: int, except: int)
    requires MidAt(dk, s, g, m, room, except)
    ensures Mid(dk, s, g, m, room, except)
  {
    assert Same(s, s);
  }

  lemma EnterBehind(dk: seq<nat>, s: Sim, g: Log, m: int, except: int)
    requires MidAt(dk, s, g, m, m - 1, except) && s.i >= 0 && s.busy[dk[s.i]]
    ensures MidAt(dk, Enter(s, dk[s.i]), g, m, m, except) && Enter(s, dk[s.i]).events != {}
  {
    OpenMid(dk, s, g, m, m - 1, except);
    EnterQueued(dk, s, g, m, m, except);
  }

  lemma EnterNot(dk: seq<nat>, s: Sim, g: Log, m: int, except: int)
    requires MidAt(dk, s, g, m, m - 1, except) && s.i >= 0 && !s.busy[dk[s.i]] && s.queues[dk[s.i]] != []
    ensures MidAt(dk, LaunchBusy(s, dk[s.i]), Scheduled(g, s.queues[dk[s.i]][0], s.oldtime + 1), m, m, except)
    ensures LaunchBusy(s, dk[s.i]).events != {}
  {
    OpenMid(dk, s, g, m, m - 1, except);
    LaunchStep(dk, s, g, m, m - 1, except, dk[s.i]);
  }

  lemma EnterAlone(dk: seq<nat>, s: Sim, g: Log, m: int, except: int)
    requires MidAt(dk, s, g, m, m - 1, except) && s.i >= 0 && !s.busy[dk[s.i]] && s.queues[dk[s.i]] == []
    ensures MidAt(dk, Enter(s, dk[s.i]), EnterLog(s, g, dk[s.i]), m, m, except) && Enter(s, dk[s.i]).events != {}
  {
    OpenMid(dk, s, g, m, m - 1, except);
    EnterDirect(dk, s, g, m, m, except);
  }

  lemma EnterStep(dk: seq<nat>, s: Sim, g: Log, m: int, except: int)
    requires MidAt(dk, s, g, m, m - 1, except) && s.i >= 0
    ensures Enter(s, dk[s.i]).events != {}
    ensures MidAt(dk, Enter(s, dk[s.i]), EnterLog(s, g, dk[s.i]), m, m, except)
  {
    if s.busy[dk[s.i]] {
      EnterBehind(dk, s, g, m, except);
    } else if s.queues[dk[s.i]] != [] {
      EnterNot(dk, s, g, m, except);
    } else {
      EnterAlone(dk, s, g, m, except);
    }
  }

  /** The disk of the written block goes on with the front of its queue. */
  function Next(s: Sim, d: nat): Sim
    requires d < |s.queues| && |s.queues| == |s.busy|
  {
    if !s.busy[d] && s.queues[d] != [] then LaunchBusy(s, d) else s
  }

  ghost function NextLog(s: Sim, g: Log, d: nat): Log
    requires d < |s.queues| && |s.queues| == |s.busy|
  {
    if !s.busy[d] && s.queues[d] != [] then Scheduled(g, s.queues[d][0], s.oldtime + 1) else g
  }

  lemma NextStep(dk: seq<nat>, s: Sim, g: Log, m: int, d: nat)
    requires MidAt(dk, s, g, m, m, d) && d < |s.queues| && (s.i >= 0 ==> s.events != {})
    ensures Head(dk, Next(s, d), NextLog(s, g, d), m)
  {
    OpenMid(dk, s, g, m, m, d);
    if !s.busy[d] && s.queues[d] != [] {
      LaunchStep(dk, s, g, m, m, d, d);
    } else if s.busy[d] {
      var b :| b in g.time && dk[b] == d && g.time[b] == s.oldtime + 1;
      assert DiskPending(dk, g, d);
    }
  }

  // ----- the whole iteration and the end of the run

  ghost predicate Extends(g: Log, h: Log) {
    h.done == g.done && forall b :: b in g.time ==> b in h.time && h.time[b] == g.time[b]
  }

  /** What one iteration does to the state; `dk` gives the disks. */
  ghost function Handle(dk: seq<nat>, s: Sim, e: Event): Sim
    requires Shape(dk, s) && e.block < |dk|
  {
    var p := Pop(s, e);
    var q := if p.i >= 0 then Enter(p, dk[p.i]) else p;
    Next(q, dk[e.block])
  }

  ghost function HandleLog(dk: seq<nat>, s: Sim, g: Log, e: Event): Log
    requires Shape(dk, s) && e.block < |dk|
  {
    var p, h := Pop(s, e), Written(g, e);
    var q, h' := if p.i >= 0 then Enter(p, dk[p.i]) else p, if p.i >= 0 then EnterLog(p, h, dk[p.i]) else h;
    NextLog(q, h', dk[e.block])
  }

  lemma EnterExtends(dk: seq<nat>, s: Sim, g: Log, m: int, room: int, except: int)
    requires MidAt(dk, s, g, m, room, except) && s.i >= 0
    ensures Extends(g, EnterLog(s, g, dk[s.i]))
  {
    OpenMid(dk, s, g, m, room, except);
  }

  lemma NextExtends(dk: seq<nat>, s: Sim, g: Log, m: int, room: int, d: nat)
    requires MidAt(dk, s, g, m, room, d) && d < |s.queues|
    ensures Extends(g, NextLog(s, g, d))
  {
    OpenMid(dk, s, g, m, room, d);
  }

  lemma MoreRoom(dk: seq<nat>, s: Sim, g: Log, m: int, except: int)
    requires MidAt(dk, s, g, m, m - 1, except)
    ensures MidAt(dk, s, g, m, m, except)
  {
    OpenMid(dk, s, g, m, m - 1, except);
  }

  lemma PopMid(dk: seq<nat>, s: Sim, g: Log, m: int, e: Event)
    requires Head(dk, s, g, m) && IsTop(s, e)
    ensures e.block < |dk| && e.block in g.time && e.timestamp == g.time[e.block] && dk[e.block] < |s.queues|
    ensures MidAt(dk, Pop(s, e), Written(g, e), m, m - 1, dk[e.block])
    ensures |Written(g, e).done| == |g.done| + 1
  {
    PopStep(dk, s, g, m, e);
    PopSafe(dk, s, g, m, e);
  }

  /** The rest of an iteration, from the state after the event was taken off. */
  lemma AfterPop(dk: seq<nat>, p: Sim, h: Log, m: int, d: nat)
    requires MidAt(dk, p, h, m, m - 1, d) && d < |p.queues|
    ensures var q := if p.i >= 0 then Enter(p, dk[p.i]) else p;
            var h' := if p.i >= 0 then EnterLog(p, h, dk[p.i]) else h;
            && |q.queues| == |p.queues| == |q.busy|
            && Head(dk, Next(q, d), NextLog(q, h', d), m) && Extends(h, NextLog(q, h', d))
  {
    if p.i >= 0 {
      EnterStep(dk, p, h, m, d);
      EnterExtends(dk, p, h, m, m - 1, d);
      NextStep(dk, Enter(p, dk[p.i]), EnterLog(p, h, dk[p.i]), m, d);
      NextExtends(dk, Enter(p, dk[p.i]), EnterLog(p, h, dk[p.i]), m, m, d);
    } else {
      MoreRoom(dk, p, h, m, d);
      NextStep(dk, p, h, m, d);
      NextExtends(dk, p, h, m, m, d);
    }
  }

  /** Every iteration keeps the invariant and writes one more block. */
  lemma HandleStep(dk: seq<nat>, s: Sim, g: Log, m: int, e: Event)
    requires Head(dk, s, g, m) && IsTop(s, e)
    ensures e.block < |dk| && e.block in g.time && e.timestamp == g.time[e.block]
    ensures Head(dk, Handle(dk, s, e), HandleLog(dk, s, g, e), m)
    ensures Extends(Written(g, e), HandleLog(dk, s, g, e))
    ensures |Written(g, e).done| == |g.done| + 1
  {
    PopMid(dk, s, g, m, e);
    AfterPop(dk, Pop(s, e), Written(g, e), m, dk[e.block]);
  }

  /** When no event is left, every block has been written. */
  lemma AtEnd(dk: seq<nat>, s: Sim, g: Log, m: int)
    requires Head(dk, s, g, m) && s.events == {}
    ensures s.i == -1
    ensures forall d :: 0 <= d < |s.queues| ==> s.queues[d] == []
    ensures forall b: nat :: b < |dk| ==> b in g.done && b in g.time
  {
    forall b | b in g.time ensures b in g.done {
      assert Event(g.time[b], b) !in s.events;
    }
    forall d | 0 <= d < |s.queues| ensures s.queues[d] == [] {
      assert !DiskPending(dk, g, d);
    }
    forall b: nat | b < |dk| ensures b in g.time {
      assert s.queues[dk[b]] == [];
    }
  }

  lemma TopExists(events: set<Event>)
    requires events != {}
    ensures exists e :: e in events && forall x :: x in events ==> e.timestamp <= x.timestamp
  {
    var e :| e in events;
    if events != {e} {
      TopExists(events - {e});
      var f :| f in events - {e} && forall x :: x in events - {e} ==> f.timestamp <= x.timestamp;
      var best := if e.timestamp <= f.timestamp then e else f;
      assert forall x :: x in events ==> x == e || x in events - {e};
      assert best in events;
    }
  }
}
