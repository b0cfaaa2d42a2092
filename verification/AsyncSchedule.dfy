/** Prefetch schedules: `simulate_async_write` and `compute_prefetch_schedule`. */
module AsyncSchedule {
  import opened Closed
  import opened Sorting
  import opened WriteSimulation
  import opened GreedyWriting

  const DEFAULT_DEVICE_ID := 0xFFFF_FFFF

  function GetDisk(disks: seq<int>, i: nat, D: nat): int
    requires i < |disks|
  {
    if disks[i] == DEFAULT_DEVICE_ID then D else disks[i]
  }

  /** Numbers of disks; the number of the default device stands for a disk `D` of its own. */
  ghost predicate ValidDisks(disks: seq<int>, D: nat) {
    forall i :: 0 <= i < |disks| ==> 0 <= disks[i] <= D || disks[i] == 0xFFFF_FFFF
  }

  ghost function DiskOf(disks: seq<int>, D: nat): (dk: seq<nat>)
    requires ValidDisks(disks, D)
    ensures |dk| == |disks| && forall i :: 0 <= i < |dk| ==> dk[i] == if disks[i] == 0xFFFF_FFFF then D else disks[i]
  {
    seq(|disks|, i requires 0 <= i < |disks| => GetDisk(disks, i, D) as nat)
  }

  // ----- what the simulation promises

  ghost function Overtakers(w: seq<(nat, nat)>, b: nat): set<nat>
    requires b < |w|
  {
    set j | b < j < |w| && w[j].1 > w[b].1
  }

  /** Every block has its number and one time in 1..n; on one disk smaller blocks are strictly later,
      so a disk writes at most one block a step; fewer than `m` larger blocks come after any block. */
  ghost predicate GoodTimes(dk: seq<nat>, w: seq<(nat, nat)>, m: int) {
    && |w| == |dk|
    && (forall b :: 0 <= b < |w| ==> w[b].0 == b && 1 <= w[b].1 <= |w|)
    && (forall b, c :: 0 <= b < c < |w| && dk[b] == dk[c] ==> w[c].1 < w[b].1)
    && (forall b :: 0 <= b < |w| ==> |Overtakers(w, b)| <= m - 1)
  }

  // ----- the start of the simulation

  /** The first `m` blocks go into the queues. */
  method FillQueues(disks: seq<int>, m: int, D: nat, queues: array<seq<nat>>, ghost flags: seq<bool>) returns (i: int)
    requires ValidDisks(disks, D) && m >= 1 && queues.Length == |flags| == D + 1
    requires forall d :: 0 <= d <= D ==> queues[d] == []
    modifies queues
    ensures Safe(DiskOf(disks, D), Sim(i, queues[..], {}, flags, 0), Log(map[], {}), m)
    ensures Buffered(DiskOf(disks, D), Sim(i, queues[..], {}, flags, 0), Log(map[], {}), m)
    ensures i == (if m < |disks| then |disks| - m else 0) - 1
  {
    ghost var dk := DiskOf(disks, D);
    var room := m;
    i := |disks| - 1;
    while room != 0 && i >= 0
      invariant 0 <= room <= m && -1 <= i && |dk| - 1 - i == m - room
      invariant Filling(dk, Sim(i, queues[..], {}, flags, 0), m)
    {
      var disk := GetDisk(disks, i, D);
      ghost var s := Sim(i, queues[..], {}, flags, 0);
      FillStep(dk, s, m);
      queues[disk] := queues[disk] + [i];
      assert queues[..] == s.queues[disk := s.queues[disk] + [i]];
      i := i - 1;
      room := room - 1;
    }
    assert Same(Sim(i, queues[..], {}, flags, 0), Sim(i, queues[..], {}, flags, 0));
  }

  /** Blocks wait in the queues, and nothing is scheduled. */
  ghost predicate Filling(dk: seq<nat>, s: Sim, m: int) {
    Shape(dk, s) && forall t :: Same(t, s) ==> Safe(dk, t, Log(map[], {}), m)
  }

  lemma FillStep(dk: seq<nat>, s: Sim, m: int)
    requires Filling(dk, s, m) && s.i >= 0
    ensures Filling(dk, s.(queues := s.queues[dk[s.i] := s.queues[dk[s.i]] + [s.i]], i := s.i - 1), m)
  {
    assert Same(s, s);
    EnterQueuedPlaced(dk, s, Log(map[], {}));
  }

  ghost predicate Launched(dk: seq<nat>, s: Sim, g: Log, ii: nat) {
    && s.oldtime == 0 && g.done == {}
    && (forall b :: b in g.time ==> b < |dk| && dk[b] < ii && g.time[b] == 1)
    && (forall d :: 0 <= d < |s.queues| && d < ii && s.queues[d] != [] ==> DiskPending(dk, g, d))
  }

  lemma LaunchFirst(dk: seq<nat>, s: Sim, g: Log, m: int, ii: nat)
    requires Safe(dk, s, g, m) && Launched(dk, s, g, ii) && ii < |s.queues| && s.queues[ii] != []
    ensures Safe(dk, Launch(s, ii), Scheduled(g, s.queues[ii][0], 1), m)
    ensures Launched(dk, Launch(s, ii), Scheduled(g, s.queues[ii][0], 1), ii + 1)
  {
    LaunchSafe(dk, s, g, ii, m);
    forall d | 0 <= d < ii && s.queues[d] != [] ensures DiskPending(dk, Scheduled(g, s.queues[ii][0], 1), d) {
      ScheduledLive(dk, g, s.queues[ii][0], 1, d);
    }
  }

  /** The disks below `ii` are launched; phrased so that a proof that only passes it on does not look inside. */
  ghost predicate LaunchedTo(dk: seq<nat>, s: Sim, g: Log, m: int, ii: nat) {
    forall t :: Same(t, s) ==> Safe(dk, t, g, m) && Buffered(dk, t, g, m) && Launched(dk, t, g, ii)
  }

  lemma LaunchNext(dk: seq<nat>, s: Sim, g: Log, m: int, ii: nat)
    requires LaunchedTo(dk, s, g, m, ii) && ii < |s.queues| && s.queues[ii] != []
    ensures LaunchedTo(dk, Launch(s, ii), Scheduled(g, s.queues[ii][0], 1), m, ii + 1)
  {
    assert Same(s, s);
    LaunchFirst(dk, s, g, m, ii);
  }

  lemma AllLaunched(dk: seq<nat>, s: Sim, g: Log, m: int)
    requires LaunchedTo(dk, s, g, m, |s.queues|) && (s.i >= 0 ==> s.i < |dk| - 1)
    ensures Head(dk, s, g, m) && g.done == {} && forall b :: b in g.time ==> g.time[b] == 1
  {
    assert Same(s, s);
    if s.i >= 0 {
      SomethingUnderWay(dk, s, g, m, s.i + 1);
    }
  }

  lemma SomethingUnderWay(dk: seq<nat>, s: Sim, g: Log, m: int, b: nat)
    requires Safe(dk, s, g, m) && Launched(dk, s, g, |s.queues|) && s.i < b < |dk|
    ensures s.events != {}
  {
    if b !in g.time {
      assert b in s.queues[dk[b]];
      assert DiskPending(dk, g, dk[b]);
      var c :| c in g.time && c !in g.done && c < |dk| && dk[c] == dk[b];
      assert Event(g.time[c], c) in s.events;
    } else {
      assert Event(g.time[b], b) in s.events;
    }
  }

  /** One block of every disk is scheduled for time 1. */
  method LaunchAll(ghost dk: seq<nat>, i: int, queues: array<seq<nat>>, ghost flags: seq<bool>, ghost m: int)
    returns (events: set<Event>, ghost g: Log)
    requires m >= 1 && (i >= 0 ==> i < |dk| - 1)
    requires Safe(dk, Sim(i, queues[..], {}, flags, 0), Log(map[], {}), m)
    requires Buffered(dk, Sim(i, queues[..], {}, flags, 0), Log(map[], {}), m)
    modifies queues
    ensures Head(dk, Sim(i, queues[..], events, flags, 0), g, m) && g.done == {} && forall b :: b in g.time ==> g.time[b] == 1
  {
    events, g := {}, Log(map[], {});
    var ii := 0;
    while ii < queues.Length
      invariant 0 <= ii <= queues.Length && LaunchedTo(dk, Sim(i, queues[..], events, flags, 0), g, m, ii)
    {
      if queues[ii] != [] {
        ghost var s := Sim(i, queues[..], events, flags, 0);
        LaunchNext(dk, s, g, m, ii);
        g := Scheduled(g, queues[ii][0], 1);
        events := events + {Event(1, queues[ii][0])};
        queues[ii] := queues[ii][1..];
        assert queues[..] == s.queues[ii := s.queues[ii][1..]];
      }
      ii := ii + 1;
    }
    AllLaunched(dk, Sim(i, queues[..], events, flags, 0), g, m);
  }

  // ----- the event loop

  ghost predicate Recorded(w: seq<(nat, nat)>, g: Log) {
    forall b :: b in g.done ==> b < |w| && b in g.time && w[b] == (b, g.time[b])
  }

  lemma DoneSize(dk: seq<nat>, s: Sim, g: Log)
    requires Shape(dk, s) && Placed(dk, s, g)
    ensures |g.done| <= |dk|
  {
    assert g.done <= Below(|dk|);
    SubsetSize(g.done, Below(|dk|));
  }

  method ClearFlags(busy: array<bool>)
    modifies busy
    ensures busy[..] == AllFree(busy.Length)
  {
    var j := 0;
    while j < busy.Length
      invariant 0 <= j <= busy.Length && forall d :: 0 <= d < j ==> !busy[d]
    {
      busy[j] := false;
      j := j + 1;
    }
  }

  /** The next block `i0` enters the queue of its busy disk; an idle disk gets an event, for the block or for the front of its
      queue.
   */
  method EnterBlock(disk: nat, time: nat, queues: array<seq<nat>>, busy: array<bool>, i0: nat, events0: set<Event>)
    returns (i: int, events: set<Event>)
    requires disk < queues.Length == busy.Length
    modifies queues, busy
    ensures Sim(i, queues[..], events, busy[..], time) == Enter(old(Sim(i0, queues[..], events0, busy[..], time)), disk)
  {
    i, events := i0, events0;
    ghost var s := Sim(i, queues[..], events, busy[..], time);
    if busy[disk] {
      queues[disk] := queues[disk] + [i];
      i := i - 1;
    } else {
      if queues[disk] != [] {
        events := events + {Event(time + 1, queues[disk][0])};
        queues[disk] := queues[disk][1..];
      } else {
        events := events + {Event(time + 1, i)};
        i := i - 1;
      }
      busy[disk] := true;
    }
    assert queues[..] == s.queues[disk := queues[disk]] && busy[..] == s.busy[disk := true];
  }

  /** A disk that is idle goes on with the front of its queue. */
  method LaunchFront(disk: nat, time: nat, queues: array<seq<nat>>, busy: array<bool>, ghost i: int, events0: set<Event>)
    returns (events: set<Event>)
    requires disk < queues.Length == busy.Length
    modifies queues, busy
    ensures Sim(i, queues[..], events, busy[..], time) == Next(old(Sim(i, queues[..], events0, busy[..], time)), disk)
  {
    events := events0;
    ghost var s := Sim(i, queues[..], events, busy[..], time);
    if !busy[disk] && queues[disk] != [] {
      events := events + {Event(time + 1, queues[disk][0])};
      queues[disk] := queues[disk][1..];
      busy[disk] := true;
      assert queues[..] == s.queues[disk := s.queues[disk][1..]] && busy[..] == s.busy[disk := true];
    }
  }

  /** One iteration: an event is taken off, and the flags are cleared if it starts a new time step; the next block enters, and
      the disk of the written block goes on.
   */
  method HandleEvent(disks: seq<int>, D: nat, queues: array<seq<nat>>, busy: array<bool>, i0: int, events0: set<Event>, oldtime0: nat, cur: Event)
    returns (i: int, events: set<Event>, oldtime: nat)
    requires ValidDisks(disks, D) && queues.Length == busy.Length == D + 1 && -1 <= i0 < |disks| && cur.block < |disks|
    modifies queues, busy
    ensures Sim(i, queues[..], events, busy[..], oldtime) == Handle(DiskOf(disks, D), old(Sim(i0, queues[..], events0, busy[..], oldtime0)), cur)
    ensures oldtime == cur.timestamp
  {
    i, events, oldtime := i0, events0 - {cur}, oldtime0;
    if oldtime != cur.timestamp {
      ClearFlags(busy);
      oldtime := cur.timestamp;
    }
    if i >= 0 {
      i, events := EnterBlock(GetDisk(disks, i, D), oldtime, queues, busy, i, events);
    }
    events := LaunchFront(GetDisk(disks, cur.block, D), oldtime, queues, busy, i, events);
  }

  lemma RecordedStep(w: seq<(nat, nat)>, g: Log, h: Log, e: Event)
    requires Recorded(w, g) && Extends(Written(g, e), h) && e.block < |w|
    requires e.block in g.time && e.timestamp == g.time[e.block]
    ensures Recorded(w[e.block := (e.block, e.timestamp)], h)
  {
  }

  lemma TimesAreGood(dk: seq<nat>, s: Sim, g: Log, m: int, w: seq<(nat, nat)>)
    requires Head(dk, s, g, m) && s.events == {} && Recorded(w, g) && |w| == |dk|
    ensures GoodTimes(dk, w, m)
    ensures forall b :: 0 <= b < |w| ==> w[b].1 <= s.oldtime <= |w|
  {
    AtEnd(dk, s, g, m);
    DoneSize(dk, s, g);
    forall b | 0 <= b < |w| ensures |Overtakers(w, b)| <= m - 1 {
      assert Overtakers(w, b) == Overtaken(|dk|, g.time, b);
    }
  }

  /** The loop invariant, with the times written so far; phrased so that a proof that only passes it on does not look inside. */
  ghost predicate UnderWay(dk: seq<nat>, s: Sim, g: Log, m: int, w: seq<(nat, nat)>) {
    Shape(dk, s) && |w| == |dk| && forall t :: Same(t, s) ==> Head(dk, t, g, m) && Recorded(w, g)
  }

  lemma IterationStep(dk: seq<nat>, s: Sim, g: Log, m: int, w: seq<(nat, nat)>, cur: Event)
    requires UnderWay(dk, s, g, m, w) && cur in s.events && forall x :: x in s.events ==> cur.timestamp <= x.timestamp
    ensures cur.block < |dk|
    ensures UnderWay(dk, Handle(dk, s, cur), HandleLog(dk, s, g, cur), m, w[cur.block := (cur.block, cur.timestamp)])
    ensures |g.done| < |HandleLog(dk, s, g, cur).done| <= |dk|
    ensures cur.block in g.time && cur.timestamp == g.time[cur.block] && Extends(Written(g, cur), HandleLog(dk, s, g, cur))
  {
    assert Same(s, s);
    HandleStep(dk, s, g, m, cur);
    RecordedStep(w, g, HandleLog(dk, s, g, cur), cur);
    DoneSize(dk, Handle(dk, s, cur), HandleLog(dk, s, g, cur));
  }

  /** The time `now` is that of a written block. */
  ghost predicate Reached(now: nat, g: Log) {
    now > 0 ==> exists b :: b in g.done && b in g.time && g.time[b] == now
  }

  lemma ReachedStep(g: Log, h: Log, e: Event)
    requires Extends(Written(g, e), h) && e.block in g.time && e.timestamp == g.time[e.block]
    ensures Reached(e.timestamp, h)
  {
    assert e.block in h.done && e.block in h.time;
  }

  lemma EndStep(dk: seq<nat>, s: Sim, g: Log, m: int, w: seq<(nat, nat)>)
    requires UnderWay(dk, s, g, m, w) && s.events == {} && Reached(s.oldtime, g)
    ensures GoodTimes(dk, w, m) && IsLast(w, s.oldtime)
  {
    assert Same(s, s);
    TimesAreGood(dk, s, g, m, w);
    LastTime(w, g, s.oldtime);
  }

  /** The last time step is `t`. */
  ghost predicate IsLast(w: seq<(nat, nat)>, t: nat) {
    && (forall b :: 0 <= b < |w| ==> w[b].1 <= t)
    && (if w == [] then t == 0 else exists b :: 0 <= b < |w| && w[b].1 == t)
  }

  lemma LastTime(w: seq<(nat, nat)>, g: Log, t: nat)
    requires Recorded(w, g) && Reached(t, g)
    requires forall b :: 0 <= b < |w| ==> 1 <= w[b].1 <= t
    ensures IsLast(w, t)
  {
    assert w != [] ==> 1 <= w[0].1;
    if t > 0 {
      var b :| b in g.done && b in g.time && g.time[b] == t;
      assert w[b].1 == t;
    }
  }

  // ----- the run is greedy

  ghost function TimeOf(w: seq<(nat, nat)>): map<nat, nat> {
    map b: nat | b < |w| :: w[b].1
  }

  /** So far; phrased so that a proof that only passes it on does not look inside. */
  ghost predicate GreedySoFar(dk: seq<nat>, i: int, g: Log, v: Moves, launched: map<nat, nat>, m: int) {
    MovingAt(dk, i, g, v, m, {}) && LaunchingAt(dk, g, v.came, launched)
  }

  lemma GreedyStep(dk: seq<nat>, s: Sim, g: Log, m: int, w: seq<(nat, nat)>, v: Moves, launched: map<nat, nat>, e: Event)
    requires UnderWay(dk, s, g, m, w) && IsTop(s, e) && GreedySoFar(dk, s.i, g, v, launched, m)
    ensures e.block < |dk|
    ensures GreedySoFar(dk, Handle(dk, s, e).i, HandleLog(dk, s, g, e), HandleMoves(dk, s, v, e), HandleLaunched(dk, s, launched, e), m)
  {
    assert Same(s, s);
    MovesStep(dk, s, g, v, m, e);
    LaunchesStep(dk, s, g, v, launched, m, e);
  }

  lemma AllRecorded(dk: seq<nat>, s: Sim, g: Log, m: int, w: seq<(nat, nat)>)
    requires UnderWay(dk, s, g, m, w) && s.events == {}
    ensures s.i == -1 && g == Log(TimeOf(w), TimeOf(w).Keys) && Later(dk, g)
  {
    assert Same(s, s);
    AtEnd(dk, s, g, m);
    assert g.time == TimeOf(w);
  }

  lemma EndGreedy(dk: seq<nat>, s: Sim, g: Log, m: int, w: seq<(nat, nat)>, v: Moves, launched: map<nat, nat>)
    requires UnderWay(dk, s, g, m, w) && s.events == {} && GreedySoFar(dk, s.i, g, v, launched, m)
    ensures GreedyTimes(dk, TimeOf(w), v, launched, m)
  {
    AllRecorded(dk, s, g, m, w);
    AllGreedy(dk, TimeOf(w), v, launched, m);
  }


  /** Up to the event loop. */
  method StartWriting(disks: seq<int>, m: int, D: nat, queues: array<seq<nat>>, ghost flags: seq<bool>, ghost w: seq<(nat, nat)>)
    returns (i: int, events: set<Event>, ghost g: Log)
    requires ValidDisks(disks, D) && m >= 1 && queues.Length == |flags| == D + 1 && |w| == |disks|
    requires forall d :: 0 <= d <= D ==> queues[d] == []
    modifies queues
    ensures UnderWay(DiskOf(disks, D), Sim(i, queues[..], events, flags, 0), g, m, w)
    ensures GreedySoFar(DiskOf(disks, D), i, g, Moves(map[], map[]), map[], m)
  {
    i := FillQueues(disks, m, D, queues, flags);
    events, g := LaunchAll(DiskOf(disks, D), i, queues, flags, m);
    StartGreedy(DiskOf(disks, D), i, g, m);
  }

  /** Main theorem on the simulation: the times are good and greedy, and the result is the last time step less one. */
  method SimulateAsyncWrite(disks: seq<int>, m: int, D: nat, oTime: array<(nat, nat)>)
    returns (steps: int, ghost v: Moves, ghost launched: map<nat, nat>)
    requires ValidDisks(disks, D) && m >= 1 && oTime.Length == |disks| >= D
    modifies oTime
    ensures GoodTimes(DiskOf(disks, D), oTime[..], m)
    ensures GreedyTimes(DiskOf(disks, D), TimeOf(oTime[..]), v, launched, m)
    ensures steps >= -1 && IsLast(oTime[..], steps + 1)
  {
    ghost var dk := DiskOf(disks, D);
    var queues, busy := new seq<nat>[D + 1](_ => []), new bool[D + 1];
    var i, events, g := StartWriting(disks, m, D, queues, busy[..], oTime[..]);
    var oldtime: nat := 0;
    v, launched := Moves(map[], map[]), map[];
    while events != {}
      invariant UnderWay(dk, Sim(i, queues[..], events, busy[..], oldtime), g, m, oTime[..])
      invariant GreedySoFar(dk, i, g, v, launched, m) && Reached(oldtime, g)
      decreases |dk| - |g.done|
    {
      TopExists(events);
      var cur :| cur in events && forall x :: x in events ==> cur.timestamp <= x.timestamp;
      ghost var s, w := Sim(i, queues[..], events, busy[..], oldtime), oTime[..];
      IterationStep(dk, s, g, m, w, cur);
      GreedyStep(dk, s, g, m, w, v, launched, cur);
      ReachedStep(g, HandleLog(dk, s, g, cur), cur);
      oTime[cur.block] := (cur.block, cur.timestamp);
      assert oTime[..] == w[cur.block := (cur.block, cur.timestamp)];
      i, events, oldtime := HandleEvent(disks, D, queues, busy, i, events, oldtime, cur);
      g, v, launched := HandleLog(dk, s, g, cur), HandleMoves(dk, s, v, cur), HandleLaunched(dk, s, launched, cur);
    }
    EndStep(dk, Sim(i, queues[..], events, busy[..], oldtime), g, m, oTime[..]);
    EndGreedy(dk, Sim(i, queues[..], events, busy[..], oldtime), g, m, oTime[..], v, launched);
    steps := oldtime - 1;
  }

  // ----- the number of steps

  lemma GoodLoads(dk: seq<nat>, w: seq<(nat, nat)>, m: int, b: nat)
    requires GoodTimes(dk, w, m) && b < |w|
    ensures w[b].1 >= Load(dk, dk[b], b)
  {
    TimeAtLeastLoad(dk, Log(TimeOf(w), {}), b);
  }

  /** There are at least as many steps as blocks on any disk. */
  lemma StepsAtLeastLoad(dk: seq<nat>, w: seq<(nat, nat)>, m: int, t: nat, d: nat)
    requires GoodTimes(dk, w, m) && IsLast(w, t)
    ensures Load(dk, d, 0) <= t
  {
    var b := NextOn(dk, d, 0);
    LoadFromNext(dk, d, 0);
    if b < |dk| {
      GoodLoads(dk, w, m, b);
    }
  }

  /** With a buffer for every block, the number of steps is the largest number of blocks on one disk. */
  lemma EnoughBuffers(dk: seq<nat>, w: seq<(nat, nat)>, v: Moves, launched: map<nat, nat>, m: int, t: nat)
    requires GoodTimes(dk, w, m) && GreedyTimes(dk, TimeOf(w), v, launched, m) && IsLast(w, t) && m >= |w| > 0
    ensures (forall d :: Load(dk, d, 0) <= t) && exists d :: Load(dk, d, 0) == t
  {
    forall d ensures Load(dk, d, 0) <= t {
      StepsAtLeastLoad(dk, w, m, t, d);
    }
    var b :| 0 <= b < |w| && w[b].1 == t;
    TimeIsLoad(dk, TimeOf(w), v, launched, m, b);
    LoadFalls(dk, dk[b], b);
    assert Load(dk, dk[b], 0) == t;
  }

  // ----- the schedule

  /** Places before `k` that hold a larger block. */
  ghost function Ahead(order: seq<nat>, k: nat): set<nat>
    requires k < |order|
  {
    set l: nat | l < k && order[l] > order[k]
  }

  /** Each block once; on one disk in index order; fewer than `m` blocks ahead of their turn. */
  ghost predicate GoodSchedule(dk: seq<nat>, order: seq<nat>, m: int) {
    && IsPermutation(order, |dk|)
    && (forall k, l :: 0 <= k < l < |order| && dk[order[k]] == dk[order[l]] ==> order[k] < order[l])
    && (forall k: nat :: k < |order| ==> |Ahead(order, k)| <= m - 1)
  }

  ghost function Picks(order: seq<nat>, places: set<nat>): set<nat>
    requires forall l :: l in places ==> l < |order|
  {
    set l | l in places :: order[l]
  }

  lemma {:induction false} PicksSize(order: seq<nat>, places: set<nat>)
    requires forall l :: l in places ==> l < |order|
    requires forall i, j :: 0 <= i < j < |order| ==> order[i] != order[j]
    ensures |Picks(order, places)| == |places|
  {
    if places == {} {
    } else {
      var l :| l in places;
      PicksSize(order, places - {l});
      assert Picks(order, places) == Picks(order, places - {l}) + {order[l]};
      assert order[l] !in Picks(order, places - {l});
    }
  }

  predicate LaterFirst(a: (nat, nat), b: (nat, nat)) {
    a.1 >= b.1
  }

  /** Sorting by decreasing time, stably, turns good times into a good schedule. */
  lemma SortedTimesAhead(dk: seq<nat>, w: seq<(nat, nat)>, r: seq<(nat, nat)>, perm: seq<nat>, m: int, k: nat)
    requires GoodTimes(dk, w, m) && Rearranged(w, r, perm) && SortedBy(r, LaterFirst) && Stable(r, perm, LaterFirst)
    requires k < |w|
    ensures |Ahead(perm, k)| <= m - 1
  {
    var ahead := Ahead(perm, k);
    forall l | l in ahead ensures perm[l] in Overtakers(w, perm[k]) {
      assert r[l] == w[perm[l]] && r[k] == w[perm[k]];
      assert LaterFirst(r[l], r[k]);
    }
    PicksSize(perm, ahead);
    SubsetSize(Picks(perm, ahead), Overtakers(w, perm[k]));
  }

  lemma SortedTimesGood(dk: seq<nat>, w: seq<(nat, nat)>, r: seq<(nat, nat)>, perm: seq<nat>, m: int)
    requires GoodTimes(dk, w, m) && Rearranged(w, r, perm) && SortedBy(r, LaterFirst) && Stable(r, perm, LaterFirst)
    ensures GoodSchedule(dk, perm, m)
  {
    forall k, l | 0 <= k < l < |perm| && dk[perm[k]] == dk[perm[l]] ensures perm[k] < perm[l] {
      assert r[k] == w[perm[k]] && r[l] == w[perm[l]];
      assert LaterFirst(r[k], r[l]);
      assert perm[k] != perm[l];
    }
    forall k: nat | k < |perm| ensures |Ahead(perm, k)| <= m - 1 {
      SortedTimesAhead(dk, w, r, perm, m, k);
    }
  }

  lemma IdentityGood(dk: seq<nat>, order: seq<nat>, m: int)
    requires m >= 1 && |order| == |dk| && forall k :: 0 <= k < |order| ==> order[k] == k
    ensures GoodSchedule(dk, order, m)
  {
    forall k: nat | k < |order| ensures |Ahead(order, k)| <= m - 1 {
      assert Ahead(order, k) == {};
    }
  }

  /** Each block once, those with a later time first, and those with the same time in index order. */
  ghost predicate LatestFirst(w: seq<(nat, nat)>, order: seq<nat>) {
    && IsPermutation(order, |w|)
    && (forall k, l :: 0 <= k < l < |order| ==>
          w[order[k]].1 > w[order[l]].1 || (w[order[k]].1 == w[order[l]].1 && order[k] < order[l]))
  }

  lemma SortedTimesLatestFirst(w: seq<(nat, nat)>, r: seq<(nat, nat)>, perm: seq<nat>)
    requires Rearranged(w, r, perm) && SortedBy(r, LaterFirst) && Stable(r, perm, LaterFirst)
    ensures LatestFirst(w, perm)
  {
    forall k, l | 0 <= k < l < |perm|
      ensures w[perm[k]].1 > w[perm[l]].1 || (w[perm[k]].1 == w[perm[l]].1 && perm[k] < perm[l])
    {
      assert r[k] == w[perm[k]] && r[l] == w[perm[l]];
      assert LaterFirst(r[k], r[l]);
    }
  }

  /** A run of the simulation: the times, and how it used the buffers. */
  datatype Simulated = Simulated(times: seq<(nat, nat)>, moves: Moves, launched: map<nat, nat>)

  /** What `compute_prefetch_schedule` promises: a good schedule, which with more blocks than disks is the order of a greedy
      writing, backwards.
   */
  ghost predicate IsSchedule(dk: seq<nat>, D: nat, m: int, order: seq<nat>, run: Simulated) {
    && GoodSchedule(dk, order, m)
    && if |dk| <= D then forall k :: 0 <= k < |order| ==> order[k] == k
       else
         && GoodTimes(dk, run.times, m) && GreedyTimes(dk, TimeOf(run.times), run.moves, run.launched, m)
         && LatestFirst(run.times, order)
  }

  /** Main theorem: for every assignment of blocks to disks the schedule fetches each block once, in index order on each disk,
      and never more than m - 1 blocks before their turn, in the order of a greedy writing.
   */
  method ComputePrefetchSchedule(disks: seq<int>, out: array<nat>, m: int, D: nat) returns (ghost run: Simulated)
    requires ValidDisks(disks, D) && m >= 1 && out.Length == |disks|
    modifies out
    ensures IsSchedule(DiskOf(disks, D), D, m, out[..], run)
  {
    ghost var dk := DiskOf(disks, D);
    var L := |disks|;
    run := Simulated([], Moves(map[], map[]), map[]);
    if L <= D {
      for i := 0 to L
        invariant forall k :: 0 <= k < i ==> out[k] == k
      {
        out[i] := i;
      }
      IdentityGood(dk, out[..], m);
      return;
    }
    var writeOrder := new (nat, nat)[L](_ => (0, 0));
    var steps, v, launched := SimulateAsyncWrite(disks, m, D, writeOrder);
    run := Simulated(writeOrder[..], v, launched);
    var r, perm := StableSort(writeOrder[..], LaterFirst);
    SortedTimesGood(dk, run.times, r, perm, m);
    SortedTimesLatestFirst(run.times, r, perm);
    for i := 0 to L
      invariant forall k :: 0 <= k < i ==> out[k] == perm[k]
    {
      out[i] := r[i].0;
    }
    assert out[..] == perm;
  }

  // ----- why a schedule never gets stuck

  /** Block `order[k]` is fetched by the time `order[k] + m` fetches have been started. */
  lemma FetchedInTime(dk: seq<nat>, order: seq<nat>, m: int, k: nat)
    requires GoodSchedule(dk, order, m) && k < |order|
    ensures k <= order[k] + m - 1
  {
    var ahead := Ahead(order, k);
    var rest := Below(k) - ahead;
    assert ahead <= Below(k);
    PicksSize(order, rest);
    forall l | l in rest ensures order[l] in Below(order[k]) {
      assert order[l] != order[k];
    }
    SubsetSize(Picks(order, rest), Below(order[k]));
  }
}
