/** The simulation is greedy: when each block enters the buffers and when it is written, and how that uses the disks. */
module GreedyWriting {
  import opened Closed
  import opened WriteSimulation

  /** With a written block, the front of a queue was launched, and the next block had to wait outside. */
  datatype Hold = Hold(front: nat, block: nat)

  /** How the buffers were used: `came[b]` is the block with whose writing block `b` came in, and `held[p]` says that none came
      in when `p` was written, although one was left.
   */
  datatype Moves = Moves(came: map<nat, nat>, held: map<nat, Hold>)

  // ----- what the moves say

  /** When block `b` came in; the first `m` blocks are in from the start. */
  ghost function EntryTime(time: map<nat, nat>, came: map<nat, nat>, b: nat): nat {
    if b in came && came[b] in time then time[came[b]] else 0
  }

  /** The blocks above `i` are in; all but the first `m` came in with a written block, each with its own, in this order. */
  ghost predicate InTurn(dk: seq<nat>, i: int, g: Log, came: map<nat, nat>, m: int) {
    && (i >= 0 ==> i < |dk| - m)
    && (forall b: nat :: b in came <==> i < b < |dk| - m)
    && (forall b :: b in came ==> came[b] in g.done && came[b] in g.time)
    && (forall b, c :: b in came && c in came && b < c ==> came[b] != came[c] && EntryTime(g.time, came, c) <= EntryTime(g.time, came, b))
  }

  /** A block came in with `p`, or the front of a queue was launched instead. */
  ghost predicate Used(v: Moves, p: nat) {
    p in v.came.Values || p in v.held
  }

  /** No block was left to come in. */
  ghost predicate NoneLeft(g: Log, v: Moves, i: int, p: nat) {
    i == -1 && p in g.time && forall b :: b in v.came ==> EntryTime(g.time, v.came, b) <= g.time[p]
  }

  /** Every written block was used as long as a block was left. */
  ghost predicate AllUsed(g: Log, v: Moves, i: int, except: set<nat>) {
    forall p :: p in g.done && p !in except ==> Used(v, p) || NoneLeft(g, v, i, p)
  }

  /** A block was held out for the front of the queue of its own disk, which took the next time step of that disk. */
  ghost predicate HoldFits(dk: seq<nat>, g: Log, came: map<nat, nat>, i: int, p: nat, h: Hold) {
    && p in g.done && p in g.time && h.front in g.time && g.time[h.front] == g.time[p] + 1
    && h.block < h.front < |dk| && dk[h.block] == dk[h.front]
    && (h.block <= i || (h.block in came && EntryTime(g.time, came, h.block) >= g.time[p]))
  }

  ghost predicate HoldsFit(dk: seq<nat>, g: Log, v: Moves, i: int) {
    && (forall p :: p in v.held ==> HoldFits(dk, g, v.came, i, p, v.held[p]) && p !in v.came.Values)
    && (forall p, q :: p in v.held && q in v.held && p != q ==> v.held[p].front != v.held[q].front)
  }

  /** A larger block on the same disk is written right before time `t`. */
  ghost predicate RightBefore(dk: seq<nat>, time: map<nat, nat>, b: nat, t: nat) {
    exists c :: c in time && b < c < |dk| && b < |dk| && dk[c] == dk[b] && time[c] + 1 == t
  }

  /** A block is written as soon as it is in and its disk is free: in the time step after it came in, or right after a larger
      block of its disk.
   */
  ghost predicate PromptAt(dk: seq<nat>, time: map<nat, nat>, came: map<nat, nat>, b: nat, t: nat) {
    t > EntryTime(time, came, b) && (t == EntryTime(time, came, b) + 1 || RightBefore(dk, time, b, t))
  }

  ghost predicate Prompt(dk: seq<nat>, time: map<nat, nat>, came: map<nat, nat>) {
    forall b :: b in time ==> PromptAt(dk, time, came, b, time[b])
  }

  ghost predicate Moving(dk: seq<nat>, i: int, g: Log, v: Moves, m: int, except: set<nat>) {
    InTurn(dk, i, g, v.came, m) && AllUsed(g, v, i, except) && HoldsFit(dk, g, v, i) && Prompt(dk, g.time, v.came)
  }

  // ----- one iteration

  ghost function EnterMoves(dk: seq<nat>, s: Sim, v: Moves, p: nat): Moves
    requires Shape(dk, s) && s.i >= 0
  {
    var d := dk[s.i];
    if s.busy[d] || s.queues[d] == [] then v.(came := v.came[s.i := p]) else v.(held := v.held[p := Hold(s.queues[d][0], s.i)])
  }

  ghost function HandleMoves(dk: seq<nat>, s: Sim, v: Moves, e: Event): Moves
    requires Shape(dk, s)
  {
    if s.i >= 0 then EnterMoves(dk, Pop(s, e), v, e.block) else v
  }

  /** More blocks have times; those that had one keep it. */
  lemma EntryTimeSame(time: map<nat, nat>, time': map<nat, nat>, came: map<nat, nat>, b: nat)
    requires (forall c :: c in time ==> c in time' && time'[c] == time[c]) && (forall c :: c in came ==> came[c] in time)
    ensures EntryTime(time', came, b) == EntryTime(time, came, b)
  {
  }

  lemma RightBeforeStays(dk: seq<nat>, time: map<nat, nat>, time': map<nat, nat>, b: nat, t: nat)
    requires RightBefore(dk, time, b, t) && forall c :: c in time ==> c in time' && time'[c] == time[c]
    ensures RightBefore(dk, time', b, t)
  {
    var c :| c in time && b < c < |dk| && b < |dk| && dk[c] == dk[b] && time[c] + 1 == t;
    assert c in time';
  }

  lemma PromptStays(dk: seq<nat>, time: map<nat, nat>, time': map<nat, nat>, came: map<nat, nat>, b: nat, t: nat)
    requires PromptAt(dk, time, came, b, t)
    requires (forall c :: c in time ==> c in time' && time'[c] == time[c]) && (forall c :: c in came ==> came[c] in time)
    ensures PromptAt(dk, time', came, b, t)
  {
    EntryTimeSame(time, time', came, b);
    if RightBefore(dk, time, b, t) {
      RightBeforeStays(dk, time, time', b, t);
    }
  }

  /** A block gets its time: right after it came in, or right after a larger block of its disk. */
  lemma PromptNext(dk: seq<nat>, time: map<nat, nat>, came: map<nat, nat>, x: nat, t: nat)
    requires Prompt(dk, time, came) && x !in time && (forall b :: b in came ==> came[b] in time) && PromptAt(dk, time, came, x, t)
    ensures Prompt(dk, time[x := t], came)
  {
    var time' := time[x := t];
    forall b | b in time' ensures PromptAt(dk, time', came, b, time'[b]) {
      PromptStays(dk, time, time', came, b, time'[b]);
    }
  }

  /** The rest of the moves does not depend on the new time. */
  lemma ScheduledMoves(dk: seq<nat>, i: int, g: Log, v: Moves, m: int, except: set<nat>, x: nat, t: nat)
    requires InTurn(dk, i, g, v.came, m) && AllUsed(g, v, i, except) && HoldsFit(dk, g, v, i) && x !in g.time
    ensures
      var g' := Scheduled(g, x, t);
      InTurn(dk, i, g', v.came, m) && AllUsed(g', v, i, except) && HoldsFit(dk, g', v, i)
  {
    var g' := Scheduled(g, x, t);
    forall b ensures EntryTime(g'.time, v.came, b) == EntryTime(g.time, v.came, b) {
      EntryTimeSame(g.time, g'.time, v.came, b);
    }
    forall p | p in g'.done && p !in except ensures Used(v, p) || NoneLeft(g', v, i, p) {
      assert Used(v, p) || NoneLeft(g, v, i, p);
    }
    forall p | p in v.held ensures HoldFits(dk, g', v.came, i, p, v.held[p]) {
      assert HoldFits(dk, g, v.came, i, p, v.held[p]);
    }
  }

  /** A block is launched promptly, and nobody comes in. */
  lemma LaunchedMoves(dk: seq<nat>, i: int, g: Log, v: Moves, m: int, except: set<nat>, x: nat, t: nat)
    requires Moving(dk, i, g, v, m, except) && x !in g.time && PromptAt(dk, g.time, v.came, x, t)
    ensures Moving(dk, i, Scheduled(g, x, t), v, m, except)
  {
    ScheduledMoves(dk, i, g, v, m, except, x, t);
    PromptNext(dk, g.time, v.came, x, t);
  }

  lemma PoppedMoves(dk: seq<nat>, i: int, g: Log, v: Moves, m: int, e: Event)
    requires Moving(dk, i, g, v, m, {}) && e.block !in g.done
    ensures Moving(dk, i, Written(g, e), v, m, {e.block}) && !Used(v, e.block)
  {
    PoppedUsed(g, v, i, e);
    PoppedHolds(dk, i, g, v, e);
    PoppedInTurn(dk, i, g, v, m, e);
  }

  lemma PoppedInTurn(dk: seq<nat>, i: int, g: Log, v: Moves, m: int, e: Event)
    requires InTurn(dk, i, g, v.came, m) && HoldsFit(dk, g, v, i) && e.block !in g.done
    ensures InTurn(dk, i, Written(g, e), v.came, m) && !Used(v, e.block)
  {
    assert e.block in v.held ==> HoldFits(dk, g, v.came, i, e.block, v.held[e.block]);
  }

  lemma PoppedUsed(g: Log, v: Moves, i: int, e: Event)
    requires AllUsed(g, v, i, {})
    ensures AllUsed(Written(g, e), v, i, {e.block})
  {
    forall p | p in Written(g, e).done && p !in {e.block} ensures Used(v, p) || NoneLeft(Written(g, e), v, i, p) {
      assert Used(v, p) || NoneLeft(g, v, i, p);
    }
  }

  lemma PoppedHolds(dk: seq<nat>, i: int, g: Log, v: Moves, e: Event)
    requires HoldsFit(dk, g, v, i)
    ensures HoldsFit(dk, Written(g, e), v, i)
  {
    forall p | p in v.held ensures HoldFits(dk, Written(g, e), v.came, i, p, v.held[p]) {
      assert HoldFits(dk, g, v.came, i, p, v.held[p]);
    }
  }

  /** Nobody is left to come in with `p`. */
  lemma NobodyComes(dk: seq<nat>, g: Log, v: Moves, m: int, p: nat, now: nat)
    requires Moving(dk, -1, g, v, m, {p}) && p in g.time && g.time[p] == now && DoneBy(g, now)
    ensures Moving(dk, -1, g, v, m, {})
  {
    assert NoneLeft(g, v, -1, p);
  }

  ghost predicate DoneBy(g: Log, now: nat) {
    forall b :: b in g.done && b in g.time ==> g.time[b] <= now
  }

  lemma CameTime(time: map<nat, nat>, came: map<nat, nat>, i: nat, p: nat, b: nat)
    requires p in time
    ensures EntryTime(time, came[i := p], b) == if b == i then time[p] else EntryTime(time, came, b)
  {
  }

  lemma ComesInTurn(dk: seq<nat>, i: nat, g: Log, v: Moves, m: int, p: nat, now: nat)
    requires InTurn(dk, i, g, v.came, m) && !Used(v, p) && p in g.done && p in g.time && g.time[p] == now && DoneBy(g, now)
    ensures InTurn(dk, i - 1, g, v.came[i := p], m)
  {
    forall b ensures EntryTime(g.time, v.came[i := p], b) == if b == i then now else EntryTime(g.time, v.came, b) {
      CameTime(g.time, v.came, i, p, b);
    }
    assert forall b :: b in v.came ==> v.came[b] in v.came.Values;
  }

  lemma ComesUsed(dk: seq<nat>, i: nat, g: Log, v: Moves, m: int, p: nat)
    requires InTurn(dk, i, g, v.came, m) && AllUsed(g, v, i, {p})
    ensures AllUsed(g, v.(came := v.came[i := p]), i - 1, {})
  {
    var v' := v.(came := v.came[i := p]);
    assert v'.came[i] == p;
    forall q | q in g.done ensures Used(v', q) {
      if q != p {
        assert Used(v, q);
        if q in v.came.Values {
          var b :| b in v.came && v.came[b] == q;
          assert b in v'.came && v'.came[b] == q;
        }
      }
    }
  }

  lemma ComesHolds(dk: seq<nat>, i: nat, g: Log, v: Moves, m: int, p: nat, now: nat)
    requires InTurn(dk, i, g, v.came, m) && HoldsFit(dk, g, v, i) && !Used(v, p) && p in g.time && g.time[p] == now && DoneBy(g, now)
    ensures HoldsFit(dk, g, v.(came := v.came[i := p]), i - 1)
  {
    var v' := v.(came := v.came[i := p]);
    forall q | q in v'.held ensures HoldFits(dk, g, v'.came, i - 1, q, v'.held[q]) && q !in v'.came.Values {
      assert HoldFits(dk, g, v.came, i, q, v.held[q]);
      CameTime(g.time, v.came, i, p, v.held[q].block);
    }
  }

  lemma ComesPrompt(dk: seq<nat>, i: nat, g: Log, came: map<nat, nat>, p: nat)
    requires Prompt(dk, g.time, came) && p in g.time && i !in g.time
    ensures Prompt(dk, g.time, came[i := p])
  {
    forall b | b in g.time ensures PromptAt(dk, g.time, came[i := p], b, g.time[b]) {
      CameTime(g.time, came, i, p, b);
    }
  }

  /** The next block comes in with `p`. */
  lemma SomebodyComes(dk: seq<nat>, i: nat, g: Log, v: Moves, m: int, p: nat, now: nat)
    requires Moving(dk, i, g, v, m, {p}) && !Used(v, p) && p in g.done && p in g.time && g.time[p] == now && DoneBy(g, now) && i !in g.time
    ensures Moving(dk, i - 1, g, v.(came := v.came[i := p]), m, {})
    ensures EntryTime(g.time, v.came[i := p], i) == now
  {
    ComesInTurn(dk, i, g, v, m, p, now);
    ComesUsed(dk, i, g, v, m, p);
    ComesHolds(dk, i, g, v, m, p, now);
    ComesPrompt(dk, i, g, v.came, p);
    CameTime(g.time, v.came, i, p, i);
  }

  lemma FrontIsNew(dk: seq<nat>, g: Log, v: Moves, i: int, x: nat)
    requires HoldsFit(dk, g, v, i) && x !in g.time
    ensures forall q :: q in v.held ==> v.held[q].front != x
  {
    forall q | q in v.held ensures v.held[q].front != x {
      assert HoldFits(dk, g, v.came, i, q, v.held[q]);
    }
  }

  /** The next block is held out for the front `x` of the queue of its disk, which was launched. */
  lemma SomebodyWaits(dk: seq<nat>, i: nat, g: Log, v: Moves, m: int, p: nat, x: nat)
    requires Moving(dk, i, g, v, m, {p}) && !Used(v, p) && p in g.done && p in g.time && x in g.time && g.time[x] == g.time[p] + 1
    requires i < x < |dk| && dk[i] == dk[x] && forall q :: q in v.held ==> v.held[q].front != x
    ensures Moving(dk, i, g, v.(held := v.held[p := Hold(x, i)]), m, {})
  {
    HeldUsed(g, v, i, p, Hold(x, i));
    HeldMore(dk, i, g, v, p, x);
  }

  lemma HeldMore(dk: seq<nat>, i: nat, g: Log, v: Moves, p: nat, x: nat)
    requires HoldsFit(dk, g, v, i) && !Used(v, p) && p in g.done && p in g.time && x in g.time && g.time[x] == g.time[p] + 1
    requires i < x < |dk| && dk[i] == dk[x] && forall q :: q in v.held ==> v.held[q].front != x
    ensures HoldsFit(dk, g, v.(held := v.held[p := Hold(x, i)]), i)
  {
    assert HoldFits(dk, g, v.came, i, p, Hold(x, i));
  }

  lemma HeldUsed(g: Log, v: Moves, i: nat, p: nat, h: Hold)
    requires AllUsed(g, v, i, {p})
    ensures AllUsed(g, v.(held := v.held[p := h]), i, {})
  {
    var v' := v.(held := v.held[p := h]);
    forall q | q in g.done ensures Used(v', q) {
      assert q != p ==> Used(v, q);
    }
  }

  // ----- what the simulation says about the next step

  /** A disk that has blocks waiting and no block for the next step is writing one now. */
  lemma WritesNow(dk: seq<nat>, s: Sim, g: Log, m: int, room: int, d: nat, p: nat) returns (c: nat)
    requires p < |dk| && Mid(dk, s, g, m, room, dk[p]) && d < |s.queues| && s.queues[d] != [] && !s.busy[d]
    requires p in g.time && g.time[p] == s.oldtime
    ensures c in g.time && c < |dk| && dk[c] == d && g.time[c] == s.oldtime
  {
    if d == dk[p] {
      c := p;
    } else {
      assert DiskPending(dk, g, d);
      c :| c in g.time && c !in g.done && c < |dk| && dk[c] == d;
    }
  }

  /** All that is launched from a queue comes right after a larger block of the disk. */
  lemma FrontFacts(dk: seq<nat>, s: Sim, g: Log, m: int, room: int, d: nat, p: nat)
    requires p < |dk| && MidAt(dk, s, g, m, room, dk[p]) && d < |s.queues| && s.queues[d] != [] && !s.busy[d]
    requires p in g.time && g.time[p] == s.oldtime
    ensures
      var x := s.queues[d][0];
      x !in g.time && s.i < x < |dk| && dk[x] == d && RightBefore(dk, g.time, x, s.oldtime + 1) && DoneBy(g, s.oldtime)
  {
    OpenMid(dk, s, g, m, room, dk[p]);
    var c := WritesNow(dk, s, g, m, room, d, p);
    FrontAfter(dk, s, g, d, c);
  }

  lemma FrontAfter(dk: seq<nat>, s: Sim, g: Log, d: nat, c: nat)
    requires Shape(dk, s) && Placed(dk, s, g) && Later(dk, g)
    requires d < |s.queues| && s.queues[d] != [] && c in g.time && c < |dk| && dk[c] == d && g.time[c] == s.oldtime
    ensures var x := s.queues[d][0]; x !in g.time && s.i < x < |dk| && dk[x] == d && RightBefore(dk, g.time, x, s.oldtime + 1)
  {
    var x := s.queues[d][0];
    assert x != c && !(c < x);
  }

  lemma OutsideFacts(dk: seq<nat>, s: Sim, g: Log, m: int, room: int, except: int)
    requires MidAt(dk, s, g, m, room, except)
    ensures (s.i >= 0 ==> s.i !in g.time) && DoneBy(g, s.oldtime)
  {
    OpenMid(dk, s, g, m, room, except);
  }

  // ----- the iteration

  /** `Moving`, phrased so that a proof that only passes it on does not look inside. */
  ghost predicate MovingAt(dk: seq<nat>, i: int, g: Log, v: Moves, m: int, except: set<nat>) {
    forall u :: Same(u, v) ==> Moving(dk, i, g, u, m, except)
  }

  lemma PopMoves(dk: seq<nat>, i: int, g: Log, v: Moves, m: int, e: Event)
    requires MovingAt(dk, i, g, v, m, {}) && e.block !in g.done
    ensures MovingAt(dk, i, Written(g, e), v, m, {e.block}) && !Used(v, e.block)
  {
    assert Same(v, v);
    PoppedMoves(dk, i, g, v, m, e);
  }

  lemma SameMoves(dk: seq<nat>, i: int, i': int, g: Log, g': Log, v: Moves, m: int)
    requires MovingAt(dk, i, g, v, m, {}) && i' == i && g' == g
    ensures MovingAt(dk, i', g', v, m, {})
  {
  }

  lemma PromptFront(dk: seq<nat>, i: int, g: Log, came: map<nat, nat>, m: int, x: nat, now: nat)
    requires InTurn(dk, i, g, came, m) && RightBefore(dk, g.time, x, now + 1) && DoneBy(g, now)
    ensures PromptAt(dk, g.time, came, x, now + 1)
  {
  }

  /** The front `x` of a queue is launched. */
  lemma LaunchMoves(dk: seq<nat>, i: int, i': int, g: Log, g': Log, v: Moves, m: int, except: set<nat>, x: nat, now: nat)
    requires MovingAt(dk, i, g, v, m, except) && x !in g.time && RightBefore(dk, g.time, x, now + 1) && DoneBy(g, now)
    requires i' == i && g' == Scheduled(g, x, now + 1)
    ensures MovingAt(dk, i', g', v, m, except)
  {
    assert Same(v, v);
    PromptFront(dk, i, g, v.came, m, x, now);
    LaunchedMoves(dk, i, g, v, m, except, x, now + 1);
  }

  lemma NewFront(dk: seq<nat>, i: int, g: Log, v: Moves, m: int, except: set<nat>, x: nat)
    requires MovingAt(dk, i, g, v, m, except) && x !in g.time
    ensures forall q :: q in v.held ==> v.held[q].front != x
  {
    assert Same(v, v);
    FrontIsNew(dk, g, v, i, x);
  }

  lemma WaitMoves(dk: seq<nat>, i: nat, i': int, g: Log, v: Moves, v': Moves, m: int, p: nat, x: nat)
    requires MovingAt(dk, i, g, v, m, {p}) && !Used(v, p) && p in g.done && p in g.time && x in g.time && g.time[x] == g.time[p] + 1
    requires i < x < |dk| && dk[i] == dk[x] && forall q :: q in v.held ==> v.held[q].front != x
    requires i' == i && v' == v.(held := v.held[p := Hold(x, i)])
    ensures MovingAt(dk, i', g, v', m, {})
  {
    assert Same(v, v);
    SomebodyWaits(dk, i, g, v, m, p, x);
  }

  /** The next block comes in, into a queue. */
  lemma ComeMoves(dk: seq<nat>, i: nat, i': int, g: Log, v: Moves, v': Moves, m: int, p: nat, now: nat)
    requires MovingAt(dk, i, g, v, m, {p}) && !Used(v, p) && i !in g.time
    requires p in g.done && p in g.time && g.time[p] == now && DoneBy(g, now)
    requires i' == i - 1 && v' == v.(came := v.came[i := p])
    ensures MovingAt(dk, i', g, v', m, {}) && EntryTime(g.time, v'.came, i) == now
  {
    assert Same(v, v);
    SomebodyComes(dk, i, g, v, m, p, now);
  }

  /** The block that came in is launched at once. */
  lemma StartMoves(dk: seq<nat>, i: int, g: Log, g': Log, v: Moves, m: int, x: nat, now: nat)
    requires MovingAt(dk, i, g, v, m, {}) && x !in g.time && EntryTime(g.time, v.came, x) == now && g' == Scheduled(g, x, now + 1)
    ensures MovingAt(dk, i, g', v, m, {})
  {
    assert Same(v, v);
    LaunchedMoves(dk, i, g, v, m, {}, x, now + 1);
  }

  lemma NobodyMoves(dk: seq<nat>, i: int, g: Log, v: Moves, m: int, p: nat, now: nat)
    requires MovingAt(dk, i, g, v, m, {p}) && i == -1 && p in g.time && g.time[p] == now && DoneBy(g, now)
    ensures MovingAt(dk, i, g, v, m, {})
  {
    assert Same(v, v);
    NobodyComes(dk, g, v, m, p, now);
  }

  lemma EnterWaits(dk: seq<nat>, s: Sim, g: Log, v: Moves, m: int, p: nat)
    requires p < |dk| && MidAt(dk, s, g, m, m - 1, dk[p]) && s.i >= 0 && MovingAt(dk, s.i, g, v, m, {p}) && !Used(v, p)
    requires p in g.done && p in g.time && g.time[p] == s.oldtime && !s.busy[dk[s.i]] && s.queues[dk[s.i]] != []
    ensures MovingAt(dk, Enter(s, dk[s.i]).i, EnterLog(s, g, dk[s.i]), EnterMoves(dk, s, v, p), m, {})
  {
    var d := dk[s.i];
    var x, g' := s.queues[d][0], EnterLog(s, g, d);
    FrontFacts(dk, s, g, m, m - 1, d, p);
    NewFront(dk, s.i, g, v, m, {p}, x);
    LaunchMoves(dk, s.i, s.i, g, g', v, m, {p}, x, s.oldtime);
    WaitMoves(dk, s.i, Enter(s, d).i, g', v, EnterMoves(dk, s, v, p), m, p, x);
  }

  lemma EnterComes(dk: seq<nat>, s: Sim, g: Log, v: Moves, m: int, p: nat)
    requires p < |dk| && MidAt(dk, s, g, m, m - 1, dk[p]) && s.i >= 0 && MovingAt(dk, s.i, g, v, m, {p}) && !Used(v, p)
    requires p in g.done && p in g.time && g.time[p] == s.oldtime && (s.busy[dk[s.i]] || s.queues[dk[s.i]] == [])
    ensures MovingAt(dk, Enter(s, dk[s.i]).i, EnterLog(s, g, dk[s.i]), EnterMoves(dk, s, v, p), m, {})
  {
    var d := dk[s.i];
    var i', g', v' := Enter(s, d).i, EnterLog(s, g, d), EnterMoves(dk, s, v, p);
    OutsideFacts(dk, s, g, m, m - 1, dk[p]);
    ComeMoves(dk, s.i, i', g, v, v', m, p, s.oldtime);
    if s.busy[d] {
      SameMoves(dk, i', i', g, g', v', m);
    } else {
      StartMoves(dk, i', g, g', v', m, s.i, s.oldtime);
    }
  }

  lemma EnterMovesStep(dk: seq<nat>, s: Sim, g: Log, v: Moves, m: int, p: nat)
    requires p < |dk| && MidAt(dk, s, g, m, m - 1, dk[p]) && s.i >= 0 && MovingAt(dk, s.i, g, v, m, {p}) && !Used(v, p)
    requires p in g.done && p in g.time && g.time[p] == s.oldtime
    ensures MovingAt(dk, Enter(s, dk[s.i]).i, EnterLog(s, g, dk[s.i]), EnterMoves(dk, s, v, p), m, {})
  {
    if s.busy[dk[s.i]] || s.queues[dk[s.i]] == [] {
      EnterComes(dk, s, g, v, m, p);
    } else {
      EnterWaits(dk, s, g, v, m, p);
    }
  }

  /** After the block has come in, the disk of `p` goes on. */
  lemma NextMovesStep(dk: seq<nat>, s: Sim, g: Log, v: Moves, m: int, p: nat)
    requires p < |dk| && MidAt(dk, s, g, m, m, dk[p]) && dk[p] < |s.queues| && MovingAt(dk, s.i, g, v, m, {})
    requires p in g.time && g.time[p] == s.oldtime
    ensures MovingAt(dk, Next(s, dk[p]).i, NextLog(s, g, dk[p]), v, m, {})
  {
    var d := dk[p];
    if !s.busy[d] && s.queues[d] != [] {
      FrontFacts(dk, s, g, m, m, d, p);
      LaunchMoves(dk, s.i, Next(s, d).i, g, NextLog(s, g, d), v, m, {}, s.queues[d][0], s.oldtime);
    } else {
      SameMoves(dk, s.i, Next(s, d).i, g, NextLog(s, g, d), v, m);
    }
  }

  lemma AfterPopMoves(dk: seq<nat>, s: Sim, g: Log, v: Moves, m: int, p: nat)
    requires p < |dk| && MidAt(dk, s, g, m, m - 1, dk[p]) && dk[p] < |s.queues| && MovingAt(dk, s.i, g, v, m, {p}) && !Used(v, p)
    requires p in g.done && p in g.time && g.time[p] == s.oldtime
    ensures
      var q := if s.i >= 0 then Enter(s, dk[s.i]) else s;
      var h := if s.i >= 0 then EnterLog(s, g, dk[s.i]) else g;
      var v' := if s.i >= 0 then EnterMoves(dk, s, v, p) else v;
      && dk[p] < |q.queues| == |q.busy|
      && MovingAt(dk, Next(q, dk[p]).i, NextLog(q, h, dk[p]), v', m, {})
  {
    if s.i >= 0 {
      EnterStep(dk, s, g, m, dk[p]);
      EnterExtends(dk, s, g, m, m - 1, dk[p]);
      EnterMovesStep(dk, s, g, v, m, p);
      NextMovesStep(dk, Enter(s, dk[s.i]), EnterLog(s, g, dk[s.i]), EnterMoves(dk, s, v, p), m, p);
    } else {
      OutsideFacts(dk, s, g, m, m - 1, dk[p]);
      MoreRoom(dk, s, g, m, dk[p]);
      NobodyMoves(dk, s.i, g, v, m, p, s.oldtime);
      NextMovesStep(dk, s, g, v, m, p);
    }
  }

  /** Every iteration is greedy: a block comes in, or one is launched instead, and launches are prompt. */
  lemma MovesStep(dk: seq<nat>, s: Sim, g: Log, v: Moves, m: int, e: Event)
    requires Head(dk, s, g, m) && IsTop(s, e) && MovingAt(dk, s.i, g, v, m, {})
    ensures e.block < |dk| && MovingAt(dk, Handle(dk, s, e).i, HandleLog(dk, s, g, e), HandleMoves(dk, s, v, e), m, {})
  {
    PopMid(dk, s, g, m, e);
    PopMoves(dk, s.i, g, v, m, e);
    AfterPopMoves(dk, Pop(s, e), Written(g, e), v, m, e.block);
  }

  // ----- with which block a block is launched

  /** Block `b` was launched when it came in, or its disk had another block for the next time step before. */
  ghost predicate CameFits(dk: seq<nat>, g: Log, came: map<nat, nat>, launched: map<nat, nat>, b: nat)
    requires b in came
  {
    || (b in launched && launched[b] == came[b])
    || (exists c :: c in launched && b < c < |dk| && dk[c] == dk[b] && launched[c] != came[b] && NextStepOf(g, c, came[b]))
  }

  ghost predicate NextStepOf(g: Log, c: nat, p: nat) {
    c in g.time && p in g.time && g.time[c] == g.time[p] + 1
  }

  /** A block is launched with a written block, for the time step after it; those of time 1 are launched at the start. */
  ghost predicate Launching(dk: seq<nat>, g: Log, came: map<nat, nat>, launched: map<nat, nat>) {
    && (forall c :: c in launched ==> launched[c] in g.done && NextStepOf(g, c, launched[c]))
    && (forall c :: c in g.time ==> c in launched || g.time[c] == 1)
    && (forall b :: b in came ==> CameFits(dk, g, came, launched, b))
  }

  /** `Launching`, phrased so that a proof that only passes it on does not look inside. */
  ghost predicate LaunchingAt(dk: seq<nat>, g: Log, came: map<nat, nat>, launched: map<nat, nat>) {
    forall h :: Same(h, g) ==> Launching(dk, h, came, launched)
  }

  ghost function EnterLaunched(dk: seq<nat>, s: Sim, launched: map<nat, nat>, p: nat): map<nat, nat>
    requires Shape(dk, s) && s.i >= 0
  {
    var d := dk[s.i];
    if s.busy[d] then launched else launched[(if s.queues[d] != [] then s.queues[d][0] else s.i) := p]
  }

  ghost function NextLaunched(s: Sim, launched: map<nat, nat>, d: nat, p: nat): map<nat, nat>
    requires d < |s.queues| && |s.queues| == |s.busy|
  {
    if !s.busy[d] && s.queues[d] != [] then launched[s.queues[d][0] := p] else launched
  }

  ghost function HandleLaunched(dk: seq<nat>, s: Sim, launched: map<nat, nat>, e: Event): map<nat, nat>
    requires Shape(dk, s) && e.block < |dk|
  {
    var p := Pop(s, e);
    var q, l := if p.i >= 0 then Enter(p, dk[p.i]) else p, if p.i >= 0 then EnterLaunched(dk, p, launched, e.block) else launched;
    NextLaunched(q, l, dk[e.block], e.block)
  }

  lemma PopLaunches(dk: seq<nat>, g: Log, came: map<nat, nat>, launched: map<nat, nat>, e: Event)
    requires LaunchingAt(dk, g, came, launched) && e.block !in g.done
    ensures LaunchingAt(dk, Written(g, e), came, launched) && e.block !in launched.Values
  {
    assert Same(g, g);
    forall b | b in came ensures CameFits(dk, Written(g, e), came, launched, b) {
      CameFitsStays(dk, g, Written(g, e), came, launched, launched, b);
    }
  }

  lemma CameFitsStays(dk: seq<nat>, g: Log, g': Log, came: map<nat, nat>, launched: map<nat, nat>, launched': map<nat, nat>, b: nat)
    requires b in came && CameFits(dk, g, came, launched, b)
    requires forall c :: c in g.time ==> c in g'.time && g'.time[c] == g.time[c]
    requires forall c :: c in launched ==> c in launched' && launched'[c] == launched[c]
    ensures CameFits(dk, g', came, launched', b)
  {
    if !(b in launched && launched[b] == came[b]) {
      var c :| c in launched && b < c < |dk| && dk[c] == dk[b] && launched[c] != came[b] && NextStepOf(g, c, came[b]);
      assert c in launched' && NextStepOf(g', c, came[b]);
    }
  }

  /** Block `x` is launched with `p`. */
  lemma LaunchLaunches(dk: seq<nat>, g: Log, g': Log, came: map<nat, nat>, launched: map<nat, nat>, launched': map<nat, nat>, x: nat, p: nat)
    requires LaunchingAt(dk, g, came, launched) && x !in g.time && p in g.done && p in g.time
    requires g' == Scheduled(g, x, g.time[p] + 1) && launched' == launched[x := p]
    ensures LaunchingAt(dk, g', came, launched')
  {
    assert Same(g, g);
    assert x !in launched;
    forall c | c in launched' ensures launched'[c] in g'.done && NextStepOf(g', c, launched'[c]) {
      assert c != x ==> NextStepOf(g, c, launched[c]);
    }
    forall b | b in came ensures CameFits(dk, g', came, launched', b) {
      CameFitsStays(dk, g, g', came, launched, launched', b);
    }
  }

  /** Block `i` comes in with `p`: it is launched with `p`, or its disk has a block `c` for the next step. */
  lemma ComeLaunches(dk: seq<nat>, g: Log, came: map<nat, nat>, came': map<nat, nat>, launched: map<nat, nat>, i: nat, p: nat)
    requires LaunchingAt(dk, g, came, launched) && i !in came && came' == came[i := p] && CameFits(dk, g, came', launched, i)
    ensures LaunchingAt(dk, g, came', launched)
  {
    assert Same(g, g);
    forall b | b in came' ensures CameFits(dk, g, came', launched, b) {
      assert b != i ==> CameFits(dk, g, came, launched, b);
    }
  }

  /** A busy disk has a block for the next time step. */
  lemma BusyWith(dk: seq<nat>, s: Sim, g: Log, m: int, room: int, except: int) returns (c: nat)
    requires MidAt(dk, s, g, m, room, except) && s.i >= 0 && s.busy[dk[s.i]]
    ensures c in g.time && s.i < c < |dk| && dk[c] == dk[s.i] && g.time[c] == s.oldtime + 1
  {
    OpenMid(dk, s, g, m, room, except);
    c :| c in g.time && dk[c] == dk[s.i] && g.time[c] == s.oldtime + 1;
  }

  /** That block was not launched with `p`. */
  lemma BusyFits(dk: seq<nat>, g: Log, came: map<nat, nat>, launched: map<nat, nat>, b: nat, c: nat, p: nat)
    requires LaunchingAt(dk, g, came, launched) && p in g.time && p !in launched.Values
    requires c in g.time && b < c < |dk| && dk[c] == dk[b] && g.time[c] == g.time[p] + 1 > 1
    ensures CameFits(dk, g, came[b := p], launched, b)
  {
    assert Same(g, g);
    assert c in launched && launched[c] in launched.Values && NextStepOf(g, c, p);
  }

  lemma SameLaunches(dk: seq<nat>, g: Log, g': Log, came: map<nat, nat>, came': map<nat, nat>, launched: map<nat, nat>, launched': map<nat, nat>)
    requires LaunchingAt(dk, g, came, launched) && g' == g && came' == came && launched' == launched
    ensures LaunchingAt(dk, g', came', launched')
  {
  }

  lemma EnterLaunches(dk: seq<nat>, s: Sim, g: Log, v: Moves, launched: map<nat, nat>, m: int, p: nat)
    requires p < |dk| && MidAt(dk, s, g, m, m - 1, dk[p]) && s.i >= 0 && s.i !in v.came && LaunchingAt(dk, g, v.came, launched)
    requires p in g.done && p in g.time && g.time[p] == s.oldtime && p !in launched.Values && s.oldtime > 0
    ensures LaunchingAt(dk, EnterLog(s, g, dk[s.i]), EnterMoves(dk, s, v, p).came, EnterLaunched(dk, s, launched, p))
  {
    var d := dk[s.i];
    var g', came', l' := EnterLog(s, g, d), EnterMoves(dk, s, v, p).came, EnterLaunched(dk, s, launched, p);
    OutsideFacts(dk, s, g, m, m - 1, dk[p]);
    if s.busy[d] {
      var c := BusyWith(dk, s, g, m, m - 1, dk[p]);
      BusyFits(dk, g, v.came, launched, s.i, c, p);
      ComeLaunches(dk, g, v.came, came', launched, s.i, p);
    } else if s.queues[d] == [] {
      LaunchLaunches(dk, g, g', v.came, launched, l', s.i, p);
      ComeLaunches(dk, g', v.came, came', l', s.i, p);
    } else {
      FrontFacts(dk, s, g, m, m - 1, d, p);
      LaunchLaunches(dk, g, g', v.came, launched, l', s.queues[d][0], p);
    }
  }

  lemma NextLaunches(dk: seq<nat>, s: Sim, g: Log, came: map<nat, nat>, launched: map<nat, nat>, m: int, p: nat)
    requires p < |dk| && MidAt(dk, s, g, m, m, dk[p]) && dk[p] < |s.queues| && LaunchingAt(dk, g, came, launched)
    requires p in g.done && p in g.time && g.time[p] == s.oldtime
    ensures LaunchingAt(dk, NextLog(s, g, dk[p]), came, NextLaunched(s, launched, dk[p], p))
  {
    var d := dk[p];
    if !s.busy[d] && s.queues[d] != [] {
      FrontFacts(dk, s, g, m, m, d, p);
      LaunchLaunches(dk, g, NextLog(s, g, d), came, launched, NextLaunched(s, launched, d, p), s.queues[d][0], p);
    } else {
      SameLaunches(dk, g, NextLog(s, g, d), came, came, launched, NextLaunched(s, launched, d, p));
    }
  }

  lemma AfterPopLaunches(dk: seq<nat>, s: Sim, g: Log, v: Moves, launched: map<nat, nat>, m: int, p: nat)
    requires p < |dk| && MidAt(dk, s, g, m, m - 1, dk[p]) && dk[p] < |s.queues| && (s.i >= 0 ==> s.i !in v.came)
    requires LaunchingAt(dk, g, v.came, launched) && p in g.done && p in g.time && g.time[p] == s.oldtime > 0 && p !in launched.Values
    ensures
      var q := if s.i >= 0 then Enter(s, dk[s.i]) else s;
      var h := if s.i >= 0 then EnterLog(s, g, dk[s.i]) else g;
      var v' := if s.i >= 0 then EnterMoves(dk, s, v, p) else v;
      var l := if s.i >= 0 then EnterLaunched(dk, s, launched, p) else launched;
      && dk[p] < |q.queues| == |q.busy|
      && LaunchingAt(dk, NextLog(q, h, dk[p]), v'.came, NextLaunched(q, l, dk[p], p))
  {
    if s.i >= 0 {
      EnterStep(dk, s, g, m, dk[p]);
      EnterExtends(dk, s, g, m, m - 1, dk[p]);
      EnterLaunches(dk, s, g, v, launched, m, p);
      NextLaunches(dk, Enter(s, dk[s.i]), EnterLog(s, g, dk[s.i]), EnterMoves(dk, s, v, p).came, EnterLaunched(dk, s, launched, p), m, p);
    } else {
      MoreRoom(dk, s, g, m, dk[p]);
      NextLaunches(dk, s, g, v.came, launched, m, p);
    }
  }

  lemma NotCameYet(dk: seq<nat>, i: int, g: Log, v: Moves, m: int)
    requires MovingAt(dk, i, g, v, m, {})
    ensures i >= 0 ==> i !in v.came
  {
    assert Same(v, v);
  }

  /** Every iteration launches what can be launched, before it takes in a block. */
  lemma LaunchesStep(dk: seq<nat>, s: Sim, g: Log, v: Moves, launched: map<nat, nat>, m: int, e: Event)
    requires Head(dk, s, g, m) && IsTop(s, e) && MovingAt(dk, s.i, g, v, m, {}) && LaunchingAt(dk, g, v.came, launched)
    ensures e.block < |dk| && LaunchingAt(dk, HandleLog(dk, s, g, e), HandleMoves(dk, s, v, e).came, HandleLaunched(dk, s, launched, e))
  {
    PopMid(dk, s, g, m, e);
    NotCameYet(dk, s.i, g, v, m);
    PopLaunches(dk, g, v.came, launched, e);
    assert e.timestamp >= 1;
    AfterPopLaunches(dk, Pop(s, e), Written(g, e), v, launched, m, e.block);
  }

  // ----- the whole run

  /** The times of a complete run, with the blocks that came in and were launched with each written block. */
  ghost predicate GreedyTimes(dk: seq<nat>, time: map<nat, nat>, v: Moves, launched: map<nat, nat>, m: int) {
    var g := Log(time, time.Keys);
    && Moving(dk, -1, g, v, m, {})
    && Launching(dk, g, v.came, launched)
    && (forall b :: b in time && b < |dk| ==> time[b] == 1 + Max(EntryTime(time, v.came, b), TimeBefore(dk, time, b)))
  }

  /** Before the first event: all that is launched is launched for time 1, and the first `m` blocks are in. */
  lemma StartGreedy(dk: seq<nat>, i: int, g: Log, m: int)
    requires i == (if m < |dk| then |dk| - m else 0) - 1 && g.done == {} && forall b :: b in g.time ==> g.time[b] == 1
    ensures MovingAt(dk, i, g, Moves(map[], map[]), m, {}) && LaunchingAt(dk, g, map[], map[])
  {
  }

  function Max(a: nat, b: nat): nat {
    if a < b then b else a
  }

  /** The first block from `k` on that lies on disk `d`, or the number of blocks. */
  function NextOn(dk: seq<nat>, d: nat, k: nat): (c: nat)
    requires k <= |dk|
    ensures k <= c <= |dk| && (c < |dk| ==> dk[c] == d) && forall j :: k <= j < c ==> dk[j] != d
    decreases |dk| - k
  {
    if k == |dk| || dk[k] == d then k else NextOn(dk, d, k + 1)
  }

  /** When the next larger block on the disk of `b` is written. */
  ghost function TimeBefore(dk: seq<nat>, time: map<nat, nat>, b: nat): nat
    requires b < |dk|
  {
    var c := NextOn(dk, dk[b], b + 1);
    if c in time then time[c] else 0
  }

  lemma NextIsEarlier(dk: seq<nat>, g: Log, b: nat)
    requires Later(dk, g) && b in g.time && b < |dk| && |dk| !in g.time
    ensures TimeBefore(dk, g.time, b) == 0 || TimeBefore(dk, g.time, b) + 1 <= g.time[b]
  {
  }

  lemma RightBeforeIsNext(dk: seq<nat>, g: Log, b: nat)
    requires Later(dk, g) && b in g.time && b < |dk| && |dk| !in g.time && RightBefore(dk, g.time, b, g.time[b])
    ensures TimeBefore(dk, g.time, b) + 1 == g.time[b]
  {
    var c :| c in g.time && b < c < |dk| && b < |dk| && dk[c] == dk[b] && g.time[c] + 1 == g.time[b];
    var n := NextOn(dk, dk[b], b + 1);
    assert n <= c && dk[n] == dk[b];
  }

  /** A block is written in the step after both its coming in and the next larger block of its disk. */
  lemma ExactTime(dk: seq<nat>, g: Log, came: map<nat, nat>, b: nat)
    requires Later(dk, g) && b in g.time && b < |dk| && |dk| !in g.time && PromptAt(dk, g.time, came, b, g.time[b])
    ensures g.time[b] == 1 + Max(EntryTime(g.time, came, b), TimeBefore(dk, g.time, b))
  {
    NextIsEarlier(dk, g, b);
    if RightBefore(dk, g.time, b, g.time[b]) {
      RightBeforeIsNext(dk, g, b);
    }
  }

  lemma AllGreedy(dk: seq<nat>, time: map<nat, nat>, v: Moves, launched: map<nat, nat>, m: int)
    requires MovingAt(dk, -1, Log(time, time.Keys), v, m, {}) && LaunchingAt(dk, Log(time, time.Keys), v.came, launched)
    requires Later(dk, Log(time, time.Keys)) && |dk| !in time
    ensures GreedyTimes(dk, time, v, launched, m)
  {
    var g := Log(time, time.Keys);
    assert Same(v, v) && Same(g, g);
    forall b | b in time && b < |dk| ensures time[b] == 1 + Max(EntryTime(time, v.came, b), TimeBefore(dk, time, b)) {
      ExactTime(dk, g, v.came, b);
    }
  }

  /** The number of blocks from `k` on that lie on disk `d`. */
  function Load(dk: seq<nat>, d: nat, k: nat): nat
    requires k <= |dk|
    decreases |dk| - k
  {
    if k == |dk| then 0 else (if dk[k] == d then 1 else 0) + Load(dk, d, k + 1)
  }

  lemma {:induction false} LoadFromNext(dk: seq<nat>, d: nat, k: nat)
    requires k <= |dk|
    ensures Load(dk, d, k) == Load(dk, d, NextOn(dk, d, k))
    decreases |dk| - k
  {
    if k < |dk| && dk[k] != d {
      LoadFromNext(dk, d, k + 1);
    }
  }

  lemma {:induction false} LoadFalls(dk: seq<nat>, d: nat, k: nat)
    requires k <= |dk|
    ensures Load(dk, d, k) <= Load(dk, d, 0)
  {
    if k > 0 {
      LoadFalls(dk, d, k - 1);
    }
  }

  /** A disk writes one block a step. */
  lemma {:induction false} TimeAtLeastLoad(dk: seq<nat>, g: Log, b: nat)
    requires Later(dk, g) && b < |dk| && b in g.time && forall c :: c in g.time ==> g.time[c] >= 1
    ensures g.time[b] >= Load(dk, dk[b], b)
    decreases |dk| - b
  {
    var n := NextOn(dk, dk[b], b + 1);
    LoadFromNext(dk, dk[b], b + 1);
    if n < |dk| {
      TimeAtLeastLoad(dk, g, n);
    }
  }

  lemma {:induction false} LoadByNext(dk: seq<nat>, time: map<nat, nat>, b: nat)
    requires b < |dk| && (forall c: nat :: c in time <==> c < |dk|) && forall c: nat :: c < |dk| ==> time[c] == 1 + TimeBefore(dk, time, c)
    ensures time[b] == Load(dk, dk[b], b)
    decreases |dk| - b
  {
    var n := NextOn(dk, dk[b], b + 1);
    LoadFromNext(dk, dk[b], b + 1);
    if n < |dk| {
      LoadByNext(dk, time, n);
    }
  }

  /** When all blocks fit into the buffers, every disk writes without a pause. */
  lemma TimeIsLoad(dk: seq<nat>, time: map<nat, nat>, v: Moves, launched: map<nat, nat>, m: int, b: nat)
    requires GreedyTimes(dk, time, v, launched, m) && m >= |dk| > b && (forall c: nat :: c in time <==> c < |dk|)
    ensures time[b] == Load(dk, dk[b], b)
  {
    forall c: nat | c < |dk| ensures time[c] == 1 + TimeBefore(dk, time, c) {
      assert EntryTime(time, v.came, c) == 0;
    }
    LoadByNext(dk, time, b);
  }
}
