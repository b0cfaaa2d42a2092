/** The loser tree as a tournament: nodes 1..k-1 hold the losers of their matches, node k + j is
    leaf j.  Everything here is about sequences; the in-place tree is in LoserTree.dfy.
 */
module Tournament {
  import opened Closed
  import opened Powers

  /** What a cursor shows: the key of its current element, or infinity when it is empty. */
  datatype Key = Fin(key: int) | Inf

  /** The cursor comparison with its sentinel emulation: an empty right side loses to anything. */
  predicate Beats(a: Key, b: Key) {
    if b.Inf? then true else if a.Inf? then false else a.key < b.key
  }

  predicate Le(a: Key, b: Key) {
    b.Inf? || (a.Fin? && a.key <= b.key)
  }

  // ----- the shape of the tree

  /** Node `y` is `x` or lies on the way from `x` to the root. */
  predicate Anc(y: nat, x: nat) {
    x == y || (x > y && Anc(y, x / 2))
  }

  function Sib(y: nat): nat
    requires y >= 1
  {
    if y % 2 == 0 then y + 1 else y - 1
  }

  function Depth(x: nat): nat {
    if x <= 1 then 0 else 1 + Depth(x / 2)
  }

  /** x >> s */
  function Up(x: nat, s: nat): (r: nat)
    ensures r <= x
  {
    if s == 0 then x else Up(x, s - 1) / 2
  }

  lemma {:induction false} AncParent(y: nat, x: nat)
    requires y >= 2 && Anc(y, x)
    ensures Anc(y / 2, x)
    decreases x
  {
    if x == y {
      assert Anc(y / 2, x / 2);
    } else {
      AncParent(y, x / 2);
    }
  }

  lemma {:induction false} UpParent(x: nat, s: nat)
    ensures Up(x, s + 1) == Up(x / 2, s)
  {
    if s == 0 {
    } else {
      UpParent(x, s - 1);
    }
  }

  /** An ancestor is reached by as many halvings as the depths differ. */
  lemma {:induction false} AncUp(y: nat, x: nat)
    requires y >= 1 && Anc(y, x)
    ensures Depth(x) >= Depth(y) && Up(x, Depth(x) - Depth(y)) == y
    decreases x
  {
    if x <= y {
    } else {
      AncUp(y, x / 2);
      UpParent(x, Depth(x / 2) - Depth(y));
    }
  }

  lemma {:induction false} LeafDepth(n: nat, x: nat)
    requires Pow2(n) <= x < 2 * Pow2(n)
    ensures Depth(x) == n
  {
    if n == 0 {
    } else {
      LeafDepth(n - 1, x / 2);
    }
  }

  // ----- played matches

  /** `win[x]` won the subtree of node `x`; the match at `x` was between the winners of its children
      and left the loser in `entry[x]`. */
  ghost predicate Match(entry: seq<nat>, win: seq<nat>, v: seq<Key>, x: nat)
    requires 2 * x + 1 < |win| && x < |entry|
  {
    && ((win[x] == win[2 * x] && entry[x] == win[2 * x + 1]) || (win[x] == win[2 * x + 1] && entry[x] == win[2 * x]))
    && win[x] < |v| && entry[x] < |v|
    && Le(v[win[x]], v[entry[x]])
  }

  ghost predicate Sizes(k: nat, entry: seq<nat>, win: seq<nat>, v: seq<Key>) {
    && k >= 1 && |entry| == |win| == 2 * k && |v| == k
    && (forall x :: k <= x < 2 * k ==> win[x] == x - k)
  }

  /** The state between two elements of the merge. */
  ghost predicate TreeOk(k: nat, entry: seq<nat>, win: seq<nat>, v: seq<Key>) {
    Sizes(k, entry, win, v) && forall x :: 1 <= x < k ==> Match(entry, win, v, x)
  }

  /** The opponent waiting at the parent of `y` is the winner next door, and so on up. */
  ghost predicate PathOk(entry: seq<nat>, win: seq<nat>, y: nat) {
    y >= 2 ==> && y / 2 < |entry| && Sib(y) < |win|
               && entry[y / 2] == win[Sib(y)]
               && PathOk(entry, win, y / 2)
  }

  /** The state during a replay that has reached node `y`: all matches off the way from the parent
      of `y` to the root are valid. */
  ghost predicate Climbing(k: nat, entry: seq<nat>, win: seq<nat>, v: seq<Key>, y: nat) {
    && Sizes(k, entry, win, v)
    && 1 <= y < 2 * k
    && win[y] < k
    && (forall x :: 1 <= x < k && !Anc(x, y / 2) ==> Match(entry, win, v, x))
    && PathOk(entry, win, y)
  }

  lemma ChildrenOff(x: nat, z: nat)
    requires x >= 1 && !Anc(x, z)
    ensures !Anc(2 * x, z) && !Anc(2 * x + 1, z)
  {
    if Anc(2 * x, z) { AncParent(2 * x, z); }
    if Anc(2 * x + 1, z) { AncParent(2 * x + 1, z); }
  }

  lemma {:induction false} WinBelow(k: nat, entry: seq<nat>, win: seq<nat>, v: seq<Key>, y: nat, x: nat)
    requires Climbing(k, entry, win, v, y) && 1 <= x < 2 * k && !Anc(x, y / 2)
    ensures win[x] < k && Anc(x, k + win[x])
    decreases 2 * k - x
  {
    if x >= k {
    } else {
      ChildrenOff(x, y / 2);
      WinBelow(k, entry, win, v, y, 2 * x);
      WinBelow(k, entry, win, v, y, 2 * x + 1);
      AncParent(2 * x, k + win[2 * x]);
      AncParent(2 * x + 1, k + win[2 * x + 1]);
    }
  }

  /** The winner of the whole tree is least. */
  lemma {:induction false} WinnerLeast(k: nat, entry: seq<nat>, win: seq<nat>, v: seq<Key>, x: nat)
    requires TreeOk(k, entry, win, v) && 1 <= x < 2 * k
    ensures win[1] < k && win[x] < k && Le(v[win[1]], v[win[x]])
    decreases x
  {
    if x > 1 {
      WinnerLeast(k, entry, win, v, x / 2);
      assert Match(entry, win, v, x / 2);
    } else if k > 1 {
      assert Match(entry, win, v, 1);
    }
  }

  // ----- replaying from a leaf

  /** One match: the entry at node `i` against the climbing winner `w`. */
  function Duel(entry: seq<nat>, v: seq<Key>, i: nat, w: nat): (r: (seq<nat>, nat))
    requires i < |entry| && w < |v| && forall x :: 0 <= x < |entry| ==> entry[x] < |v|
    ensures |r.0| == |entry| && r.1 < |v| && forall x :: 0 <= x < |entry| ==> r.0[x] < |v|
  {
    if Beats(v[entry[i]], v[w]) then (entry[i := w], entry[i]) else (entry, w)
  }

  /** The loop of `multi_merge_k`: the winner index climbs from node `i` to the root. */
  function Replay(entry: seq<nat>, v: seq<Key>, i: nat, w: nat): (r: (seq<nat>, nat))
    requires i < |entry| && w < |v| && forall x :: 0 <= x < |entry| ==> entry[x] < |v|
    ensures |r.0| == |entry| && r.1 < |v| && forall x :: 0 <= x < |entry| ==> r.0[x] < |v|
    decreases i
  {
    if i == 0 then (entry, w)
    else
      var d := Duel(entry, v, i, w);
      Replay(d.0, v, i / 2, d.1)
  }

  /** One match of the climb. */
  lemma ClimbOne(k: nat, entry: seq<nat>, win: seq<nat>, v: seq<Key>, y: nat)
    requires Climbing(k, entry, win, v, y) && y >= 2 && forall x :: 0 <= x < |entry| ==> entry[x] < k
    ensures var d := Duel(entry, v, y / 2, win[y]);
            Climbing(k, d.0, win[y / 2 := d.1], v, y / 2)
  {
    var i := y / 2;
    var d := Duel(entry, v, i, win[y]);
    OpponentBelow(k, entry, win, v, y);
    var entry', win' := d.0, win[i := d.1];
    PathKept(entry, win, entry', win', i, i);
    forall x | 1 <= x < k && !Anc(x, i / 2) ensures Match(entry', win', v, x) {
      if x != i {
        assert Match(entry, win, v, x);
        assert 2 * x != i && 2 * x + 1 != i;
      }
    }
  }

  lemma OpponentBelow(k: nat, entry: seq<nat>, win: seq<nat>, v: seq<Key>, y: nat)
    requires Climbing(k, entry, win, v, y) && y >= 2
    ensures entry[y / 2] == win[Sib(y)] && win[Sib(y)] < k
  {
    SiblingOff(y);
    WinBelow(k, entry, win, v, y, Sib(y));
  }

  lemma SiblingOff(y: nat)
    requires y >= 2
    ensures !Anc(Sib(y), y / 2)
  {
  }

  lemma {:induction false} PathKept(entry: seq<nat>, win: seq<nat>, entry': seq<nat>, win': seq<nat>, i: nat, y: nat)
    requires 1 <= y && (y == i || y <= i / 2) && PathOk(entry, win, y)
    requires |entry'| == |entry| && |win'| == |win|
    requires forall x :: 0 <= x < |entry| && x != i ==> entry'[x] == entry[x]
    requires forall x :: 0 <= x < |win| && x != i ==> win'[x] == win[x]
    ensures PathOk(entry', win', y)
    decreases y
  {
    if y < 2 {
    } else {
      PathKept(entry, win, entry', win', i, y / 2);
    }
  }

  lemma SiblingsApart(y: nat, x: nat)
    requires y >= 2 && Anc(y, x)
    ensures !Anc(Sib(y), x)
  {
    assert Depth(y) == Depth(Sib(y));
    AncUp(y, x);
    if Anc(Sib(y), x) { AncUp(Sib(y), x); }
  }

  lemma {:induction false} WinnerOnPath(k: nat, entry: seq<nat>, win: seq<nat>, v: seq<Key>, y: nat)
    requires TreeOk(k, entry, win, v) && win[1] < k && 1 <= y < 2 * k && Anc(y, k + win[1])
    ensures win[y] == win[1]
    ensures y >= 2 ==> entry[y / 2] == win[Sib(y)]
    decreases y
  {
    if y <= 1 {
    } else {
      AncParent(y, k + win[1]);
      WinnerOnPath(k, entry, win, v, y / 2);
      assert Match(entry, win, v, y / 2);
      SiblingsApart(y, k + win[1]);
      WinBelow(k, entry, win, v, 1, Sib(y));
    }
  }

  lemma {:induction false} PathReady(k: nat, entry: seq<nat>, win: seq<nat>, v: seq<Key>, y: nat)
    requires TreeOk(k, entry, win, v) && win[1] < k && 1 <= y < 2 * k && Anc(y, k + win[1])
    ensures PathOk(entry, win, y)
    decreases y
  {
    WinnerOnPath(k, entry, win, v, y);
    if y <= 1 {
    } else {
      AncParent(y, k + win[1]);
      PathReady(k, entry, win, v, y / 2);
    }
  }

  /** When the winning cursor moves on, only the matches on its way to the root are in doubt. */
  lemma StartClimb(k: nat, entry: seq<nat>, win: seq<nat>, v: seq<Key>, v': seq<Key>)
    requires TreeOk(k, entry, win, v) && win[1] < k
    requires |v'| == k && forall j :: 0 <= j < k && j != win[1] ==> v'[j] == v[j]
    ensures Climbing(k, entry, win, v', k + win[1])
  {
    var w := win[1];
    PathReady(k, entry, win, v, k + w);
    forall x | 1 <= x < k && !Anc(x, (k + w) / 2) ensures Match(entry, win, v', x) {
      assert Match(entry, win, v, x);
      NotWinner(k, entry, win, v, x);
    }
  }

  lemma NotWinner(k: nat, entry: seq<nat>, win: seq<nat>, v: seq<Key>, x: nat)
    requires TreeOk(k, entry, win, v) && win[1] < k && 1 <= x < k && !Anc(x, (k + win[1]) / 2)
    ensures win[x] != win[1] && entry[x] != win[1]
  {
    assert Match(entry, win, v, x);
    WinBelow(k, entry, win, v, 1, 2 * x);
    WinBelow(k, entry, win, v, 1, 2 * x + 1);
    AncParent(2 * x, k + win[2 * x]);
    AncParent(2 * x + 1, k + win[2 * x + 1]);
  }

  /** A replay ends in a valid tournament whose winner it returns. */
  lemma {:induction false} ReplayTree(k: nat, entry: seq<nat>, win: seq<nat>, v: seq<Key>, y: nat) returns (win': seq<nat>)
    requires Climbing(k, entry, win, v, y) && forall x :: 0 <= x < |entry| ==> entry[x] < k
    ensures TreeOk(k, Replay(entry, v, y / 2, win[y]).0, win', v)
    ensures win'[1] == Replay(entry, v, y / 2, win[y]).1
    decreases y
  {
    if y == 1 {
      win' := win;
    } else {
      ClimbOne(k, entry, win, v, y);
      var d := Duel(entry, v, y / 2, win[y]);
      win' := ReplayTree(k, d.0, win[y / 2 := d.1], v, y / 2);
    }
  }

  /** The index that the unrolled merge computes from the current winner is the node of the climb:
      the winner, old or new, lies below it. */
  lemma UnrolledIndex(n: nat, entry: seq<nat>, win: seq<nat>, v: seq<Key>, y: nat, s: nat)
    requires Climbing(Pow2(n), entry, win, v, y) && s <= n && Depth(y) == n - s
    ensures Up(Pow2(n) + win[y], s) == y && Up(Pow2(n) + win[y], s + 1) == y / 2
  {
    var k := Pow2(n);
    assert !Anc(y, y / 2);
    WinBelow(k, entry, win, v, y, y);
    LeafDepth(n, k + win[y]);
    AncUp(y, k + win[y]);
  }

  /** The unrolled loop: step `s` of `n` computes its node afresh from the current winner. */
  function UnrolledReplay(entry: seq<nat>, v: seq<Key>, n: nat, s: nat, w: nat): (r: (seq<nat>, nat))
    requires |v| == Pow2(n) && |entry| == 2 * |v| && w < |v| && forall x :: 0 <= x < |entry| ==> entry[x] < |v|
    ensures |r.0| == |entry| && r.1 < |v| && forall x :: 0 <= x < |entry| ==> r.0[x] < |v|
    decreases n + 1 - s
  {
    if s > n then (entry, w)
    else
      var d := Duel(entry, v, Up(w + |v|, s), w);
      UnrolledReplay(d.0, v, n, s + 1, d.1)
  }

  lemma UnrolledOnce(entry: seq<nat>, v: seq<Key>, n: nat, s: nat, w: nat, e: seq<nat>, w': nat)
    requires |v| == Pow2(n) && |entry| == 2 * |v| && w < |v| && forall x :: 0 <= x < |entry| ==> entry[x] < |v|
    requires s <= n && (e, w') == Duel(entry, v, Up(w + |v|, s), w)
    ensures |e| == 2 * |v| && w' < |v| && forall x :: 0 <= x < |e| ==> e[x] < |v|
    ensures UnrolledReplay(entry, v, n, s, w) == UnrolledReplay(e, v, n, s + 1, w')
  {
  }

  /** `Climbing`, phrased so that a proof that only passes it on does not look inside. */
  ghost predicate ClimbingAt(k: nat, entry: seq<nat>, win: seq<nat>, v: seq<Key>, y: nat) {
    && |v| == k && |entry| == |win| == 2 * k && 1 <= y < 2 * k && win[y] < k && (forall x :: 0 <= x < |entry| ==> entry[x] < k)
    && forall z: nat :: Same(z, y) ==> Climbing(k, entry, win, v, z)
  }

  /** The step goes to the parent, whose index is the one that the unrolled form computes. */
  lemma ClimbNext(n: nat, entry: seq<nat>, win: seq<nat>, v: seq<Key>, y: nat, s: nat)
    requires ClimbingAt(Pow2(n), entry, win, v, y) && 1 <= s <= n && Depth(y) == n - (s - 1)
    ensures y >= 2 && Depth(y / 2) == n - s && y / 2 == Up(win[y] + |v|, s)
    ensures var d := Duel(entry, v, y / 2, win[y]); ClimbingAt(Pow2(n), d.0, win[y / 2 := d.1], v, y / 2)
  {
    assert Same(y, y);
    UnrolledIndex(n, entry, win, v, y, s - 1);
    ClimbOne(Pow2(n), entry, win, v, y);
  }

  /** From step `s` with winner `w`, and from node `i`, the two forms agree; kept closed. */
  ghost predicate AgreeAt(n: nat, entry: seq<nat>, v: seq<Key>, s: nat, w: nat, i: nat) {
    && |v| == Pow2(n) && |entry| == 2 * |v| && w < |v| && i < |entry| && (forall x :: 0 <= x < |entry| ==> entry[x] < |v|)
    && forall z: nat :: Same(z, i) && z < |entry| ==> UnrolledReplay(entry, v, n, s, w) == Replay(entry, v, z, w)
  }

  lemma AgreeStep(n: nat, entry: seq<nat>, v: seq<Key>, s: nat, w: nat, i: nat, e: seq<nat>, w': nat)
    requires |entry| == 2 * |v| && w < |v| && (forall x :: 0 <= x < |entry| ==> entry[x] < |v|)
    requires 0 < i < |entry| && s <= n && i == Up(w + |v|, s) && (e, w') == Duel(entry, v, i, w) && AgreeAt(n, e, v, s + 1, w', i / 2)
    ensures AgreeAt(n, entry, v, s, w, i)
  {
    assert Same(i / 2, i / 2);
  }

  lemma AgreeEnd(n: nat, entry: seq<nat>, v: seq<Key>, w: nat)
    requires |v| == Pow2(n) && |entry| == 2 * |v| && w < |v| && (forall x :: 0 <= x < |entry| ==> entry[x] < |v|)
    ensures AgreeAt(n, entry, v, n + 1, w, 0)
  {
  }

  lemma {:induction false} UnrolledClimb(n: nat, entry: seq<nat>, win: seq<nat>, v: seq<Key>, y: nat, s: nat)
    requires ClimbingAt(Pow2(n), entry, win, v, y) && 1 <= s <= n + 1 && Depth(y) == n - (s - 1)
    ensures AgreeAt(n, entry, v, s, win[y], y / 2)
    decreases n + 1 - s
  {
    if s == n + 1 {
      AgreeEnd(n, entry, v, win[y]);
    } else {
      ClimbNext(n, entry, win, v, y, s);
      var d := Duel(entry, v, y / 2, win[y]);
      UnrolledClimb(n, d.0, win[y / 2 := d.1], v, y / 2, s + 1);
      AgreeStep(n, entry, v, s, win[y], y / 2, d.0, d.1);
    }
  }

  /** Unrolled or not, the replay of a winner is the same. */
  lemma UnrolledIsReplay(n: nat, entry: seq<nat>, win: seq<nat>, v: seq<Key>, y: nat, s: nat)
    requires Climbing(Pow2(n), entry, win, v, y) && 1 <= s <= n + 1 && Depth(y) == n - (s - 1)
    requires forall x :: 0 <= x < |entry| ==> entry[x] < |v|
    ensures UnrolledReplay(entry, v, n, s, win[y]) == Replay(entry, v, y / 2, win[y])
  {
    UnrolledClimb(n, entry, win, v, y, s);
    assert Same(y / 2, y / 2);
  }

  /** The entries after a replay, with the new winner at the root. */
  function Reseated(entry: seq<nat>, v: seq<Key>, w: nat): (r: seq<nat>)
    requires w < |v| && |entry| == 2 * |v| && forall x :: 0 <= x < |entry| ==> entry[x] < |v|
    ensures |r| == |entry| && forall x :: 0 <= x < |entry| ==> r[x] < |v|
  {
    var r := Replay(entry, v, (|v| + w) / 2, w);
    r.0[0 := r.1]
  }

  lemma ReseatedFrom(entry: seq<nat>, v: seq<Key>, w0: nat, e: seq<nat>, w: nat)
    requires w0 < |v| && |entry| == 2 * |v| && forall x :: 0 <= x < |entry| ==> entry[x] < |v|
    requires (e, w) == Replay(entry, v, (|v| + w0) / 2, w0)
    ensures w < |v| && |e| == |entry| && (forall x :: 0 <= x < |e| ==> e[x] < |v|)
    ensures e[0 := w] == Reseated(entry, v, w0)
  {
  }

  lemma ReseatedUnrolled(n: nat, entry: seq<nat>, v: seq<Key>, w0: nat, e: seq<nat>, w: nat)
    requires |v| == Pow2(n) && w0 < |v| && |entry| == 2 * |v| && forall x :: 0 <= x < |entry| ==> entry[x] < |v|
    requires ReplaysAgree(n, entry, v, w0) && (e, w) == UnrolledReplay(entry, v, n, 1, w0)
    ensures w < |v| && |e| == |entry| && (forall x :: 0 <= x < |e| ==> e[x] < |v|)
    ensures e[0 := w] == Reseated(entry, v, w0)
  {
    ReseatedFrom(entry, v, w0, e, w);
  }

  /** Where unrolled and plain replay of winner `w` agree. */
  ghost predicate ReplaysAgree(n: nat, entry: seq<nat>, v: seq<Key>, w: nat)
    requires |v| == Pow2(n) && |entry| == 2 * |v| && w < |v| && forall x :: 0 <= x < |entry| ==> entry[x] < |v|
  {
    UnrolledReplay(entry, v, n, 1, w) == Replay(entry, v, (|v| + w) / 2, w)
  }

  lemma ClimbingAgree(n: nat, entry: seq<nat>, win: seq<nat>, v: seq<Key>, w: nat)
    requires w < Pow2(n) && Climbing(Pow2(n), entry, win, v, Pow2(n) + w)
    requires forall x :: 0 <= x < |entry| ==> entry[x] < |v|
    ensures ReplaysAgree(n, entry, v, w)
  {
    LeafDepth(n, Pow2(n) + w);
    UnrolledClimb(n, entry, win, v, Pow2(n) + w, 1);
    AgreeFrom(n, entry, v, win[Pow2(n) + w], (Pow2(n) + w) / 2, w);
  }

  lemma AgreeFrom(n: nat, entry: seq<nat>, v: seq<Key>, w0: nat, i: nat, w: nat)
    requires AgreeAt(n, entry, v, 1, w0, i) && w0 == w && i == (|v| + w) / 2
    ensures ReplaysAgree(n, entry, v, w)
  {
    assert Same(i, i);
  }

  lemma {:induction false} ReplayIgnoresRoot(entry: seq<nat>, v: seq<Key>, i: nat, w: nat, a: nat)
    requires i < |entry| && w < |v| && a < |v| && forall x :: 0 <= x < |entry| ==> entry[x] < |v|
    ensures var r := Replay(entry, v, i, w); Replay(entry[0 := a], v, i, w) == (r.0[0 := a], r.1)
    decreases i
  {
    if i == 0 {
    } else {
      var d := Duel(entry, v, i, w);
      assert Duel(entry[0 := a], v, i, w) == (d.0[0 := a], d.1) by {
        assert entry[0 := a][i := w] == entry[i := w][0 := a];
      }
      ReplayIgnoresRoot(d.0, v, i / 2, d.1, a);
    }
  }

  /** A replay does not look at the root, so the merge loop may keep the winner in a variable. */
  lemma ReseatIgnoresRoot(entry: seq<nat>, v: seq<Key>, w: nat, a: nat)
    requires w < |v| && a < |v| && |entry| == 2 * |v| && forall x :: 0 <= x < |entry| ==> entry[x] < |v|
    ensures Reseated(entry[0 := a], v, w) == Reseated(entry, v, w)
  {
    ReplayIgnoresRoot(entry, v, (|v| + w) / 2, w, a);
    var r := Replay(entry, v, (|v| + w) / 2, w);
    assert r.0[0 := a][0 := r.1] == r.0[0 := r.1];
  }

  // ----- the first tournament

  /** Who wins the subtree of node `i`; on equal keys the right side. */
  function WinnerOf(k: nat, v: seq<Key>, i: nat): (w: nat)
    requires |v| == k && 1 <= i < 2 * k
    ensures w < k
    decreases 2 * k - i
  {
    if i >= k then i - k
    else
      var left, right := WinnerOf(k, v, 2 * i), WinnerOf(k, v, 2 * i + 1);
      if Beats(v[left], v[right]) then left else right
  }

  function LoserOf(k: nat, v: seq<Key>, i: nat): (l: nat)
    requires |v| == k && 1 <= i < k
    ensures l < k
  {
    var left, right := WinnerOf(k, v, 2 * i), WinnerOf(k, v, 2 * i + 1);
    if Beats(v[left], v[right]) then right else left
  }

  ghost function Winners(k: nat, v: seq<Key>): (win: seq<nat>)
    requires |v| == k >= 1
    ensures |win| == 2 * k
    ensures forall x :: 1 <= x < 2 * k ==> win[x] == WinnerOf(k, v, x)
  {
    seq(2 * k, x requires 0 <= x < 2 * k => if x == 0 then 0 else WinnerOf(k, v, x))
  }

  lemma FirstTree(k: nat, entry: seq<nat>, v: seq<Key>)
    requires |v| == k >= 1 && |entry| == 2 * k
    requires forall x :: 1 <= x < k ==> entry[x] == LoserOf(k, v, x)
    ensures TreeOk(k, entry, Winners(k, v), v)
  {
  }

  lemma {:induction false} RootAbove(x: nat)
    requires x >= 1
    ensures Anc(1, x)
  {
    if x <= 1 {
    } else {
      RootAbove(x / 2);
    }
  }

  lemma {:induction false} AncChildren(y: nat, x: nat)
    requires y >= 1
    ensures Anc(y, x) <==> x == y || Anc(2 * y, x) || Anc(2 * y + 1, x)
    decreases x
  {
    if x <= y {
    } else {
      AncChildren(y, x / 2);
    }
  }

  /** `init_winner` on a sequence: the entries and the winner of the subtree of `root`. */
  function Init(k: nat, v: seq<Key>, root: nat, e: seq<nat>): (r: (seq<nat>, nat))
    requires |v| == k && 1 <= root < 2 * k && |e| == 2 * k
    ensures |r.0| == 2 * k && r.1 < k
    decreases 2 * k - root
  {
    if root >= k then (e, root - k)
    else
      var l := Init(k, v, 2 * root, e);
      var r := Init(k, v, 2 * root + 1, l.0);
      if Beats(v[l.1], v[r.1]) then (r.0[root := r.1], l.1) else (r.0[root := l.1], r.1)
  }

  /** From `e` to `e'` exactly the matches below `root` were played. */
  ghost predicate PlayedBelow(k: nat, v: seq<Key>, root: nat, e: seq<nat>, e': seq<nat>)
    requires |v| == k >= 1
  {
    && |e| == |e'| == 2 * k
    && (forall x :: 1 <= x < k && Anc(root, x) ==> e'[x] == LoserOf(k, v, x))
    && (forall x :: 0 <= x < 2 * k && (x >= k || !Anc(root, x)) ==> e'[x] == e[x])
  }

  /** Both halves and then the match between their winners. */
  lemma PlayBoth(k: nat, v: seq<Key>, root: nat, e: seq<nat>, e1: seq<nat>, e2: seq<nat>)
    requires |v| == k && 1 <= root < k
    requires PlayedBelow(k, v, 2 * root, e, e1) && PlayedBelow(k, v, 2 * root + 1, e1, e2)
    ensures PlayedBelow(k, v, root, e, e2[root := LoserOf(k, v, root)])
  {
    var e' := e2[root := LoserOf(k, v, root)];
    forall x | 1 <= x < k && Anc(root, x) ensures e'[x] == LoserOf(k, v, x) {
      AncChildren(root, x);
    }
    forall x | 0 <= x < 2 * k && (x >= k || !Anc(root, x)) ensures e'[x] == e[x] {
      AncChildren(root, x);
    }
  }

  lemma {:induction false} InitPlays(k: nat, v: seq<Key>, root: nat, e: seq<nat>)
    requires |v| == k && 1 <= root < 2 * k && |e| == 2 * k
    ensures Init(k, v, root, e).1 == WinnerOf(k, v, root)
    ensures PlayedBelow(k, v, root, e, Init(k, v, root, e).0)
    decreases 2 * k - root
  {
    if root < k {
      InitPlays(k, v, 2 * root, e);
      var e1 := Init(k, v, 2 * root, e).0;
      InitPlays(k, v, 2 * root + 1, e1);
      PlayBoth(k, v, root, e, e1, Init(k, v, 2 * root + 1, e1).0);
    } else {
      AllLeaves(k, root);
    }
  }

  lemma {:induction false} AllLeaves(k: nat, root: nat)
    requires k <= root
    ensures forall x :: 0 <= x < k ==> !Anc(root, x)
  {
  }

  /** The entries that `init_winner` leaves behind when the leaves are numbered. */
  ghost function FirstEntries(k: nat, v: seq<Key>): (e: seq<nat>)
    requires |v| == k >= 1
    ensures |e| == 2 * k && e[0] == WinnerOf(k, v, 1)
    ensures forall x :: 1 <= x < k ==> e[x] == LoserOf(k, v, x)
    ensures forall x :: k <= x < 2 * k ==> e[x] == x - k
    ensures forall x :: 0 <= x < 2 * k ==> e[x] < k
  {
    seq(2 * k, x requires 0 <= x < 2 * k => if x == 0 then WinnerOf(k, v, 1) else if x < k then LoserOf(k, v, x) else x - k)
  }

  lemma InitFirst(k: nat, v: seq<Key>, e: seq<nat>)
    requires |v| == k >= 1 && |e| == 2 * k && forall x :: k <= x < 2 * k ==> e[x] == x - k
    ensures var r := Init(k, v, 1, e); r.0[0 := r.1] == FirstEntries(k, v)
  {
    InitPlays(k, v, 1, e);
    forall x | 1 <= x < k ensures Anc(1, x) { RootAbove(x); }
  }
}
