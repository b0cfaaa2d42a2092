/** `create_runs` and `sort_blocks`: the external sort from unsorted blocks to one sorted run. */
module SortBlocks {
  import opened Closed
  import opened Sorting
  import opened Sums
  import opened Multiples
  import opened AsyncSchedule
  import opened MergeOrder
  import opened MergeRuns

  /** Where new blocks are placed: the device of the i-th block that is allocated. */
  ghost predicate AllocOk(alloc: nat -> int, D: nat) {
    forall i :: alloc(i) == DEFAULT_DEVICE_ID || 0 <= alloc(i) <= D
  }

  function Allocate(alloc: nat -> int, from: nat, n: nat): (r: seq<int>)
    ensures |r| == n && forall i :: 0 <= i < n ==> r[i] == alloc(from + i)
  {
    seq(n, i requires 0 <= i < n => alloc(from + i))
  }

  lemma AllocatedOk(alloc: nat -> int, D: nat, from: nat, n: nat)
    requires AllocOk(alloc, D)
    ensures OutDevicesOk(Allocate(alloc, from, n), D)
  {
  }

  // ----- groups

  function AtMost(a: nat, b: nat): nat {
    if a <= b then a else b
  }

  /** The `r`-th group of `n` neighbours; the last one may be shorter. */
  ghost function GroupOf<A>(s: seq<A>, n: nat, r: nat): seq<A> {
    if Times(r, n) <= |s| then s[Times(r, n)..AtMost(Times(r, n) + n, |s|)] else []
  }

  /** The groups are those between the multiples of `n`. */
  lemma GroupMeaning<A>(s: seq<A>, n: nat, r: nat)
    requires r * n <= |s|
    ensures GroupOf(s, n, r) == s[r * n..AtMost(r * n + n, |s|)]
  {
    TimesIsProduct(r, n);
  }

  /** How many groups there are. */
  lemma {:induction false} GroupCount(k: nat, n: nat, total: nat)
    requires k > 0 && n > 0 && Times(k - 1, n) < total <= Times(k, n)
    ensures k == DivCeil(total, n)
  {
    if k > 1 {
      GroupCount(k - 1, n, total - n);
    }
  }

  lemma {:induction false} TwiceAtMost(k: nat, n: nat)
    requires n >= 2
    ensures 2 * k <= Times(k, n)
  {
    if k == 0 {
    } else {
      TwiceAtMost(k - 1, n);
    }
  }

  /** The first `at` of `n` are in `count` groups. */
  ghost predicate InGroups(at: nat, count: nat, size: nat, n: nat) {
    at == AtMost(Times(count, size), n) && (count > 0 ==> Times(count - 1, size) < n)
  }

  lemma InGroupsNext(at: nat, count: nat, size: nat, n: nat, at': nat, count': nat)
    requires InGroups(at, count, size, n) && at < n && at' == AtMost(at + size, n) && count' == count + 1
    ensures at == Times(count, size) && InGroups(at', count', size, n)
  {
  }

  /** The blocks of the runs, one run after the other, lie where the blocks `from` up to `to` were allocated. */
  ghost predicate Stored<T>(runs: seq<Run<T>>, alloc: nat -> int, from: nat, to: nat) {
    from <= to && AllDevices(runs) == Allocate(alloc, from, to - from)
  }

  ghost function AllDevices<T>(runs: seq<Run<T>>): seq<int> {
    if runs == [] then [] else AllDevices(runs[..|runs| - 1]) + Devices(runs[|runs| - 1])
  }

  lemma StoredNext<T>(runs: seq<Run<T>>, run: Run<T>, alloc: nat -> int, from: nat, to: nat, to': nat)
    requires Stored(runs, alloc, from, to) && to' == to + |run| && Devices(run) == Allocate(alloc, to, |run|)
    ensures Stored(runs + [run], alloc, from, to')
  {
    assert (runs + [run])[..|runs|] == runs;
    assert AllDevices(runs + [run]) == AllDevices(runs) + Devices(run);
    assert Allocate(alloc, from, to' - from) == Allocate(alloc, from, to - from) + Allocate(alloc, to, |run|);
  }

  // ----- create_runs

  lemma SortedOutOfSort<T(!new)>(s: seq<T>, r: seq<T>, perm: seq<nat>, key: T -> int, le: (T, T) -> bool)
    requires forall a, b :: le(a, b) <==> key(a) <= key(b)
    requires Rearranged(s, r, perm) && SortedBy(r, le)
    ensures SortedOut(r, key) && multiset(r) == multiset(s)
  {
    RearrangedMultiset(s, r, perm);
    forall i, j | 0 <= i < j < |r| ensures key(r[i]) <= key(r[j]) { assert le(r[i], r[j]); }
  }

  /** Cuts a sorted sequence into blocks with their triggers. */
  method CutBlocks<T>(elems: seq<T>, n: nat, size: nat, devices: seq<int>, ghost D: nat) returns (run: Run<T>)
    requires size > 0 && |devices| == n && OutDevicesOk(devices, D) && |elems| == Times(n, size)
    ensures |run| == n && Written(run, devices, size, D, elems)
  {
    run := [];
    var done := 0;
    assert elems[..0] == [];
    while |run| < n
      invariant |run| <= n && done == Times(|run|, size) <= |elems|
      invariant Written(run, devices, size, D, elems[..done])
    {
      NextRound(|run|, n, size);
      var buffer := elems[done..done + size];
      WriteOne(run, devices, size, D, elems[..done], buffer);
      assert elems[..done + size] == elems[..done] + buffer;
      run := run + [Block(devices[|run|], buffer[0], buffer)];
      done := done + size;
    }
    assert elems[..done] == elems;
  }

  /** Sorts a chunk of blocks in memory into a run. */
  method CreateRun<T(!new)>(chunk: seq<seq<T>>, size: nat, key: T -> int, devices: seq<int>, ghost D: nat) returns (run: Run<T>)
    requires size > 0 && |devices| == |chunk| && OutDevicesOk(devices, D)
    requires forall b :: 0 <= b < |chunk| ==> |chunk[b]| == size
    ensures |run| == |chunk| && Good(run, size, D, key) && multiset(Flatten(run)) == multiset(Concat(chunk)) && Devices(run) == devices
  {
    var le := (a: T, b: T) => key(a) <= key(b);
    var elems, perm := Sort(Concat(chunk), le);
    SortedOutOfSort(Concat(chunk), elems, perm, key, le);
    ConcatLength(chunk, size);
    TimesIsProduct(|chunk|, size);
    run := CutBlocks(elems, |chunk|, size, devices, D);
    CloseRun(run, size, D, key);
  }

  /** The runs hold exactly the elements `all`. */
  ghost predicate Hold<T(!new)>(runs: seq<Run<T>>, size: nat, D: nat, key: T -> int, all: multiset<T>) {
    AllOk(runs, size, D, key) && Total(runs) == all
  }

  lemma HoldPush<T(!new)>(runs: seq<Run<T>>, run: Run<T>, size: nat, D: nat, key: T -> int, all: multiset<T>, more: multiset<T>)
    requires Hold(runs, size, D, key, all) && run != [] && Good(run, size, D, key) && multiset(Flatten(run)) == more
    ensures Hold(runs + [run], size, D, key, all + more)
  {
    TotalPush(runs, run);
  }

  lemma ConcatUpTo<T>(input: seq<seq<T>>, at: nat, at': nat)
    requires at <= at' <= |input|
    ensures multiset(Concat(input[..at'])) == multiset(Concat(input[..at])) + multiset(Concat(input[at..at']))
  {
    ConcatAppend(input[..at], input[at..at']);
    assert input[..at'] == input[..at] + input[at..at'];
  }

  /** Runs of `m2` blocks; the last one may be shorter if it is the last of all. */
  ghost predicate CutSizes<T>(runs: seq<Run<T>>, m2: nat, last: bool) {
    && (forall r :: 0 <= r < |runs| && (r < |runs| - 1 || !last) ==> |runs[r]| == m2)
    && (forall r :: 0 <= r < |runs| ==> |runs[r]| <= m2)
  }

  /** Cuts the input into at least two runs of `m2` blocks, the last one maybe shorter. */
  method CreateRuns<T(!new)>(input: seq<seq<T>>, m2: nat, size: nat, key: T -> int, alloc: nat -> int, ghost D: nat) returns (runs: seq<Run<T>>)
    requires |input| > m2 > 0 && size > 0 && AllocOk(alloc, D)
    requires forall b :: 0 <= b < |input| ==> |input[b]| == size
    ensures |runs| >= 2 && CutSizes(runs, m2, true) && Hold(runs, size, D, key, multiset(Concat(input)))
    ensures |runs| == DivCeil(|input|, m2) && InChunks(input, m2, runs) && Stored(runs, alloc, 0, |input|)
  {
    runs := [];
    var at := 0;
    assert AllDevices(runs) == Allocate(alloc, 0, 0);
    while at < |input|
      invariant 0 <= at <= |input| && CutTo(input, at, runs, m2, size, D, key) && Stored(runs, alloc, 0, at)
    {
      runs, at := CutNext(input, at, runs, m2, size, key, alloc, D);
    }
    assert Same(runs, runs) && input[..at] == input;
    GroupCount(|runs|, m2, |input|);
  }

  /** Each run has exactly the elements of its chunk of `m2` blocks. */
  ghost predicate InChunks<T(!new)>(input: seq<seq<T>>, m2: nat, runs: seq<Run<T>>) {
    forall r: nat :: r < |runs| ==> HoldsChunk(input, m2, r, runs[r])
  }

  /** The run has exactly the elements of chunk `r`; kept closed. */
  ghost predicate HoldsChunk<T(!new)>(input: seq<seq<T>>, m2: nat, r: nat, run: Run<T>) {
    forall q: nat :: Same(q, r) ==> multiset(Flatten(run)) == multiset(Concat(GroupOf(input, m2, q)))
  }

  lemma HoldsChunkAt<T(!new)>(input: seq<seq<T>>, m2: nat, r: nat, run: Run<T>, at: nat, at': nat)
    requires at == Times(r, m2) <= |input| && at' == AtMost(at + m2, |input|) && multiset(Flatten(run)) == multiset(Concat(input[at..at']))
    ensures HoldsChunk(input, m2, r, run)
  {
    assert input[at..at'] == GroupOf(input, m2, r);
  }

  lemma InChunksNext<T(!new)>(input: seq<seq<T>>, m2: nat, runs: seq<Run<T>>, run: Run<T>)
    requires InChunks(input, m2, runs) && HoldsChunk(input, m2, |runs|, run)
    ensures InChunks(input, m2, runs + [run])
  {
  }

  /** The first `at` blocks of the input are in runs. */
  ghost predicate Cut<T(!new)>(input: seq<seq<T>>, at: nat, runs: seq<Run<T>>, m2: nat, size: nat, D: nat, key: T -> int)
    requires at <= |input|
  {
    && Hold(runs, size, D, key, multiset(Concat(input[..at])))
    && CutSizes(runs, m2, at == |input|) && (at > 0 ==> runs != []) && (at > m2 ==> |runs| >= 2)
    && InChunks(input, m2, runs) && InGroups(at, |runs|, m2, |input|)
  }

  /** `Cut`, phrased so that a proof that only passes it on does not look inside. */
  ghost predicate CutTo<T(!new)>(input: seq<seq<T>>, at: nat, runs: seq<Run<T>>, m2: nat, size: nat, D: nat, key: T -> int)
    requires at <= |input|
  {
    forall rs: seq<Run<T>> :: Same(rs, runs) ==> Cut(input, at, rs, m2, size, D, key)
  }

  method CutNext<T(!new)>(input: seq<seq<T>>, at: nat, runs: seq<Run<T>>, m2: nat, size: nat, key: T -> int, alloc: nat -> int, ghost D: nat)
    returns (runs': seq<Run<T>>, at': nat)
    requires at < |input| && m2 > 0 && size > 0 && AllocOk(alloc, D) && CutTo(input, at, runs, m2, size, D, key)
    requires Stored(runs, alloc, 0, at) && forall b :: 0 <= b < |input| ==> |input[b]| == size
    ensures at < at' <= |input| && CutTo(input, at', runs', m2, size, D, key) && Stored(runs', alloc, 0, at')
  {
    var n := if at + m2 <= |input| then m2 else |input| - at;
    var run := CutOne(input, at, n, size, key, alloc, D);
    runs', at' := runs + [run], at + n;
    CutPush(input, at, runs, run, m2, size, D, key, runs', at');
    StoredNext(runs, run, alloc, 0, at, at');
  }

  method CutOne<T(!new)>(input: seq<seq<T>>, at: nat, n: nat, size: nat, key: T -> int, alloc: nat -> int, ghost D: nat) returns (run: Run<T>)
    requires at + n <= |input| && size > 0 && AllocOk(alloc, D)
    requires forall b :: 0 <= b < |input| ==> |input[b]| == size
    ensures |run| == n && Good(run, size, D, key) && multiset(Flatten(run)) == multiset(Concat(input[at..at + n]))
    ensures Devices(run) == Allocate(alloc, at, n)
  {
    AllocatedOk(alloc, D, at, n);
    run := CreateRun(input[at..at + n], size, key, Allocate(alloc, at, n), D);
  }

  lemma CutSizesPush<T>(runs: seq<Run<T>>, run: Run<T>, m2: nat, last: bool)
    requires CutSizes(runs, m2, false) && |run| <= m2 && (last || |run| == m2)
    ensures CutSizes(runs + [run], m2, last)
  {
  }

  lemma CutPush<T(!new)>(input: seq<seq<T>>, at: nat, runs: seq<Run<T>>, run: Run<T>, m2: nat, size: nat, D: nat, key: T -> int,
                         runs': seq<Run<T>>, at': nat)
    requires at < at' <= |input| && |run| == at' - at <= m2 && (|run| == m2 || at' == |input|)
    requires CutTo(input, at, runs, m2, size, D, key) && runs' == runs + [run]
    requires Good(run, size, D, key) && multiset(Flatten(run)) == multiset(Concat(input[at..at']))
    ensures CutTo(input, at', runs', m2, size, D, key)
  {
    assert Same(runs, runs);
    HoldPush(runs, run, size, D, key, multiset(Concat(input[..at])), multiset(Concat(input[at..at'])));
    ConcatUpTo(input, at, at');
    InGroupsNext(at, |runs|, m2, |input|, at', |runs'|);
    HoldsChunkAt(input, m2, |runs|, run, at, at');
    InChunksNext(input, m2, runs, run);
    CutSizesPush(runs, run, m2, at' == |input|);
  }

  // ----- the merge phases

  /** The numbers of blocks of the runs. */
  function Lengths<T>(runs: seq<Run<T>>): (r: seq<nat>)
    ensures |r| == |runs| && forall i :: 0 <= i < |r| ==> r[i] == |runs[i]|
  {
    seq(|runs|, i requires 0 <= i < |runs| => |runs[i]|)
  }

  lemma FlattenSize<T(!new)>(run: Run<T>, size: nat, D: nat, key: T -> int)
    requires Good(run, size, D, key)
    ensures |multiset(Flatten(run))| == |run| * size
  {
    OpenRun(run, size, D, key);
    ConcatLength(Contents(run), size);
  }

  lemma TotalSize<T(!new)>(runs: seq<Run<T>>, size: nat, D: nat, key: T -> int)
    requires AllOk(runs, size, D, key)
    ensures |Total(runs)| == SumOf(Lengths(runs), |runs|) * size
  {
    forall r | 0 <= r < |runs| ensures |Parts(runs)[r]| == Lengths(runs)[r] * size {
      FlattenSize(runs[r], size, D, key);
    }
    SumSize(Parts(runs), Lengths(runs), size, |runs|);
  }

  lemma NonEmptyRun<T(!new)>(group: seq<Run<T>>, out: Run<T>, size: nat, D: nat, key: T -> int)
    requires group != [] && AllOk(group, size, D, key) && multiset(Flatten(out)) == Total(group)
    ensures out != []
  {
    var run := group[|group| - 1];
    OpenRun(run, size, D, key);
    ConcatAt(Contents(run), size, 0, 0);
    assert Flatten(run)[0] in multiset(Flatten(run));
    TotalNext(group, |group|);
    assert Flatten(run)[0] in Total(group);
    assert out == [] ==> Flatten(out) == [];
  }

  /** Allocates the blocks of a new run and merges a group of runs into it. */
  method MergeGroup<T(0, !new)>(group: seq<Run<T>>, size: nat, key: T -> int, alloc: nat -> int, used: nat, disks: nat, m: int, D: nat)
    returns (out: Run<T>, used': nat)
    requires group != [] && size > 0 && disks >= 1 && AllocOk(alloc, D) && AllOk(group, size, D, key)
    ensures out != [] && Good(out, size, D, key) && multiset(Flatten(out)) == Total(group)
    ensures used' == used + |out| && Devices(out) == Allocate(alloc, used, |out|)
  {
    var blocks := SumOf(Lengths(group), |group|);
    TotalSize(group, size, D, key);
    AllocatedOk(alloc, D, used, blocks);
    out := MergeRuns.MergeRuns(group, Allocate(alloc, used, blocks), size, key, disks, m, D);
    CloseRun(out, size, D, key);
    NonEmptyRun(group, out, size, D, key);
    used' := used + blocks;
  }

  /** One phase: groups of `mergeFactor` neighbouring runs are merged. */
  method MergePhase<T(0, !new)>(runs: seq<Run<T>>, mergeFactor: nat, size: nat, key: T -> int, alloc: nat -> int, used: nat, disks: nat, m: int, D: nat)
    returns (newRuns: seq<Run<T>>, used': nat)
    requires runs != [] && mergeFactor >= 2 && size > 0 && disks >= 1 && AllocOk(alloc, D) && AllOk(runs, size, D, key)
    ensures newRuns != [] && Hold(newRuns, size, D, key, Total(runs))
    ensures |newRuns| == DivCeil(|runs|, mergeFactor) && (|runs| > 1 ==> |newRuns| < |runs|)
    ensures Grouped(runs, mergeFactor, newRuns) && Stored(newRuns, alloc, used, used')
  {
    newRuns, used' := [], used;
    var at := 0;
    assert AllDevices(newRuns) == Allocate(alloc, used, 0);
    NoneMerged(runs, mergeFactor, size, D, key);
    while at < |runs|
      invariant 0 <= at <= |runs| && Merged(runs, at, newRuns, mergeFactor, size, D, key) && Stored(newRuns, alloc, used, used')
    {
      newRuns, at, used' := MergeNext(runs, at, newRuns, mergeFactor, size, key, alloc, used, used', disks, m, D);
    }
    AllMerged(runs, newRuns, mergeFactor, size, D, key);
    MergedCount(runs, newRuns, mergeFactor, size, D, key);
  }

  /** Each new run has exactly the elements of its group of `mergeFactor` runs. */
  ghost predicate Grouped<T(!new)>(runs: seq<Run<T>>, mergeFactor: nat, newRuns: seq<Run<T>>) {
    forall r: nat :: r < |newRuns| ==> HoldsGroup(runs, mergeFactor, r, newRuns[r])
  }

  /** The run has exactly the elements of group `r`; kept closed. */
  ghost predicate HoldsGroup<T(!new)>(runs: seq<Run<T>>, mergeFactor: nat, r: nat, run: Run<T>) {
    forall q: nat :: Same(q, r) ==> multiset(Flatten(run)) == Total(GroupOf(runs, mergeFactor, q))
  }

  lemma HoldsGroupAt<T(!new)>(runs: seq<Run<T>>, mergeFactor: nat, r: nat, run: Run<T>, at: nat, at': nat)
    requires at == Times(r, mergeFactor) <= |runs| && at' == AtMost(at + mergeFactor, |runs|) && multiset(Flatten(run)) == Total(runs[at..at'])
    ensures HoldsGroup(runs, mergeFactor, r, run)
  {
    assert runs[at..at'] == GroupOf(runs, mergeFactor, r);
  }

  lemma {:induction false} AllInGroups(count: nat, mergeFactor: nat, n: nat)
    requires n > 0 && mergeFactor >= 2 && InGroups(n, count, mergeFactor, n)
    ensures count > 0 && count == DivCeil(n, mergeFactor) && (n > 1 ==> count < n)
  {
    GroupCount(count, mergeFactor, n);
    TwiceAtMost(count - 1, mergeFactor);
  }

  /** The first `at` runs are merged, in full groups unless they are all; kept closed. */
  ghost predicate Merged<T(!new)>(runs: seq<Run<T>>, at: nat, newRuns: seq<Run<T>>, mergeFactor: nat, size: nat, D: nat, key: T -> int)
    requires at <= |runs|
  {
    forall u :: Same(u, newRuns) ==>
      && AllOk(u, size, D, key) && Total(u) == TotalTo(runs, at) && Grouped(runs, mergeFactor, u)
      && InGroups(at, |u|, mergeFactor, |runs|)
  }

  lemma NoneMerged<T(!new)>(runs: seq<Run<T>>, mergeFactor: nat, size: nat, D: nat, key: T -> int)
    requires mergeFactor >= 2
    ensures Merged(runs, 0, [], mergeFactor, size, D, key)
  {
  }

  lemma {:induction false} AllMerged<T(!new)>(runs: seq<Run<T>>, newRuns: seq<Run<T>>, mergeFactor: nat, size: nat, D: nat, key: T -> int)
    requires Merged(runs, |runs|, newRuns, mergeFactor, size, D, key)
    ensures Hold(newRuns, size, D, key, Total(runs)) && Grouped(runs, mergeFactor, newRuns)
  {
    assert Same(newRuns, newRuns);
  }

  lemma {:induction false} MergedInGroups<T(!new)>(runs: seq<Run<T>>, newRuns: seq<Run<T>>, mergeFactor: nat, size: nat, D: nat, key: T -> int)
    requires Merged(runs, |runs|, newRuns, mergeFactor, size, D, key)
    ensures InGroups(|runs|, |newRuns|, mergeFactor, |runs|)
  {
    assert Same(newRuns, newRuns);
  }

  lemma {:induction false} MergedCount<T(!new)>(runs: seq<Run<T>>, newRuns: seq<Run<T>>, mergeFactor: nat, size: nat, D: nat, key: T -> int)
    requires runs != [] && mergeFactor >= 2 && Merged(runs, |runs|, newRuns, mergeFactor, size, D, key)
    ensures newRuns != [] && |newRuns| == DivCeil(|runs|, mergeFactor) && (|runs| > 1 ==> |newRuns| < |runs|)
  {
    MergedInGroups(runs, newRuns, mergeFactor, size, D, key);
    AllInGroups(|newRuns|, mergeFactor, |runs|);
  }

  /** How many runs are merged next: `mergeFactor`, or all that are left. */
  function GroupSize(runs: nat, at: nat, mergeFactor: nat): (n: nat)
    requires at < runs && mergeFactor >= 2
    ensures 0 < n <= runs - at && at + n == AtMost(at + mergeFactor, runs)
  {
    if at + mergeFactor <= runs then mergeFactor else runs - at
  }

  lemma GroupOk<T(!new)>(runs: seq<Run<T>>, at: nat, n: nat, size: nat, D: nat, key: T -> int)
    requires at + n <= |runs| && AllOk(runs, size, D, key)
    ensures AllOk(runs[at..at + n], size, D, key)
  {
  }

  lemma TotalMerged<T>(runs: seq<Run<T>>, at: nat, at': nat, newRuns: seq<Run<T>>, out: Run<T>)
    requires at <= at' <= |runs| && Total(newRuns) == TotalTo(runs, at) && multiset(Flatten(out)) == Total(runs[at..at'])
    ensures Total(newRuns + [out]) == TotalTo(runs, at')
  {
    TotalPush(newRuns, out);
    TotalSplit(runs, at, at', runs[at..at']);
  }

  lemma GroupedNext<T(!new)>(runs: seq<Run<T>>, mergeFactor: nat, newRuns: seq<Run<T>>, out: Run<T>)
    requires Grouped(runs, mergeFactor, newRuns) && HoldsGroup(runs, mergeFactor, |newRuns|, out)
    ensures Grouped(runs, mergeFactor, newRuns + [out])
  {
  }

  lemma MergedNext<T(!new)>(runs: seq<Run<T>>, at: nat, newRuns: seq<Run<T>>, at': nat, newRuns': seq<Run<T>>, mergeFactor: nat,
                            size: nat, D: nat, key: T -> int, group: seq<Run<T>>, out: Run<T>)
    requires at < at' == AtMost(at + mergeFactor, |runs|) && Merged(runs, at, newRuns, mergeFactor, size, D, key)
    requires newRuns' == newRuns + [out] && group == runs[at..at'] && out != [] && Good(out, size, D, key) && multiset(Flatten(out)) == Total(group)
    ensures Merged(runs, at', newRuns', mergeFactor, size, D, key)
  {
    assert Same(newRuns, newRuns);
    TotalMerged(runs, at, at', newRuns, out);
    AllOkPush(newRuns, out, size, D, key);
    InGroupsNext(at, |newRuns|, mergeFactor, |runs|, at', |newRuns'|);
    HoldsGroupAt(runs, mergeFactor, |newRuns|, out, at, at');
    GroupedNext(runs, mergeFactor, newRuns, out);
  }

  lemma AllOkPush<T(!new)>(runs: seq<Run<T>>, run: Run<T>, size: nat, D: nat, key: T -> int)
    requires AllOk(runs, size, D, key) && run != [] && Good(run, size, D, key)
    ensures AllOk(runs + [run], size, D, key)
  {
  }

  method MergeNext<T(0, !new)>(runs: seq<Run<T>>, at: nat, newRuns: seq<Run<T>>, mergeFactor: nat, size: nat, key: T -> int,
                               alloc: nat -> int, ghost from: nat, used: nat, disks: nat, m: int, D: nat)
    returns (newRuns': seq<Run<T>>, at': nat, used': nat)
    requires at < |runs| && mergeFactor >= 2 && size > 0 && disks >= 1 && AllocOk(alloc, D) && AllOk(runs, size, D, key)
    requires Merged(runs, at, newRuns, mergeFactor, size, D, key) && Stored(newRuns, alloc, from, used)
    ensures at < at' <= |runs| && Merged(runs, at', newRuns', mergeFactor, size, D, key) && Stored(newRuns', alloc, from, used')
  {
    var n := GroupSize(|runs|, at, mergeFactor);
    var group := runs[at..at + n];
    GroupOk(runs, at, n, size, D, key);
    var out;
    out, used' := MergeGroup(group, size, key, alloc, used, disks, m, D);
    newRuns', at' := newRuns + [out], at + n;
    StoredNext(newRuns, out, alloc, from, used, used');
    MergedNext(runs, at, newRuns, at', newRuns', mergeFactor, size, D, key, group, out);
  }

  lemma OnlyRun<T(!new)>(runs: seq<Run<T>>, size: nat, D: nat, key: T -> int, all: multiset<T>)
    requires |runs| == 1 && Hold(runs, size, D, key, all)
    ensures RunOk(runs[0], size, D, key) && multiset(Flatten(runs[0])) == all
  {
    TotalNext(runs, 1);
    OpenRun(runs[0], size, D, key);
  }

  /** Main theorem: `sort_blocks` returns one sorted run of exactly the input's elements. */
  method SortBlocks<T(0, !new)>(input: seq<seq<T>>, m: nat, mergeFactor: nat, size: nat, key: T -> int, alloc: nat -> int, disks: nat, D: nat)
    returns (result: Run<T>)
    requires |input| > m / 2 && m >= 2 && mergeFactor >= 2 && size > 0 && disks >= 1 && AllocOk(alloc, D)
    requires forall b :: 0 <= b < |input| ==> |input[b]| == size
    ensures RunOk(result, size, D, key) && multiset(Flatten(result)) == multiset(Concat(input))
  {
    var runs := CreateRuns(input, m / 2, size, key, alloc, D);
    var used: nat := |input|;
    while |runs| > 1
      invariant runs != [] && Hold(runs, size, D, key, multiset(Concat(input)))
      decreases |runs|
    {
      runs, used := MergePhase(runs, mergeFactor, size, key, alloc, used, disks, m, D);
    }
    OnlyRun(runs, size, D, key, multiset(Concat(input)));
    result := runs[0];
  }
}
