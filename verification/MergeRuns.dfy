/** `merge_runs` and the merge phases of `sort_blocks`. */
module MergeRuns {
  import opened Closed
  import opened Sorting
  import opened Sums
  import opened AsyncSchedule
  import opened Prefetcher
  import opened MergeOrder
  import opened MergeTree
  import LoserTree

  /** A block on disk with its entry in the run: the device, the trigger value, the elements. */
  datatype Block<T> = Block(device: int, trigger: T, elems: seq<T>)
  type Run<T> = seq<Block<T>>

  function Contents<T>(run: Run<T>): (r: seq<seq<T>>)
    ensures |r| == |run| && forall b :: 0 <= b < |r| ==> r[b] == run[b].elems
  {
    seq(|run|, b requires 0 <= b < |run| => run[b].elems)
  }

  /** All elements of a run, in order. */
  ghost function Flatten<T>(run: Run<T>): seq<T> {
    Concat(Contents(run))
  }

  /** Blocks are full, triggers are first elements, devices are known. */
  ghost predicate BlocksOk<T>(run: Run<T>, size: nat, D: nat) {
    && size > 0
    && (forall b :: 0 <= b < |run| ==> |run[b].elems| == size && run[b].trigger == run[b].elems[0])
    && (forall b :: 0 <= b < |run| ==> run[b].device == DEFAULT_DEVICE_ID || 0 <= run[b].device <= D)
  }

  ghost predicate RunOk<T(!new)>(run: Run<T>, size: nat, D: nat, key: T -> int) {
    BlocksOk(run, size, D) && SortedOut(Flatten(run), key)
  }

  /** `RunOk(run, ...)`, phrased so that a proof that only passes it on does not look inside. */
  ghost predicate Good<T(!new)>(run: Run<T>, size: nat, D: nat, key: T -> int) {
    forall r :: Same(r, run) ==> RunOk(r, size, D, key)
  }

  lemma OpenRun<T(!new)>(run: Run<T>, size: nat, D: nat, key: T -> int)
    requires Good(run, size, D, key)
    ensures RunOk(run, size, D, key)
  {
    assert Same(run, run);
  }

  lemma CloseRun<T(!new)>(run: Run<T>, size: nat, D: nat, key: T -> int)
    requires RunOk(run, size, D, key)
    ensures Good(run, size, D, key)
  {
  }

  // ----- places in a concatenation of equal blocks

  lemma {:induction false} ConcatToLength<T>(blocks: seq<seq<T>>, size: nat, n: nat)
    requires n <= |blocks| && forall c :: 0 <= c < |blocks| ==> |blocks[c]| == size
    ensures |ConcatTo(blocks, n)| == n * size
  {
    if n == 0 {
    } else {
      ConcatToLength(blocks, size, n - 1);
      assert n * size == (n - 1) * size + size;
    }
  }

  lemma ConcatLength<T>(blocks: seq<seq<T>>, size: nat)
    requires forall c :: 0 <= c < |blocks| ==> |blocks[c]| == size
    ensures |Concat(blocks)| == |blocks| * size
  {
    ConcatToLength(blocks, size, |blocks|);
  }

  lemma {:induction false} ConcatToAt<T>(blocks: seq<seq<T>>, size: nat, n: nat, b: nat, i: nat)
    requires forall c :: 0 <= c < |blocks| ==> |blocks[c]| == size
    requires b < n <= |blocks| && i < size
    ensures b * size + i < |ConcatTo(blocks, n)| && ConcatTo(blocks, n)[b * size + i] == blocks[b][i]
  {
    ConcatToLength(blocks, size, n - 1);
    if b >= n - 1 {
    } else {
      ConcatToAt(blocks, size, n - 1, b, i);
    }
  }

  lemma ConcatAt<T>(blocks: seq<seq<T>>, size: nat, b: nat, i: nat)
    requires forall c :: 0 <= c < |blocks| ==> |blocks[c]| == size
    requires b < |blocks| && i < size
    ensures b * size + i < |Concat(blocks)| && Concat(blocks)[b * size + i] == blocks[b][i]
  {
    ConcatToAt(blocks, size, |blocks|, b, i);
  }

  lemma EarlierPlace(b: nat, i: nat, c: nat, l: nat, size: nat)
    requires i < size && l < size && b < c
    ensures b * size + i < c * size + l
  {
    assert c * size >= (b + 1) * size == b * size + size;
  }

  /** In a sorted run, blocks and their elements rise. */
  lemma RunRises<T(!new)>(run: Run<T>, size: nat, D: nat, key: T -> int, b: nat, i: nat, c: nat, l: nat)
    requires RunOk(run, size, D, key) && b < |run| && c < |run| && i < size && l < size
    requires b < c || (b == c && i <= l)
    ensures key(run[b].elems[i]) <= key(run[c].elems[l])
  {
    var blocks := Contents(run);
    ConcatAt(blocks, size, b, i);
    ConcatAt(blocks, size, c, l);
    if b < c { EarlierPlace(b, i, c, l, size); }
  }

  // ----- all blocks of all runs

  /** Blocks of one owner rise along the sequence. */
  ghost predicate Chained<T(!new)>(blocks: Run<T>, owner: seq<nat>, size: nat, key: T -> int) {
    && |owner| == |blocks|
    && (forall b :: 0 <= b < |blocks| ==> |blocks[b].elems| == size)
    && (forall b, i, l :: 0 <= b < |blocks| && 0 <= i < l < size ==> key(blocks[b].elems[i]) <= key(blocks[b].elems[l]))
    && (forall b, c, i :: 0 <= b < c < |blocks| && owner[b] == owner[c] && 0 <= i < size ==>
          key(blocks[b].elems[i]) <= key(blocks[c].elems[0]))
  }

  ghost predicate Owned(owner: seq<nat>, n: nat) {
    forall b :: 0 <= b < |owner| ==> owner[b] < n
  }

  function Repeated(r: nat, n: nat): (s: seq<nat>)
    ensures |s| == n && forall b :: 0 <= b < n ==> s[b] == r
  {
    seq(n, _ => r)
  }

  lemma ChainOne<T(!new)>(run: Run<T>, size: nat, D: nat, key: T -> int, r: nat)
    requires RunOk(run, size, D, key)
    ensures Chained(run, Repeated(r, |run|), size, key)
  {
    forall b, i, l | 0 <= b < |run| && 0 <= i < l < size ensures key(run[b].elems[i]) <= key(run[b].elems[l]) {
      RunRises(run, size, D, key, b, i, b, l);
    }
    forall b, c, i | 0 <= b < c < |run| && 0 <= i < size ensures key(run[b].elems[i]) <= key(run[c].elems[0]) {
      RunRises(run, size, D, key, b, i, c, 0);
    }
  }

  lemma ChainAppend<T(!new)>(blocks: Run<T>, owner: seq<nat>, run: Run<T>, size: nat, D: nat, key: T -> int, r: nat)
    requires size > 0 && Chained(blocks, owner, size, key) && Owned(owner, r) && RunOk(run, size, D, key)
    ensures Chained(blocks + run, owner + Repeated(r, |run|), size, key)
    ensures Owned(owner + Repeated(r, |run|), r + 1)
  {
    ChainOne(run, size, D, key, r);
    var all, own := blocks + run, owner + Repeated(r, |run|);
    forall b, c, i | 0 <= b < c < |all| && own[b] == own[c] && 0 <= i < size
      ensures key(all[b].elems[i]) <= key(all[c].elems[0])
    {
      if b >= |blocks| {
        assert all[b] == run[b - |blocks|] && all[c] == run[c - |blocks|];
      } else {
        assert c < |blocks|;
      }
    }
  }

  /** What `stable_sort` by trigger values makes of the chained blocks. */
  lemma StableConsume<T(!new)>(blocks: Run<T>, owner: seq<nat>, sorted: Run<T>, perm: seq<nat>, size: nat, D: nat, key: T -> int, nruns: nat)
    requires Chained(blocks, owner, size, key) && Owned(owner, nruns) && BlocksOk(blocks, size, D)
    requires Rearranged(blocks, sorted, perm)
    requires forall i, j :: 0 <= i < j < |sorted| ==> key(sorted[i].trigger) <= key(sorted[j].trigger)
    requires forall i, j :: 0 <= i < j < |sorted| && key(sorted[j].trigger) <= key(sorted[i].trigger) ==> perm[i] < perm[j]
    ensures ConsumeOrder(Contents(sorted), Permuted(owner, perm), nruns, size, key)
  {
    var own, c := Permuted(owner, perm), Contents(sorted);
    forall a, b, i | 0 <= a < b < |c| && own[a] == own[b] && 0 <= i < size ensures key(c[a][i]) <= key(c[b][0]) {
      assert sorted[a] == blocks[perm[a]] && sorted[b] == blocks[perm[b]];
      var first, second := key(sorted[a].trigger), key(sorted[b].trigger);
      // otherwise the first element of b were not above that of a, and the stable order forbids that
      assert perm[b] < perm[a] ==> second <= first;
    }
  }

  ghost function Permuted(owner: seq<nat>, perm: seq<nat>): (r: seq<nat>)
    requires IsPermutation(perm, |owner|)
    ensures |r| == |owner| && forall i :: 0 <= i < |r| ==> r[i] == owner[perm[i]]
  {
    seq(|owner|, i requires 0 <= i < |owner| => owner[perm[i]])
  }

  // ----- contents under rearrangement

  ghost function Bags<T>(blocks: seq<seq<T>>): (r: seq<multiset<T>>)
    ensures |r| == |blocks| && forall b :: 0 <= b < |r| ==> r[b] == multiset(blocks[b])
  {
    seq(|blocks|, b requires 0 <= b < |blocks| => multiset(blocks[b]))
  }

  lemma {:induction false} BagOfConcat<T>(blocks: seq<seq<T>>, n: nat)
    requires n <= |blocks|
    ensures multiset(ConcatTo(blocks, n)) == SumTo(Bags(blocks), n)
  {
    if n == 0 {
    } else {
      BagOfConcat(blocks, n - 1);
    }
  }

  lemma RearrangedConcat<T>(s: seq<seq<T>>, r: seq<seq<T>>, perm: seq<nat>)
    requires Rearranged(s, r, perm)
    ensures multiset(Concat(r)) == multiset(Concat(s))
  {
    BagOfConcat(s, |s|);
    BagOfConcat(r, |r|);
    RearrangedSum(Bags(s), Bags(r), perm);
  }

  lemma {:induction false} ConcatAppendTo<T>(a: seq<seq<T>>, b: seq<seq<T>>, n: nat)
    requires n <= |b|
    ensures ConcatTo(a + b, |a| + n) == Concat(a) + ConcatTo(b, n)
  {
    if n == 0 {
      ConcatPrefix(a, a + b, |a|);
    } else {
      ConcatAppendTo(a, b, n - 1);
      assert ConcatTo(a + b, |a| + n) == ConcatTo(a + b, |a| + (n - 1)) + b[n - 1];
    }
  }

  lemma {:induction false} ConcatPrefix<T>(a: seq<seq<T>>, b: seq<seq<T>>, n: nat)
    requires n <= |a| && n <= |b| && forall c :: 0 <= c < n ==> a[c] == b[c]
    ensures ConcatTo(a, n) == ConcatTo(b, n)
  {
    if n == 0 {
    } else {
      ConcatPrefix(a, b, n - 1);
    }
  }

  lemma ConcatAppend<T>(a: seq<seq<T>>, b: seq<seq<T>>)
    ensures Concat(a + b) == Concat(a) + Concat(b)
  {
    ConcatAppendTo(a, b, |b|);
  }

  lemma FlattenAppend<T>(a: Run<T>, b: Run<T>)
    ensures Flatten(a + b) == Flatten(a) + Flatten(b)
  {
    ConcatAppend(Contents(a), Contents(b));
    assert Contents(a + b) == Contents(a) + Contents(b);
  }

  /** The elements of each run. */
  ghost function Parts<T>(runs: seq<Run<T>>): (r: seq<multiset<T>>)
    ensures |r| == |runs| && forall i :: 0 <= i < |r| ==> r[i] == multiset(Flatten(runs[i]))
  {
    seq(|runs|, i requires 0 <= i < |runs| => multiset(Flatten(runs[i])))
  }

  /** All elements of the first `i` runs. */
  ghost function TotalTo<T>(runs: seq<Run<T>>, i: nat): multiset<T>
    requires i <= |runs|
  {
    SumTo(Parts(runs), i)
  }

  ghost function Total<T>(runs: seq<Run<T>>): multiset<T> {
    TotalTo(runs, |runs|)
  }

  lemma TotalNext<T>(runs: seq<Run<T>>, i: nat)
    requires 0 < i <= |runs|
    ensures TotalTo(runs, i) == TotalTo(runs, i - 1) + multiset(Flatten(runs[i - 1]))
  {
  }

  /** The first `at'` runs are the first `at` and the group that follows. */
  lemma TotalSplit<T>(runs: seq<Run<T>>, at: nat, at': nat, group: seq<Run<T>>)
    requires at <= at' <= |runs| && group == runs[at..at']
    ensures TotalTo(runs, at') == TotalTo(runs, at) + Total(group)
  {
    GroupParts(runs, at, group);
    SumSplit(Parts(runs), at, Parts(group), |group|, at');
  }

  lemma GroupParts<T>(runs: seq<Run<T>>, at: nat, group: seq<Run<T>>)
    requires at + |group| <= |runs| && forall r :: 0 <= r < |group| ==> group[r] == runs[at + r]
    ensures |Parts(group)| == |group| && forall r :: 0 <= r < |group| ==> Parts(group)[r] == Parts(runs)[at + r]
  {
  }

  lemma TotalPush<T>(runs: seq<Run<T>>, run: Run<T>)
    ensures Total(runs + [run]) == Total(runs) + multiset(Flatten(run))
  {
    SumPrefix(Parts(runs + [run]), Parts(runs), |runs|);
    TotalNext(runs + [run], |runs| + 1);
  }

  // ----- merge_runs

  function Max(a: int, b: int): int {
    if a >= b then a else b
  }

  /** The number of prefetch buffers, and how many of them the schedule may count on. */
  function PrefetchBuffers(disks: nat, m: int, nruns: nat): (r: int)
    ensures r >= 2 * disks && 3 * (m - nruns) < 4 * (r + 1) && (r == 2 * disks || 4 * r <= 3 * (m - nruns))
  {
    Max(2 * disks, (3 * (m - nruns)) / 4)
  }

  function OptPrefetchBuffers(disks: nat, m: int, nruns: nat): (r: int)
    ensures var more := 3 * (PrefetchBuffers(disks, m, nruns) - 2 * disks); 10 * (r - 2 * disks) <= more < 10 * (r - 2 * disks + 1)
  {
    2 * disks + (3 * (PrefetchBuffers(disks, m, nruns) - 2 * disks)) / 10
  }

  ghost predicate AllOk<T(!new)>(runs: seq<Run<T>>, size: nat, D: nat, key: T -> int) {
    forall r :: 0 <= r < |runs| ==> runs[r] != [] && Good(runs[r], size, D, key)
  }

  /** The first `i` runs are copied. */
  ghost predicate Copied<T(!new)>(runs: seq<Run<T>>, i: nat, all: Run<T>, owner: seq<nat>, size: nat, D: nat, key: T -> int)
    requires i <= |runs|
  {
    && Chained(all, owner, size, key) && Owned(owner, i) && BlocksOk(all, size, D)
    && |all| >= i && multiset(Flatten(all)) == TotalTo(runs, i)
  }

  lemma CopyOne<T(!new)>(runs: seq<Run<T>>, i: nat, all: Run<T>, owner: seq<nat>, size: nat, D: nat, key: T -> int)
    requires i < |runs| && AllOk(runs, size, D, key) && Copied(runs, i, all, owner, size, D, key)
    ensures Copied(runs, i + 1, all + runs[i], owner + Repeated(i, |runs[i]|), size, D, key)
  {
    OpenRun(runs[i], size, D, key);
    ChainAppend(all, owner, runs[i], size, D, key, i);
    FlattenAppend(all, runs[i]);
    TotalNext(runs, i + 1);
  }

  lemma CopyNone<T(!new)>(runs: seq<Run<T>>, size: nat, D: nat, key: T -> int)
    requires size > 0
    ensures Copied(runs, 0, [], [], size, D, key)
  {
  }

  /** Copies the entries of all runs into one sequence. */
  method CopyRuns<T(!new)>(runs: seq<Run<T>>, ghost size: nat, ghost D: nat, ghost key: T -> int) returns (all: Run<T>, ghost owner: seq<nat>)
    requires size > 0 && AllOk(runs, size, D, key)
    ensures |all| >= |runs| && BlocksOk(all, size, D) && multiset(Flatten(all)) == Total(runs)
    ensures Copied(runs, |runs|, all, owner, size, D, key)
  {
    all, owner := [], [];
    CopyNone(runs, size, D, key);
    var i := 0;
    while i < |runs|
      invariant 0 <= i <= |runs|
      invariant Copied(runs, i, all, owner, size, D, key)
    {
      CopyOne(runs, i, all, owner, size, D, key);
      owner := owner + Repeated(i, |runs[i]|);
      all := all + runs[i];
      i := i + 1;
    }
  }

  function Devices<T>(run: Run<T>): (r: seq<int>)
    ensures |r| == |run| && forall b :: 0 <= b < |r| ==> r[b] == run[b].device
  {
    seq(|run|, b requires 0 <= b < |run| => run[b].device)
  }

  /** The blocks in consumption order: sorted by trigger, stably. */
  method ConsumeSeq<T(!new)>(runs: seq<Run<T>>, key: T -> int, ghost size: nat, ghost D: nat) returns (consume: Run<T>, ghost owner: seq<nat>)
    requires size > 0 && AllOk(runs, size, D, key)
    ensures ConsumeOrder(Contents(consume), owner, |runs|, size, key) && BlocksOk(consume, size, D)
    ensures |consume| >= |runs| && multiset(Flatten(consume)) == Total(runs)
  {
    var all, own := CopyRuns(runs, size, D, key);
    ghost var perm;
    consume, perm := SortByTrigger(all, key);
    owner := Permuted(own, perm);
    StableConsume(all, own, consume, perm, size, D, key, |runs|);
    RearrangedConcat(Contents(all), Contents(consume), perm);
  }

  method SortByTrigger<T(!new)>(all: Run<T>, key: T -> int) returns (r: Run<T>, ghost perm: seq<nat>)
    ensures Rearranged(all, r, perm)
    ensures forall i, j :: 0 <= i < j < |r| ==> key(r[i].trigger) <= key(r[j].trigger)
    ensures forall i, j :: 0 <= i < j < |r| && key(r[j].trigger) <= key(r[i].trigger) ==> perm[i] < perm[j]
  {
    var le := (a: Block<T>, b: Block<T>) => key(a.trigger) <= key(b.trigger);
    r, perm := StableSort(all, le);
    assert forall i, j :: 0 <= i < j < |r| ==> le(r[i], r[j]);
    assert forall i, j :: 0 <= i < j < |r| && le(r[j], r[i]) ==> perm[i] < perm[j];
  }

  /** The prefetcher over the consumption order, with its schedule. */
  method StartPrefetcher<T(0, !new)>(consume: Run<T>, nruns: nat, disks: nat, m: int, D: nat, ghost size: nat)
    returns (p: BlockPrefetcher<T>, ghost run: Simulated)
    requires consume != [] && disks >= 1 && BlocksOk(consume, size, D)
    ensures fresh(p) && p.Valid() && p.consume == Contents(consume) && p.nextconsume == 0 && p.returned == {} && p.hold == nruns
    ensures p.nreadblocks == if |consume| < nruns + PrefetchBuffers(disks, m, nruns) then |consume| else nruns + PrefetchBuffers(disks, m, nruns)
    ensures IsSchedule(DiskOf(Devices(consume), D), D, OptPrefetchBuffers(disks, m, nruns), p.prefetchSeq, run)
  {
    var devices := Devices(consume);
    var opt := OptPrefetchBuffers(disks, m, nruns);
    var schedule := new nat[|consume|](_ => 0);
    run := ComputePrefetchSchedule(devices, schedule, opt, D);
    ghost var dk := DiskOf(devices, D);
    forall x | 0 <= x < |consume| ensures x <= schedule[..][x] + opt - 1 {
      FetchedInTime(dk, schedule[..], opt, x);
    }
    p := new BlockPrefetcher(Contents(consume), schedule[..], nruns + PrefetchBuffers(disks, m, nruns), nruns, opt);
  }

  ghost predicate OutDevicesOk(devices: seq<int>, D: nat) {
    forall i :: 0 <= i < |devices| ==> devices[i] == DEFAULT_DEVICE_ID || 0 <= devices[i] <= D
  }

  /** The blocks of the output so far hold the elements that came out of the tree. */
  ghost predicate Written<T>(out: Run<T>, outDevices: seq<int>, size: nat, D: nat, emitted: seq<T>) {
    && |out| <= |outDevices|
    && BlocksOk(out, size, D) && (forall b :: 0 <= b < |out| ==> out[b].device == outDevices[b])
    && Flatten(out) == emitted
  }

  lemma WriteOne<T>(out: Run<T>, outDevices: seq<int>, size: nat, D: nat, emitted: seq<T>, buffer: seq<T>)
    requires Written(out, outDevices, size, D, emitted) && |out| < |outDevices| && OutDevicesOk(outDevices, D)
    requires |buffer| == size
    ensures Written(out + [Block(outDevices[|out|], buffer[0], buffer)], outDevices, size, D, emitted + buffer)
  {
    var block := Block(outDevices[|out|], buffer[0], buffer);
    FlattenAppend(out, [block]);
    assert Contents([block]) == [buffer] && ConcatTo([buffer], 1) == ConcatTo([buffer], 0) + buffer;
  }

  /** Elements in `n` blocks. */
  ghost function Times(n: nat, size: nat): nat {
    if n == 0 then 0 else Times(n - 1, size) + size
  }

  lemma {:induction false} TimesIsProduct(n: nat, size: nat)
    ensures Times(n, size) == n * size
  {
    if n == 0 {
    } else {
      TimesIsProduct(n - 1, size);
    }
  }

  lemma {:induction false} NextRound(n: nat, limit: nat, size: nat)
    requires n < limit
    ensures Times(n + 1, size) == Times(n, size) + size <= Times(limit, size)
    decreases limit
  {
    if n + 1 >= limit {
    } else {
      NextRound(n, limit - 1, size);
    }
  }

  ghost predicate Writing<T(0, !new)>(losers: LoserTree.LoserTree<T>, out: Run<T>, outDevices: seq<int>, D: nat)
    reads losers`st, losers`emitted, losers.prefetcher, losers.current, losers.entry
  {
    && losers.Invariant() && losers.emitted == Times(|out|, losers.size)
    && Written(out, outDevices, losers.size, D, Output(losers.job, losers.start, losers.emitted))
  }

  method WriteBlock<T(0, !new)>(losers: LoserTree.LoserTree<T>, out: Run<T>, outDevices: seq<int>, ghost D: nat) returns (out': Run<T>)
    requires Writing(losers, out, outDevices, D) && OutDevicesOk(outDevices, D) && |out| < |outDevices|
    requires Times(|outDevices|, losers.size) == |Concat(losers.job.blocks)|
    modifies losers.current, losers.prefetcher, losers.entry, losers`st, losers`emitted
    ensures Writing(losers, out', outDevices, D) && |out'| == |out| + 1
  {
    NextRound(|out|, |outDevices|, losers.size);
    ghost var before := Output(losers.job, losers.start, losers.emitted);
    var buffer := losers.MultiMerge(losers.size);
    WriteOne(out, outDevices, losers.size, D, before, buffer);
    out' := out + [Block(outDevices[|out|], buffer[0], buffer)];
  }

  /** The loop of `merge_runs`: one buffer a round. */
  method WriteRun<T(0, !new)>(losers: LoserTree.LoserTree<T>, outDevices: seq<int>, ghost D: nat) returns (out: Run<T>)
    requires losers.Invariant() && losers.emitted == 0 && OutDevicesOk(outDevices, D)
    requires Times(|outDevices|, losers.size) == |Concat(losers.job.blocks)|
    modifies losers.current, losers.prefetcher, losers.entry, losers`st, losers`emitted
    ensures losers.emitted == |Concat(losers.job.blocks)| && |out| == |outDevices| && Begun(losers.job, losers.start)
    ensures Written(out, outDevices, losers.size, D, Output(losers.job, losers.start, losers.emitted))
  {
    out := [];
    while |out| < |outDevices|
      invariant |out| <= |outDevices|
      invariant Writing(losers, out, outDevices, D)
      decreases |outDevices| - |out|
    {
      out := WriteBlock(losers, out, outDevices, D);
    }
  }

  lemma WrittenRunOk<T(!new)>(j: Job<T>, start: Tree, out: Run<T>, outDevices: seq<int>, D: nat, n: nat)
    requires Begun(j, start) && n == |Concat(j.blocks)| && Written(out, outDevices, j.size, D, Output(j, start, n))
    ensures RunOk(out, j.size, D, j.key) && multiset(Flatten(out)) == multiset(Concat(j.blocks))
  {
    OutputMerging(j, start, n);
    AllEmitted(j, After(j, start, n).st, Output(j, start, n));
  }

  /** Up to the loop: consumption order, prefetcher and loser tree. */
  method StartMerge<T(0, !new)>(runs: seq<Run<T>>, size: nat, key: T -> int, disks: nat, m: int, D: nat) returns (losers: LoserTree.LoserTree<T>)
    requires runs != [] && size > 0 && disks >= 1 && AllOk(runs, size, D, key)
    ensures losers.Invariant() && losers.emitted == 0 && losers.size == size && losers.key == key
    ensures multiset(Concat(losers.job.blocks)) == Total(runs)
    ensures fresh(losers) && fresh(losers.prefetcher) && fresh(losers.current) && fresh(losers.entry)
  {
    var consume, owner := ConsumeSeq(runs, key, size, D);
    var prefetcher, _ := StartPrefetcher(consume, |runs|, disks, m, D, size);
    losers := new LoserTree.LoserTree(prefetcher, |runs|, size, key, owner);
  }

  /** Main theorem: merging sorted runs gives one sorted run of exactly their elements, in as many
      full blocks, although buffers are refilled from whichever run comes next. */
  method MergeRuns<T(0, !new)>(runs: seq<Run<T>>, outDevices: seq<int>, size: nat, key: T -> int, disks: nat, m: int, D: nat)
    returns (out: Run<T>)
    requires runs != [] && size > 0 && disks >= 1 && AllOk(runs, size, D, key)
    requires OutDevicesOk(outDevices, D) && |outDevices| * size == |Total(runs)|
    ensures RunOk(out, size, D, key) && Devices(out) == outDevices
    ensures multiset(Flatten(out)) == Total(runs)
  {
    var losers := StartMerge(runs, size, key, disks, m, D);
    assert |Concat(losers.job.blocks)| == |multiset(Concat(losers.job.blocks))|;
    TimesIsProduct(|outDevices|, size);
    out := WriteRun(losers, outDevices, D);
    WrittenRunOk(losers.job, losers.start, out, outDevices, D, losers.emitted);
  }
}
