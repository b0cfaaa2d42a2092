# A Dafny model of STXXL's algorithmic cores

STXXL is a C++ library for computing with data that does not fit into memory. This project models the parts of it whose
correctness is not visible from any single function, and proves what they promise.

- **Suffix arrays** (`SuffixOrder`, `SkewOrder`, `SkewStreams`, `SkewNames`, `SkewMerge`, `Skew3`, `KeyedSort`): the skew algorithm with
  its stream objects as classes, from the text to "the output is the suffix array". `SaCheck` is the checker, `Kasai` the LCP array.
- **External sorting** (`MergeOrder`, `Tournament`, `MergeTree`, `LoserTree`, `MergeRuns`, `SortBlocks`): runs, loser tree and merge phases,
  with buffers that are not tied to runs. The merge reads through `Prefetcher`, which follows the schedule of `AsyncSchedule`, whose event
  simulation is `WriteSimulation`; `GreedyWriting` is about how that uses buffers and disks. `Buckets`, `RadixSort` and `KsortParameters` are the
  in-memory radix sort of `ksort`.
- **Range minima** (`SparseTable`, `PagedRmq`, `SparseTableAlgo`): the sparse table and the batched, paged queries built on it.
- **Translation layer** (`FreeSpace`, `WbtlView`, `WbtlRuns`, `WbtlFile`): the write-buffered, remapping pseudo file as a refinement of a map from
  logical offsets to bytes, with its free list, which is also that of the disk allocator. `WbtlView` has the invariant, `WbtlRuns` the operations as
  relations between states and what holds over all runs of them, `WbtlFile` the class that does them.
- **Requests** (`RequestQueue`, `RequestExit`, `RequestProgress`, `Waiters`): the disk queue's worker, adders and cancellers, and the waiters of
  a request, as state machines whose steps interleave freely. `RequestQueue` has the steps and the invariant, `RequestExit` who cancels what and what the
  worker leaves behind, `RequestProgress` who can go on.
- **Serialization** (`Varint`, `BinaryBuffer`): variable-length integers and strings in a growing buffer.

`Sorting`, `Sums`, `Powers`, `Logarithms`, `Multiples`, `Copying`, `Options`, `Bytes`, `WeakOrders` and `Closed` are shared. Every external
sorter is the method `Sorting.Sort`, whose contract is all that its callers know: any sorted permutation may come back. `Closed` explains how some
predicates are kept from being unfolded.

Five statements turned out to be false of the code. The code was kept, and each has a counterexample and an exact condition:

- `sacheck` accepts some wrong arrays (`SaCheck.WrongArrayAccepted`); `SaCheck.AcceptedAndLastPlaced` says which.
- `wbtl_file::sread` uses 0xffffffff for "not mapped" although offsets have 64 bits, so an uncached block at that physical address reads as if
  it were unmapped (`WbtlFile.LosingRun`). The contract of `WbtlFile.WbtlFile.Read` says exactly when. It cannot happen in files of at most
  0xffffffff bytes, nor when all sizes are multiples of a number d, as the library's alignment check asks for d = 4096, and the condition on d is
  exact: it must not divide 0xffffffff.
- the comment in the worker promises that it terminates when the queues are empty; it may terminate with one request in the queue if it looks
  between `stop_thread`'s state change and its token (`RequestExit.LeftBehind`); `RequestExit.ExitLeaves` and `RequestExit.NothingLost`
  say exactly when.
- a request queue need not go on although requests are added and cancelled as they should be: `cancel_request` waits for a token while it holds the
  mutex, and if the worker has taken that token and waits for the mutex, both wait (`RequestProgress.CancelDeadlock`).
  `RequestProgress.StuckExactly` says that this is the only way to get stuck, and in which states.
- `create_runs` of `ksort.h` sorts its references with the number of first-level buckets that it computes from the cache size, and computes a
  single bucket if the references fill one cache but less than two (`KsortParameters.OneBucket`, `FullWidthShift`). The shift is then by the
  whole width of the key, which C++ leaves undefined. `stable_ksort.h`, line 350, takes at least two buckets. `KsortParameters.UsableExactly` says
  exactly when the numbers work.

## Model

| member | source | states |
|---|---|---|
| `Skew3.Skew3` | examples/applications/skew3.cpp:977-1093 | for every text of at least three characters the recursion ends (the reduced string is strictly shorter) and the merged output is the suffix array: every position once, in strictly increasing suffix order |
| `SkewOrder.ReducedOrder` | examples/applications/skew3.cpp:404-542 | the reduced string, names of the positions 1 mod 3 and then of those 2 mod 3, dummy triple included, orders its suffixes exactly as the text orders its suffixes at these positions, both directions |
| `SkewOrder.TripleStep` | examples/applications/skew3.cpp:258-283 | unequal triples decide the order of two suffixes; equal triples of different positions hold no end mark and hand the decision to the suffixes three places on |
| `SkewOrder.UniqueNamesOrder` | examples/applications/skew3.cpp:1081-1092 | when all names differ, the names already are the ranks, and no recursion is needed |
| `SkewOrder.ReducedLength` | examples/applications/skew3.cpp:1030-1037 | the reduced string is shorter than the text and again has at least three characters, so the recursion may go on |
| `SkewOrder.LessMod0Meaning` | examples/applications/skew3.cpp:220-231 | comparing a character and a rank decides the order of two suffixes at positions 0 mod 3, both directions |
| `SkewOrder.Mod0LessMod1Meaning` | examples/applications/skew3.cpp:594-602 | the comparison of a mod-0 with a mod-1 tuple is the suffix order, both directions |
| `SkewOrder.Mod1LessMod2Meaning` | examples/applications/skew3.cpp:573-578 | the comparison of a mod-1 with a mod-2 tuple is the suffix order, both directions |
| `SkewOrder.Mod0LessMod2Meaning` | examples/applications/skew3.cpp:580-592 | the comparison of a mod-0 with a mod-2 tuple, by two characters and a rank, is the suffix order, both directions |
| `SkewStreams.MakeQuads.Advance` | examples/applications/skew3.cpp:454-485 | each step shows the next window of three characters, zeros behind the end, one dummy window when n mod 3 is 1, and has collected the text so far |
| `SkewStreams.ExtractMod12.Advance` | examples/applications/skew3.cpp:522-538 | each step shows the next quad at a position that is not 0 mod 3, renumbered consecutively, and the stream ends with the last of them |
| `SkewStreams.Mod12Quads` | examples/applications/skew3.cpp:404-542 | the two streams together yield the quads of all reduced positions in order, and the whole text |
| `SkewStreams.Naming.Advance` | examples/applications/skew3.cpp:319-342 | the name counts the changes of the triple so far, and the flag stays up exactly while no triple but the dummy repeats |
| `SkewStreams.NamesRise` | examples/applications/skew3.cpp:286-348 | over sorted quads, names are ordered and equal exactly as the triples are |
| `SkewNames.PushNames` | examples/applications/skew3.cpp:1012-1023 | the loop feeds sorter 1 with the even and sorter 2 with the odd numbers, each with its name, once |
| `SkewNames.NameQuads` | examples/applications/skew3.cpp:1007-1028 | the sorted halves hold the names of all reduced positions in order, and the flag is up if and only if all names differ |
| `SkewNames.UniqueFlag` | examples/applications/skew3.cpp:327-335 | the flag is right although it ignores repeats of a quad that starts behind the end: only one such quad exists |
| `SkewNames.TableNamesTriples` | examples/applications/skew3.cpp:286-348 | names compare exactly as the triples of their positions |
| `SkewNames.PartsAreReduced` | examples/applications/skew3.cpp:1034-1037 | the concatenation of the two halves is the reduced string |
| `SkewNames.DistinctParts` | examples/applications/skew3.cpp:1030-1037 | the names are distinct if and only if the characters of the concatenation are |
| `SkewMerge.MergeSa.Merge` | examples/applications/skew3.cpp:604-649 | of the heads that are left, the nested tests pick one that precedes the others, although each test compares only two |
| `SkewMerge.MergeSa.Advance` | examples/applications/skew3.cpp:678-711 | exactly the stream that was selected moves on, and the next selection is right again |
| `SkewMerge.MergeAll` | examples/applications/skew3.cpp:552-712 | three sorted streams of tuples merge into one sequence in suffix order that has every position of them |
| `Skew3.Round` | examples/applications/skew3.cpp:804-873 | one round reads up to three characters and pushes the complete tuples of three positions, with zeros where the text has ended |
| `Skew3.BuildTuples` | examples/applications/skew3.cpp:804-879 | every position gets its tuple of characters and ranks, also in the last incomplete round |
| `Skew3.BuildSa` | examples/applications/skew3.cpp:792-899 | given ranks of two thirds of the suffixes, sorting and merging the tuples gives the suffix array |
| `Skew3.Mod2PosMeaning` | examples/applications/skew3.cpp:1044-1046 | `mod2_pos` is where the mod-2 names begin, and dropping the dummy leaves exactly as many ranks as there are positions |
| `Skew3.SplitRanks` | examples/applications/skew3.cpp:1048-1076 | the inverse of the recursive suffix array is split into the ranks of both classes, without the dummy's |
| `Skew3.RanksFromRecursion` | examples/applications/skew3.cpp:1037-1076 | ranks from the recursion order the suffixes of the text |
| `Skew3.ReducedRanks` | examples/applications/skew3.cpp:1030-1092 | in both branches the ranks handed to `build_sa` order the suffixes at the reduced positions |
| `SuffixOrder.SuffixArrayUnique` | examples/applications/skew3.cpp:188-203 | a text has one suffix array |
| `SuffixOrder.SufLessIsLexLess` | examples/applications/skew3.cpp:188-203 | the order by positions is the lexicographic order of the suffixes as strings, both directions |
| `SaCheck.SaCheck` | examples/applications/skew3.cpp:66-173 | the result of the two loops, as a condition on text and array |
| `SaCheck.PermutationTriples` | examples/applications/skew3.cpp:101-123 | loop 1 passes if and only if the array is a permutation, and makes a triple for every position except the last |
| `SaCheck.CheckOrder` | examples/applications/skew3.cpp:131-172 | loop 2 passes if and only if every triple is in order with the one before it |
| `SaCheck.TrueArrayAccepted` | examples/applications/skew3.cpp:101-172 | every true suffix array is accepted |
| `SaCheck.AcceptedAndLastPlaced` | examples/applications/skew3.cpp:101-172 | an array is the suffix array if and only if it is accepted and the one-character suffix stands right between its two neighbours |
| `SaCheck.WrongArrayAccepted` | examples/applications/skew3.cpp:112-120 | the checker alone accepts a wrong array: for the text 0, 1 it accepts 1, 0, because loop 1 makes no triple for the last suffix |
| `Kasai.LcpKasai` | examples/applications/skew3-lcp.cpp:251-325 | from a true suffix array: entry 0 is 0, every other entry is the longest common prefix of two neighbours, and the height is incremented at most 2n times |
| `Kasai.LcpMeaning` | examples/applications/skew3-lcp.cpp:305-309 | the prefix is common and cannot be prolonged |
| `Kasai.NextHeight` | examples/applications/skew3-lcp.cpp:299-314 | one position on in the text, at most one character of the common prefix is lost; a position without predecessor meets height 0 after the decrement |
| `Kasai.LcpBetween` | examples/applications/skew3-lcp.cpp:299-314 | a suffix between two others shares at least as much with the greater one |
| `Kasai.SaIndexStream` | examples/applications/skew3-lcp.cpp:202-239 | numbers the array entries and pairs each with its predecessor |
| `Kasai.Extend` | examples/applications/skew3-lcp.cpp:305-307 | the inner loop extends the height from a lower bound to exactly the common prefix |
| `Kasai.Visit` | examples/applications/skew3-lcp.cpp:299-314 | one text position: the pushed pair is its LCP entry, and the height it leaves is again a lower bound |
| `SparseTableAlgo.AnswerAll` | examples/applications/skew3-lcp.cpp:1166-1405 | the whole batch: every query gets the minimum of its range, for every page size from 1 to the length and any number of queries |
| `SparseTable.Table.constructor` | examples/applications/skew3-lcp.cpp:1099-1138 | row k holds the minima of all ranges of 2^k elements, with the early exit of the loop |
| `SparseTable.Table.Query` | examples/applications/skew3-lcp.cpp:1140-1150 | two overlapping look-ups give the minimum of any range |
| `SparseTable.RangeMinMeaning` | examples/applications/skew3-lcp.cpp:1140-1150 | the range minimum is attained and is a lower bound, and only it |
| `SparseTable.Covered` | examples/applications/skew3-lcp.cpp:1140-1150 | two ranges that cover a third one, overlapping or not, give its minimum |
| `PagedRmq.Initialize` | examples/applications/skew3-lcp.cpp:1230-1237 | the pages tile the values, the last one may be shorter |
| `PagedRmq.SplitOne` | examples/applications/skew3-lcp.cpp:1247-1304 | the walk over the pages splits a query into the part in the page of its left end and, if there is another page, the part in that of its right end |
| `PagedRmq.Recombined` | examples/applications/skew3-lcp.cpp:1247-1304 | the answers of the parts together are the answer of the query |
| `PagedRmq.TwoComeFirst` | examples/applications/skew3-lcp.cpp:1380-1401 | however the sorter arranges the pairs, the two of the least id come first |
| `SparseTableAlgo.GetArrayMin` | examples/applications/skew3-lcp.cpp:1189-1201 | adds the minima of exactly the pages between the two ends |
| `SparseTableAlgo.ReadPage` | examples/applications/skew3-lcp.cpp:1320-1338 | one page of the stream and its minimum |
| `SparseTableAlgo.AnswerLeft` | examples/applications/skew3-lcp.cpp:1343-1349 | a left part gets the minimum of its range in the page |
| `SparseTableAlgo.AnswerRight` | examples/applications/skew3-lcp.cpp:1351-1360 | a right part gets the minimum from the page behind the left part up to its right end |
| `SparseTableAlgo.SparseTableAlgo.SplitAndSortRmq` | examples/applications/skew3-lcp.cpp:1241-1309 | every query is split, and the sorters hold the parts, ordered by page |
| `SparseTableAlgo.SparseTableAlgo.AnswerTuple` | examples/applications/skew3-lcp.cpp:1311-1373 | the pairs that are collected are exactly the answers of all parts |
| `SparseTableAlgo.SparseTableAlgo.AnswerRmq` | examples/applications/skew3-lcp.cpp:1375-1404 | pairs of equal id are combined, single ones passed on, and the answers come in the order of the ids |
| `SparseTableAlgo.TakeFront` | examples/applications/skew3-lcp.cpp:1382-1401 | one round takes one or two pairs, with the special case of a single remaining pair |
| `AsyncSchedule.ComputePrefetchSchedule` | lib/algo/async_schedule.cpp:168-204 | the schedule is a permutation that keeps the index order on each disk, and before every block at most m - 1 blocks of larger index are fetched; with at most D blocks it is the identity, and with more it is the stable order by decreasing time of good and greedy write times |
| `AsyncSchedule.SimulateAsyncWrite` | lib/algo/async_schedule.cpp:73-164 | every block gets one time, at most one block per disk and time step, smaller blocks of a disk strictly later, the number of larger blocks written later stays below m; the times are greedy in the sense of `GreedyWriting.GreedyTimes`; the result is the greatest time less one |
| `AsyncSchedule.HandleEvent` | lib/algo/async_schedule.cpp:108-156 | one iteration in place on the disk queues and the busy flags - the flags are cleared by the loop when a new time step begins, the next block is queued or gets an event, the disk of the written block goes on with its queue - is the step on values of which `WriteSimulation.HandleStep` proves the invariant |
| `AsyncSchedule.FillQueues` | lib/algo/async_schedule.cpp:86-97 | exactly the last min(m, L) blocks wait in the queues of their disks in decreasing order, which starts the invariant |
| `AsyncSchedule.LaunchAll` | lib/algo/async_schedule.cpp:99-106 | one event at time 1 for every disk with a queue, so that the loop does not end early; what the busy flags hold at first does not matter |
| `WriteSimulation.HandleStep` | lib/algo/async_schedule.cpp:108-157 | every iteration keeps the invariant of the simulation and writes one more block |
| `WriteSimulation.PopOvertaken` | lib/algo/async_schedule.cpp:110-122 | when a block is written, fewer than m larger blocks are still to be written: they all sit in the m buffers |
| `WriteSimulation.AtEnd` | lib/algo/async_schedule.cpp:159-163 | when no event is left, i is -1, the queues are empty and every block has a time |
| `GreedyWriting.MovesStep` | lib/algo/async_schedule.cpp:108-157 | every iteration keeps the use of the buffers: with a written block the next block comes in, in index order, unless none is left or a block of its own disk is launched from the queue for the next step instead; and every block that gets a time gets the step after its coming in or the step after a larger block of its disk |
| `GreedyWriting.LaunchesStep` | lib/algo/async_schedule.cpp:125-156 | every iteration keeps with which written block each block is launched, and a block that comes in is launched at once unless its disk had a block for the next step before |
| `GreedyWriting.ExactTime` | lib/algo/async_schedule.cpp:125-156 | a block is written in the step after the later of two: the writing with which it came in, and that of the next larger block on its disk |
| `GreedyWriting.AllGreedy` | lib/algo/async_schedule.cpp:108-164 | what every iteration keeps makes the times of the whole run greedy |
| `GreedyWriting.TimeAtLeastLoad` | lib/algo/async_schedule.cpp:73-164 | a block is not written before all larger blocks of its disk have had a step each |
| `GreedyWriting.TimeIsLoad` | lib/algo/async_schedule.cpp:73-164 | with a buffer for every block, the time of a block is the number of blocks on its disk that are not smaller: no disk pauses |
| `AsyncSchedule.StepsAtLeastLoad` | lib/algo/async_schedule.cpp:164-164 | no disk has more blocks than there are time steps |
| `AsyncSchedule.EnoughBuffers` | lib/algo/async_schedule.cpp:164-164 | with a buffer for every block, the number of time steps is the largest number of blocks on one disk |
| `AsyncSchedule.SortedTimesGood` | lib/algo/async_schedule.cpp:193-200 | sorting stably by decreasing write time turns good times into a good schedule |
| `AsyncSchedule.FetchedInTime` | lib/algo/async_schedule.cpp:184-200 | the block at place k of the schedule has an index of at least k - m + 1, so consuming in index order never waits for a block that has no buffer |
| `Prefetcher.BlockPrefetcher.constructor` | include/stxxl/bits/mng/block_prefetcher.h:107-150 | the first blocks of the prefetch order are fetched, as many as there are buffers or blocks |
| `Prefetcher.BlockPrefetcher.NextIsFetched` | include/stxxl/bits/mng/block_prefetcher.h:84-97 | as long as the user keeps no more than his share of the buffers, the next block to consume has been fetched: the prefetcher is never stuck |
| `Prefetcher.BlockPrefetcher.PullBlock` | include/stxxl/bits/mng/block_prefetcher.h:153-157 | hands out the next block of the consumption sequence, in a buffer that holds its elements |
| `Prefetcher.BlockPrefetcher.BlockConsumed` | include/stxxl/bits/mng/block_prefetcher.h:163-195 | reuses the returned buffer for the next fetch, hands out the next block if there is one, and leaves the blocks that others hold alone |
| `MergeRuns.MergeRuns` | include/stxxl/bits/algo/sort.h:306-508 | merging sorted runs of full blocks gives one sorted run of exactly their elements in as many blocks, although an exhausted buffer is refilled with the next block of the consumption order, whichever run it is from |
| `MergeOrder.SomeCursorBelowNext` | include/stxxl/bits/algo/sort.h:318-333 | the key: while all cursors are active, some current element is not above the first element of the next block to be pulled |
| `MergeOrder.LeastCursorIsLeast` | include/stxxl/bits/algo/sort.h:467-492 | a least current element is not above any element that is left, in the buffers or on disk |
| `MergeOrder.MergeStep` | include/stxxl/bits/algo/sort.h:467-492 | emitting it keeps the output sorted, and output and rest together are all elements |
| `MergeRuns.CopyRuns` | include/stxxl/bits/algo/sort.h:322-330 | all entries of all runs, runs one after the other |
| `MergeRuns.ConsumeSeq` | include/stxxl/bits/algo/sort.h:318-333 | stable sorting by trigger values gives a consumption order in which the blocks of a run keep their order |
| `MergeRuns.StableConsume` | include/stxxl/bits/algo/sort.h:332-333 | blocks of one run with equal first elements keep their order because the sort is stable |
| `MergeRuns.StartPrefetcher` | include/stxxl/bits/algo/sort.h:335-363 | the prefetcher follows the schedule that `compute_prefetch_schedule` promises for the blocks' disks and the number of buffers that the heuristic grants, has nruns plus the number of prefetch buffers, at most one for each block, and never gets stuck |
| `MergeRuns.WriteRun` | include/stxxl/bits/algo/sort.h:474-492 | each round writes one full block with its trigger |
| `Tournament.UnrolledIsReplay` | include/stxxl/bits/algo/losertree.h:115-158 | the unrolled replay, which recomputes its path from the changing winner, does exactly what the loop does |
| `Tournament.WinnerLeast` | include/stxxl/bits/algo/losertree.h:35-56 | in a valid tournament the winner is a least cursor, empty cursors counting as infinity |
| `Tournament.ClimbOne` | include/stxxl/bits/algo/losertree.h:184-193 | one match of the replay moves the invariant one node up |
| `Tournament.StartClimb` | include/stxxl/bits/algo/losertree.h:178-184 | when the winner's cursor moves on, only the matches on its way to the root are in doubt |
| `Tournament.ReplayTree` | include/stxxl/bits/algo/losertree.h:170-197 | a replay ends in a valid tournament whose winner it returns |
| `Tournament.InitPlays` | include/stxxl/bits/algo/losertree.h:35-56 | `init_winner` plays all matches: every node has the loser, the winner is returned |
| `MergeTree.OutputMerging` | include/stxxl/bits/algo/losertree.h:170-197 | after any number of emissions the output is sorted and the rest is still to come |
| `MergeTree.SameReplay` | include/stxxl/bits/algo/losertree.h:115-158 | in every state that a merge reaches, unrolled and plain replay agree |
| `MergeTree.AllEmitted` | include/stxxl/bits/algo/losertree.h:200-241 | emitting everything gives a sorted permutation of all elements |
| `LoserTree.LoserTree.constructor` | include/stxxl/bits/algo/losertree.h:62-98 | the first blocks go to the cursors, the other leaves are infinite, and the tournament is played |
| `LoserTree.LoserTree.InitWinner` | include/stxxl/bits/algo/losertree.h:35-56 | the recursion in place computes the tournament of its subtree |
| `LoserTree.LoserTree.ReplayK` | include/stxxl/bits/algo/losertree.h:184-193 | the loop in place computes the replay |
| `LoserTree.LoserTree.ReplayUnrolled` | include/stxxl/bits/algo/losertree.h:122-157 | the unrolled form in place computes the unrolled replay |
| `LoserTree.LoserTree.Advance` | include/stxxl/bits/algo/run_cursor.h:89-98 | the cursor moves on, and an exhausted buffer is exchanged for the next block of the consumption order |
| `LoserTree.LoserTree.MakeInf` | include/stxxl/bits/algo/run_cursor.h:99-102 | leaves without a run show infinity |
| `LoserTree.LoserTree.CursorLess` | include/stxxl/bits/algo/sort_helper.h:85-95 | the comparator with its sentinel emulation is the order of keys with infinity, an empty right side losing to anything |
| `LoserTree.LoserTree.MultiMerge` | include/stxxl/bits/algo/losertree.h:200-241 | the next `count` elements of the merge, whichever form the height selects |
| `SortBlocks.SortBlocks` | include/stxxl/bits/algo/sort.h:510-652 | run creation and all merge phases: one sorted run of exactly the elements of the input, for every input of more than m/2 blocks (fewer are refused by `create_runs`), every memory size and every merge factor of at least two |
| `SortBlocks.CreateRuns` | include/stxxl/bits/algo/sort.h:70-204 | ceil(n / (m/2)) runs, at least two; run r is sorted and holds exactly the elements of the blocks from r * (m/2) on up to the next multiple or the end, in as many blocks, and the blocks are stored where they were allocated, in order |
| `SortBlocks.CreateRun` | include/stxxl/bits/algo/sort.h:135-161 | one chunk sorted in memory and cut into full blocks with triggers |
| `SortBlocks.MergePhase` | include/stxxl/bits/algo/sort.h:566-639 | one phase leaves ceil(runs / merge factor) runs; new run r is sorted and holds exactly the elements of the runs from r * merge factor on up to the next multiple or the end, and its blocks are stored where they were allocated, in order |
| `SortBlocks.GroupMeaning` | include/stxxl/bits/algo/sort.h:580-588 | the groups are the neighbours between two multiples of the merge factor, the last one cut off |
| `SortBlocks.GroupCount` | include/stxxl/bits/algo/sort.h:568-568 | groups that cover all runs, the last one not empty, are as many as `div_ceil` says |
| `Multiples.DivCeilMeaning` | include/stxxl/bits/common/utils.h:197-208 | the number of groups, counted by taking off one group after the other, is the quotient plus one if there is a remainder |
| `WeakOrders.KeyOrders` | include/stxxl/bits/algo/sort.h:656-676 | on finitely many elements every strict weak order is the order of an integer key, both directions |
| `WbtlFile.Run` | lib/io/wbtl_file.cpp:83-324 | every run of set_size, writes, reads and discards on a new file, with the backend write landing at any moment, is a run of the relations of `WbtlRuns`; every read of a mapped offset returns the bytes last written there, or the filler if and only if the block could not be read in the state before; it always could if the file has at most 0xffffffff bytes, or if sizes and blocks are multiples of a number that does not divide 0xffffffff; a run stops only at a write that fails as `WriteFails` says |
| `WbtlFile.WbtlFile.Write` | lib/io/wbtl_file.cpp:250-300 | the old block is freed, the new one goes to the next place of the current buffer or to the front of the first free region that holds a write block, is mapped there, and no other block changes; it fails if and only if such a region is needed and missing, and then the state is given too: the old block is gone, the buffers have changed their roles, and the address is stale |
| `WbtlFile.WbtlFile.Read` | lib/io/wbtl_file.cpp:197-248 | a mapped block is returned from the current buffer, the previous buffer or the backend if and only if it is cached or its physical address is not 0xffffffff; otherwise the filler is returned; an unmapped offset gives the filler, unless the address 0xffffffff lies in a buffer, whose bytes are then returned |
| `WbtlFile.WbtlFile.Discard` | lib/io/wbtl_file.cpp:100-123 | the block is unmapped, exactly its bytes are free in addition, and no other block changes, whatever the backend does with the discarded bytes; an unmapped offset changes nothing |
| `WbtlFile.WbtlFile.SetSize` | lib/io/wbtl_file.cpp:83-93 | exactly the new bytes are free in addition, and no block changes |
| `WbtlFile.WbtlFile.NextBuffer` | lib/io/wbtl_file.cpp:266-288 | exactly the rest of the old buffer is freed, its write is issued after the earlier one has landed, and the other buffer becomes the current one at the front of the first free region that is large enough; or there is none, and the state in which the exception leaves the file is given |
| `WbtlFile.WbtlFile.Land` | lib/io/wbtl_file.cpp:277-281 | the pending write may land at any time: the disk then has the bytes of the previous buffer, and nothing else changes |
| `WbtlFile.WbtlFile.GetNextWriteBlock` | lib/io/wbtl_file.cpp:302-324 | first fit: fails if and only if no region is large enough, otherwise takes exactly the front of the first one that is |
| `WbtlFile.WbtlFile.Accounted` | lib/io/wbtl_file.cpp:83-123 | size is free bytes plus mapped bytes plus the rest of the current buffer, and the two address maps are mutually inverse |
| `WbtlFile.LosingRun` | lib/io/wbtl_file.cpp:203-243 | the failing case is a run: a new file, set_size, four writes of 0xffffffff bytes, and the read of the second block returns the filler although the block is mapped, whatever was written; everything in it is a multiple of every divisor of 0xffffffff, so the condition on the multiples is exact |
| `WbtlRuns.AlignedReadable` | lib/io/request.cpp:44-58 | if the write block, all file sizes and all block sizes are multiples of some d that does not divide 0xffffffff - such as the 4096 that `check_alignment` asks for - every mapped block can be read in every state of every run, for files of every size |
| `WbtlRuns.AtMostOne` | lib/io/wbtl_file.cpp:203-243 | at any time at most one mapped block cannot be read |
| `WbtlRuns.SmallReadable` | lib/io/wbtl_file.cpp:203-243 | in a file of at most 0xffffffff bytes every mapped block can be read |
| `WbtlRuns.RunRefinesPlain` | lib/io/wbtl_file.cpp:83-324 | in every state of every run the invariant holds and the file stands for the plain map from offsets to bytes |
| `WbtlRuns.WritesSame` | lib/io/wbtl_file.cpp:250-300 | the state decides where a block goes: two outcomes of the same write differ at most in bytes that the backend leaves open |
| `WbtlRuns.WritesOrFails` | lib/io/wbtl_file.cpp:302-324 | the state decides whether a write succeeds |
| `WbtlView.SpaceAccounted` | lib/io/wbtl_file.cpp:126-195 | free regions, mapped blocks and the rest of the current buffer have exactly the bytes of the file |
| `WbtlView.BlockRead` | lib/io/wbtl_file.cpp:216-245 | a mapped block is found whole in the first place that covers its address: current buffer, previous buffer, disk |
| `WbtlView.SwitchedKeeps` | lib/io/wbtl_file.cpp:270-288 | exchanging the buffers keeps every mapped byte, even when the regions of the two buffers overlap |
| `WbtlView.LandedKeeps` | lib/io/wbtl_file.cpp:277-281 | the landing write keeps every mapped byte |
| `WbtlView.DiscardedKeeps` | lib/io/wbtl_file.cpp:108-121 | freeing a block keeps the partition of the addresses and all other blocks |
| `WbtlView.PutKeeps` | lib/io/wbtl_file.cpp:291-299 | a block in the unwritten part of the buffer hides no mapped byte |
| `FreeSpace.DiskAllocator.AddFreeRegion` | lib/mng/disk_allocator.cpp:66-160 | throws exactly when the region overlaps free space; otherwise the list covers the old free set plus the region, stays disjoint and fully coalesced, and the byte count is the sum of the sizes |
| `FreeSpace.AddRegion` | lib/io/wbtl_file.cpp:126-195 | the same for the translation layer's own list; a region before all others has no predecessor |
| `FreeSpace.CheckIsOverlap` | lib/mng/disk_allocator.cpp:75-92 | the two checks against the neighbours find every overlap |
| `FreeSpace.TakeFirstFit` | lib/io/wbtl_file.cpp:302-324 | takes the front of the first region that is large enough and keeps the list coalesced |
| `FreeSpace.Canonical` | lib/io/wbtl_file.cpp:126-195 | two coalesced lists that cover the same addresses are equal, so what is free decides what first fit finds |
| `FreeSpace.AddsSum` | lib/mng/disk_allocator.cpp:156-157 | adding a region adds its size to the sum of sizes |
| `RequestQueue.LeavesOnce` | lib/io/request_queue_impl_qwqr.cpp:52-135 | over all interleavings a submitted request is queued, or was served once, or was cancelled once, and never two of these |
| `RequestExit.CancelsTheRequest` | lib/io/request_queue_impl_qwqr.cpp:106-131 | if a step cancels something, it is the erase of a cancelling thread, and what leaves the queue is the earliest queued submission of the request of that thread, and nothing else |
| `RequestExit.AnswersTruly` | lib/io/request_queue_impl_qwqr.cpp:106-134 | `cancel_request` answers that the request was still queued if and only if it was, and it is cancelled if and only if so |
| `RequestExit.CancelledAsAnswered` | lib/io/request_queue_impl_qwqr.cpp:106-134 | over all interleavings the cancelled requests are, in order, those for which the answer was true |
| `RequestExit.AddsTheRequest` | lib/io/request_queue_impl_qwqr.cpp:61-94 | if a step submits something, it is the request of the pushing thread, at the end of the queue of its kind |
| `RequestExit.CallersAsked` | lib/io/request_queue_impl_qwqr.cpp:52-135 | over all runs a thread adds or cancels the request for which it called last |
| `RequestExit.AddRun` | lib/io/request_queue_impl_qwqr.cpp:52-95 | a running queue takes every request of every thread that is not inside: the three steps of the call can be made and end with the request at the end of its queue and one token more |
| `RequestExit.CancelAnswered` | lib/io/request_queue_impl_qwqr.cpp:97-135 | every thread that is not inside can ask to cancel every request and gets the true answer |
| `RequestExit.ServesThePopped` | lib/io/request_queue_impl_qwqr.cpp:151-203 | the request that is served is the one popped last |
| `RequestQueue.Balance` | lib/io/request_queue_impl_qwqr.cpp:52-216 | semaphore plus the worker's token plus adds not yet posted equals queued requests plus cancels not yet decremented plus the posted stop token |
| `RequestQueue.FirstInFirstOut` | lib/io/request_queue_impl_qwqr.cpp:142-205 | over all interleavings the requests of a kind are served in the order of submission |
| `RequestQueue.WritesComeFirst` | lib/io/request_queue_impl_qwqr.cpp:151-205 | over all interleavings: every write submitted before the worker's last look that found no write was served or cancelled before a read is popped |
| `RequestQueue.QueuedLater` | lib/io/request_queue_impl_qwqr.cpp:164-183 | when a read may be popped, every queued write was submitted after the look that found none |
| `RequestQueue.WaitsForOneRead` | lib/io/request_queue_impl_qwqr.cpp:151-205 | over all interleavings: while a write is queued the worker serves at most one read, as its first request, and none if the write was queued in the write phase |
| `RequestQueue.SleepsOnlyIfEmpty` | lib/io/request_queue_impl_qwqr.cpp:147-152 | the worker blocks only when both queues are empty |
| `RequestExit.ExitLeaves` | lib/io/request_queue_impl_qwqr.cpp:207-213 | if the worker exits while nobody is inside an operation, the queues are empty if and only if the stop token was posted; otherwise exactly one request is left |
| `RequestExit.NothingLost` | lib/io/request_queue_impl_qwqr.cpp:207-213 | over all runs: a worker that has left made its exit with exactly one token, for a queued request, for the stop or for a cancel under way; if the stop token was posted then and nobody was inside an operation, every request has been served or cancelled and the queues are empty; if it was not posted, exactly one request was left behind |
| `RequestExit.LeftThroughExit` | lib/io/request_queue_impl_qwqr.cpp:207-217 | over all runs: a worker that has left or ended took the last token in the test at the end of its loop |
| `RequestExit.NothingButLeave` | lib/io/request_queue_impl_qwqr.cpp:207-217 | a worker that has taken the last token can only leave, in every continuation |
| `RequestProgress.StoppedQueueEnds` | lib/io/request_queue_impl_qwqr.cpp:147-217 | once the stop token is posted and nobody is inside an operation, a worker that has not made its exit serves all that is queued and ends: every sequence of its steps is bounded and can be prolonged to the end, and then every request has been served or cancelled |
| `RequestProgress.GoesOn` | lib/io/request_queue_impl_qwqr.cpp:147-217 | then the worker can always make a step, and each brings it nearer to its end |
| `RequestProgress.AllServed` | lib/io/request_queue_impl_qwqr.cpp:52-217 | for every sequence of requests there is a run that submits exactly these, serves all of them and ends |
| `RequestProgress.StuckExactly` | lib/io/request_queue_impl_qwqr.cpp:97-217 | over all interleavings: of those inside an operation, the worker and the stopping thread, nobody can go on if and only if the queue is idle, has ended, or a canceller that holds the mutex waits for the token that the worker has taken while the worker waits for the mutex |
| `RequestProgress.CancelDeadlock` | lib/io/request_queue_impl_qwqr.cpp:120-131 | that state is reached: one write is queued, the worker takes its token, and the write is cancelled before the worker has the mutex |
| `RequestExit.LeftBehind` | lib/io/request_queue_impl_worker.cpp:48-52 | a run in which the worker exits and ends between the state change and the token, leaving a request in the queue that stays there in every continuation |
| `RequestQueue.StepKeeps` | lib/io/request_queue_impl_qwqr.cpp:52-216 | every step of every thread keeps the invariant |
| `Waiters.NoLostWakeup` | lib/io/request_with_waiters.cpp:24-55 | over all interleavings, once the request is READY2DIE every switch for which `add_waiter` returned false and which was not deleted is on, on the completed and on the cancel path; no switch is turned on before the request is done |
| `Waiters.NobodyStartsToWait` | lib/io/request_with_waiters.cpp:24-55 | from the moment the notifier has the mutex nobody starts to wait |
| `Waiters.FinishedOnlyWhenDone` | lib/io/request_with_waiters.cpp:24-42 | over all interleavings no call of `add_waiter` has answered that the request is finished while it is in progress |
| `Waiters.AnswerIsThePoll` | lib/io/request_with_waiters.cpp:24-42 | over all interleavings the call that polls is the next one to return, and its answer is whether the request had finished when it polled |
| `Waiters.CalledBackOnce` | lib/io/request_with_state.cpp:52-91 | over all interleavings the user is called back exactly once, before the waiters are notified, and never after a cancel |
| `Waiters.NotifiesExactly` | lib/io/request_with_waiters.cpp:24-55 | over all interleavings, when the notification is over, the switches that are on are exactly those that waited when the notifier got the mutex |
| `Waiters.MutexComesFree` | lib/io/request_with_waiters.cpp:24-55 | whoever has the mutex can give it back without anybody else, and then every call can begin |
| `Waiters.SomebodyCanGoOn` | lib/io/request_with_waiters.cpp:24-55 | as long as the request is not READY2DIE, or somebody has the mutex, the finisher or the holder of the mutex can go on |
| `Waiters.StepKeeps` | lib/io/request_with_state.cpp:52-91 | every step of the finisher and of the waiters keeps the invariant |
| `RadixSort.SortRun` | include/stxxl/bits/algo/ksort.h:206-284 | the references end up sorted by key, with exactly one reference to each element of the run, for all keys of the given width and at least two buckets on the first level |
| `KsortParameters.SortReferences` | include/stxxl/bits/algo/ksort.h:206-284 | with the numbers of buckets computed as the code does, the same for every buffer size that is usable |
| `KsortParameters.UsableExactly` | include/stxxl/bits/algo/ksort.h:208-228 | the computed numbers of bits are usable if and only if the references do not fill one cache but less than two, there are at least 4 of them and fewer than 2^(bits + 2) |
| `KsortParameters.OneBucket` | include/stxxl/bits/algo/ksort.h:208-212 | the first level has a single bucket if and only if the references fill one cache but less than two |
| `KsortParameters.FullWidthShift` | include/stxxl/bits/algo/ksort.h:226-228 | the failing case exists: 32768 references of 16 bytes fill the default cache of 512 KB, and the first shift is by the whole width of the key |
| `Logarithms.Ilog2Floor` | include/stxxl/bits/common/utils.h:177-184 | by bytes and then by bits: the greatest power of two that is not larger |
| `Logarithms.Ilog2Ceil` | include/stxxl/bits/common/utils.h:187-192 | the least power of two that is not smaller; 0 for 0 and 1 |
| `RadixSort.FirstLevelFits` | include/stxxl/bits/algo/ksort.h:226-251 | every bucket index of the first level is in range |
| `RadixSort.SecondLevelFits` | include/stxxl/bits/algo/ksort.h:265-271 | every bucket index of the second level is in range |
| `RadixSort.L1Sort` | include/stxxl/bits/algo/intksort.h:309-326 | one level: the target region is a sorted permutation of the source region, and nothing else changes |
| `RadixSort.ClassifyBlock` | include/stxxl/bits/algo/intksort.h:328-341 | creates the reference of each element of a block at the next place, and counts it in its bucket |
| `RadixSort.Count` | include/stxxl/bits/algo/intksort.h:24-45 | the counters hold the sizes of the buckets |
| `RadixSort.ExclusivePrefixSum` | include/stxxl/bits/algo/intksort.h:47-57 | the counters become the starts of the buckets |
| `RadixSort.Classify` | include/stxxl/bits/algo/intksort.h:59-72 | the elements end up bucket after bucket, in their order within a bucket, and the counters at the ends of the buckets |
| `RadixSort.Cleanup` | include/stxxl/bits/algo/intksort.h:256-307 | sorting each bucket sorts the region |
| `RadixSort.SortBucket` | include/stxxl/bits/algo/intksort.h:265-305 | each size of bucket is sorted by its own routine, in place |
| `RadixSort.InsertionSort` | include/stxxl/bits/algo/intksort.h:226-254 | sorts the region in place with the first element as sentinel |
| `RadixSort.Sort3` | include/stxxl/bits/algo/intksort.h:82-126 | three elements |
| `RadixSort.Sort4` | include/stxxl/bits/algo/intksort.h:128-178 | four elements |
| `BinaryBuffer.WriteAndRead` | include/stxxl/bits/common/binary_buffer.h:222-631 | any sequence of 32-bit and 64-bit varints and strings, put into a buffer and read back by the matching calls, comes back, and exactly the bytes written are used up, through any number of buffer growths |
| `Varint.RoundTrip` | include/stxxl/bits/common/binary_buffer.h:579-624 | decoding the encoded form of any number below the limit of the width gives the number and the place behind it, whatever follows |
| `BinaryBuffer.Bytes32Encoded` | include/stxxl/bits/common/binary_buffer.h:281-310 | the five branches for 32 bits write the standard form |
| `BinaryBuffer.Bytes64Encoded` | include/stxxl/bits/common/binary_buffer.h:319-398 | the ten branches for 64 bits write the standard form |
| `BinaryBuffer.Buffer.Dynalloc` | include/stxxl/bits/common/binary_buffer.h:222-239 | the contents stay and the capacity becomes large enough, by the growth rule: the new capacity is the next size after one that was too small, so that growing is geometric below a megabyte |
| `BinaryBuffer.Buffer.Append` | include/stxxl/bits/common/binary_buffer.h:244-252 | the contents are followed by the new bytes |
| `BinaryBuffer.Buffer.PutString` | include/stxxl/bits/common/binary_buffer.h:401-404 | length and bytes are appended |
| `BinaryBuffer.Reader.GetVarint` | include/stxxl/bits/common/binary_buffer.h:579-624 | what is read, the underflow and the overflow cases included, is the decoding at the cursor, which moves behind it |
| `BinaryBuffer.Reader.GetString` | include/stxxl/bits/common/binary_buffer.h:627-631 | the string is returned if and only if its length can be decoded and that number of bytes follows, and then it is these bytes and the cursor is behind them; otherwise underflow or overflow is reported |
| `BinaryBuffer.ItemReadBack` | include/stxxl/bits/common/binary_buffer.h:579-631 | each kind of item is decoded to itself wherever it stands |
| `Buckets.DealtPermutation` | include/stxxl/bits/algo/intksort.h:59-72 | dealing into buckets loses and invents nothing |

## Left out

- File back ends, `create_file`, `linuxaio_queue` and I/O statistics: system calls and timing.
- `build_lcp` and `merge_sa_lcp` of `skew3-lcp.cpp`: only the range minima and the Kasai loop are modelled.
- Texts of fewer than three characters in the skew algorithm, where `merge_sa` fails its assertion that all three classes are non-empty.
- The widths of `offset_type` and of `int_type`: naturals are unbounded.
- Asynchronous reads of the prefetcher and the completion switches: a block is in its buffer when its read is issued; the waits are left out.
- The write buffers of `merge_runs`, the choice of the merge factor and the page size of the range minima: parameters with the bounds that the
  code needs; the floating-point heuristics behind them would add nothing.
- References of `ksort` that are larger than a quarter of the second-level cache, and fewer than four of them.
- Inputs of at most m/2 blocks in `sort_blocks`: `create_runs` asserts that there are two runs.
- Device ids outside of the range that `get_disk` asserts, and fewer than one prefetch buffer.
- The reuse of the input's block ids by the last merge of a file (`sort.h`, 590-613) and the double buffering of reads and writes in
  `create_runs`: which block is stored where does not change what is sorted.
- The parallel merge branch, the unaligned first and last blocks of `sort` and `ksort`, `stable_ksort`, `random_shuffle` and `scan`.
- `write_out` of `ksort.h`, which copies the sorted references into blocks: an easy loop.
- The other members of `binary_buffer` (alignment, raw items, references without copying), and the cast of a negative `int` to `uint32`.
- BinaryBuffer.Reader.GetVarint: the library has the loop unrolled, once for each width.
- Comparators other than by an integer key: `WeakOrders.KeyOrders` shows that on finitely many elements every strict weak order has such a key.
- Concurrency inside of one operation of the translation layer: operations are atomic, and only the landing of the backend write is interleaved.
- Runs of the translation layer beyond the "out of space" exception, which leaves a stale address and position in the new current buffer, and
  writes of zero bytes, of more than a write block, or of a size that differs from the earlier one of the same offset, which the library does
  not support.
- Fairness: which of several threads goes on first, and liveness of the request queue while callers are inside.
- The waiting in `onoff_switch`, which does not loop around its condition variable.
- Regions of size zero in `add_free_region`.
- FreeSpace.AddRegion: `_add_free_region` of `wbtl_file.cpp` (134-136) decrements `begin()` when the region lies before all others, which is
  undefined for `std::map`; `disk_allocator.cpp` guards this. The model takes it as "no predecessor".
