/** `block_prefetcher`: blocks are fetched in prefetch order into a fixed pool of buffers and handed
    out in consumption order.

    The content of a block arrives in its buffer when the read is issued; in the library it arrives
    at some time before the switch that `wait` waits for is turned on, and nobody looks at the
    buffer before that.
 */
module Prefetcher {
  import opened Sorting

  /** With a look-ahead of `m`, block `order[x]` is fetched within the first `order[x] + m` fetches. */
  ghost predicate InTime(order: seq<nat>, m: int) {
    forall x :: 0 <= x < |order| ==> x <= order[x] + m - 1
  }

  class BlockPrefetcher<T(0)> {
    const consume: seq<seq<T>>         // the blocks in consumption order
    const prefetchSeq: seq<nat>
    const nreadblocks: nat
    var nextread: nat
    var nextconsume: nat
    var readBuffers: seq<seq<T>>
    var prefBuffer: seq<int>           // buffer of a block, -1 while it is not fetched

    ghost var returned: set<nat>       // blocks given back
    ghost const hold: nat              // how many blocks the user may keep
    ghost const m: int                 // look-ahead of the schedule

    ghost predicate Sized()
      reads this
    {
      && IsPermutation(prefetchSeq, |consume|) && InTime(prefetchSeq, m)
      && |consume| == |prefBuffer| > 0 && |readBuffers| == nreadblocks
      && nreadblocks <= |consume| && (nreadblocks < |consume| ==> nreadblocks >= hold + m)
      && nextconsume <= |consume|
    }

    /** Exactly the first `nextread` blocks of the prefetch order were fetched. */
    ghost predicate Fetched()
      reads this
      requires Sized()
    {
      && nextread == (if nreadblocks + |returned| <= |consume| then nreadblocks + |returned| else |consume|)
      && (forall x :: 0 <= x < |consume| ==> (x < nextread <==> prefBuffer[prefetchSeq[x]] >= 0))
    }

    /** Blocks not given back keep their buffers to themselves. */
    ghost predicate Buffered()
      reads this
      requires Sized()
    {
      && (forall b :: 0 <= b < |consume| && prefBuffer[b] >= 0 && b !in returned ==>
            prefBuffer[b] < nreadblocks && readBuffers[prefBuffer[b]] == consume[b])
      && (forall b, c :: 0 <= b < c < |consume| && prefBuffer[b] >= 0 && prefBuffer[c] >= 0 && b !in returned && c !in returned ==>
            prefBuffer[b] != prefBuffer[c])
    }

    ghost predicate Valid()
      reads this
    {
      && Sized() && Fetched() && Buffered()
      && (forall b :: b in returned ==> b < nextconsume)
      && (forall b :: 0 <= b < nextconsume ==> prefBuffer[b] >= 0)
      && nextconsume - |returned| <= hold
    }

    /** The user holds block `b` in buffer `buffer`. */
    ghost predicate Holds(buffer: nat, b: nat)
      reads this
    {
      b < nextconsume && b < |prefBuffer| && b !in returned && prefBuffer[b] == buffer && buffer < |readBuffers|
    }

    constructor (blocks: seq<seq<T>>, order: seq<nat>, bufSize: nat, ghost holds: nat, ghost ahead: int)
      requires |blocks| > 0 && IsPermutation(order, |blocks|) && InTime(order, ahead)
      requires ahead >= 1 && bufSize >= holds + ahead
      ensures Valid() && consume == blocks && hold == holds && nextconsume == 0 && returned == {}
      ensures prefetchSeq == order && nreadblocks == if bufSize <= |blocks| then bufSize else |blocks|
    {
      consume, prefetchSeq := blocks, order;
      hold, m, returned := holds, ahead, {};
      nextconsume := 0;
      var n := if bufSize <= |blocks| then bufSize else |blocks|;
      nreadblocks, nextread := n, n;
      var buffers: seq<seq<T>> := [];
      var pref: seq<int> := seq(|blocks|, _ => -1);
      var i := 0;
      while i < n
        invariant 0 <= i <= n && |buffers| == i && |pref| == |blocks|
        invariant forall x :: 0 <= x < |blocks| ==> pref[order[x]] == if x < i then x else -1
        invariant forall x :: 0 <= x < i ==> buffers[x] == blocks[order[x]]
      {
        buffers := buffers + [blocks[order[i]]];
        pref := pref[order[i] := i];
        i := i + 1;
      }
      readBuffers, prefBuffer := buffers, pref;
      FirstFetches(blocks, order, buffers, pref, n);
    }

    /** Every block that is waited for has been fetched: the schedule never gets stuck. */
    lemma NextIsFetched()
      requires Sized() && Fetched() && nextconsume < |consume| && nextconsume - |returned| < hold
      ensures prefBuffer[nextconsume] >= 0
    {
      Surjective(prefetchSeq, |consume|);
      assert nextconsume in prefetchSeq;
      var x :| 0 <= x < |consume| && prefetchSeq[x] == nextconsume;
      assert x < nextread;
    }

    method PullBlock() returns (buffer: nat)
      requires Valid() && nextconsume < |consume| && nextconsume - |returned| < hold
      modifies this`nextconsume
      ensures Valid() && nextconsume == old(nextconsume) + 1
      ensures Holds(buffer, old(nextconsume)) && readBuffers[buffer] == consume[old(nextconsume)]
    {
      NextIsFetched();
      buffer := prefBuffer[nextconsume];
      nextconsume := nextconsume + 1;
    }

    /** Reuses a buffer that was given back for the next fetch. */
    method Refill(buffer: nat, ghost b: nat)
      requires Valid() && Holds(buffer, b)
      modifies this
      ensures Sized() && Fetched() && Buffered()
      ensures returned == old(returned) + {b} && |returned| == old(|returned|) + 1 && nextconsume == old(nextconsume)
      ensures forall c :: 0 <= c < |consume| && old(prefBuffer[c]) >= 0 ==> prefBuffer[c] == old(prefBuffer[c])
    {
      returned := returned + {b};
      if nextread < |consume| {
        var next2prefetch := prefetchSeq[nextread];
        assert prefBuffer[next2prefetch] < 0;
        nextread := nextread + 1;
        prefBuffer := prefBuffer[next2prefetch := buffer];
        readBuffers := readBuffers[buffer := consume[next2prefetch]];
      }
    }

    /** Gives block `b` back and, unless all were handed out, gets the next one. */
    method BlockConsumed(buffer: nat, ghost b: nat) returns (more: bool, next: nat)
      requires Valid() && Holds(buffer, b)
      modifies this
      ensures Valid() && returned == old(returned) + {b}
      ensures more <==> old(nextconsume) < |consume|
      ensures more ==> nextconsume == old(nextconsume) + 1 && Holds(next, old(nextconsume)) && readBuffers[next] == consume[old(nextconsume)]
      ensures !more ==> nextconsume == old(nextconsume) && next == buffer
      ensures forall x, c :: c != b && old(Holds(x, c)) ==> Holds(x, c)
    {
      Refill(buffer, b);
      next := buffer;
      more := nextconsume < |consume|;
      if more {
        next := PullBlock();
      }
    }
  }

  lemma FirstFetches<T>(blocks: seq<seq<T>>, order: seq<nat>, buffers: seq<seq<T>>, pref: seq<int>, n: nat)
    requires IsPermutation(order, |blocks|) && |pref| == |blocks| && |buffers| == n <= |blocks|
    requires forall x :: 0 <= x < |blocks| ==> pref[order[x]] == if x < n then x else -1
    requires forall x :: 0 <= x < n ==> buffers[x] == blocks[order[x]]
    ensures forall b :: 0 <= b < |blocks| && pref[b] >= 0 ==> pref[b] < n && buffers[pref[b]] == blocks[b]
    ensures forall b, c :: 0 <= b < c < |blocks| && pref[b] >= 0 && pref[c] >= 0 ==> pref[b] != pref[c]
  {
    Surjective(order, |blocks|);
    forall b | 0 <= b < |blocks| && pref[b] >= 0 ensures pref[b] < n && order[pref[b]] == b {
      assert b in order;
      var x :| 0 <= x < |blocks| && order[x] == b;
    }
  }
}
