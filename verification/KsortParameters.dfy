/** The numbers of buckets that `create_runs` of `ksort` computes from the size of its buffers, and when the in-memory sort can
    work with them.
 */
module KsortParameters {
  import opened Powers
  import opened Logarithms
  import opened Multiples
  import opened Buckets
  import opened RadixSort

  // ----- the parameters

  /** How many second-level caches the references fill, rounded down. */
  function Caches(refs: nat, refBytes: nat, l2: nat): nat
    requires l2 > 0
  {
    refs * refBytes / l2
  }

  function LogK1(refs: nat, refBytes: nat, l2: nat): nat
    requires l2 > 0
  {
    var caches := Caches(refs, refBytes, l2);
    CeilLog2(if caches != 0 then caches else 2)
  }

  function LogK2(refs: nat, refBytes: nat, l2: nat): int
    requires l2 > 0
  {
    FloorLog2(refs) - LogK1(refs, refBytes, l2) - 1
  }

  /** What the two-level sort needs: shifts by less than the key width, and no negative numbers of bits. */
  predicate Usable(refs: nat, refBytes: nat, l2: nat, bits: nat)
    requires l2 > 0
  {
    LogK1(refs, refBytes, l2) >= 1 && LogK2(refs, refBytes, l2) >= 0 && LogK1(refs, refBytes, l2) + LogK2(refs, refBytes, l2) <= bits
  }

  /** There is only one bucket of the first level if and only if the references fill one cache but not two. Then the first
      shift is by the whole key width.
   */
  lemma OneBucket(refs: nat, refBytes: nat, l2: nat)
    requires l2 > 0
    ensures LogK1(refs, refBytes, l2) == 0 <==> l2 <= refs * refBytes < 2 * l2
  {
    QuotientIsOne(refs * refBytes, l2);
    assert CeilLog2(2) == 1;
  }

  lemma QuotientIsOne(a: nat, l2: nat)
    requires l2 > 0
    ensures a / l2 == 1 <==> l2 <= a < 2 * l2
  {
    Floor(a, l2);
    if a / l2 > 1 {
      MultipleAbove(l2, 1, a / l2);
    }
  }

  lemma CachesBound(refs: nat, refBytes: nat, l2: nat)
    requires l2 > 0 && 4 * refBytes <= l2
    ensures 4 * Caches(refs, refBytes, l2) <= refs
  {
    var caches := Caches(refs, refBytes, l2);
    Floor(refs * refBytes, l2);
    assert caches * (4 * refBytes) <= caches * l2 <= refs * refBytes;
  }

  lemma SecondBits(refs: nat, caches: nat)
    requires refs >= 4 && 4 * caches <= refs
    ensures CeilLog2(if caches != 0 then caches else 2) + 1 <= FloorLog2(refs)
  {
    if caches <= 2 {
      assert CeilLog2(1) == 0 && CeilLog2(2) == 1;
      FourTimes(1, refs);
    } else {
      FourTimes(caches - 1, refs);
    }
  }

  /** The parameters work if and only if the references do not fill exactly one cache, there are at least four of them, and not
      more than the keys can tell apart fourfold.
   */
  lemma UsableExactly(refs: nat, refBytes: nat, l2: nat, bits: nat)
    requires l2 > 0 && 4 * refBytes <= l2
    ensures Usable(refs, refBytes, l2, bits) <==> !(l2 <= refs * refBytes < 2 * l2) && 4 <= refs < Pow2(bits + 2)
  {
    OneBucket(refs, refBytes, l2);
    if refs > 0 {
      AtLeastLog2(refs, 2);
      AtLeastLog2(refs, bits + 2);
    }
    if refs >= 4 {
      CachesBound(refs, refBytes, l2);
      SecondBits(refs, Caches(refs, refBytes, l2));
    }
  }

  /** With the default cache size of 512 KB, 32768 references of 16 bytes fill it exactly, and the first shift is by all the
      bits of a key.
   */
  lemma FullWidthShift(bits: nat)
    ensures LogK1(32768, 16, 512 * 1024) == 0 && bits - LogK1(32768, 16, 512 * 1024) == bits && !Usable(32768, 16, 512 * 1024, bits)
  {
    OneBucket(32768, 16, 512 * 1024);
  }

  /** The in-memory sort of `create_runs`, with the parameters for buffers of `capacity` references. */
  method SortReferences(keys: seq<nat>, blockSize: nat, refs1: array<TypeKey>, refs2: array<TypeKey>, bits: nat, capacity: nat,
                        refBytes: nat, l2: nat)
    requires l2 > 0 && 4 * refBytes <= l2 && 4 <= capacity < Pow2(bits + 2) && !(l2 <= capacity * refBytes < 2 * l2)
    requires blockSize > 0 && refs1 != refs2 && refs1.Length == refs2.Length == |keys| <= capacity
    requires forall x :: 0 <= x < |keys| ==> keys[x] < Pow2(bits)
    modifies refs1, refs2
    ensures SortedKeys(refs1[..]) && multiset(refs1[..]) == multiset(References(keys))
  {
    UsableExactly(capacity, refBytes, l2, bits);
    var caches := capacity * refBytes / l2;
    var logK1 := Ilog2Ceil(if caches != 0 then caches else 2);
    var logK2 := Ilog2Floor(capacity);
    SortRun(keys, blockSize, refs1, refs2, bits, logK1, logK2 - logK1 - 1);
  }
}
