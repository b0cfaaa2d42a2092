/** The radix sort of `intksort.h`, in place on arrays, and its two-level use in `ksort`'s run creation. */
module RadixSort {
  import opened Closed
  import opened Powers
  import opened Multiples
  import opened Copying
  import opened Sorting
  import opened Buckets

  // ----- one level: count, prefix sums, classify

  /** The counters after `n` elements. */
  ghost predicate Counted(r: Level, s: seq<TypeKey>, n: nat, bucket: seq<nat>)
    requires n <= |s|
  {
    |bucket| == r.K && forall i: nat :: i < r.K ==> bucket[i] == |Picked(r, s, n, i)|
  }

  /** `Counted(r, s, n, bucket)`, kept closed. */
  ghost predicate Counting(r: Level, s: seq<TypeKey>, n: nat, bucket: seq<nat>) {
    n <= |s| && |bucket| == r.K && forall m: nat :: Same(m, n) && m <= |s| ==> Counted(r, s, m, bucket)
  }

  lemma CountingNone(r: Level, s: seq<TypeKey>, bucket: seq<nat>)
    requires |bucket| == r.K && forall i :: 0 <= i < r.K ==> bucket[i] == 0
    ensures Counting(r, s, 0, bucket)
  {
  }

  lemma CountingNext(r: Level, s: seq<TypeKey>, n: nat, bucket: seq<nat>)
    requires n < |s| && Fits(r, s) && Counting(r, s, n, bucket)
    ensures Counting(r, s, n + 1, bucket[r.bucket(s[n]) := bucket[r.bucket(s[n])] + 1])
  {
    assert Same(n, n);
  }

  method Reset(bucket: array<nat>)
    modifies bucket
    ensures forall i :: 0 <= i < bucket.Length ==> bucket[i] == 0
  {
    var i := 0;
    while i < bucket.Length
      invariant i <= bucket.Length && forall j :: 0 <= j < i ==> bucket[j] == 0
    {
      bucket[i] := 0;
      i := i + 1;
    }
  }

  method Count(a: array<TypeKey>, lo: nat, hi: nat, bucket: array<nat>, r: Level)
    requires lo <= hi <= a.Length && bucket.Length == r.K && Fits(r, a[lo..hi])
    modifies bucket
    ensures Counting(r, a[lo..hi], hi - lo, bucket[..])
  {
    ghost var s := a[lo..hi];
    Reset(bucket);
    CountingNone(r, s, bucket[..]);
    var n := 0;
    while lo + n < hi
      invariant n <= |s| && Counting(r, s, n, bucket[..])
    {
      CountingNext(r, s, n, bucket[..]);
      ghost var counts := bucket[..];
      var index := r.bucket(a[lo + n]);
      bucket[index] := bucket[index] + 1;
      assert bucket[..] == counts[index := counts[index] + 1];
      n := n + 1;
    }
  }

  /** The places where the next element of each bucket goes, after `n` elements. */
  ghost predicate Places(r: Level, s: seq<TypeKey>, n: nat, bucket: seq<nat>)
    requires n <= |s|
  {
    |bucket| == r.K && forall i: nat :: i < r.K ==> bucket[i] == NextPlace(r, s, n, i)
  }

  /** `Places(r, s, n, bucket)`, kept closed. */
  ghost predicate PlacesAt(r: Level, s: seq<TypeKey>, n: nat, bucket: seq<nat>) {
    n <= |s| && |bucket| == r.K && forall m: nat :: Same(m, n) && m <= |s| ==> Places(r, s, m, bucket)
  }

  method ExclusivePrefixSum(bucket: array<nat>, ghost r: Level, ghost s: seq<TypeKey>)
    requires Counting(r, s, |s|, bucket[..])
    modifies bucket
    ensures PlacesAt(r, s, 0, bucket[..])
  {
    ghost var counts := bucket[..];
    var sum := 0;
    var i := 0;
    while i < bucket.Length
      invariant i <= bucket.Length && sum == Start(r, s, i)
      invariant bucket[i..] == counts[i..]
      invariant Started(r, s, i, bucket[..])
    {
      ghost var before := bucket[..];
      var current := bucket[i];
      assert current == counts[i..][0];
      StartedNext(r, s, i, counts, before, sum);
      bucket[i] := sum;
      assert bucket[..] == before[i := sum] && bucket[i + 1..] == counts[i..][1..];
      sum := sum + current;
      i := i + 1;
    }
    StartedAll(r, s, bucket[..]);
  }

  /** The first `i` counters are the starts of their buckets. */
  ghost predicate Started(r: Level, s: seq<TypeKey>, i: nat, bucket: seq<nat>) {
    i <= |bucket| && forall k: nat :: Same(k, i) ==> forall j: nat :: j < k && j < |bucket| ==> bucket[j] == Start(r, s, j)
  }

  lemma StartedNext(r: Level, s: seq<TypeKey>, i: nat, counts: seq<nat>, bucket: seq<nat>, sum: nat)
    requires Counting(r, s, |s|, counts) && Started(r, s, i, bucket) && i < |bucket| == r.K && sum == Start(r, s, i)
    ensures Started(r, s, i + 1, bucket[i := sum]) && Start(r, s, i + 1) == sum + counts[i]
  {
    var n: nat := |s|;
    assert Same(n, n) && Same(i, i) && Counted(r, s, n, counts);
    StartNext(r, s, i);
  }

  lemma StartedAll(r: Level, s: seq<TypeKey>, bucket: seq<nat>)
    requires Started(r, s, r.K, bucket) && |bucket| == r.K
    ensures PlacesAt(r, s, 0, bucket)
  {
    var k: nat := r.K;
    assert Same(k, k);
    forall i: nat | i < r.K ensures bucket[i] == NextPlace(r, s, 0, i) {
      assert Picked(r, s, 0, i) == [];
    }
  }

  lemma PlacesNext(r: Level, s: seq<TypeKey>, n: nat, bucket: seq<nat>)
    requires n < |s| && Fits(r, s) && Places(r, s, n, bucket)
    ensures Places(r, s, n + 1, bucket[r.bucket(s[n]) := bucket[r.bucket(s[n])] + 1])
  {
  }

  /** `n` elements are distributed, and the counters know where the next ones go. */
  ghost predicate Dealing(r: Level, s: seq<TypeKey>, n: nat, b: seq<TypeKey>, bucket: seq<nat>) {
    n <= |s| && forall m: nat :: Same(m, n) && m <= |s| ==> Placed(r, s, m, b) && Places(r, s, m, bucket)
  }

  lemma DealingNone(r: Level, s: seq<TypeKey>, b: seq<TypeKey>, bucket: seq<nat>)
    requires Fits(r, s) && |b| == |s| && PlacesAt(r, s, 0, bucket)
    ensures Dealing(r, s, 0, b, bucket)
  {
    var zero: nat := 0;
    assert Same(zero, zero);
    PlacedNone(r, s, b);
  }

  /** Distributes `a[lo..hi]` to `b[lo..hi]`. */
  method Classify(a: array<TypeKey>, lo: nat, hi: nat, b: array<TypeKey>, bucket: array<nat>, r: Level)
    requires lo <= hi <= a.Length && hi <= b.Length && a != b && Fits(r, a[lo..hi]) && PlacesAt(r, a[lo..hi], 0, bucket[..])
    modifies b, bucket
    ensures Dealing(r, a[lo..hi], hi - lo, b[lo..hi], bucket[..])
    ensures b[..lo] == old(b[..lo]) && b[hi..] == old(b[hi..])
  {
    ghost var s := a[lo..hi];
    DealingNone(r, s, b[lo..hi], bucket[..]);
    var n := 0;
    while lo + n < hi
      invariant n <= |s| && Dealing(r, s, n, b[lo..hi], bucket[..])
      invariant b[..lo] == old(b[..lo]) && b[hi..] == old(b[hi..])
    {
      ClassifyOne(a[lo + n], lo, hi, b, bucket, r, s, n);
      n := n + 1;
    }
  }

  /** What one step of the distribution does. */
  lemma DealingNext(r: Level, s: seq<TypeKey>, n: nat, b: seq<TypeKey>, bucket: seq<nat>)
    requires n < |s| && Fits(r, s) && Dealing(r, s, n, b, bucket)
    ensures |bucket| == r.K && bucket[r.bucket(s[n])] < |b| == |s|
    ensures Dealing(r, s, n + 1, b[bucket[r.bucket(s[n])] := s[n]], bucket[r.bucket(s[n]) := bucket[r.bucket(s[n])] + 1])
  {
    assert Same(n, n);
    PlacesNext(r, s, n, bucket);
    PlacedNext(r, s, n, b);
  }

  method ClassifyOne(x: TypeKey, lo: nat, hi: nat, b: array<TypeKey>, bucket: array<nat>, r: Level, ghost s: seq<TypeKey>, ghost n: nat)
    requires lo <= hi <= b.Length && |s| == hi - lo && n < |s| && x == s[n] && Fits(r, s)
    requires Dealing(r, s, n, b[lo..hi], bucket[..])
    modifies b, bucket
    ensures Dealing(r, s, n + 1, b[lo..hi], bucket[..])
    ensures b[..lo] == old(b[..lo]) && b[hi..] == old(b[hi..])
  {
    ghost var before, places := b[lo..hi], bucket[..];
    DealingNext(r, s, n, before, places);
    var i := r.bucket(x);
    var bi := bucket[i];
    b[lo + bi] := x;
    bucket[i] := bi + 1;
    assert b[lo..hi] == before[bi := x] && bucket[..] == places[i := bi + 1];
  }

  // ----- sorting one bucket

  predicate Less(a: TypeKey, b: TypeKey) {
    a.key < b.key
  }

  method Sort2(a0: TypeKey, b0: TypeKey) returns (a: TypeKey, b: TypeKey)
    ensures a.key <= b.key && multiset{a, b} == multiset{a0, b0}
  {
    a, b := a0, b0;
    if Less(b, a) {
      a, b := b, a;
    }
  }

  method Sort3(a0: TypeKey, b0: TypeKey, c0: TypeKey) returns (a: TypeKey, b: TypeKey, c: TypeKey)
    ensures a.key <= b.key <= c.key && multiset{a, b, c} == multiset{a0, b0, c0}
  {
    a, b, c := a0, b0, c0;
    if Less(b, a) {
      if Less(c, a) {
        if Less(b, c) {
          var temp := a;
          a := b;
          b := c;
          c := temp;
        } else {
          a, c := c, a;
        }
      } else {
        a, b := b, a;
      }
    } else {
      if Less(c, a) {
        var temp := a;
        a := c;
        c := b;
        b := temp;
      } else if Less(c, b) {
        b, c := c, b;
      }
    }
  }

  method Sort4(a0: TypeKey, b0: TypeKey, c0: TypeKey, d0: TypeKey) returns (a: TypeKey, b: TypeKey, c: TypeKey, d: TypeKey)
    ensures a.key <= b.key <= c.key <= d.key && multiset{a, b, c, d} == multiset{a0, b0, c0, d0}
  {
    a, b := Sort2(a0, b0);
    c, d := Sort2(c0, d0);
    TwoPairs(a, b, c, d);
    TwoPairs(a0, b0, c0, d0);
    a, b, c, d := Merge22(a, b, c, d);
  }

  lemma TwoPairs(a: TypeKey, b: TypeKey, c: TypeKey, d: TypeKey)
    ensures multiset{a, b, c, d} == multiset{a, b} + multiset{c, d}
  {
  }

  /** The second half of `sort4`: two sorted pairs. */
  method Merge22(a0: TypeKey, b0: TypeKey, c0: TypeKey, d0: TypeKey) returns (a: TypeKey, b: TypeKey, c: TypeKey, d: TypeKey)
    requires !Less(b0, a0) && !Less(d0, c0)
    ensures a.key <= b.key <= c.key <= d.key && multiset{a, b, c, d} == multiset{a0, b0, c0, d0}
  {
    a, b, c, d := a0, b0, c0, d0;
    if Less(c, a) {
      if Less(d, a) {
        a, c := c, a;
        b, d := d, b;
      } else if Less(d, b) {
        var temp := a;
        a := c;
        c := d;
        d := b;
        b := temp;
      } else {
        var temp := a;
        a := c;
        c := b;
        b := temp;
      }
    } else if Less(c, b) {
      if Less(d, b) {
        var temp := b;
        b := c;
        c := d;
        d := temp;
      } else {
        b, c := c, b;
      }
    }
  }

  /** `s` with the element at `p` moved to the place `q` before it. */
  ghost function Moved(s: seq<TypeKey>, p: nat, q: nat): (r: seq<TypeKey>)
    requires q <= p < |s|
    ensures |r| == |s| && multiset(r) == multiset(s)
    ensures forall x :: 0 <= x < |s| ==> r[x] == if x < q || x > p then s[x] else if x == q then s[p] else s[x - 1]
  {
    assert s == s[..q] + s[q..p] + [s[p]] + s[p + 1..];
    s[..q] + [s[p]] + s[q..p] + s[p + 1..]
  }

  /** The part `b[lo..hi]` is sorted. */
  ghost predicate SortedPart(b: seq<TypeKey>, lo: nat, hi: nat)
    requires hi <= |b|
  {
    forall x, y :: lo <= x < y < hi ==> b[x].key <= b[y].key
  }

  /** Only `b[lo..hi]` has changed, and there only the order. */
  ghost predicate Reordered(s: seq<TypeKey>, b: seq<TypeKey>, lo: nat, hi: nat)
    requires lo <= hi <= |s|
  {
    |b| == |s| && multiset(b[lo..hi]) == multiset(s[lo..hi]) && b[..lo] == s[..lo] && b[hi..] == s[hi..]
  }

  method InsertionSort(b: array<TypeKey>, lo: nat, hi: nat)
    requires lo < hi <= b.Length
    modifies b
    ensures SortedPart(b[..], lo, hi) && Reordered(old(b[..]), b[..], lo, hi)
  {
    var p := lo + 1;
    while p < hi
      invariant lo < p <= hi && SortedPart(b[..], lo, p) && Reordered(old(b[..]), b[..], lo, hi)
    {
      InsertOne(b, lo, hi, p);
      p := p + 1;
    }
  }

  /** One round of the insertion sort; the first element serves as a sentinel unless the new one is smaller. */
  method InsertOne(b: array<TypeKey>, lo: nat, hi: nat, p: nat)
    requires lo < p < hi <= b.Length && SortedPart(b[..], lo, p)
    modifies b
    ensures SortedPart(b[..], lo, p + 1) && Reordered(old(b[..]), b[..], lo, hi)
  {
    ghost var s := b[..];
    var t := b[p];
    var pp;
    if Less(t, b[lo]) {
      AllLarger(s, lo, p);
      pp := ShiftAll(b, lo, p);
    } else {
      pp := ShiftLarger(b, lo, p, t);
    }
    ghost var shifted := b[..];
    InsertedAt(s, shifted, lo, hi, p, pp);
    b[pp] := t;
    assert b[..] == shifted[pp := t];
  }

  /** Where the element at `p` belongs. */
  ghost predicate Slot(s: seq<TypeKey>, lo: nat, p: nat, pp: nat)
    requires p < |s|
  {
    lo <= pp <= p && (pp == lo || s[pp - 1].key <= s[p].key) && forall x :: pp <= x < p ==> s[p].key <= s[x].key
  }

  lemma AllLarger(s: seq<TypeKey>, lo: nat, p: nat)
    requires lo < p < |s| && SortedPart(s, lo, p) && Less(s[p], s[lo])
    ensures Slot(s, lo, p, lo)
  {
  }

  /** The elements from `pp` to `p` have moved one place to the right. */
  ghost predicate Shifted(s: seq<TypeKey>, b: seq<TypeKey>, pp: nat, p: nat)
    requires pp <= p < |s|
  {
    |b| == |s| && (forall x :: 0 <= x <= pp || p < x < |s| ==> b[x] == s[x]) && (forall x :: pp < x <= p ==> b[x] == s[x - 1])
  }

  lemma ShiftedMoved(s: seq<TypeKey>, b: seq<TypeKey>, pp: nat, p: nat)
    requires pp <= p < |s| && Shifted(s, b, pp, p)
    ensures b[pp := s[p]] == Moved(s, p, pp)
  {
  }

  method ShiftAll(b: array<TypeKey>, lo: nat, p: nat) returns (pp: nat)
    requires lo < p < b.Length
    modifies b
    ensures pp == lo && Shifted(old(b[..]), b[..], pp, p)
  {
    pp := p;
    while pp != lo
      invariant lo <= pp <= p && Shifted(old(b[..]), b[..], pp, p)
      decreases pp
    {
      b[pp] := b[pp - 1];
      pp := pp - 1;
    }
  }

  method ShiftLarger(b: array<TypeKey>, lo: nat, p: nat, t: TypeKey) returns (pp: nat)
    requires lo < p < b.Length && t == b[p] && !Less(t, b[lo])
    modifies b
    ensures pp <= p && Shifted(old(b[..]), b[..], pp, p) && Slot(old(b[..]), lo, p, pp)
  {
    ghost var s := b[..];
    pp := p;
    while Less(t, b[pp - 1])
      invariant lo < pp <= p && Shifted(s, b[..], pp, p)
      invariant forall x :: pp <= x < p ==> t.key < s[x].key
      decreases pp
    {
      assert b[pp - 1] == s[pp - 1] && b[lo] == s[lo];
      b[pp] := b[pp - 1];
      pp := pp - 1;
    }
    assert b[pp - 1] == s[pp - 1];
  }

  lemma MovedPart(s: seq<TypeKey>, lo: nat, hi: nat, p: nat, pp: nat)
    requires lo <= pp <= p < hi <= |s|
    ensures Moved(s, p, pp)[lo..hi] == Moved(s[lo..hi], p - lo, pp - lo)
  {
    var b, part, moved := Moved(s, p, pp), s[lo..hi], Moved(s[lo..hi], p - lo, pp - lo);
    forall x | 0 <= x < hi - lo ensures b[lo + x] == moved[x] {
      assert part[x] == s[lo + x] && (x > 0 ==> part[x - 1] == s[lo + x - 1]);
    }
  }

  lemma MovedSorted(s: seq<TypeKey>, lo: nat, p: nat, pp: nat)
    requires p < |s| && SortedPart(s, lo, p) && Slot(s, lo, p, pp)
    ensures SortedPart(Moved(s, p, pp), lo, p + 1)
  {
    assert pp > lo ==> forall x :: lo <= x < pp ==> s[x].key <= s[pp - 1].key;
  }

  lemma InsertedAt(s: seq<TypeKey>, shifted: seq<TypeKey>, lo: nat, hi: nat, p: nat, pp: nat)
    requires p < hi <= |s| && SortedPart(s, lo, p) && Slot(s, lo, p, pp) && Shifted(s, shifted, pp, p)
    ensures SortedPart(shifted[pp := s[p]], lo, p + 1) && Reordered(s, shifted[pp := s[p]], lo, hi)
  {
    ShiftedMoved(s, shifted, pp, p);
    MovedPart(s, lo, hi, p, pp);
    MovedSorted(s, lo, p, pp);
  }

  // ----- cleanup

  /** The library's sort for large buckets: any sorted permutation. */
  method SortLarge(b: array<TypeKey>, lo: nat, hi: nat)
    requires lo <= hi <= b.Length
    modifies b
    ensures SortedPart(b[..], lo, hi) && Reordered(old(b[..]), b[..], lo, hi)
  {
    ghost var s := b[..];
    var part, perm := Sort(b[lo..hi], (x: TypeKey, y: TypeKey) => x.key <= y.key);
    RearrangedMultiset(b[lo..hi], part, perm);
    CopyInto(b, lo, part);
    WrittenPart(s, b[..], lo, hi, part);
  }

  /** A part replaced by a sorted rearrangement of itself. */
  lemma WrittenPart(s: seq<TypeKey>, b: seq<TypeKey>, lo: nat, hi: nat, part: seq<TypeKey>)
    requires lo <= hi <= |s| && |part| == hi - lo && b == s[..lo] + part + s[hi..]
    requires SortedKeys(part) && multiset(part) == multiset(s[lo..hi])
    ensures SortedPart(b, lo, hi) && Reordered(s, b, lo, hi)
  {
    assert b[lo..hi] == part && b[..lo] == s[..lo] && b[hi..] == s[hi..];
    forall x, y | lo <= x < y < hi ensures b[x].key <= b[y].key {
      assert b[x] == part[x - lo] && b[y] == part[y - lo];
    }
  }

  /** The cases of two, three and four elements. */
  method SortFew(part: seq<TypeKey>) returns (r: seq<TypeKey>)
    requires 2 <= |part| <= 4
    ensures |r| == |part| && SortedKeys(r) && multiset(r) == multiset(part)
  {
    if |part| == 2 {
      r := SortTwo(part);
    } else if |part| == 3 {
      r := SortThree(part);
    } else {
      r := SortFour(part);
    }
  }

  method SortTwo(part: seq<TypeKey>) returns (r: seq<TypeKey>)
    requires |part| == 2
    ensures |r| == 2 && SortedKeys(r) && multiset(r) == multiset(part)
  {
    var x, y := Sort2(part[0], part[1]);
    TwoBag(part);
    r := [x, y];
    TwoBag(r);
  }

  method SortThree(part: seq<TypeKey>) returns (r: seq<TypeKey>)
    requires |part| == 3
    ensures |r| == 3 && SortedKeys(r) && multiset(r) == multiset(part)
  {
    var x, y, z := Sort3(part[0], part[1], part[2]);
    ThreeBag(part);
    r := [x, y, z];
    ThreeBag(r);
  }

  method SortFour(part: seq<TypeKey>) returns (r: seq<TypeKey>)
    requires |part| == 4
    ensures |r| == 4 && SortedKeys(r) && multiset(r) == multiset(part)
  {
    FourBag(part);
    var x, y, z, w := Sort4(part[0], part[1], part[2], part[3]);
    r := Listed(part, x, y, z, w);
  }

  method Listed(ghost part: seq<TypeKey>, x: TypeKey, y: TypeKey, z: TypeKey, w: TypeKey) returns (r: seq<TypeKey>)
    requires x.key <= y.key <= z.key <= w.key && multiset(part) == multiset{x, y, z, w}
    ensures |r| == 4 && SortedKeys(r) && multiset(r) == multiset(part)
  {
    r := [x, y, z, w];
    FourBag(r);
  }

  lemma TwoBag(s: seq<TypeKey>)
    requires |s| == 2
    ensures multiset(s) == multiset{s[0], s[1]}
  {
    assert s == [s[0], s[1]];
  }

  lemma ThreeBag(s: seq<TypeKey>)
    requires |s| == 3
    ensures multiset(s) == multiset{s[0], s[1], s[2]}
  {
    assert s == [s[0], s[1], s[2]];
  }

  lemma FourBag(s: seq<TypeKey>)
    requires |s| == 4
    ensures multiset(s) == multiset{s[0], s[1], s[2], s[3]}
  {
    assert s == [s[0], s[1], s[2], s[3]];
  }

  /** Sorts one bucket, by its size. */
  method SortBucket(b: array<TypeKey>, c: nat, cEnd: nat)
    requires c <= cEnd <= b.Length
    modifies b
    ensures SortedPart(b[..], c, cEnd) && Reordered(old(b[..]), b[..], c, cEnd)
  {
    var n := cEnd - c;
    if n <= 1 {
      // nothing to do
    } else if n <= 4 {
      ghost var s := b[..];
      var part := SortFew(b[c..cEnd]);
      CopyInto(b, c, part);
      WrittenPart(s, b[..], c, cEnd, part);
    } else if n <= 16 {
      InsertionSort(b, c, cEnd);
    } else {
      SortLarge(b, c, cEnd);
    }
  }

  /** The buckets before `i` are sorted, and the rest of the dealt elements `d` is untouched. */
  ghost predicate Cleaned(r: Level, d: seq<TypeKey>, b: seq<TypeKey>, c: nat, i: nat)
    requires c <= |d|
  {
    && |b| == |d| && SortedPart(b, 0, c) && b[c..] == d[c..] && multiset(b[..c]) == multiset(d[..c])
    && (forall x :: 0 <= x < c ==> r.bucket(b[x]) < i)
  }

  /** `Cleaned(r, d, b, c, i)`, kept closed. */
  ghost predicate CleanedTo(r: Level, d: seq<TypeKey>, b: seq<TypeKey>, c: nat, i: nat) {
    c <= |d| && forall m: nat :: Same(m, c) && m <= |d| ==> Cleaned(r, d, b, m, i)
  }

  lemma CleanedNone(r: Level, d: seq<TypeKey>)
    ensures CleanedTo(r, d, d, 0, 0)
  {
  }

  lemma CleanedAll(r: Level, d: seq<TypeKey>, b: seq<TypeKey>, c: nat, i: nat)
    requires CleanedTo(r, d, b, c, i) && c == |d|
    ensures SortedKeys(b) && multiset(b) == multiset(d)
  {
    assert Same(c, c);
    assert b[..c] == b && d[..c] == d;
  }

  /** A smaller bucket has smaller keys. */
  ghost predicate Ordered(r: Level) {
    forall x, y :: r.bucket(x) < r.bucket(y) ==> x.key < y.key
  }

  /** `Fits(r, s)` and `Ordered(r)`, phrased so that a proof that only passes them on does not look inside. */
  ghost predicate Suits(r: Level, s: seq<TypeKey>) {
    forall q: Level :: Same(q, r) ==> Fits(q, s) && Ordered(q)
  }

  lemma OpenSuits(r: Level, s: seq<TypeKey>)
    requires Suits(r, s)
    ensures Fits(r, s) && Ordered(r)
  {
    assert Same(r, r);
  }

  lemma ReorderedMembers(s: seq<TypeKey>, b: seq<TypeKey>, lo: nat, hi: nat, x: nat)
    requires lo <= x < hi <= |s| && Reordered(s, b, lo, hi)
    ensures exists y :: lo <= y < hi && b[x] == s[y]
  {
    assert b[lo..hi][x - lo] in multiset(b[lo..hi]);
    assert b[x] in s[lo..hi];
    var k :| 0 <= k < hi - lo && s[lo..hi][k] == b[x];
    assert b[x] == s[lo + k];
  }

  lemma CleanedBuckets(r: Level, d: seq<TypeKey>, b: seq<TypeKey>, b': seq<TypeKey>, c: nat, cEnd: nat, i: nat)
    requires c <= cEnd <= |d| && Cleaned(r, d, b, c, i) && Reordered(b, b', c, cEnd)
    requires forall x :: c <= x < cEnd ==> r.bucket(d[x]) == i
    ensures forall x :: 0 <= x < c ==> b'[x] == b[x]
    ensures forall x :: c <= x < cEnd ==> r.bucket(b'[x]) == i
    ensures b'[cEnd..] == d[cEnd..]
  {
    forall x | 0 <= x < c ensures b'[x] == b[x] {
      assert b'[..c][x] == b[..c][x];
    }
    forall x | c <= x < |d| ensures b[x] == d[x] {
      assert b[c..][x - c] == d[c..][x - c];
    }
    forall x | c <= x < cEnd ensures r.bucket(b'[x]) == i {
      ReorderedMembers(b, b', c, cEnd, x);
    }
    assert b[cEnd..] == d[cEnd..];
  }

  lemma CleanedBag(d: seq<TypeKey>, b: seq<TypeKey>, b': seq<TypeKey>, c: nat, cEnd: nat)
    requires c <= cEnd <= |d| == |b| && b[c..] == d[c..] && multiset(b[..c]) == multiset(d[..c]) && Reordered(b, b', c, cEnd)
    ensures multiset(b'[..cEnd]) == multiset(d[..cEnd])
  {
    assert b'[..cEnd] == b'[..c] + b'[c..cEnd] && d[..cEnd] == d[..c] + d[c..cEnd];
    assert b[c..cEnd] == b[c..][..cEnd - c] == d[c..cEnd];
  }

  lemma CleanedNext(r: Level, d: seq<TypeKey>, b: seq<TypeKey>, b': seq<TypeKey>, c: nat, cEnd: nat, i: nat)
    requires c <= cEnd <= |d| == |b| && CleanedTo(r, d, b, c, i) && Reordered(b, b', c, cEnd) && SortedPart(b', c, cEnd) && Ordered(r)
    requires forall x :: c <= x < cEnd ==> r.bucket(d[x]) == i
    ensures CleanedTo(r, d, b', cEnd, i + 1)
  {
    assert Same(c, c);
    CleanedBuckets(r, d, b, b', c, cEnd, i);
    CleanedBag(d, b, b', c, cEnd);
    forall x, y | 0 <= x < y < cEnd ensures b'[x].key <= b'[y].key {
      if x < c <= y {
        assert r.bucket(b'[x]) < r.bucket(b'[y]);
      }
    }
  }

  lemma RegionReordered(s: seq<TypeKey>, b: seq<TypeKey>, lo: nat, c: nat, cEnd: nat, hi: nat)
    requires lo <= c <= cEnd <= hi <= |s| && Reordered(s, b, c, cEnd)
    ensures Reordered(s[lo..hi], b[lo..hi], c - lo, cEnd - lo)
    ensures b[..lo] == s[..lo] && b[hi..] == s[hi..]
  {
    Slices(s, lo, c, cEnd, hi);
    Slices(b, lo, c, cEnd, hi);
  }

  /** The parts of a region, as parts of the whole. */
  lemma Slices(s: seq<TypeKey>, lo: nat, c: nat, cEnd: nat, hi: nat)
    requires lo <= c <= cEnd <= hi <= |s|
    ensures s[lo..hi][c - lo..cEnd - lo] == s[c..cEnd]
    ensures s[lo..hi][..c - lo] == s[..c][lo..] && s[..lo] == s[..c][..lo]
    ensures s[lo..hi][cEnd - lo..] == s[cEnd..][..hi - cEnd] && s[hi..] == s[cEnd..][hi - cEnd..]
  {
    MiddleSlice(s, lo, c, cEnd, hi);
    MiddleSlice(s, lo, cEnd, hi, hi);
    assert s[lo..hi][cEnd - lo..] == s[lo..hi][cEnd - lo..hi - lo];
  }

  lemma MiddleSlice(s: seq<TypeKey>, lo: nat, c: nat, cEnd: nat, hi: nat)
    requires lo <= c <= cEnd <= hi <= |s|
    ensures s[lo..hi][c - lo..cEnd - lo] == s[c..cEnd]
  {
    var t := s[lo..hi];
    forall x | 0 <= x < cEnd - c ensures t[c - lo..cEnd - lo][x] == s[c..cEnd][x] {
      assert t[c - lo..cEnd - lo][x] == t[c - lo + x] == s[lo + (c - lo + x)];
    }
  }

  lemma RegionSorted(b: seq<TypeKey>, lo: nat, c: nat, cEnd: nat, hi: nat)
    requires lo <= c <= cEnd <= hi <= |b| && SortedPart(b, c, cEnd)
    ensures SortedPart(b[lo..hi], c - lo, cEnd - lo)
  {
  }

  /** The elements are dealt: `d` is the region, and the counters stand at the ends of their buckets. */
  lemma DealtOut(r: Level, s: seq<TypeKey>, d: seq<TypeKey>, bucket: seq<nat>, i: nat)
    requires Fits(r, s) && Dealing(r, s, |s|, d, bucket) && i < r.K
    ensures |d| == |s| && |bucket| == r.K && Start(r, s, i) <= bucket[i] == Start(r, s, i + 1) <= |d|
    ensures forall x :: Start(r, s, i) <= x < bucket[i] ==> r.bucket(d[x]) == i
  {
    var n: nat := |s|;
    assert Same(n, n) && Placed(r, s, n, d) && Places(r, s, n, bucket);
    StartNext(r, s, i);
    DealtBucket(r, s, d, i);
  }

  lemma DealtBag(r: Level, s: seq<TypeKey>, d: seq<TypeKey>, bucket: seq<nat>)
    requires Fits(r, s) && Dealing(r, s, |s|, d, bucket)
    ensures multiset(d) == multiset(s) && Start(r, s, r.K) == |s| == |d| && |bucket| == r.K
  {
    var n: nat := |s|;
    assert Same(n, n) && Placed(r, s, n, d) && Places(r, s, n, bucket);
    AllPlaced(r, s, d);
    DealtPermutation(r, s);
  }

  method CleanupOne(b: array<TypeKey>, lo: nat, hi: nat, c: nat, cEnd: nat, ghost r: Level, ghost d: seq<TypeKey>, ghost i: nat)
    requires lo <= c <= cEnd <= hi <= b.Length && |d| == hi - lo && Ordered(r)
    requires CleanedTo(r, d, b[lo..hi], c - lo, i) && forall x :: c - lo <= x < cEnd - lo ==> r.bucket(d[x]) == i
    modifies b
    ensures CleanedTo(r, d, b[lo..hi], cEnd - lo, i + 1)
    ensures b[..lo] == old(b[..lo]) && b[hi..] == old(b[hi..])
  {
    ghost var before := b[..];
    assert before[lo..hi] == b[lo..hi] && before[..lo] == b[..lo] && before[hi..] == b[hi..];
    SortBucket(b, c, cEnd);
    ghost var after := b[..];
    CleanedRegion(r, d, before, after, lo, hi, c, cEnd, i);
    assert after[lo..hi] == b[lo..hi] && after[..lo] == b[..lo] && after[hi..] == b[hi..];
  }

  lemma CleanedRegion(r: Level, d: seq<TypeKey>, s: seq<TypeKey>, b: seq<TypeKey>, lo: nat, hi: nat, c: nat, cEnd: nat, i: nat)
    requires lo <= c <= cEnd <= hi <= |s| && |d| == hi - lo && Ordered(r)
    requires CleanedTo(r, d, s[lo..hi], c - lo, i) && forall x :: c - lo <= x < cEnd - lo ==> r.bucket(d[x]) == i
    requires Reordered(s, b, c, cEnd) && SortedPart(b, c, cEnd)
    ensures CleanedTo(r, d, b[lo..hi], cEnd - lo, i + 1) && b[..lo] == s[..lo] && b[hi..] == s[hi..]
  {
    RegionReordered(s, b, lo, c, cEnd, hi);
    RegionSorted(b, lo, c, cEnd, hi);
    CleanedNext(r, d, s[lo..hi], b[lo..hi], c - lo, cEnd - lo, i);
  }

  /** The first `c` elements, those of the buckets before `i`, are sorted; kept closed. */
  ghost predicate Swept(r: Level, s: seq<TypeKey>, d: seq<TypeKey>, b: seq<TypeKey>, c: nat, i: nat) {
    |d| == |s| && c <= |s| && forall m: nat :: Same(m, i) ==> c == Start(r, s, m) && CleanedTo(r, d, b, c, m)
  }

  lemma SweptNone(r: Level, s: seq<TypeKey>, d: seq<TypeKey>)
    requires |d| == |s|
    ensures Swept(r, s, d, d, 0, 0)
  {
    CleanedNone(r, d);
  }

  lemma SweptAll(r: Level, s: seq<TypeKey>, d: seq<TypeKey>, bucket: seq<nat>, b: seq<TypeKey>, c: nat, i: nat)
    requires Suits(r, s) && Dealing(r, s, |s|, d, bucket) && Swept(r, s, d, b, c, i) && i == r.K
    ensures SortedKeys(b) && multiset(b) == multiset(s)
  {
    assert Same(i, i);
    OpenSuits(r, s);
    DealtBag(r, s, d, bucket);
    CleanedAll(r, d, b, c, i);
  }

  method SweepNext(b: array<TypeKey>, lo: nat, hi: nat, bucket: array<nat>, c: nat, i: nat, i': nat,
                   ghost r: Level, ghost s: seq<TypeKey>, ghost d: seq<TypeKey>)
    returns (cEnd: nat)
    requires lo <= hi <= b.Length && Suits(r, s) && |s| == hi - lo && Dealing(r, s, |s|, d, bucket[..])
    requires i < bucket.Length == r.K && i' == i + 1 && Swept(r, s, d, b[lo..hi], c, i)
    modifies b
    ensures Swept(r, s, d, b[lo..hi], cEnd, i')
    ensures b[..lo] == old(b[..lo]) && b[hi..] == old(b[hi..])
  {
    OpenSuits(r, s);
    assert Same(i, i);
    DealtOut(r, s, d, bucket[..], i);
    cEnd := bucket[i];
    CleanupOne(b, lo, hi, lo + c, lo + cEnd, r, d, i);
    SweptTo(r, s, d, b[lo..hi], (lo + cEnd) - lo, cEnd, i, i');
  }

  lemma SweptTo(r: Level, s: seq<TypeKey>, d: seq<TypeKey>, b: seq<TypeKey>, c: nat, c': nat, i: nat, i': nat)
    requires |d| == |s| && c == c' == Start(r, s, i + 1) <= |s| && i' == i + 1 && CleanedTo(r, d, b, c, i + 1)
    ensures Swept(r, s, d, b, c', i')
  {
  }

  /** Sorts each bucket of the dealt elements. */
  method Cleanup(b: array<TypeKey>, lo: nat, hi: nat, bucket: array<nat>, ghost r: Level, ghost s: seq<TypeKey>)
    requires lo <= hi <= b.Length && Suits(r, s) && |s| == hi - lo && Dealing(r, s, |s|, b[lo..hi], bucket[..])
    modifies b
    ensures SortedKeys(b[lo..hi]) && multiset(b[lo..hi]) == multiset(s)
    ensures b[..lo] == old(b[..lo]) && b[hi..] == old(b[hi..])
  {
    ghost var d := b[lo..hi];
    DealtSizes(r, s, d, bucket[..]);
    SweptNone(r, s, d);
    var c, i: nat := 0, 0;
    while i < bucket.Length
      invariant i <= bucket.Length == r.K && Swept(r, s, d, b[lo..hi], c, i)
      invariant b[..lo] == old(b[..lo]) && b[hi..] == old(b[hi..])
    {
      var next := i + 1;
      c := SweepNext(b, lo, hi, bucket, c, i, next, r, s, d);
      i := next;
    }
    SweptAll(r, s, d, bucket[..], b[lo..hi], c, i);
  }

  lemma DealtSizes(r: Level, s: seq<TypeKey>, d: seq<TypeKey>, bucket: seq<nat>)
    requires Suits(r, s) && Dealing(r, s, |s|, d, bucket)
    ensures Start(r, s, r.K) == |s| == |d| && |bucket| == r.K
  {
    OpenSuits(r, s);
    DealtBag(r, s, d, bucket);
  }

  /** One level of most-significant-digit radix sort, from `a[lo..hi]` to `b[lo..hi]`. */
  method L1Sort(a: array<TypeKey>, lo: nat, hi: nat, b: array<TypeKey>, bucket: array<nat>, r: Level)
    requires lo <= hi <= a.Length && hi <= b.Length && a != b && bucket.Length == r.K && Suits(r, a[lo..hi])
    modifies b, bucket
    ensures SortedKeys(b[lo..hi]) && multiset(b[lo..hi]) == multiset(a[lo..hi])
    ensures b[..lo] == old(b[..lo]) && b[hi..] == old(b[hi..])
  {
    Deal(a, lo, hi, b, bucket, r);
    Cleanup(b, lo, hi, bucket, r, a[lo..hi]);
  }

  /** Counts, and deals the elements of `a[lo..hi]` into their buckets in `b[lo..hi]`. */
  method Deal(a: array<TypeKey>, lo: nat, hi: nat, b: array<TypeKey>, bucket: array<nat>, r: Level)
    requires lo <= hi <= a.Length && hi <= b.Length && a != b && bucket.Length == r.K && Suits(r, a[lo..hi])
    modifies b, bucket
    ensures Dealing(r, a[lo..hi], hi - lo, b[lo..hi], bucket[..])
    ensures b[..lo] == old(b[..lo]) && b[hi..] == old(b[hi..])
  {
    OpenSuits(r, a[lo..hi]);
    Count(a, lo, hi, bucket, r);
    ExclusivePrefixSum(bucket, r, a[lo..hi]);
    Classify(a, lo, hi, b, bucket, r);
  }

  // ----- two levels

  /** The buckets of `(key - offset) >> shift`. */
  function ShiftLevel(offset: nat, shift: nat, K: nat): Level {
    Level((x: TypeKey) => (x.key - offset) / Pow2(shift), K)
  }

  lemma MulMonotone(a: int, b: int, p: nat)
    ensures a <= b ==> a * p <= b * p
    ensures a * p == (a - 1) * p + p
  {
  }

  lemma Quotient(d: nat, q: nat, k: nat)
    requires q > 0 && d < k * q
    ensures 0 <= d / q < k
  {
    Floor(d, q);
    MulMonotone(k, d / q, q);
  }

  lemma {:induction false} PowSum(a: nat, b: nat)
    ensures Pow2(a) * Pow2(b) == Pow2(a + b)
  {
    if a == 0 {
    } else {
      PowSum(a - 1, b);
      assert Pow2(a) * Pow2(b) == 2 * (Pow2(a - 1) * Pow2(b));
    }
  }

  lemma QuotientOrder(a: int, b: int, p: int)
    requires p > 0 && a / p < b / p
    ensures a < b
  {
    Floor(a, p);
    Floor(b, p);
    MulMonotone(a / p + 1, b / p, p);
  }

  lemma ShiftOrdered(offset: nat, shift: nat, K: nat)
    ensures Ordered(ShiftLevel(offset, shift, K))
  {
    var r := ShiftLevel(offset, shift, K);
    forall x, y | r.bucket(x) < r.bucket(y) ensures x.key < y.key {
      QuotientOrder(x.key - offset, y.key - offset, Pow2(shift));
    }
  }

  /** Keys of `bits` bits fit into the `2^logK1` buckets of the first level. */
  lemma FirstLevelFits(key: nat, bits: nat, logK1: nat)
    requires logK1 <= bits && key < Pow2(bits)
    ensures 0 <= key / Pow2(bits - logK1) < Pow2(logK1)
  {
    PowSum(logK1, bits - logK1);
    Quotient(key, Pow2(bits - logK1), Pow2(logK1));
  }

  /** Keys of bucket `i` of the first level start at `i * 2^shift1` and fit into `2^(shift1 - shift2)` buckets of the second. */
  lemma SecondLevelFits(key: nat, shift1: nat, shift2: nat, i: nat)
    requires shift2 <= shift1 && key / Pow2(shift1) == i
    ensures 0 <= (key - i * Pow2(shift1)) / Pow2(shift2) < Pow2(shift1 - shift2)
  {
    Floor(key, Pow2(shift1));
    PowSum(shift1 - shift2, shift2);
    Quotient(key - i * Pow2(shift1), Pow2(shift2), Pow2(shift1 - shift2));
  }

  lemma FirstSuits(s: seq<TypeKey>, bits: nat, logK1: nat)
    requires logK1 <= bits && forall x :: 0 <= x < |s| ==> s[x].key < Pow2(bits)
    ensures Suits(ShiftLevel(0, bits - logK1, Pow2(logK1)), s)
  {
    AllFirstFit(s, bits, logK1);
    ShiftOrdered(0, bits - logK1, Pow2(logK1));
  }

  lemma AllFirstFit(s: seq<TypeKey>, bits: nat, logK1: nat)
    requires logK1 <= bits && forall x :: 0 <= x < |s| ==> s[x].key < Pow2(bits)
    ensures Fits(ShiftLevel(0, bits - logK1, Pow2(logK1)), s)
  {
    forall x | 0 <= x < |s| ensures 0 <= ShiftLevel(0, bits - logK1, Pow2(logK1)).bucket(s[x]) < Pow2(logK1) {
      FirstLevelFits(s[x].key, bits, logK1);
    }
  }

  lemma SecondSuits(s: seq<TypeKey>, shift1: nat, shift2: nat, K1: nat, i: nat)
    requires shift2 <= shift1 && forall x :: 0 <= x < |s| ==> ShiftLevel(0, shift1, K1).bucket(s[x]) == i
    ensures Suits(ShiftLevel(i * Pow2(shift1), shift2, Pow2(shift1 - shift2)), s)
  {
    AllSecondFit(s, shift1, shift2, K1, i);
    ShiftOrdered(i * Pow2(shift1), shift2, Pow2(shift1 - shift2));
  }

  lemma AllSecondFit(s: seq<TypeKey>, shift1: nat, shift2: nat, K1: nat, i: nat)
    requires shift2 <= shift1 && forall x :: 0 <= x < |s| ==> ShiftLevel(0, shift1, K1).bucket(s[x]) == i
    ensures Fits(ShiftLevel(i * Pow2(shift1), shift2, Pow2(shift1 - shift2)), s)
  {
    forall x | 0 <= x < |s| ensures 0 <= ShiftLevel(i * Pow2(shift1), shift2, Pow2(shift1 - shift2)).bucket(s[x]) < Pow2(shift1 - shift2) {
      SecondLevelFits(s[x].key, shift1, shift2, i);
    }
  }

  /** References to the elements with these keys; an element is known by its place. */
  function References(keys: seq<nat>): (s: seq<TypeKey>)
    ensures |s| == |keys| && forall i :: 0 <= i < |s| ==> s[i] == TypeKey(keys[i], i)
  {
    seq(|keys|, i requires 0 <= i < |keys| => TypeKey(keys[i], i))
  }

  /** The first `n` elements have their references, and are counted. */
  ghost predicate Referenced(r: Level, keys: seq<nat>, n: nat, refs: seq<TypeKey>, bucket: seq<nat>) {
    && |refs| == |keys| && n <= |keys| && Counting(r, References(keys), n, bucket)
    && forall i :: 0 <= i < n ==> refs[i] == TypeKey(keys[i], i)
  }

  lemma ReferencedNext(r: Level, keys: seq<nat>, n: nat, refs: seq<TypeKey>, bucket: seq<nat>, index: int)
    requires Referenced(r, keys, n, refs, bucket) && n < |keys| && Suits(r, References(keys)) && index == r.bucket(TypeKey(keys[n], n))
    ensures 0 <= index < |bucket|
    ensures Referenced(r, keys, n + 1, refs[n := TypeKey(keys[n], n)], bucket[index := bucket[index] + 1])
  {
    OpenSuits(r, References(keys));
    assert References(keys)[n] == TypeKey(keys[n], n);
    CountingNext(r, References(keys), n, bucket);
  }

  /** Creates the references of the elements `from..to`, a block, and counts them. */
  method ClassifyBlock(keys: seq<nat>, from: nat, to: nat, refs: array<TypeKey>, bucket: array<nat>, r: Level)
    requires from <= to <= |keys| && Suits(r, References(keys)) && Referenced(r, keys, from, refs[..], bucket[..])
    modifies refs, bucket
    ensures Referenced(r, keys, to, refs[..], bucket[..])
  {
    var p := from;
    while p < to
      invariant from <= p <= to && Referenced(r, keys, p, refs[..], bucket[..])
    {
      var index := r.bucket(TypeKey(keys[p], p));
      ghost var before, counts := refs[..], bucket[..];
      ReferencedNext(r, keys, p, before, counts, index);
      refs[p] := TypeKey(keys[p], p);
      bucket[index] := bucket[index] + 1;
      assert refs[..] == before[p := TypeKey(keys[p], p)] && bucket[..] == counts[index := counts[index] + 1];
      p := p + 1;
    }
  }

  /** Creates and counts all references, block after block. */
  method ClassifyBlocks(keys: seq<nat>, blockSize: nat, refs: array<TypeKey>, bucket: array<nat>, r: Level)
    requires blockSize > 0 && refs.Length == |keys| && bucket.Length == r.K && Suits(r, References(keys))
    modifies refs, bucket
    ensures refs[..] == References(keys) && Counting(r, References(keys), |keys|, bucket[..])
  {
    Reset(bucket);
    CountingNone(r, References(keys), bucket[..]);
    var n := 0;
    while n < |keys|
      invariant n <= |keys| && Referenced(r, keys, n, refs[..], bucket[..])
    {
      var next := if n + blockSize <= |keys| then n + blockSize else |keys|;
      ClassifyBlock(keys, n, next, refs, bucket, r);
      n := next;
    }
  }

  /** The first level: references, counters, and the references dealt into `refs2`. */
  method FirstLevel(keys: seq<nat>, blockSize: nat, refs1: array<TypeKey>, refs2: array<TypeKey>, bucket: array<nat>, r: Level)
    requires blockSize > 0 && refs1 != refs2 && refs1.Length == refs2.Length == |keys| && bucket.Length == r.K && Suits(r, References(keys))
    modifies refs1, refs2, bucket
    ensures Dealing(r, References(keys), |keys|, refs2[..], bucket[..])
  {
    var n := |keys|;
    ClassifyBlocks(keys, blockSize, refs1, bucket, r);
    assert refs1[0..n] == References(keys);
    OpenSuits(r, References(keys));
    ExclusivePrefixSum(bucket, r, References(keys));
    Classify(refs1, 0, n, refs2, bucket, r);
    assert refs2[0..n] == refs2[..];
  }

  /** The in-memory sort of a run of elements with keys of `bits` bits: the references in `refs1` end up sorted by key, with one
      reference to each element. Every bucket index of both levels is in range.
   */
  method SortRun(keys: seq<nat>, blockSize: nat, refs1: array<TypeKey>, refs2: array<TypeKey>, bits: nat, logK1: nat, logK2: nat)
    requires blockSize > 0 && refs1 != refs2 && refs1.Length == refs2.Length == |keys|
    requires 1 <= logK1 && logK1 + logK2 <= bits && forall x :: 0 <= x < |keys| ==> keys[x] < Pow2(bits)
    modifies refs1, refs2
    ensures SortedKeys(refs1[..]) && multiset(refs1[..]) == multiset(References(keys))
  {
    var shift1 := bits - logK1;
    var shift2 := shift1 - logK2;
    var level1 := ShiftLevel(0, shift1, Pow2(logK1));
    var bucket1, bucket2 := new nat[Pow2(logK1)], new nat[Pow2(logK2)];
    FirstSuits(References(keys), bits, logK1);
    FirstLevel(keys, blockSize, refs1, refs2, bucket1, level1);
    SecondLevel(refs1, refs2, bucket1, bucket2, shift1, shift2, level1, References(keys));
  }

  /** The buckets before `i` have been sorted into `b`. */
  ghost predicate Finished(r: Level, d: seq<TypeKey>, b: seq<TypeKey>, c: nat, i: nat)
    requires c <= |d|
  {
    |b| == |d| && SortedPart(b, 0, c) && multiset(b[..c]) == multiset(d[..c]) && (forall x :: 0 <= x < c ==> r.bucket(b[x]) < i)
  }

  /** `Finished(r, d, b, c, i)`, kept closed. */
  ghost predicate FinishedTo(r: Level, d: seq<TypeKey>, b: seq<TypeKey>, c: nat, i: nat) {
    c <= |d| && forall m: nat :: Same(m, c) && m <= |d| ==> Finished(r, d, b, m, i)
  }

  lemma FinishedNone(r: Level, d: seq<TypeKey>, b: seq<TypeKey>)
    requires |b| == |d|
    ensures FinishedTo(r, d, b, 0, 0)
  {
  }

  lemma FinishedAll(r: Level, d: seq<TypeKey>, b: seq<TypeKey>, c: nat, i: nat)
    requires FinishedTo(r, d, b, c, i) && c == |d|
    ensures SortedKeys(b) && multiset(b) == multiset(d)
  {
    assert Same(c, c);
    assert b[..c] == b && d[..c] == d;
  }

  /** `level` is the first level for a shift; kept closed. */
  ghost predicate IsShift(level: Level, shift: nat) {
    forall q: nat :: Same(q, shift) ==> level == ShiftLevel(0, q, level.K)
  }

  method SecondLevel(refs1: array<TypeKey>, refs2: array<TypeKey>, bucket1: array<nat>, bucket2: array<nat>, shift1: nat, shift2: nat,
                     level1: Level, ghost s: seq<TypeKey>)
    requires refs1 != refs2 && refs1.Length == refs2.Length == |s| && bucket1 != bucket2
    requires shift2 <= shift1 && bucket2.Length == Pow2(shift1 - shift2) && IsShift(level1, shift1)
    requires Suits(level1, s) && Dealing(level1, s, |s|, refs2[..], bucket1[..])
    modifies refs1, bucket2
    ensures SortedKeys(refs1[..]) && multiset(refs1[..]) == multiset(s)
  {
    ghost var d := refs2[..];
    DealtSizes(level1, s, d, bucket1[..]);
    FinishedNone(level1, d, refs1[..]);
    var c := 0;
    var i := 0;
    while i < bucket1.Length
      invariant i <= bucket1.Length == level1.K && c == Start(level1, s, i) <= |d| && FinishedTo(level1, d, refs1[..], c, i)
    {
      c := SortNext(refs1, refs2, bucket1, bucket2, c, shift1, shift2, level1, i, s);
      i := i + 1;
    }
    DealtFinished(level1, s, d, bucket1[..], refs1[..], c, i);
  }

  lemma DealtFinished(r: Level, s: seq<TypeKey>, d: seq<TypeKey>, bucket: seq<nat>, b: seq<TypeKey>, c: nat, i: nat)
    requires Suits(r, s) && Dealing(r, s, |s|, d, bucket) && FinishedTo(r, d, b, c, i) && c == |s|
    ensures SortedKeys(b) && multiset(b) == multiset(s)
  {
    OpenSuits(r, s);
    DealtBag(r, s, d, bucket);
    FinishedAll(r, d, b, c, i);
  }

  method SortNext(refs1: array<TypeKey>, refs2: array<TypeKey>, bucket1: array<nat>, bucket2: array<nat>, c: nat, shift1: nat, shift2: nat,
                  level1: Level, i: nat, ghost s: seq<TypeKey>) returns (cEnd: nat)
    requires refs1 != refs2 && refs1.Length == refs2.Length == |s| && bucket1 != bucket2 && i < bucket1.Length == level1.K
    requires shift2 <= shift1 && bucket2.Length == Pow2(shift1 - shift2) && IsShift(level1, shift1)
    requires Suits(level1, s) && Dealing(level1, s, |s|, refs2[..], bucket1[..])
    requires c == Start(level1, s, i) && FinishedTo(level1, refs2[..], refs1[..], c, i)
    modifies refs1, bucket2
    ensures cEnd == Start(level1, s, i + 1) <= |s| && FinishedTo(level1, refs2[..], refs1[..], cEnd, i + 1)
  {
    ghost var before := refs1[..];
    cEnd := bucket1[i];
    NextBucket(level1, s, refs2[..], bucket1[..], i, shift1, shift2);
    var level2 := ShiftLevel(i * Pow2(shift1), shift2, Pow2(shift1 - shift2));
    L1Sort(refs2, c, cEnd, refs1, bucket2, level2);
    FinishedNext(level1, s, refs2[..], bucket1[..], before, refs1[..], c, cEnd, i);
  }

  /** The elements of the next bucket fit into the buckets of the second level. */
  lemma NextBucket(r: Level, s: seq<TypeKey>, d: seq<TypeKey>, bucket: seq<nat>, i: nat, shift1: nat, shift2: nat)
    requires Suits(r, s) && Dealing(r, s, |s|, d, bucket) && i < r.K && IsShift(r, shift1) && shift2 <= shift1
    ensures |d| == |s| && |bucket| == r.K && Start(r, s, i) <= bucket[i] == Start(r, s, i + 1) <= |d|
    ensures Suits(ShiftLevel(i * Pow2(shift1), shift2, Pow2(shift1 - shift2)), d[Start(r, s, i)..bucket[i]])
  {
    OpenSuits(r, s);
    DealtOut(r, s, d, bucket, i);
    assert Same(shift1, shift1);
    SecondSuits(d[Start(r, s, i)..bucket[i]], shift1, shift2, r.K, i);
  }

  lemma FinishedBuckets(r: Level, d: seq<TypeKey>, b': seq<TypeKey>, c: nat, cEnd: nat, i: nat)
    requires c <= cEnd <= |d| == |b'| && multiset(b'[c..cEnd]) == multiset(d[c..cEnd])
    requires forall x :: c <= x < cEnd ==> r.bucket(d[x]) == i
    ensures forall x :: c <= x < cEnd ==> r.bucket(b'[x]) == i
  {
    forall x | c <= x < cEnd ensures r.bucket(b'[x]) == i {
      assert b'[c..cEnd][x - c] in multiset(d[c..cEnd]);
      assert b'[x] in d[c..cEnd];
    }
  }

  lemma FinishedBag(d: seq<TypeKey>, b: seq<TypeKey>, b': seq<TypeKey>, c: nat, cEnd: nat)
    requires c <= cEnd <= |d| == |b| == |b'| && b'[..c] == b[..c]
    requires multiset(b[..c]) == multiset(d[..c]) && multiset(b'[c..cEnd]) == multiset(d[c..cEnd])
    ensures multiset(b'[..cEnd]) == multiset(d[..cEnd])
  {
    assert b'[..cEnd] == b'[..c] + b'[c..cEnd] && d[..cEnd] == d[..c] + d[c..cEnd];
  }

  lemma FinishedSorted(r: Level, b': seq<TypeKey>, c: nat, cEnd: nat, i: nat)
    requires c <= cEnd <= |b'| && Ordered(r) && SortedPart(b', 0, c) && SortedKeys(b'[c..cEnd])
    requires (forall x :: 0 <= x < c ==> r.bucket(b'[x]) < i) && (forall x :: c <= x < cEnd ==> r.bucket(b'[x]) == i)
    ensures SortedPart(b', 0, cEnd)
  {
    forall x, y | 0 <= x < y < cEnd ensures b'[x].key <= b'[y].key {
      if x < c <= y {
        assert r.bucket(b'[x]) < r.bucket(b'[y]);
      } else if c <= x {
        assert b'[x] == b'[c..cEnd][x - c] && b'[y] == b'[c..cEnd][y - c];
      }
    }
  }

  lemma FinishedNext(r: Level, s: seq<TypeKey>, d: seq<TypeKey>, bucket: seq<nat>, b: seq<TypeKey>, b': seq<TypeKey>, c: nat, cEnd: nat, i: nat)
    requires Suits(r, s) && Dealing(r, s, |s|, d, bucket) && i < r.K && |bucket| == r.K && c == Start(r, s, i) && cEnd == bucket[i]
    requires c <= cEnd <= |d| == |b| && FinishedTo(r, d, b, c, i) && |b'| == |b| && b'[..c] == b[..c]
    requires SortedKeys(b'[c..cEnd]) && multiset(b'[c..cEnd]) == multiset(d[c..cEnd])
    ensures FinishedTo(r, d, b', cEnd, i + 1)
  {
    OpenSuits(r, s);
    DealtOut(r, s, d, bucket, i);
    assert Same(c, c);
    forall x | 0 <= x < c ensures b'[x] == b[x] {
      assert b'[..c][x] == b[..c][x];
    }
    FinishedBuckets(r, d, b', c, cEnd, i);
    FinishedBag(d, b, b', c, cEnd);
    FinishedSorted(r, b', c, cEnd, i);
  }
}
