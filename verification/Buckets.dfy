/** Distribution into buckets: which elements go into which bucket, and what the distributed sequence is. */
module Buckets {
  import opened Closed

  /** A reference to an element, with the element's key. */
  datatype TypeKey = TypeKey(key: nat, ptr: nat)

  /** `K` buckets, and the bucket of each element. */
  datatype Level = Level(bucket: TypeKey -> int, K: nat)

  ghost predicate Fits(r: Level, s: seq<TypeKey>) {
    forall x :: 0 <= x < |s| ==> 0 <= r.bucket(s[x]) < r.K
  }

  ghost predicate SortedKeys(s: seq<TypeKey>) {
    forall x, y :: 0 <= x < y < |s| ==> s[x].key <= s[y].key
  }

  /** Of the first `n` elements, those of bucket `i`, in their order. */
  ghost function Picked(r: Level, s: seq<TypeKey>, n: nat, i: nat): seq<TypeKey>
    requires n <= |s|
  {
    if n == 0 then [] else Picked(r, s, n - 1, i) + if r.bucket(s[n - 1]) == i then [s[n - 1]] else []
  }

  lemma {:induction false} PickedBucket(r: Level, s: seq<TypeKey>, n: nat, i: nat)
    requires n <= |s|
    ensures forall t :: 0 <= t < |Picked(r, s, n, i)| ==> r.bucket(Picked(r, s, n, i)[t]) == i
  {
    if n == 0 {
    } else {
      PickedBucket(r, s, n - 1, i);
    }
  }

  /** Of the first `n` elements, those of the buckets before `i`, bucket after bucket. */
  ghost function Dealt(r: Level, s: seq<TypeKey>, n: nat, i: nat): seq<TypeKey>
    requires n <= |s|
  {
    if i == 0 then [] else Dealt(r, s, n, i - 1) + Picked(r, s, n, i - 1)
  }

  ghost function Start(r: Level, s: seq<TypeKey>, i: nat): nat {
    |Dealt(r, s, |s|, i)|
  }

  lemma PickedNext(r: Level, s: seq<TypeKey>, n: nat, i: nat)
    requires n < |s|
    ensures multiset(Picked(r, s, n + 1, i)) == multiset(Picked(r, s, n, i)) + If(r.bucket(s[n]) == i, s[n])
  {
  }

  lemma DealtLast(r: Level, s: seq<TypeKey>, n: nat, i: nat)
    requires n <= |s| && i > 0
    ensures multiset(Dealt(r, s, n, i)) == multiset(Dealt(r, s, n, i - 1)) + multiset(Picked(r, s, n, i - 1))
  {
  }

  ghost function If(c: bool, x: TypeKey): multiset<TypeKey> {
    if c then multiset{x} else multiset{}
  }

  /** Adding an element to one of the parts `p` and `q` adds it to their sum. */
  lemma OneMore(p: multiset<TypeKey>, q: multiset<TypeKey>, p': multiset<TypeKey>, q': multiset<TypeKey>, x: TypeKey, bucket: int, i: int)
    requires p' == p + If(bucket < i, x) && q' == q + If(bucket == i, x)
    ensures p' + q' == (p + q) + If(bucket < i + 1, x)
  {
  }

  ghost function Bag(r: Level, s: seq<TypeKey>, n: nat, i: nat): multiset<TypeKey>
    requires n <= |s|
  {
    multiset(Dealt(r, s, n, i))
  }

  /** `Bag` takes in the elements one by one. */
  ghost predicate TakesIn(r: Level, s: seq<TypeKey>, n: nat, i: nat)
    requires n < |s|
  {
    forall j: nat :: Same(j, i) ==> Bag(r, s, n + 1, j) == Bag(r, s, n, j) + If(r.bucket(s[n]) < j, s[n])
  }

  lemma TakesInNext(r: Level, s: seq<TypeKey>, n: nat, i: nat)
    requires n < |s| && TakesIn(r, s, n, i)
    ensures TakesIn(r, s, n, i + 1)
  {
    assert Same(i, i);
    PickedNext(r, s, n, i);
    DealtLast(r, s, n, i + 1);
    DealtLast(r, s, n + 1, i + 1);
    OneMore(Bag(r, s, n, i), multiset(Picked(r, s, n, i)), Bag(r, s, n + 1, i), multiset(Picked(r, s, n + 1, i)), s[n], r.bucket(s[n]), i);
  }

  lemma TakesInNone(r: Level, s: seq<TypeKey>, n: nat)
    requires n < |s| && r.bucket(s[n]) >= 0
    ensures TakesIn(r, s, n, 0)
  {
  }

  lemma {:induction false} AlwaysTakesIn(r: Level, s: seq<TypeKey>, n: nat, i: nat)
    requires n < |s| && r.bucket(s[n]) >= 0
    ensures TakesIn(r, s, n, i)
  {
    if i == 0 {
      TakesInNone(r, s, n);
    } else {
      AlwaysTakesIn(r, s, n, i - 1);
      TakesInNext(r, s, n, i - 1);
    }
  }

  lemma {:induction false} DealtNone(r: Level, s: seq<TypeKey>, i: nat)
    ensures Dealt(r, s, 0, i) == []
  {
    if i == 0 {
    } else {
      DealtNone(r, s, i - 1);
    }
  }

  ghost predicate DealtSo(r: Level, s: seq<TypeKey>, n: nat)
    requires n <= |s|
  {
    forall m: nat :: Same(m, n) && m <= |s| ==> Bag(r, s, m, r.K) == multiset(s[..m])
  }

  lemma DealtSoNext(r: Level, s: seq<TypeKey>, n: nat)
    requires Fits(r, s) && n < |s| && DealtSo(r, s, n)
    ensures DealtSo(r, s, n + 1)
  {
    AlwaysTakesIn(r, s, n, r.K);
    assert Same(n, n) && Same(r.K, r.K);
    PrefixBag(s, n);
  }

  lemma PrefixBag(s: seq<TypeKey>, n: nat)
    requires n < |s|
    ensures multiset(s[..n + 1]) == multiset(s[..n]) + If(true, s[n])
  {
    assert s[..n + 1] == s[..n] + [s[n]];
  }

  /** Dealing rearranges the elements. */
  lemma {:induction false} DealtAll(r: Level, s: seq<TypeKey>, n: nat)
    requires Fits(r, s) && n <= |s|
    ensures DealtSo(r, s, n)
  {
    if n == 0 {
      DealtNone(r, s, r.K);
    } else {
      DealtAll(r, s, n - 1);
      DealtSoNext(r, s, n - 1);
    }
  }

  lemma DealtPermutation(r: Level, s: seq<TypeKey>)
    requires Fits(r, s)
    ensures multiset(Dealt(r, s, |s|, r.K)) == multiset(s) && Start(r, s, r.K) == |s|
  {
    DealtAll(r, s, |s|);
    assert Same(|s|, |s|) && s[..|s|] == s;
    assert |multiset(Dealt(r, s, |s|, r.K))| == |multiset(s)|;
  }

  lemma {:induction false} StartMonotone(r: Level, s: seq<TypeKey>, i: nat, j: nat)
    requires i < j
    ensures Start(r, s, i) + |Picked(r, s, |s|, i)| <= Start(r, s, j)
    decreases j
  {
    if i + 1 >= j {
    } else {
      StartMonotone(r, s, i, j - 1);
    }
  }

  lemma {:induction false} PickedMonotone(r: Level, s: seq<TypeKey>, n: nat, m: nat, i: nat)
    requires n <= m <= |s|
    ensures |Picked(r, s, n, i)| <= |Picked(r, s, m, i)|
    decreases m
  {
    if n >= m {
    } else {
      PickedMonotone(r, s, n, m - 1, i);
    }
  }

  // ----- filling the buckets

  /** The first `n` elements are in their places: bucket `i` starts at `Start(r, s, i)`. */
  ghost predicate Placed(r: Level, s: seq<TypeKey>, n: nat, b: seq<TypeKey>)
    requires n <= |s|
  {
    |b| == |s| && forall i: nat :: i < r.K ==> HasAt(b, Start(r, s, i), Picked(r, s, n, i))
  }

  ghost predicate HasAt(b: seq<TypeKey>, at: nat, q: seq<TypeKey>) {
    at + |q| <= |b| && forall t :: 0 <= t < |q| ==> b[at + t] == q[t]
  }

  /** Where the next element goes. */
  ghost function NextPlace(r: Level, s: seq<TypeKey>, n: nat, i: nat): nat
    requires n <= |s|
  {
    Start(r, s, i) + |Picked(r, s, n, i)|
  }

  lemma PlaceInRange(r: Level, s: seq<TypeKey>, n: nat)
    requires n < |s| && Fits(r, s)
    ensures NextPlace(r, s, n, r.bucket(s[n])) < |s|
    ensures NextPlace(r, s, n, r.bucket(s[n])) < Start(r, s, r.bucket(s[n]) + 1)
  {
    var i := r.bucket(s[n]);
    PickedMonotone(r, s, n + 1, |s|, i);
    DealtPermutation(r, s);
    StartMonotone(r, s, i, r.K);
  }

  lemma PlacedOther(r: Level, s: seq<TypeKey>, n: nat, b: seq<TypeKey>, i: nat)
    requires n < |s| && Fits(r, s) && Placed(r, s, n, b) && i < r.K && i != r.bucket(s[n])
    ensures NextPlace(r, s, n, r.bucket(s[n])) < |b|
    ensures HasAt(b[NextPlace(r, s, n, r.bucket(s[n])) := s[n]], Start(r, s, i), Picked(r, s, n + 1, i))
  {
    PlaceInRange(r, s, n);
    PlaceOutside(r, s, n, i);
    PickedSame(r, s, n, i);
    assert HasAt(b, Start(r, s, i), Picked(r, s, n, i));
    HasAtUpdated(b, Start(r, s, i), Picked(r, s, n, i), NextPlace(r, s, n, r.bucket(s[n])), s[n]);
  }

  /** The next place is not among the places of another bucket. */
  lemma PlaceOutside(r: Level, s: seq<TypeKey>, n: nat, i: nat)
    requires n < |s| && Fits(r, s) && i < r.K && i != r.bucket(s[n])
    ensures
      var p := NextPlace(r, s, n, r.bucket(s[n]));
      p < Start(r, s, i) || p >= Start(r, s, i) + |Picked(r, s, n, i)|
  {
    var j := r.bucket(s[n]);
    PlaceInRange(r, s, n);
    PickedMonotone(r, s, n, |s|, i);
    if i < j {
      StartMonotone(r, s, i, j);
    } else {
      StartMonotone(r, s, j, i);
    }
  }

  lemma PickedSame(r: Level, s: seq<TypeKey>, n: nat, i: nat)
    requires n < |s| && i != r.bucket(s[n])
    ensures Picked(r, s, n + 1, i) == Picked(r, s, n, i)
  {
  }

  lemma HasAtUpdated(b: seq<TypeKey>, at: nat, q: seq<TypeKey>, p: nat, x: TypeKey)
    requires HasAt(b, at, q) && p < |b| && (p < at || p >= at + |q|)
    ensures HasAt(b[p := x], at, q)
  {
  }

  lemma PlacedNext(r: Level, s: seq<TypeKey>, n: nat, b: seq<TypeKey>)
    requires n < |s| && Fits(r, s) && Placed(r, s, n, b)
    ensures NextPlace(r, s, n, r.bucket(s[n])) < |b|
    ensures Placed(r, s, n + 1, b[NextPlace(r, s, n, r.bucket(s[n])) := s[n]])
  {
    PlaceInRange(r, s, n);
    var j := r.bucket(s[n]);
    var b' := b[NextPlace(r, s, n, j) := s[n]];
    forall i: nat | i < r.K ensures HasAt(b', Start(r, s, i), Picked(r, s, n + 1, i)) {
      if i == j {
        assert HasAt(b, Start(r, s, i), Picked(r, s, n, i));
      } else {
        PlacedOther(r, s, n, b, i);
      }
    }
  }

  lemma PlacedNone(r: Level, s: seq<TypeKey>, b: seq<TypeKey>)
    requires Fits(r, s) && |b| == |s|
    ensures Placed(r, s, 0, b)
  {
    forall i: nat | i < r.K ensures HasAt(b, Start(r, s, i), Picked(r, s, 0, i)) {
      StartMonotone(r, s, i, r.K);
      DealtPermutation(r, s);
    }
  }

  /** Full buckets are the dealt sequence. */
  lemma {:induction false} PlacedIsDealt(r: Level, s: seq<TypeKey>, b: seq<TypeKey>, i: nat)
    requires Fits(r, s) && Placed(r, s, |s|, b) && i <= r.K
    ensures Start(r, s, i) <= |b| && b[..Start(r, s, i)] == Dealt(r, s, |s|, i)
  {
    if i == 0 {
    } else {
      PlacedIsDealt(r, s, b, i - 1);
      assert HasAt(b, Start(r, s, i - 1), Picked(r, s, |s|, i - 1));
      Extended(b, Dealt(r, s, |s|, i - 1), Picked(r, s, |s|, i - 1));
    }
  }

  lemma Extended(b: seq<TypeKey>, d: seq<TypeKey>, q: seq<TypeKey>)
    requires |d| <= |b| && b[..|d|] == d && HasAt(b, |d|, q)
    ensures |d + q| <= |b| && b[..|d + q|] == d + q
  {
    forall x | 0 <= x < |d + q| ensures b[x] == (d + q)[x] {
      if x >= |d| {
        assert b[|d| + (x - |d|)] == q[x - |d|];
      }
    }
  }

  lemma AllPlaced(r: Level, s: seq<TypeKey>, b: seq<TypeKey>)
    requires Fits(r, s) && Placed(r, s, |s|, b)
    ensures b == Dealt(r, s, |s|, r.K)
  {
    PlacedIsDealt(r, s, b, r.K);
    DealtPermutation(r, s);
    assert b[..|b|] == b;
  }

  /** The elements of bucket `i` in the dealt sequence. */
  lemma DealtBucket(r: Level, s: seq<TypeKey>, b: seq<TypeKey>, i: nat)
    requires Fits(r, s) && Placed(r, s, |s|, b) && i < r.K
    ensures Start(r, s, i) <= Start(r, s, i + 1) <= |b|
    ensures forall x :: Start(r, s, i) <= x < Start(r, s, i + 1) ==> r.bucket(b[x]) == i
  {
    PickedBucket(r, s, |s|, i);
    StartNext(r, s, i);
    assert HasAt(b, Start(r, s, i), Picked(r, s, |s|, i));
    AllInBucket(r, b, Start(r, s, i), Picked(r, s, |s|, i), i);
  }

  lemma StartNext(r: Level, s: seq<TypeKey>, i: nat)
    ensures Start(r, s, i + 1) == Start(r, s, i) + |Picked(r, s, |s|, i)|
  {
  }

  lemma AllInBucket(r: Level, b: seq<TypeKey>, at: nat, q: seq<TypeKey>, i: nat)
    requires HasAt(b, at, q) && forall t :: 0 <= t < |q| ==> r.bucket(q[t]) == i
    ensures forall x :: at <= x < at + |q| ==> r.bucket(b[x]) == i
  {
    forall x | at <= x < at + |q| ensures r.bucket(b[x]) == i {
      assert b[at + (x - at)] == q[x - at];
    }
  }
}
