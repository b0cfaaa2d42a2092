/** Lexicographic order of the suffixes of a text, and what a suffix array is. */
module SuffixOrder {

  type Text = seq<nat>

  /** The textbook order on words: a proper prefix comes first. */
  predicate LexLess(a: seq<nat>, b: seq<nat>) {
    b != [] && (a == [] || a[0] < b[0] || (a[0] == b[0] && LexLess(a[1..], b[1..])))
  }

  /** Suffix `i` of `t` sorts before suffix `j`; position |t| is the empty suffix. */
  predicate SufLess(t: Text, i: nat, j: nat)
    requires i <= |t| && j <= |t|
    decreases |t| - i
  {
    j < |t| && (i == |t| || t[i] < t[j] || (t[i] == t[j] && SufLess(t, i + 1, j + 1)))
  }

  /** `sa` lists every position once, in strictly increasing suffix order. */
  ghost predicate IsSuffixArray(t: Text, sa: seq<nat>) {
    && |sa| == |t|
    && (forall k :: 0 <= k < |sa| ==> sa[k] < |t|)
    && (forall p: nat :: p < |t| ==> p in sa)
    && (forall a, b :: 0 <= a < b < |sa| ==> SufLess(t, sa[a], sa[b]))
  }

  /** The order on positions is the textbook order on the suffixes themselves. */
  lemma {:induction false} SufLessIsLexLess(t: Text, i: nat, j: nat)
    requires i <= |t| && j <= |t|
    ensures SufLess(t, i, j) <==> LexLess(t[i..], t[j..])
    decreases |t| - i
  {
    if i >= |t| || j >= |t| {
    } else {
      SufLessIsLexLess(t, i + 1, j + 1);
      assert t[i..][1..] == t[i + 1..] && t[j..][1..] == t[j + 1..];
    }
  }

  lemma {:induction false} Irreflexive(t: Text, i: nat)
    requires i <= |t|
    ensures !SufLess(t, i, i)
    decreases |t| - i
  {
    if i >= |t| {
    } else {
      Irreflexive(t, i + 1);
    }
  }

  lemma {:induction false} Transitive(t: Text, i: nat, j: nat, k: nat)
    requires i <= |t| && j <= |t| && k <= |t|
    requires SufLess(t, i, j) && SufLess(t, j, k)
    ensures SufLess(t, i, k)
    decreases |t| - i
  {
    if i >= |t| || j >= |t| || k >= |t| || t[i] != t[j] || t[j] != t[k] {
    } else {
      Transitive(t, i + 1, j + 1, k + 1);
    }
  }

  lemma {:induction false} Total(t: Text, i: nat, j: nat)
    requires i <= |t| && j <= |t| && i != j
    ensures SufLess(t, i, j) != SufLess(t, j, i)
    decreases |t| - i
  {
    if i >= |t| || j >= |t| {
    } else {
      Total(t, i + 1, j + 1);
    }
  }

  /** Renaming the characters by adding one, as every level of the recursion does, keeps the order. */
  lemma {:induction false} ShiftKeepsOrder(t: Text, u: Text, i: nat, j: nat)
    requires |t| == |u| && forall k :: 0 <= k < |t| ==> u[k] == t[k] + 1
    requires i <= |t| && j <= |t|
    ensures SufLess(t, i, j) <==> SufLess(u, i, j)
    decreases |t| - i
  {
    if i >= |t| || j >= |t| {
    } else {
      ShiftKeepsOrder(t, u, i + 1, j + 1);
    }
  }

  /** Two entries of a suffix array are in array order exactly when their suffixes are. */
  lemma ArrayOrder(t: Text, sa: seq<nat>, a: nat, b: nat)
    requires IsSuffixArray(t, sa) && a < |sa| && b < |sa|
    ensures a < b <==> SufLess(t, sa[a], sa[b])
    ensures a != b ==> sa[a] != sa[b]
  {
    Irreflexive(t, sa[a]);
    if b < a { Total(t, sa[b], sa[a]); }
  }

  /** A text has only one suffix array. */
  lemma SuffixArrayUnique(t: Text, a: seq<nat>, b: seq<nat>)
    requires IsSuffixArray(t, a) && IsSuffixArray(t, b)
    ensures a == b
  {
    forall k | 0 <= k < |t| ensures a[k] == b[k] { SameUpTo(t, a, b, k + 1); }
  }

  lemma {:induction false} SameUpTo(t: Text, a: seq<nat>, b: seq<nat>, k: nat)
    requires IsSuffixArray(t, a) && IsSuffixArray(t, b) && k <= |t|
    ensures a[..k] == b[..k]
  {
    if k == 0 {
    } else {
      SameUpTo(t, a, b, k - 1);
      assert forall i :: 0 <= i < k - 1 ==> a[i] == a[..k - 1][i] == b[..k - 1][i] == b[i];
      var x, y := a[k - 1], b[k - 1];
      if x != y {
        // x sits in b at some place after k - 1, and y in a: each would precede the other
        PlacedLater(t, a, b, k - 1);
        PlacedLater(t, b, a, k - 1);
        Total(t, x, y);
      }
    }
  }

  lemma PlacedLater(t: Text, a: seq<nat>, b: seq<nat>, k: nat)
    requires IsSuffixArray(t, a) && IsSuffixArray(t, b) && k < |t|
    requires forall i :: 0 <= i < k ==> a[i] == b[i]
    requires a[k] != b[k]
    ensures SufLess(t, b[k], a[k])
  {
    assert a[k] in b;
    var l :| 0 <= l < |b| && b[l] == a[k];
    if l < k { ArrayOrder(t, a, l, k); }
  }
}
