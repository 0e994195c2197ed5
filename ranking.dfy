/** Ordering by a numeric key, as Python's `list.sort(key=..., reverse=True)` and
    `sorted(..., reverse=True)`: descending and stable, so items of equal key keep their relative
    order. */
module Ranking {
  import opened Models

  /** Keys never increase along the list. */
  predicate SortedDesc<T>(xs: seq<T>, key: T -> real) {
    forall i, j :: 0 <= i < j < |xs| ==> key(xs[i]) >= key(xs[j])
  }

  /** Puts x in front of the first item whose key does not exceed x's. */
  function Insert<T>(x: T, l: seq<T>, key: T -> real): (r: seq<T>)
    ensures multiset(r) == multiset(l) + multiset{x}
    ensures |r| == |l| + 1
  {
    if l == [] then [x]
    else if key(l[0]) <= key(x) then [x] + l
    else
      assert l == [l[0]] + l[1..];
      [l[0]] + Insert(x, l[1..], key)
  }

  /** The stable descending sort. */
  function SortDesc<T>(xs: seq<T>, key: T -> real): (r: seq<T>)
    ensures multiset(r) == multiset(xs)
    ensures |r| == |xs|
  {
    if xs == [] then []
    else
      assert xs == [xs[0]] + xs[1..];
      Insert(xs[0], SortDesc(xs[1..], key), key)
  }

  /** The items of one key, in order. */
  function WithKey<T>(xs: seq<T>, key: T -> real, s: real): (r: seq<T>)
    ensures forall k :: 0 <= k < |r| ==> key(r[k]) == s
  {
    if xs == [] then []
    else if key(xs[0]) == s then [xs[0]] + WithKey(xs[1..], key, s)
    else WithKey(xs[1..], key, s)
  }

  /** Inserting keeps every key under a common bound. */
  lemma {:induction false} InsertBound<T>(x: T, l: seq<T>, key: T -> real, b: real)
    requires key(x) <= b && forall k :: 0 <= k < |l| ==> key(l[k]) <= b
    ensures forall k :: 0 <= k < |Insert(x, l, key)| ==> key(Insert(x, l, key)[k]) <= b
    decreases |l|
  {
    if l != [] && key(l[0]) > key(x) {
      InsertBound(x, l[1..], key, b);
    }
  }

  lemma {:induction false} InsertSorted<T>(x: T, l: seq<T>, key: T -> real)
    requires SortedDesc(l, key)
    ensures SortedDesc(Insert(x, l, key), key)
    decreases |l|
  {
    if l != [] && key(l[0]) > key(x) {
      InsertSorted(x, l[1..], key);
      InsertBound(x, l[1..], key, key(l[0]));
      var t := Insert(x, l[1..], key);
      assert Insert(x, l, key) == [l[0]] + t;
    }
  }

  /** The result is in descending order of key. */
  lemma {:induction false} SortDescSorted<T>(xs: seq<T>, key: T -> real)
    ensures SortedDesc(SortDesc(xs, key), key)
    decreases |xs|
  {
    if xs != [] {
      SortDescSorted(xs[1..], key);
      InsertSorted(xs[0], SortDesc(xs[1..], key), key);
    }
  }

  lemma {:induction false} InsertWithKey<T>(x: T, l: seq<T>, key: T -> real, s: real)
    requires SortedDesc(l, key)
    ensures WithKey(Insert(x, l, key), key, s) == if key(x) == s then [x] + WithKey(l, key, s) else WithKey(l, key, s)
    decreases |l|
  {
    if l != [] && key(l[0]) > key(x) {
      InsertWithKey(x, l[1..], key, s);
      assert l == [l[0]] + l[1..];
      if key(x) == s {
        // l[0]'s key exceeds x's, so it is not s
        assert WithKey(l, key, s) == WithKey(l[1..], key, s);
      }
    }
  }

  /** Stability: the items of each key appear in the sorted list in their original order. */
  lemma {:induction false} SortDescStable<T>(xs: seq<T>, key: T -> real, s: real)
    ensures WithKey(SortDesc(xs, key), key, s) == WithKey(xs, key, s)
    decreases |xs|
  {
    if xs != [] {
      SortDescStable(xs[1..], key, s);
      SortDescSorted(xs[1..], key);
      InsertWithKey(xs[0], SortDesc(xs[1..], key), key, s);
    }
  }

  /** The index of the first item of maximal key. */
  function FirstMax<T>(xs: seq<T>, key: T -> real): (k: nat)
    requires xs != []
    ensures k < |xs|
    ensures forall i :: 0 <= i < |xs| ==> key(xs[i]) <= key(xs[k])
    ensures forall i :: 0 <= i < k ==> key(xs[i]) < key(xs[k])
    decreases |xs|
  {
    if |xs| == 1 then 0
    else
      var k := FirstMax(xs[1..], key);
      assert forall i :: 1 <= i < |xs| ==> xs[i] == xs[1..][i - 1];
      if key(xs[0]) >= key(xs[1..][k]) then 0 else k + 1
  }

  lemma {:induction false} WithKeyHead<T>(xs: seq<T>, key: T -> real, k: nat)
    requires k < |xs| && forall i :: 0 <= i < k ==> key(xs[i]) != key(xs[k])
    ensures WithKey(xs, key, key(xs[k])) != [] && WithKey(xs, key, key(xs[k]))[0] == xs[k]
    decreases k
  {
    if k > 0 {
      WithKeyHead(xs[1..], key, k - 1);
    }
  }

  /** The head of the sorted list is the first item of maximal key. */
  lemma SortDescHead<T>(xs: seq<T>, key: T -> real)
    requires xs != []
    ensures SortDesc(xs, key)[0] == xs[FirstMax(xs, key)]
  {
    var r := SortDesc(xs, key);
    var k := FirstMax(xs, key);
    var s := key(xs[k]);
    SortDescSorted(xs, key);
    SortDescStable(xs, key, s);
    assert r[0] in multiset(xs);
    var j :| 0 <= j < |xs| && xs[j] == r[0];
    assert xs[k] in multiset(r);
    var j' :| 0 <= j' < |r| && r[j'] == xs[k];
    assert key(r[0]) == s;
    WithKeyHead(xs, key, k);
    WithKeyHead(r, key, 0);
  }

  /** The first `n` items of the sorted list are all at least as high as every item left out. */
  lemma SortDescPrefix<T>(xs: seq<T>, key: T -> real, n: nat)
    requires n <= |xs|
    ensures forall i, j :: 0 <= i < n <= j < |xs| ==> key(SortDesc(xs, key)[i]) >= key(SortDesc(xs, key)[j])
  {
    SortDescSorted(xs, key);
  }

  function Score(m: Message): real { m.score }

  /** `sorted(messages, key=lambda m: m.score, reverse=True)`. */
  function SortByScore(ms: seq<Message>): (r: seq<Message>)
    ensures multiset(r) == multiset(ms)
    ensures |r| == |ms|
  {
    SortDesc(ms, Score)
  }
}
