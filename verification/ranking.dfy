/** Ranking by an integer key, highest first, as `arr.sort((a, b) => key(b) - key(a))`
    does it: `Array.prototype.sort` is stable, so elements with equal keys keep
    their input order. Used by the matcher (top 10) and the dashboard (top 3). */
module Ranking {
  import opened Common

  /** Keys never increase from left to right. */
  predicate NonIncreasing<T>(xs: seq<T>, key: T -> int)
  {
    forall i, j :: 0 <= i < j < |xs| ==> key(xs[i]) >= key(xs[j])
  }

  /** The elements whose key is `k`, in order: a stable sort must leave this
      list unchanged for every `k`. */
  function WithKey<T>(xs: seq<T>, key: T -> int, k: int): seq<T>
  {
    if |xs| == 0 then []
    else (if key(xs[0]) == k then [xs[0]] else []) + WithKey(xs[1..], key, k)
  }

  /** Prepending an element no smaller than the current head keeps the order. */
  lemma ConsNonIncreasing<T>(y: T, s: seq<T>, key: T -> int)
    requires NonIncreasing(s, key)
    requires |s| > 0 ==> key(y) >= key(s[0])
    ensures NonIncreasing([y] + s, key)
  {
    var r := [y] + s;
    forall i, j | 0 <= i < j < |r|
      ensures key(r[i]) >= key(r[j])
    {
      if i == 0 {
        assert r[j] == s[j - 1];
        if j > 1 {
          assert key(s[0]) >= key(s[j - 1]);
        }
      } else {
        assert r[i] == s[i - 1] && r[j] == s[j - 1];
      }
    }
  }

  /** Places `x` in front of the first element whose key does not exceed
      `key(x)`, so that `x` precedes every element it ties with. */
  function Insert<T>(x: T, ys: seq<T>, key: T -> int): (r: seq<T>)
    requires NonIncreasing(ys, key)
    ensures NonIncreasing(r, key)
    ensures multiset(r) == multiset(ys) + multiset{x}
    ensures |r| == |ys| + 1
    ensures r[0] == x || (|ys| > 0 && r[0] == ys[0])
  {
    if |ys| == 0 then [x]
    else if key(ys[0]) > key(x) then
      NonIncreasingTail(ys, key);
      var rest := Insert(x, ys[1..], key);
      KeepHead(x, ys, rest, key);
      [ys[0]] + rest
    else
      ConsNonIncreasing(x, ys, key);
      [x] + ys
  }

  /** Putting the head back in front of `x` inserted into the tail gives
      what inserting into the whole list promises. */
  lemma KeepHead<T>(x: T, ys: seq<T>, rest: seq<T>, key: T -> int)
    requires |ys| > 0 && NonIncreasing(ys, key) && key(ys[0]) > key(x)
    requires NonIncreasing(rest, key) && |rest| == |ys|
    requires multiset(rest) == multiset(ys[1..]) + multiset{x}
    requires rest[0] == x || (|ys| > 1 && rest[0] == ys[1])
    ensures NonIncreasing([ys[0]] + rest, key)
    ensures multiset([ys[0]] + rest) == multiset(ys) + multiset{x}
  {
    assert |ys| > 1 ==> key(ys[0]) >= key(ys[1]);
    ConsNonIncreasing(ys[0], rest, key);
    SplitHead(ys);
    assert multiset(ys) == multiset{ys[0]} + multiset(ys[1..]);
  }

  /** The stable descending sort. */
  function SortDesc<T>(xs: seq<T>, key: T -> int): (r: seq<T>)
    ensures NonIncreasing(r, key)
    ensures multiset(r) == multiset(xs)
    ensures |r| == |xs|
  {
    if |xs| == 0 then []
    else
      assert xs == [xs[0]] + xs[1..];
      Insert(xs[0], SortDesc(xs[1..], key), key)
  }

  lemma WithKeyCons<T>(y: T, ys: seq<T>, key: T -> int, k: int)
    ensures WithKey([y] + ys, key, k) == (if key(y) == k then [y] else []) + WithKey(ys, key, k)
  {
    assert ([y] + ys)[1..] == ys;
  }

  /** Inserting `x` adds it to its own key class, at the front, and leaves
      every other key class alone. */
  lemma {:induction false} InsertWithKey<T>(x: T, ys: seq<T>, key: T -> int, k: int)
    requires NonIncreasing(ys, key)
    ensures WithKey(Insert(x, ys, key), key, k) == (if key(x) == k then [x] else []) + WithKey(ys, key, k)
    decreases |ys|
  {
    if |ys| == 0 {
      assert Insert(x, ys, key) == [x] + ys;
      WithKeyCons(x, ys, key, k);
    } else if key(ys[0]) > key(x) {
      NonIncreasingTail(ys, key);
      InsertWithKey(x, ys[1..], key, k);
      InsertWithKeyStep(x, ys, key, k);
    } else {
      assert Insert(x, ys, key) == [x] + ys;
      WithKeyCons(x, ys, key, k);
    }
  }

  lemma InsertWithKeyStep<T>(x: T, ys: seq<T>, key: T -> int, k: int)
    requires NonIncreasing(ys, key) && |ys| > 0 && NonIncreasing(ys[1..], key)
    requires key(ys[0]) > key(x)
    requires WithKey(Insert(x, ys[1..], key), key, k) == (if key(x) == k then [x] else []) + WithKey(ys[1..], key, k)
    ensures WithKey(Insert(x, ys, key), key, k) == (if key(x) == k then [x] else []) + WithKey(ys, key, k)
  {
    var rest := Insert(x, ys[1..], key);
    InsertPassesHead(x, ys, key);
    WithKeyCons(ys[0], rest, key, k);
    SwapDisjoint(if key(ys[0]) == k then [ys[0]] else [], if key(x) == k then [x] else [], WithKey(ys[1..], key, k));
  }

  /** An element ranked below the head goes somewhere after it. */
  lemma InsertPassesHead<T>(x: T, ys: seq<T>, key: T -> int)
    requires NonIncreasing(ys, key) && |ys| > 0
    requires key(ys[0]) > key(x)
    ensures NonIncreasing(ys[1..], key)
    ensures Insert(x, ys, key) == [ys[0]] + Insert(x, ys[1..], key)
  {
    NonIncreasingTail(ys, key);
  }

  /** Two sequences of which one is empty can be put in either order. */
  lemma SwapDisjoint<T>(a: seq<T>, b: seq<T>, w: seq<T>)
    requires a == [] || b == []
    ensures a + (b + w) == b + (a + w)
  {
    if a == [] {
      assert a + (b + w) == b + w;
      assert a + w == w;
    } else {
      assert b + (a + w) == a + w;
      assert b + w == w;
    }
  }

  lemma NonIncreasingTail<T>(ys: seq<T>, key: T -> int)
    requires |ys| > 0 && NonIncreasing(ys, key)
    ensures NonIncreasing(ys[1..], key) && NonIncreasing([ys[0]] + ys[1..], key)
  {
    assert [ys[0]] + ys[1..] == ys;
  }

  /** Stability: for every key value, the elements with that key appear in
      the sorted list in exactly the order they had in the input. */
  lemma {:induction false} SortDescStable<T>(xs: seq<T>, key: T -> int, k: int)
    ensures WithKey(SortDesc(xs, key), key, k) == WithKey(xs, key, k)
    decreases |xs|
  {
    if |xs| > 0 {
      assert xs == [xs[0]] + xs[1..];
      InsertWithKey(xs[0], SortDesc(xs[1..], key), key, k);
      SortDescStable(xs[1..], key, k);
      WithKeyCons(xs[0], xs[1..], key, k);
    }
  }

  /** `[...xs].sort(byKeyDesc).slice(0, n)`: the `n` best, ties resolved by
      input order. What is cut off is the tail of the sorted list, and none of
      it scores above the last element kept. */
  function TopK<T>(xs: seq<T>, key: T -> int, n: nat): (r: seq<T>)
    ensures |r| == Min(n, |xs|)
    ensures NonIncreasing(r, key)
    ensures r <= SortDesc(xs, key)
    ensures multiset(r) <= multiset(xs)
    ensures |r| > 0 ==> forall j :: |r| <= j < |xs| ==> key(SortDesc(xs, key)[j]) <= key(r[|r| - 1])
  {
    var s := SortDesc(xs, key);
    var r := Take(s, n);
    PrefixSplit(s, r, key);
    r
  }

  /** No element of the input that `TopK` leaves out has a key above the
      last element it keeps. */
  lemma TopKOmittedNoBetter<T>(xs: seq<T>, key: T -> int, n: nat, x: T)
    requires |TopK(xs, key, n)| > 0
    requires x in multiset(xs) - multiset(TopK(xs, key, n))
    ensures key(x) <= key(TopK(xs, key, n)[|TopK(xs, key, n)| - 1])
  {
    var s := SortDesc(xs, key);
    var r := TopK(xs, key, n);
    var tail := s[|r|..];
    assert s == r + tail;
    assert multiset(s) == multiset(r) + multiset(tail);
    assert x in multiset(tail);
    assert x in tail;
    var i :| 0 <= i < |tail| && tail[i] == x;
    assert s[|r| + i] == x;
  }

  /** Sorting a list that is already in order changes nothing: equal keys
      keep their places. */
  lemma {:induction false} SortDescOfSorted<T>(xs: seq<T>, key: T -> int)
    requires NonIncreasing(xs, key)
    ensures SortDesc(xs, key) == xs
    decreases |xs|
  {
    if |xs| > 0 {
      assert xs == [xs[0]] + xs[1..];
      assert NonIncreasing(xs[1..], key);
      SortDescOfSorted(xs[1..], key);
    }
  }

  /** A prefix of a sorted sequence holds all of its elements but those after
      it, which are no better than its last one. */
  lemma PrefixSplit<T>(s: seq<T>, r: seq<T>, key: T -> int)
    requires NonIncreasing(s, key) && r <= s
    ensures multiset(r) <= multiset(s)
    ensures |r| > 0 ==> forall j :: |r| <= j < |s| ==> key(s[j]) <= key(r[|r| - 1])
  {
    assert s == r + s[|r|..];
    assert multiset(s) == multiset(r) + multiset(s[|r|..]);
  }

  /** When there are at most `n` elements, the top `n` are all of them. */
  lemma TopKAll<T>(xs: seq<T>, key: T -> int, n: nat)
    requires |xs| <= n
    ensures multiset(TopK(xs, key, n)) == multiset(xs)
  {
    assert TopK(xs, key, n) == SortDesc(xs, key);
  }

  /** The top `n` of an ordered list are its first `n`. */
  lemma TopKOfSorted<T>(xs: seq<T>, key: T -> int, n: nat)
    requires NonIncreasing(xs, key)
    ensures TopK(xs, key, n) == Take(xs, n)
  {
    SortDescOfSorted(xs, key);
  }
}
