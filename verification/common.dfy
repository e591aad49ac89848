/** Vocabulary shared by the server and the client pages: optional values,
    the replies an Express handler sends, and the list operations
    (`Array.prototype.filter`, `slice`) the code leans on. */
module Common {

  /** A value that may be absent (`null` / `undefined` in the source). */
  datatype Option<+T> = None | Some(value: T)
  {
    /** The wrapped value, or `default` when absent (JavaScript `x || default` on a non-falsy payload). */
    function GetOr(default: T): T
    {
      match this
      case Some(v) => v
      case None => default
    }
  }

  /** What a handler sends: a success status with a JSON body, or an error
      status with the `message` field of its JSON body. */
  datatype Response<+T> = Ok(status: int, body: T) | Error(status: int, message: string)

  function Min(a: int, b: int): int
  {
    if a <= b then a else b
  }

  function Max(a: int, b: int): int
  {
    if a >= b then a else b
  }

  /** `s` occurs in `t` in order, possibly with gaps: `s` is what some
      `filter` of `t` could return. */
  predicate IsSubseq<T(==)>(s: seq<T>, t: seq<T>)
    decreases |t|
  {
    if |s| == 0 then true
    else if |t| == 0 then false
    else if s[0] == t[0] then IsSubseq(s[1..], t[1..])
    else IsSubseq(s, t[1..])
  }

  /** `xs.filter(p)`: the elements of `xs` satisfying `p`, in their original
      order, each as often as it occurs in `xs`. */
  function Filter<T(==,!new)>(xs: seq<T>, p: T -> bool): (r: seq<T>)
    ensures |r| <= |xs|
    ensures forall i :: 0 <= i < |r| ==> p(r[i])
    ensures forall x :: x in r <==> x in xs && p(x)
    ensures forall x :: multiset(r)[x] == if p(x) then multiset(xs)[x] else 0
    ensures IsSubseq(r, xs)
  {
    if |xs| == 0 then []
    else
      var rest := Filter(xs[1..], p);
      if p(xs[0]) then
        FilterKeeps(xs, rest, p);
        [xs[0]] + rest
      else
        FilterSkips(xs, rest, p);
        rest
  }

  /** The step of `Filter` that keeps the head. */
  lemma FilterKeeps<T>(xs: seq<T>, rest: seq<T>, p: T -> bool)
    requires |xs| > 0 && p(xs[0])
    requires |rest| <= |xs| - 1
    requires forall i :: 0 <= i < |rest| ==> p(rest[i])
    requires forall x :: x in rest <==> x in xs[1..] && p(x)
    requires forall x :: multiset(rest)[x] == if p(x) then multiset(xs[1..])[x] else 0
    requires IsSubseq(rest, xs[1..])
    ensures var r := [xs[0]] + rest;
            && |r| <= |xs|
            && (forall i :: 0 <= i < |r| ==> p(r[i]))
            && (forall x :: x in r <==> x in xs && p(x))
            && (forall x :: multiset(r)[x] == if p(x) then multiset(xs)[x] else 0)
            && IsSubseq(r, xs)
  {
    var r := [xs[0]] + rest;
    SplitHead(xs);
    assert multiset(xs) == multiset{xs[0]} + multiset(xs[1..]);
    assert multiset(r) == multiset{xs[0]} + multiset(rest);
    assert r[1..] == rest;
  }

  /** The step of `Filter` that drops the head. */
  lemma FilterSkips<T>(xs: seq<T>, rest: seq<T>, p: T -> bool)
    requires |xs| > 0 && !p(xs[0])
    requires |rest| <= |xs| - 1
    requires forall i :: 0 <= i < |rest| ==> p(rest[i])
    requires forall x :: x in rest <==> x in xs[1..] && p(x)
    requires forall x :: multiset(rest)[x] == if p(x) then multiset(xs[1..])[x] else 0
    requires IsSubseq(rest, xs[1..])
    ensures forall x :: x in rest <==> x in xs && p(x)
    ensures forall x :: multiset(rest)[x] == if p(x) then multiset(xs)[x] else 0
    ensures IsSubseq(rest, xs)
  {
    SplitHead(xs);
    assert multiset(xs) == multiset{xs[0]} + multiset(xs[1..]);
    assert |rest| > 0 ==> rest[0] != xs[0];
  }

  /** `xs.filter(item => item !== v)`: the unchecking half of a multi-select
      toggle. */
  function RemoveAll<T(==,!new)>(xs: seq<T>, v: T): (r: seq<T>)
    ensures v !in r
    ensures forall x :: x != v ==> multiset(r)[x] == multiset(xs)[x]
    ensures IsSubseq(r, xs)
  {
    Filter(xs, x => x != v)
  }

  /** `xs.slice(0, n)`. */
  function Take<T>(xs: seq<T>, n: nat): (r: seq<T>)
    ensures |r| == Min(n, |xs|)
    ensures r <= xs
  {
    if n <= |xs| then xs[..n] else xs
  }

  /** What `Take` keeps is drawn from the whole. */
  lemma TakeFromWhole<T>(xs: seq<T>, n: nat)
    ensures multiset(Take(xs, n)) <= multiset(xs)
    ensures forall x :: x in Take(xs, n) ==> x in xs
  {
    var r := Take(xs, n);
    assert xs == r + xs[|r|..];
    assert multiset(xs) == multiset(r) + multiset(xs[|r|..]);
  }

  /** The position of the first element satisfying `p`: what a lookup such
      as `findById` or `findOne` answers on a store kept in insertion order. */
  function FirstIndex<T>(xs: seq<T>, p: T -> bool): (r: Option<nat>)
    ensures r.None? <==> forall i :: 0 <= i < |xs| ==> !p(xs[i])
    ensures r.Some? ==> r.value < |xs| && p(xs[r.value])
    ensures r.Some? ==> forall i :: 0 <= i < r.value ==> !p(xs[i])
  {
    if |xs| == 0 then None
    else if p(xs[0]) then Some(0)
    else
      match FirstIndex(xs[1..], p)
      case None => None
      case Some(i) => Some(i + 1)
  }

  /** Filtering by two predicates that agree everywhere gives the same list. */
  lemma {:induction false} FilterCongruent<T(!new)>(xs: seq<T>, p: T -> bool, q: T -> bool)
    requires forall x :: p(x) == q(x)
    ensures Filter(xs, p) == Filter(xs, q)
    decreases |xs|
  {
    if |xs| > 0 {
      FilterCongruent(xs[1..], p, q);
    }
  }

  /** Filtering distributes over concatenation. */
  lemma {:induction false} FilterAppend<T(!new)>(xs: seq<T>, ys: seq<T>, p: T -> bool)
    ensures Filter(xs + ys, p) == Filter(xs, p) + Filter(ys, p)
    decreases |xs|
  {
    if |xs| == 0 {
      assert xs + ys == ys;
    } else {
      assert (xs + ys)[1..] == xs[1..] + ys;
      FilterAppend(xs[1..], ys, p);
    }
  }

  /** Two filters can be applied in either order. */
  lemma {:induction false} FilterCommute<T(!new)>(xs: seq<T>, p: T -> bool, q: T -> bool)
    ensures Filter(Filter(xs, p), q) == Filter(Filter(xs, q), p)
    decreases |xs|
  {
    if |xs| > 0 {
      FilterCommute(xs[1..], p, q);
      var rest := xs[1..];
      FilterCons(xs[0], Filter(rest, p), q);
      FilterCons(xs[0], Filter(rest, q), p);
    }
  }

  /** `Filter` on a non-empty sequence decides the head, then filters the
      tail. */
  lemma FilterHead<T(!new)>(xs: seq<T>, p: T -> bool)
    requires |xs| > 0
    ensures Filter(xs, p) == (if p(xs[0]) then [xs[0]] else []) + Filter(xs[1..], p)
  {
  }

  /** A non-empty sequence is its head followed by its tail. */
  lemma SplitHead<T>(xs: seq<T>)
    requires |xs| > 0
    ensures xs == [xs[0]] + xs[1..]
  {
  }

  /** One step of `Filter` on a list with a known head. */
  lemma FilterCons<T(!new)>(x: T, xs: seq<T>, p: T -> bool)
    ensures Filter([x] + xs, p) == (if p(x) then [x] else []) + Filter(xs, p)
  {
    assert ([x] + xs)[1..] == xs;
  }
}
