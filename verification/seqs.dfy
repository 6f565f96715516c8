/** `Array.prototype.filter` and `Array.prototype.sort` as used by the pages,
    hooks and controllers of the model. */
module Seqs {

  /** `ys` can be obtained from `xs` by deleting elements: the elements of
      `ys` appear in `xs` in the same order. */
  predicate IsSubsequence<T(==)>(ys: seq<T>, xs: seq<T>)
    decreases |xs|
  {
    |ys| == 0 || (|xs| > 0 &&
      if ys[0] == xs[0] then IsSubsequence(ys[1..], xs[1..]) else IsSubsequence(ys, xs[1..]))
  }

  /** `xs.filter(p)`. */
  function Filter<T(==)>(xs: seq<T>, p: T -> bool): (ys: seq<T>)
    ensures |ys| <= |xs|
    ensures forall y :: y in ys ==> y in xs && p(y)
    ensures forall x :: x in xs && p(x) ==> x in ys
    ensures IsSubsequence(ys, xs)
  {
    if |xs| == 0 then []
    else if p(xs[0]) then [xs[0]] + Filter(xs[1..], p)
    else Filter(xs[1..], p)
  }

  /** Filtering does not change how many times an accepted element occurs and
      drops every rejected one. */
  lemma {:induction false} FilterMultiplicity<T>(xs: seq<T>, p: T -> bool, x: T)
    ensures multiset(Filter(xs, p))[x] == if p(x) then multiset(xs)[x] else 0
  {
    if |xs| > 0 {
      FilterMultiplicity(xs[1..], p, x);
      assert xs == [xs[0]] + xs[1..];
    }
  }

  /** Filtering twice with the same predicate filters once. */
  lemma {:induction false} FilterIdempotent<T>(xs: seq<T>, p: T -> bool)
    ensures Filter(Filter(xs, p), p) == Filter(xs, p)
  {
    if |xs| > 0 {
      FilterIdempotent(xs[1..], p);
      if p(xs[0]) {
        assert ([xs[0]] + Filter(xs[1..], p))[1..] == Filter(xs[1..], p);
      }
    }
  }

  /** A predicate that holds of every element keeps the whole sequence. */
  lemma {:induction false} FilterAll<T>(xs: seq<T>, p: T -> bool)
    requires forall x :: x in xs ==> p(x)
    ensures Filter(xs, p) == xs
  {
    if |xs| > 0 {
      FilterAll(xs[1..], p);
    }
  }

  /** The filter keeps every element exactly when the predicate holds of all
      of them, and keeps none exactly when it holds of none. */
  lemma {:induction false} FilterCount<T>(xs: seq<T>, p: T -> bool)
    ensures |Filter(xs, p)| == |xs| <==> forall x :: x in xs ==> p(x)
    ensures |Filter(xs, p)| == 0 <==> forall x :: x in xs ==> !p(x)
  {
    if |xs| > 0 {
      FilterCount(xs[1..], p);
      assert xs == [xs[0]] + xs[1..];
      assert forall x :: x in xs <==> x == xs[0] || x in xs[1..];
    }
  }

  /** Pointwise, wherever `p` accepts an element of `ys` it accepts the
      element of `xs` at the same place; then `xs` keeps at least as many. */
  lemma {:induction false} FilterLengthMono<T>(xs: seq<T>, ys: seq<T>, p: T -> bool)
    requires |xs| == |ys|
    requires forall i :: 0 <= i < |ys| ==> p(ys[i]) ==> p(xs[i])
    ensures |Filter(ys, p)| <= |Filter(xs, p)|
  {
    if |xs| > 0 {
      assert forall i :: 0 <= i < |ys| - 1 ==> ys[1..][i] == ys[i + 1] && xs[1..][i] == xs[i + 1];
      FilterLengthMono(xs[1..], ys[1..], p);
    }
  }

  /** `key` is non-increasing along `xs`. */
  predicate SortedDesc<T>(xs: seq<T>, key: T -> int) {
    forall i, j :: 0 <= i < j < |xs| ==> key(xs[i]) >= key(xs[j])
  }

  /** Inserts `x` in front of the first element whose key is not above
      `key(x)`; elements of equal key that were already present stay after it. */
  function Insert<T>(x: T, ys: seq<T>, key: T -> int): (r: seq<T>)
    requires SortedDesc(ys, key)
    ensures multiset(r) == multiset(ys) + multiset{x}
    ensures SortedDesc(r, key)
    ensures r[0] == x || (|ys| > 0 && r[0] == ys[0])
  {
    if |ys| == 0 then [x]
    else if key(ys[0]) <= key(x) then [x] + ys
    else
      var rest := Insert(x, ys[1..], key);
      assert ys == [ys[0]] + ys[1..];
      assert key(rest[0]) <= key(ys[0]);
      [ys[0]] + rest
  }

  /** `xs.sort((a, b) => key(b) - key(a))`: a stable sort into non-increasing
      key order (the ECMAScript sort is stable since ES2019). */
  function SortDesc<T>(xs: seq<T>, key: T -> int): (r: seq<T>)
    ensures multiset(r) == multiset(xs)
    ensures |r| == |xs|
    ensures SortedDesc(r, key)
  {
    if |xs| == 0 then []
    else
      assert xs == [xs[0]] + xs[1..];
      var r := Insert(xs[0], SortDesc(xs[1..], key), key);
      assert |r| == |multiset(r)|;
      r
  }

  /** `p` selects elements of one key only. */
  ghost predicate OneKey<T(!new)>(p: T -> bool, key: T -> int) {
    forall a, b :: p(a) && p(b) ==> key(a) == key(b)
  }

  /** Among the elements of one key, `x` lands in front of those already in
      `ys`. */
  lemma {:induction false} InsertKeepsOrder<T(!new)>(x: T, ys: seq<T>, key: T -> int, p: T -> bool)
    requires SortedDesc(ys, key) && OneKey(p, key)
    ensures Filter(Insert(x, ys, key), p) == (if p(x) then [x] else []) + Filter(ys, p)
    decreases |ys|
  {
    var r := Insert(x, ys, key);
    if |ys| > 0 && key(ys[0]) > key(x) {
      var rest := Insert(x, ys[1..], key);
      assert r == [ys[0]] + rest;
      InsertKeepsOrder(x, ys[1..], key, p);
      assert p(x) ==> !p(ys[0]);
      assert ys == [ys[0]] + ys[1..];
      FilterPastHead(x, ys[0], ys[1..], rest, p);
    } else {
      assert r == [x] + ys;
      FilterCons(x, ys, p);
    }
  }

  /** One step of the induction above: an element `y` kept in front of `x`
      does not disturb the order of the selected ones when at most one of
      the two is selected. */
  lemma FilterPastHead<T>(x: T, y: T, zs: seq<T>, rest: seq<T>, p: T -> bool)
    requires p(x) ==> !p(y)
    requires Filter(rest, p) == (if p(x) then [x] else []) + Filter(zs, p)
    ensures Filter([y] + rest, p) == (if p(x) then [x] else []) + Filter([y] + zs, p)
  {
    FilterCons(y, rest, p);
    FilterCons(y, zs, p);
  }

  /** Filtering a sequence with a known head. */
  lemma FilterCons<T>(a: T, zs: seq<T>, p: T -> bool)
    ensures Filter([a] + zs, p) == (if p(a) then [a] else []) + Filter(zs, p)
  {
    assert ([a] + zs)[1..] == zs;
  }

  /** The sort is stable: the elements of any one key keep their original
      relative order. */
  lemma {:induction false} SortDescStable<T(!new)>(xs: seq<T>, key: T -> int, p: T -> bool)
    requires OneKey(p, key)
    ensures Filter(SortDesc(xs, key), p) == Filter(xs, p)
  {
    if |xs| > 0 {
      SortDescStable(xs[1..], key, p);
      InsertKeepsOrder(xs[0], SortDesc(xs[1..], key), key, p);
    }
  }
}
