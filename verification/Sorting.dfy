/** Sorting by a key, and order statistics. */
module Sorting {
  predicate Sorted<T>(xs: seq<T>, key: T -> real) {
    forall i, j | 0 <= i < j < |xs| :: key(xs[i]) <= key(xs[j])
  }

  lemma SortedCons<T>(x: T, rest: seq<T>, key: T -> real)
    requires Sorted(rest, key) && (rest == [] || key(x) <= key(rest[0]))
    ensures Sorted([x] + rest, key)
  {
  }

  function Insert<T>(x: T, xs: seq<T>, key: T -> real): (r: seq<T>)
    requires Sorted(xs, key)
    ensures Sorted(r, key)
    ensures multiset(r) == multiset{x} + multiset(xs)
    ensures xs == [] || key(x) <= key(xs[0]) ==> r[0] == x
    ensures xs != [] && !(key(x) <= key(xs[0])) ==> r[0] == xs[0]
  {
    if xs == [] || key(x) <= key(xs[0]) then
      SortedCons(x, xs, key);
      [x] + xs
    else
      var rest := Insert(x, xs[1..], key);
      assert xs == [xs[0]] + xs[1..];
      SortedCons(xs[0], rest, key);
      [xs[0]] + rest
  }

  /** `sorted(xs, key=key)`. */
  function Sort<T>(xs: seq<T>, key: T -> real): (r: seq<T>)
    ensures Sorted(r, key)
    ensures multiset(r) == multiset(xs)
    ensures |r| == |xs|
  {
    if xs == [] then []
    else
      assert xs == [xs[0]] + xs[1..];
      var r := Insert(xs[0], Sort(xs[1..], key), key);
      assert |r| == |multiset(r)| == |multiset(xs)| == |xs|;
      r
  }

  function SortReals(xs: seq<real>): (r: seq<real>)
    ensures forall i, j | 0 <= i < j < |r| :: r[i] <= r[j]
    ensures multiset(r) == multiset(xs) && |r| == |xs|
  {
    Sort(xs, x => x)
  }

  /** How many of `xs` are at most `v`, and how many are below it. */
  function CountLe(xs: seq<real>, v: real): nat {
    if xs == [] then 0 else CountLe(xs[1..], v) + if xs[0] <= v then 1 else 0
  }

  function CountLt(xs: seq<real>, v: real): nat {
    if xs == [] then 0 else CountLt(xs[1..], v) + if xs[0] < v then 1 else 0
  }

  /** `v` is the `r`-th smallest of `xs`, counting from one. */
  ghost predicate IsRanked(xs: seq<real>, r: nat, v: real) {
    v in xs && CountLt(xs, v) < r <= CountLe(xs, v)
  }

  lemma {:induction false} CountMonotone(xs: seq<real>, v: real, w: real)
    requires v < w
    ensures CountLe(xs, v) <= CountLt(xs, w)
    ensures CountLt(xs, v) <= CountLe(xs, v) <= |xs|
  {
    if xs != [] {
      CountMonotone(xs[1..], v, w);
    }
  }

  /** Takes one occurrence of `x` out of `ys`. */
  lemma CutOut<T>(ys: seq<T>, x: T) returns (pre: seq<T>, post: seq<T>)
    requires x in ys
    ensures ys == pre + [x] + post
    ensures multiset(pre + post) == multiset(ys) - multiset{x}
  {
    var k :| 0 <= k < |ys| && ys[k] == x;
    pre, post := ys[..k], ys[k + 1..];
    assert ys == pre + [x] + post;
  }

  /** Two lists with the same elements and the same first one have the same rest. */
  lemma SameRest<T>(xs: seq<T>, ys: seq<T>) returns (pre: seq<T>, post: seq<T>)
    requires xs != [] && multiset(xs) == multiset(ys)
    ensures ys == pre + [xs[0]] + post
    ensures multiset(xs[1..]) == multiset(pre + post)
  {
    assert xs == [xs[0]] + xs[1..];
    assert xs[0] in multiset(ys);
    pre, post := CutOut(ys, xs[0]);
    assert multiset(xs) == multiset{xs[0]} + multiset(xs[1..]);
  }

  /** Counting does not see the order. */
  lemma {:induction false} CountPermuted(xs: seq<real>, ys: seq<real>, v: real)
    requires multiset(xs) == multiset(ys)
    ensures CountLe(xs, v) == CountLe(ys, v) && CountLt(xs, v) == CountLt(ys, v)
  {
    if xs == [] {
      assert |ys| == |multiset(ys)|;
    } else {
      var pre, post := SameRest(xs, ys);
      CountPermuted(xs[1..], pre + post, v);
      CountAppended(pre, post, v);
      CountAppended(pre, [xs[0]] + post, v);
      assert pre + ([xs[0]] + post) == ys;
    }
  }

  lemma {:induction false} CountAppended(xs: seq<real>, ys: seq<real>, v: real)
    ensures CountLe(xs + ys, v) == CountLe(xs, v) + CountLe(ys, v)
    ensures CountLt(xs + ys, v) == CountLt(xs, v) + CountLt(ys, v)
  {
    if xs == [] {
      assert xs + ys == ys;
    } else {
      CountAppended(xs[1..], ys, v);
      assert xs + ys == [xs[0]] + (xs[1..] + ys);
    }
  }

  /** In a sorted list the counts are positions. */
  lemma {:induction false} CountSorted(xs: seq<real>, v: real)
    requires forall i, j | 0 <= i < j < |xs| :: xs[i] <= xs[j]
    ensures forall i | 0 <= i < |xs| :: (i < CountLe(xs, v) <==> xs[i] <= v) && (i < CountLt(xs, v) <==> xs[i] < v)
  {
    if xs != [] {
      CountSorted(xs[1..], v);
      forall i | 0 <= i < |xs|
        ensures (i < CountLe(xs, v) <==> xs[i] <= v) && (i < CountLt(xs, v) <==> xs[i] < v)
      {
        if i > 0 { assert xs[i] == xs[1..][i - 1]; }
        if |xs| > 1 { assert xs[1..][0] >= xs[0]; }
      }
    }
  }

  /** The order statistic of rank `r` exists, and sorting finds it. */
  lemma SortRanks(xs: seq<real>, r: nat)
    requires 1 <= r <= |xs|
    ensures IsRanked(xs, r, SortReals(xs)[r - 1])
  {
    var ys := SortReals(xs);
    var v := ys[r - 1];
    CountPermuted(xs, ys, v);
    CountSorted(ys, v);
    assert v in multiset(ys);
  }

  /** The least and the greatest of the samples. */
  function Least(xs: seq<real>): (v: real)
    requires xs != []
    ensures v in xs && forall x | x in xs :: v <= x
  {
    var n := |xs| - 1;
    assert xs == xs[..n] + [xs[n]];
    if n == 0 then xs[0]
    else if xs[n] < Least(xs[..n]) then xs[n] else Least(xs[..n])
  }

  function Greatest(xs: seq<real>): (v: real)
    requires xs != []
    ensures v in xs && forall x | x in xs :: x <= v
  {
    var n := |xs| - 1;
    assert xs == xs[..n] + [xs[n]];
    if n == 0 then xs[0]
    else if xs[n] > Greatest(xs[..n]) then xs[n] else Greatest(xs[..n])
  }

  /** `bisect_left`. */
  function BisectLeft(xs: seq<real>, v: real): (k: nat)
    ensures k <= |xs|
    ensures forall i | 0 <= i < k :: xs[i] < v
    ensures k < |xs| ==> v <= xs[k]
  {
    if xs == [] || v <= xs[0] then 0 else 1 + BisectLeft(xs[1..], v)
  }
}
