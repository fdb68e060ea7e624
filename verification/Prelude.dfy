/** Failure-carrying datatypes and sequence operations shared by the other modules. */
module Prelude {

  datatype Option<+T> = None | Some(value: T)

  datatype Result<+T, +E> = Ok(value: T) | Err(error: E)

  /** The elements satisfying `p`, in their original order. */
  function Filter<T(!new)>(xs: seq<T>, p: T -> bool): (r: seq<T>)
    ensures forall x :: x in r <==> x in xs && p(x)
  {
    if xs == [] then [] else
      var last := xs[|xs| - 1];
      var front := Filter(xs[..|xs| - 1], p);
      assert xs == xs[..|xs| - 1] + [last];
      if p(last) then front + [last] else front
  }

  lemma FilterAppend<T(!new)>(xs: seq<T>, x: T, p: T -> bool)
    ensures Filter(xs + [x], p) == Filter(xs, p) + (if p(x) then [x] else [])
  {
    assert (xs + [x])[..|xs|] == xs;
  }

  /** Replacing an element that `p` rejects by another one it rejects is invisible to the filter. */
  lemma {:induction false} FilterIgnores<T(!new)>(xs: seq<T>, i: nat, y: T, p: T -> bool)
    requires i < |xs| && !p(xs[i]) && !p(y)
    ensures Filter(xs[i := y], p) == Filter(xs, p)
  {
    var n := |xs| - 1;
    if i < n {
      assert xs[i := y][..n] == xs[..n][i := y];
      FilterIgnores(xs[..n], i, y, p);
    } else {
      assert xs[i := y][..n] == xs[..n];
    }
  }

  ghost predicate Distinct<T(!new)>(xs: seq<T>) {
    forall i, j :: 0 <= i < j < |xs| ==> xs[i] != xs[j]
  }

  lemma {:induction false} DistinctMultiplicity<T(!new)>(xs: seq<T>)
    ensures Distinct(xs) <==> forall x :: multiset(xs)[x] <= 1
  {
    if xs != [] {
      var n := |xs| - 1;
      var front, last := xs[..n], xs[n];
      assert xs == front + [last];
      DistinctMultiplicity(front);
      if Distinct(xs) {
        assert last !in front;
        assert multiset(front)[last] == 0;
      } else if Distinct(front) {
        var i :| 0 <= i < n && xs[i] == last;
        assert front[i] == last;
        assert multiset(xs)[last] >= 2;
      } else {
        var x :| multiset(front)[x] > 1;
        assert multiset(xs)[x] > 1;
      }
    }
  }

  /** A rearrangement of a duplicate-free sequence is duplicate-free. */
  lemma DistinctRearranged<T(!new)>(xs: seq<T>, ys: seq<T>)
    requires Distinct(xs) && multiset(xs) == multiset(ys)
    ensures Distinct(ys) && |xs| == |ys|
    ensures forall x :: x in xs <==> x in ys
  {
    DistinctMultiplicity(xs);
    DistinctMultiplicity(ys);
    assert |xs| == |multiset(xs)| == |multiset(ys)| == |ys|;
    forall x ensures x in xs <==> x in ys {
      assert x in xs <==> x in multiset(xs);
    }
  }

  function Max(a: int, b: int): int { if a >= b then a else b }

  function Elements<T>(xs: seq<T>): set<T> { set x | x in xs }

  /** The position of the first element satisfying `p`, or the length. */
  function FirstIndex<T>(xs: seq<T>, p: T -> bool): (n: nat)
    ensures n <= |xs|
  {
    if xs == [] || p(xs[0]) then 0 else 1 + FirstIndex(xs[1..], p)
  }

  lemma FirstIndexFinds<T>(xs: seq<T>, p: T -> bool)
    ensures FirstIndex(xs, p) < |xs| ==> p(xs[FirstIndex(xs, p)])
    ensures forall m :: 0 <= m < FirstIndex(xs, p) ==> !p(xs[m])
  {
  }
}
