/** Small vocabulary shared by every component. */
module Prelude {
  datatype Option<+T> = None | Some(value: T)

  datatype Result<+T, +E> = Ok(value: T) | Err(error: E)

  /** No element occurs at two positions. */
  ghost predicate Distinct<T>(xs: seq<T>) {
    forall i, j :: 0 <= i < j < |xs| ==> xs[i] != xs[j]
  }

  /** Some occurrence of a precedes some occurrence of b. */
  ghost predicate Before<T>(xs: seq<T>, a: T, b: T) {
    exists i, j :: 0 <= i < j < |xs| && xs[i] == a && xs[j] == b
  }

  function Min(a: nat, b: nat): nat {
    if a <= b then a else b
  }

  /** A Python slice xs[:n] for n >= 0. */
  function Take<T>(xs: seq<T>, n: nat): (r: seq<T>)
    ensures |r| == Min(n, |xs|)
  {
    xs[..Min(n, |xs|)]
  }

  /** The distinct values of xs, each at its first occurrence: the key order of a Python dict. */
  function FirstSeen<T(==)>(xs: seq<T>): seq<T> {
    if xs == [] then []
    else
      var front := FirstSeen(xs[..|xs| - 1]);
      var last := xs[|xs| - 1];
      if last in xs[..|xs| - 1] then front else front + [last]
  }

  lemma {:induction false} FirstSeenFacts<T(!new)>(xs: seq<T>)
    ensures forall x :: x in FirstSeen(xs) <==> x in xs
    ensures Distinct(FirstSeen(xs))
  {
    if xs != [] {
      var n := |xs| - 1;
      FirstSeenFacts(xs[..n]);
      assert xs == xs[..n] + [xs[n]];
    }
  }

  lemma FirstSeenSnoc<T>(xs: seq<T>, x: T)
    ensures FirstSeen(xs + [x]) == if x in xs then FirstSeen(xs) else FirstSeen(xs) + [x]
  {
    assert (xs + [x])[..|xs|] == xs;
  }

  function Flatten<T>(xss: seq<seq<T>>): seq<T> {
    if xss == [] then [] else Flatten(xss[..|xss| - 1]) + xss[|xss| - 1]
  }

  lemma {:induction false} FlattenAppend<T>(xss: seq<seq<T>>, yss: seq<seq<T>>)
    ensures Flatten(xss + yss) == Flatten(xss) + Flatten(yss)
  {
    if yss == [] {
      assert xss + yss == xss;
    } else {
      var n := |yss| - 1;
      assert (xss + yss)[..|xss| + n] == xss + yss[..n];
      FlattenAppend(xss, yss[..n]);
    }
  }

  lemma BeforeDistinctAsymmetric<T>(xs: seq<T>, a: T, b: T)
    requires Distinct(xs)
    requires Before(xs, a, b)
    ensures a != b && !Before(xs, b, a)
  {
  }

  lemma BeforeTotal<T>(xs: seq<T>, a: T, b: T)
    requires a in xs && b in xs && a != b
    ensures Before(xs, a, b) || Before(xs, b, a)
  {
    var i :| 0 <= i < |xs| && xs[i] == a;
    var j :| 0 <= j < |xs| && xs[j] == b;
    if i < j {
      assert Before(xs, a, b);
    } else {
      assert Before(xs, b, a);
    }
  }

  lemma BeforeCons<T>(x: T, ys: seq<T>, a: T, b: T)
    ensures Before([x] + ys, a, b) <==> (a == x && b in ys) || Before(ys, a, b)
  {
    var xs := [x] + ys;
    if Before(xs, a, b) {
      var i, j :| 0 <= i < j < |xs| && xs[i] == a && xs[j] == b;
      assert ys[j - 1] == b;
      if i > 0 { assert ys[i - 1] == a; }
    }
    if a == x && b in ys {
      var j :| 0 <= j < |ys| && ys[j] == b;
      assert xs[0] == a && xs[j + 1] == b;
    }
    if Before(ys, a, b) {
      var i, j :| 0 <= i < j < |ys| && ys[i] == a && ys[j] == b;
      assert xs[i + 1] == a && xs[j + 1] == b;
    }
  }

  /** Cutting a list keeps everything that precedes a survivor, in the same order. */
  lemma BeforeTake<T>(xs: seq<T>, n: nat, a: T, b: T)
    requires Distinct(xs) && Before(xs, a, b) && b in Take(xs, n)
    ensures Before(Take(xs, n), a, b) && a in Take(xs, n)
  {
    var i, j :| 0 <= i < j < |xs| && xs[i] == a && xs[j] == b;
    assert Take(xs, n)[i] == a && Take(xs, n)[j] == b;
  }
}
