/** Python's sorted(): a stable sort, specified by the order it produces. */
module Ordering {
  import opened Prelude

  ghost predicate TotalPreorder<T(!new)>(le: (T, T) -> bool) {
    && (forall a, b :: le(a, b) || le(b, a))
    && (forall a, b, c :: le(a, b) && le(b, c) ==> le(a, c))
  }

  ghost predicate Sorted<T>(xs: seq<T>, le: (T, T) -> bool) {
    forall i, j :: 0 <= i < j < |xs| ==> le(xs[i], xs[j])
  }

  function Insert<T>(x: T, ys: seq<T>, le: (T, T) -> bool): seq<T> {
    if ys == [] || le(x, ys[0]) then [x] + ys else [ys[0]] + Insert(x, ys[1..], le)
  }

  function StableSort<T>(xs: seq<T>, le: (T, T) -> bool): seq<T> {
    if xs == [] then [] else Insert(xs[0], StableSort(xs[1..], le), le)
  }

  lemma {:induction false} InsertPermutes<T>(x: T, ys: seq<T>, le: (T, T) -> bool)
    ensures multiset(Insert(x, ys, le)) == multiset([x]) + multiset(ys)
    ensures |Insert(x, ys, le)| == |ys| + 1
  {
    if ys != [] && !le(x, ys[0]) {
      assert ys == [ys[0]] + ys[1..];
      InsertPermutes(x, ys[1..], le);
    }
  }

  lemma {:induction false} SortPermutes<T>(xs: seq<T>, le: (T, T) -> bool)
    ensures multiset(StableSort(xs, le)) == multiset(xs)
    ensures |StableSort(xs, le)| == |xs|
  {
    if xs != [] {
      assert xs == [xs[0]] + xs[1..];
      SortPermutes(xs[1..], le);
      InsertPermutes(xs[0], StableSort(xs[1..], le), le);
    }
  }

  lemma {:induction false} InsertSorted<T(!new)>(x: T, ys: seq<T>, le: (T, T) -> bool)
    requires TotalPreorder(le) && Sorted(ys, le)
    ensures Sorted(Insert(x, ys, le), le)
  {
    if ys != [] && !le(x, ys[0]) {
      var rest := Insert(x, ys[1..], le);
      InsertSorted(x, ys[1..], le);
      InsertPermutes(x, ys[1..], le);
      forall j | 0 <= j < |rest| ensures le(ys[0], rest[j]) {
        assert rest[j] in multiset(rest);
        assert rest[j] == x || rest[j] in ys[1..];
      }
    }
  }

  lemma {:induction false} SortSorts<T(!new)>(xs: seq<T>, le: (T, T) -> bool)
    requires TotalPreorder(le)
    ensures Sorted(StableSort(xs, le), le)
  {
    if xs != [] {
      SortSorts(xs[1..], le);
      InsertSorted(xs[0], StableSort(xs[1..], le), le);
    }
  }

  lemma SameElements<T>(xs: seq<T>, ys: seq<T>)
    requires multiset(xs) == multiset(ys)
    ensures forall x :: x in xs <==> x in ys
  {
    forall x ensures x in xs <==> x in ys {
      assert x in multiset(xs) <==> x in multiset(ys);
    }
  }

  lemma DistinctByCount<T>(xs: seq<T>)
    ensures Distinct(xs) <==> forall x :: multiset(xs)[x] <= 1
  {
    if Distinct(xs) {
      forall x ensures multiset(xs)[x] <= 1 { CountAtMostOnce(xs, x); }
    } else {
      var i, j :| 0 <= i < j < |xs| && xs[i] == xs[j];
      assert xs == xs[..j] + [xs[j]] + xs[j + 1..];
      assert xs[i] in xs[..j];
      assert multiset(xs)[xs[i]] >= 2;
    }
  }

  lemma {:induction false} CountAtMostOnce<T>(xs: seq<T>, x: T)
    requires Distinct(xs)
    ensures multiset(xs)[x] <= 1
  {
    if xs != [] {
      assert xs == [xs[0]] + xs[1..];
      CountAtMostOnce(xs[1..], x);
      assert x == xs[0] ==> x !in xs[1..];
    }
  }

  /** A permutation of a duplicate-free list is duplicate free. */
  lemma PermutationDistinct<T>(xs: seq<T>, ys: seq<T>)
    requires multiset(xs) == multiset(ys) && Distinct(xs)
    ensures Distinct(ys)
  {
    DistinctByCount(xs);
    DistinctByCount(ys);
  }

  lemma {:induction false} InsertOrder<T(!new)>(x: T, ys: seq<T>, le: (T, T) -> bool, a: T, b: T)
    requires TotalPreorder(le) && Sorted(ys, le) && Distinct(ys) && x !in ys
    ensures Before(Insert(x, ys, le), a, b) <==>
              if a == x then b in ys && le(x, b)
              else if b == x then a in ys && !le(x, a)
              else Before(ys, a, b)
  {
    if ys == [] || le(x, ys[0]) {
      BeforeCons(x, ys, a, b);
      assert forall y :: y in ys ==> le(x, y);
      assert !Before(ys, x, b) && !Before(ys, a, x);
    } else {
      var y, rest := ys[0], ys[1..];
      assert ys == [y] + rest;
      InsertOrder(x, rest, le, a, b);
      BeforeCons(y, rest, a, b);
      var ins := Insert(x, rest, le);
      InsertPermutes(x, rest, le);
      BeforeCons(y, ins, a, b);
      SameElements(ins, [x] + rest);
      assert y !in rest;
    }
  }

  /** What a stable sort by le makes of a and b: the key decides, the old order breaks ties. */
  ghost predicate Precedes<T>(xs: seq<T>, le: (T, T) -> bool, a: T, b: T) {
    !le(b, a) || (le(a, b) && Before(xs, a, b))
  }

  /** The whole output order of a stable sort of a duplicate-free list. */
  lemma {:induction false} SortOrder<T(!new)>(xs: seq<T>, le: (T, T) -> bool, a: T, b: T)
    requires TotalPreorder(le) && Distinct(xs)
    requires a in xs && b in xs && a != b
    ensures Before(StableSort(xs, le), a, b) <==> Precedes(xs, le, a, b)
    ensures Distinct(StableSort(xs, le))
  {
    var x, rest := xs[0], xs[1..];
    assert xs == [x] + rest;
    SortPermutes(xs, le);
    SortPermutes(rest, le);
    PermutationDistinct(xs, StableSort(xs, le));
    PermutationDistinct(rest, StableSort(rest, le));
    SameElements(rest, StableSort(rest, le));
    SortSorts(rest, le);
    InsertOrder(x, StableSort(rest, le), le, a, b);
    BeforeCons(x, rest, a, b);
    if a != x && b != x {
      SortOrder(rest, le, a, b);
    } else {
      assert !Before(rest, a, b);
    }
  }

  lemma HeadPrecedes<T>(xs: seq<T>, b: T)
    requires b in xs
    ensures b == xs[0] || Before(xs, xs[0], b)
  {
    var j :| 0 <= j < |xs| && xs[j] == b;
    assert j == 0 || Before(xs, xs[0], xs[j]);
  }

  lemma NothingPrecedesHead<T>(ys: seq<T>, a: T)
    requires Distinct(ys) && ys != []
    ensures !Before(ys, a, ys[0])
  {
  }

  lemma BeforeTail<T>(xs: seq<T>, a: T, b: T)
    requires Distinct(xs) && xs != []
    ensures Before(xs[1..], a, b) <==> Before(xs, a, b) && a != xs[0]
  {
    assert xs == [xs[0]] + xs[1..];
    BeforeCons(xs[0], xs[1..], a, b);
  }

  lemma TailBag<T>(xs: seq<T>)
    requires xs != []
    ensures multiset(xs[1..]) == multiset(xs) - multiset{xs[0]}
  {
    assert xs == [xs[0]] + xs[1..];
  }

  lemma HeadsAgree<T>(xs: seq<T>, ys: seq<T>)
    requires Distinct(xs) && Distinct(ys) && multiset(xs) == multiset(ys) && xs != [] && ys != []
    requires forall a, b :: a in xs && b in xs && Before(xs, a, b) ==> Before(ys, a, b)
    ensures xs[0] == ys[0]
  {
    SameElements(xs, ys);
    HeadPrecedes(xs, ys[0]);
    NothingPrecedesHead(ys, xs[0]);
  }

  lemma TailsAgree<T>(xs: seq<T>, ys: seq<T>)
    requires Distinct(xs) && Distinct(ys) && xs != [] && ys != [] && xs[0] == ys[0]
    requires forall a, b :: a in xs && b in xs && Before(xs, a, b) ==> Before(ys, a, b)
    ensures forall a, b :: a in xs[1..] && b in xs[1..] && Before(xs[1..], a, b) ==> Before(ys[1..], a, b)
  {
    forall a, b | a in xs[1..] && b in xs[1..] && Before(xs[1..], a, b) ensures Before(ys[1..], a, b) {
      BeforeTail(xs, a, b);
      BeforeTail(ys, a, b);
    }
  }

  /** The premises of OrderDetermines carry over to the tails. */
  lemma OrderStep<T>(xs: seq<T>, ys: seq<T>)
    requires Distinct(xs) && Distinct(ys) && multiset(xs) == multiset(ys) && xs != [] && ys != []
    requires forall a, b :: a in xs && b in xs && Before(xs, a, b) ==> Before(ys, a, b)
    ensures xs[0] == ys[0] && multiset(xs[1..]) == multiset(ys[1..])
    ensures forall a, b :: a in xs[1..] && b in xs[1..] && Before(xs[1..], a, b) ==> Before(ys[1..], a, b)
  {
    HeadsAgree(xs, ys);
    TailBag(xs);
    TailBag(ys);
    TailsAgree(xs, ys);
  }

  /** Two lists with the same elements in the same relative order are the same list. */
  lemma {:induction false} OrderDetermines<T>(xs: seq<T>, ys: seq<T>)
    requires Distinct(xs) && Distinct(ys) && multiset(xs) == multiset(ys)
    requires forall a, b :: a in xs && b in xs && Before(xs, a, b) ==> Before(ys, a, b)
    ensures xs == ys
  {
    assert |xs| == |multiset(xs)| == |multiset(ys)| == |ys|;
    if xs != [] {
      OrderStep(xs, ys);
      OrderDetermines(xs[1..], ys[1..]);
      assert xs == [xs[0]] + xs[1..] && ys == [ys[0]] + ys[1..];
    }
  }

  // --- sorted(..., key=..., reverse=True) ---

  function ByKeyDescending<T>(key: T -> real): (T, T) -> bool {
    (a, b) => key(a) >= key(b)
  }

  function SortDescending<T>(xs: seq<T>, key: T -> real): seq<T> {
    StableSort(xs, ByKeyDescending(key))
  }

  lemma SortDescendingOrder<T(!new)>(xs: seq<T>, key: T -> real, a: T, b: T)
    requires Distinct(xs) && a in xs && b in xs && a != b
    ensures Before(SortDescending(xs, key), a, b)
            <==> key(a) > key(b) || (key(a) == key(b) && Before(xs, a, b))
  {
    assert TotalPreorder(ByKeyDescending(key));
    SortOrder(xs, ByKeyDescending(key), a, b);
  }

  lemma SortDescendingFacts<T(!new)>(xs: seq<T>, key: T -> real)
    requires Distinct(xs)
    ensures Distinct(SortDescending(xs, key))
    ensures forall x :: x in SortDescending(xs, key) <==> x in xs
  {
    SortPermutes(xs, ByKeyDescending(key));
    PermutationDistinct(xs, SortDescending(xs, key));
    SameElements(xs, SortDescending(xs, key));
  }

  /** Sorting by a key that already agrees with the order changes nothing. */
  lemma SortedIsFixed<T(!new)>(xs: seq<T>, key: T -> real)
    requires Distinct(xs)
    requires forall a, b :: a in xs && b in xs && Before(xs, a, b) ==> key(a) >= key(b)
    ensures SortDescending(xs, key) == xs
  {
    var ys := SortDescending(xs, key);
    SortPermutes(xs, ByKeyDescending(key));
    SortDescendingFacts(xs, key);
    forall a, b | a in xs && b in xs && Before(xs, a, b) ensures Before(ys, a, b) {
      BeforeDistinctAsymmetric(xs, a, b);
      SortDescendingOrder(xs, key, a, b);
    }
    OrderDetermines(xs, ys);
  }

  /** The sort changes nothing exactly when no earlier element has a smaller key than a later one. */
  lemma SortIsIdentityExactly<T(!new)>(xs: seq<T>, key: T -> real)
    requires Distinct(xs)
    ensures SortDescending(xs, key) == xs <==> forall i, j :: 0 <= i < j < |xs| ==> key(xs[i]) >= key(xs[j])
  {
    if forall i, j :: 0 <= i < j < |xs| ==> key(xs[i]) >= key(xs[j]) {
      SortedIsFixed(xs, key);
    }
    if SortDescending(xs, key) == xs {
      forall i, j | 0 <= i < j < |xs| ensures key(xs[i]) >= key(xs[j]) {
        assert Before(xs, xs[i], xs[j]);
        SortDescendingOrder(xs, key, xs[i], xs[j]);
      }
    }
  }

  // --- Where an element lands ---

  /** How many elements satisfy f. */
  ghost function Count<T>(xs: seq<T>, f: T -> bool): nat {
    if xs == [] then 0 else (if f(xs[0]) then 1 else 0) + Count(xs[1..], f)
  }

  lemma {:induction false} CountAppend<T>(xs: seq<T>, ys: seq<T>, f: T -> bool)
    ensures Count(xs + ys, f) == Count(xs, f) + Count(ys, f)
  {
    if xs == [] {
      assert xs + ys == ys;
    } else {
      assert (xs + ys)[1..] == xs[1..] + ys;
      CountAppend(xs[1..], ys, f);
    }
  }

  lemma {:induction false} CountAgrees<T>(xs: seq<T>, f: T -> bool, g: T -> bool)
    requires forall i :: 0 <= i < |xs| ==> (f(xs[i]) <==> g(xs[i]))
    ensures Count(xs, f) == Count(xs, g)
  {
    if xs != [] { CountAgrees(xs[1..], f, g); }
  }

  lemma {:induction false} CountComplement<T>(xs: seq<T>, f: T -> bool, g: T -> bool)
    requires forall i :: 0 <= i < |xs| ==> (f(xs[i]) <==> !g(xs[i]))
    ensures Count(xs, f) + Count(xs, g) == |xs|
  {
    if xs != [] { CountComplement(xs[1..], f, g); }
  }

  lemma {:induction false} CountInsert<T>(x: T, ys: seq<T>, le: (T, T) -> bool, f: T -> bool)
    ensures Count(Insert(x, ys, le), f) == Count(ys, f) + if f(x) then 1 else 0
  {
    if ys == [] || le(x, ys[0]) {
      assert ([x] + ys)[1..] == ys;
    } else {
      CountInsert(x, ys[1..], le, f);
      assert Insert(x, ys, le)[1..] == Insert(x, ys[1..], le);
    }
  }

  lemma {:induction false} CountSort<T>(xs: seq<T>, le: (T, T) -> bool, f: T -> bool)
    ensures Count(StableSort(xs, le), f) == Count(xs, f)
  {
    if xs != [] {
      CountSort(xs[1..], le, f);
      CountInsert(xs[0], StableSort(xs[1..], le), le, f);
    }
  }

  /** In a duplicate-free list as many elements precede the one at p as there are places before p. */
  lemma PlaceIsCount<T>(ys: seq<T>, p: nat, f: T -> bool)
    requires Distinct(ys) && p < |ys| && forall y :: y in ys ==> (f(y) <==> Before(ys, y, ys[p]))
    ensures Count(ys, f) == p
  {
    assert ys == ys[..p] + ys[p..];
    CountAppend(ys[..p], ys[p..], f);
    forall i | 0 <= i < p ensures f(ys[..p][i]) {
      assert ys[i] in ys && Before(ys, ys[i], ys[p]);
    }
    forall i | 0 <= i < |ys[p..]| ensures !f(ys[p..][i]) {
      assert ys[p + i] in ys && ys[p..][i] == ys[p + i];
      if i > 0 { BeforeDistinctAsymmetric(ys, ys[p], ys[p + i]); }
    }
    CountComplement(ys[..p], f, y => false);
    CountAgrees(ys[p..], f, y => false);
    CountNone(ys[..p]);
    CountNone(ys[p..]);
  }

  lemma {:induction false} CountNone<T>(xs: seq<T>)
    ensures Count(xs, y => false) == 0
  {
    if xs != [] { CountNone(xs[1..]); }
  }

  /** The later elements that overtake the one at i, and the earlier ones it overtakes. */
  ghost function Overtakers<T>(xs: seq<T>, key: T -> real, i: nat): nat
    requires i < |xs|
  {
    Count(xs[i + 1..], y => key(y) > key(xs[i]))
  }

  ghost function Overtaken<T>(xs: seq<T>, key: T -> real, i: nat): nat
    requires i < |xs|
  {
    Count(xs[..i], y => key(y) < key(xs[i]))
  }

  lemma OvertakersCounted<T>(xs: seq<T>, key: T -> real, i: nat, f: T -> bool)
    requires i < |xs| && forall y :: y in xs ==> (f(y) <==> key(y) > key(xs[i]))
    ensures Overtakers(xs, key, i) == Count(xs[i + 1..], f)
  {
    CountAgrees(xs[i + 1..], f, y => key(y) > key(xs[i]));
  }

  /** The place of an element in the sorted list: one back per overtaker, one forward per overtaken element. */
  lemma SortedPlace<T(!new)>(xs: seq<T>, key: T -> real, i: nat)
    requires Distinct(xs) && i < |xs|
    ensures var p := i + Overtakers(xs, key, i) - Overtaken(xs, key, i);
            0 <= p < |xs| && |SortDescending(xs, key)| == |xs| && SortDescending(xs, key)[p] == xs[i]
  {
    var x, ys := xs[i], SortDescending(xs, key);
    SortPermutes(xs, ByKeyDescending(key));
    SortDescendingFacts(xs, key);
    assert x in ys;
    var p :| 0 <= p < |ys| && ys[p] == x;
    var f := (y: T) => y != x && (key(y) > key(x) || (key(y) == key(x) && Before(xs, y, x)));
    WhatPrecedes(xs, key, x, f);
    PlaceIsCount(ys, p, f);
    CountSort(xs, ByKeyDescending(key), f);
    CountAround(xs, key, i, f);
  }

  /** What precedes x in the sorted list. */
  lemma WhatPrecedes<T(!new)>(xs: seq<T>, key: T -> real, x: T, f: T -> bool)
    requires Distinct(xs) && x in xs
    requires forall y :: f(y) <==> y != x && (key(y) > key(x) || (key(y) == key(x) && Before(xs, y, x)))
    ensures forall y :: y in SortDescending(xs, key) ==> (f(y) <==> Before(SortDescending(xs, key), y, x))
  {
    var ys := SortDescending(xs, key);
    SortDescendingFacts(xs, key);
    forall y | y in ys ensures f(y) <==> Before(ys, y, x) {
      if y != x { SortDescendingOrder(xs, key, y, x); }
    }
  }

  lemma CountAround<T(!new)>(xs: seq<T>, key: T -> real, i: nat, f: T -> bool)
    requires Distinct(xs) && i < |xs|
    requires forall y :: f(y) <==> y != xs[i] && (key(y) > key(xs[i]) || (key(y) == key(xs[i]) && Before(xs, y, xs[i])))
    ensures Count(xs, f) == i + Overtakers(xs, key, i) - Overtaken(xs, key, i)
  {
    var x, front, back := xs[i], xs[..i], xs[i + 1..];
    assert xs == front + ([x] + back);
    CountAppend(front, [x] + back, f);
    CountAppend([x], back, f);
    assert Count([x], f) == 0;
    forall j | 0 <= j < |front| ensures f(front[j]) <==> !(key(front[j]) < key(x)) {
      assert front[j] == xs[j] && Before(xs, xs[j], x);
    }
    CountComplement(front, f, y => key(y) < key(x));
    forall j | 0 <= j < |back| ensures f(back[j]) <==> key(back[j]) > key(x) {
      assert back[j] == xs[i + 1 + j] && Before(xs, x, back[j]);
      BeforeDistinctAsymmetric(xs, x, back[j]);
    }
    CountAgrees(back, f, y => key(y) > key(x));
  }
}
