/** Optional values: nil pointers, NULL columns and the Go `value, ok` pairs. */
module Options {
  datatype Option<+T> = None | Some(value: T)
}

/** Filtering and sorting of slices, and why neither depends on the order of its input. */
module Sequences {
  import opened Options

  /** The "range over a slice, skip or append" loop: keeps f's answers in input order. */
  function FilterMap<A, B>(xs: seq<A>, f: A -> Option<B>): seq<B> {
    if xs == [] then []
    else
      var kept := FilterMap(xs[..|xs| - 1], f);
      match f(xs[|xs| - 1])
      case None => kept
      case Some(b) => kept + [b]
  }

  lemma FilterMapStep<A, B>(xs: seq<A>, i: nat, f: A -> Option<B>)
    requires i < |xs|
    ensures FilterMap(xs[..i + 1], f)
         == FilterMap(xs[..i], f) + (if f(xs[i]).Some? then [f(xs[i]).value] else [])
  {
    assert xs[..i + 1][..i] == xs[..i];
  }

  lemma {:induction false} FilterMapSplits<A, B>(xs: seq<A>, ys: seq<A>, f: A -> Option<B>)
    ensures FilterMap(xs + ys, f) == FilterMap(xs, f) + FilterMap(ys, f)
  {
    if ys == [] {
      assert xs + ys == xs;
    } else {
      FilterMapSplits(xs, ys[..|ys| - 1], f);
      assert (xs + ys)[..|xs + ys| - 1] == xs + ys[..|ys| - 1];
    }
  }

  lemma {:induction false} FilterMapIn<A, B>(xs: seq<A>, f: A -> Option<B>, b: B)
    ensures b in FilterMap(xs, f) <==> exists x :: x in xs && f(x) == Some(b)
  {
    if xs == [] {
    } else {
      FilterMapIn(xs[..|xs| - 1], f, b);
      assert forall x :: x in xs <==> x in xs[..|xs| - 1] || x == xs[|xs| - 1];
    }
  }

  /** Two listings of the same elements are kept or skipped alike. */
  lemma {:induction false} FilterMapPermutes<A, B>(xs: seq<A>, ys: seq<A>, f: A -> Option<B>)
    requires multiset(xs) == multiset(ys)
    ensures multiset(FilterMap(xs, f)) == multiset(FilterMap(ys, f))
    decreases |xs|
  {
    if xs == [] {
      assert |multiset(ys)| == 0;
    } else {
      var x, front := xs[|xs| - 1], xs[..|xs| - 1];
      assert xs == front + [x];
      assert x in multiset(ys);
      var k :| 0 <= k < |ys| && ys[k] == x;
      var rest := ys[..k] + ys[k + 1..];
      assert ys == ys[..k] + ([x] + ys[k + 1..]);
      assert multiset(rest) == multiset(ys) - multiset{x};
      assert multiset(front) == multiset(xs) - multiset{x};
      FilterMapPermutes(front, rest, f);
      FilterMapSplits(ys[..k], ys[k + 1..], f);
      FilterMapSplits(ys[..k], [x] + ys[k + 1..], f);
      FilterMapSplits([x], ys[k + 1..], f);
      FilterMapSplits(front, [x], f);
    }
  }

  /** less orders the elements of dom strictly and totally. */
  ghost predicate StrictTotalOn<T(!new)>(less: (T, T) -> bool, dom: set<T>) {
    && (forall x | x in dom :: !less(x, x))
    && (forall x, y, z | x in dom && y in dom && z in dom && less(x, y) && less(y, z) :: less(x, z))
    && (forall x, y | x in dom && y in dom && x != y :: less(x, y) || less(y, x))
  }

  ghost predicate Ordered<T(!new)>(xs: seq<T>, less: (T, T) -> bool) {
    forall i, j | 0 <= i < j < |xs| :: !less(xs[j], xs[i])
  }

  function Insert<T>(x: T, ys: seq<T>, less: (T, T) -> bool): seq<T> {
    if ys == [] || !less(ys[0], x) then [x] + ys
    else [ys[0]] + Insert(x, ys[1..], less)
  }

  /** A stable sort. Under a strict total order it is the only sort: see OrderedUnique. */
  function Sort<T>(xs: seq<T>, less: (T, T) -> bool): seq<T> {
    if xs == [] then [] else Insert(xs[0], Sort(xs[1..], less), less)
  }

  lemma {:induction false} InsertPermutes<T(!new)>(x: T, ys: seq<T>, less: (T, T) -> bool)
    ensures multiset(Insert(x, ys, less)) == multiset(ys) + multiset{x}
  {
    if ys == [] || !less(ys[0], x) {
    } else {
      InsertPermutes(x, ys[1..], less);
      assert ys == [ys[0]] + ys[1..];
    }
  }

  lemma {:induction false} SortKeepsAll<T(!new)>(xs: seq<T>, less: (T, T) -> bool)
    ensures multiset(Sort(xs, less)) == multiset(xs)
  {
    if xs == [] {
    } else {
      SortKeepsAll(xs[1..], less);
      InsertPermutes(xs[0], Sort(xs[1..], less), less);
      assert xs == [xs[0]] + xs[1..];
    }
  }

  lemma PermutedAlike<T(!new)>(xs: seq<T>, ys: seq<T>)
    requires multiset(xs) == multiset(ys)
    ensures |xs| == |ys|
    ensures forall x :: x in xs <==> x in ys
  {
    assert |multiset(xs)| == |multiset(ys)|;
    forall x ensures x in xs <==> x in ys {
      assert x in multiset(xs) <==> x in multiset(ys);
    }
  }

  lemma SortPermutes<T(!new)>(xs: seq<T>, less: (T, T) -> bool)
    ensures multiset(Sort(xs, less)) == multiset(xs)
    ensures |Sort(xs, less)| == |xs|
    ensures forall x :: x in Sort(xs, less) <==> x in xs
  {
    SortKeepsAll(xs, less);
    PermutedAlike(Sort(xs, less), xs);
  }

  lemma {:induction false} InsertOrders<T(!new)>(x: T, ys: seq<T>, less: (T, T) -> bool, dom: set<T>)
    requires StrictTotalOn(less, dom)
    requires x in dom && forall y | y in ys :: y in dom
    requires Ordered(ys, less)
    ensures Ordered(Insert(x, ys, less), less)
  {
    if ys == [] {
    } else if !less(ys[0], x) {
      forall y | y in ys ensures !less(y, x) {
        var k :| 0 <= k < |ys| && ys[k] == y;
        assert !less(ys[k], ys[0]);
      }
    } else {
      InsertOrders(x, ys[1..], less, dom);
      InsertPermutes(x, ys[1..], less);
      var out := Insert(x, ys[1..], less);
      forall z | z in out ensures !less(z, ys[0]) {
        assert z in multiset(out);
        if z != x {
          assert z in ys[1..];
        }
      }
    }
  }

  lemma {:induction false} SortOrders<T(!new)>(xs: seq<T>, less: (T, T) -> bool, dom: set<T>)
    requires StrictTotalOn(less, dom)
    requires forall x | x in xs :: x in dom
    ensures Ordered(Sort(xs, less), less)
  {
    if xs == [] {
    } else {
      SortOrders(xs[1..], less, dom);
      SortPermutes(xs[1..], less);
      assert forall y | y in Sort(xs[1..], less) :: y in xs[1..] && y in xs;
      InsertOrders(xs[0], Sort(xs[1..], less), less, dom);
    }
  }

  lemma LeastFirst<T(!new)>(xs: seq<T>, ys: seq<T>, less: (T, T) -> bool, dom: set<T>)
    requires StrictTotalOn(less, dom)
    requires forall x | x in xs :: x in dom
    requires multiset(xs) == multiset(ys) && xs != [] && ys != []
    requires Ordered(xs, less) && Ordered(ys, less)
    ensures xs[0] == ys[0]
  {
    assert xs[0] in multiset(ys) && ys[0] in multiset(xs);
    var i :| 0 <= i < |ys| && ys[i] == xs[0];
    var j :| 0 <= j < |xs| && xs[j] == ys[0];
    assert !less(ys[i], ys[0]) && !less(xs[j], xs[0]);
  }

  /** Any two ordered listings of the same elements are equal, so an unstable library
      sort has exactly one possible answer. */
  lemma {:induction false} OrderedUnique<T(!new)>(xs: seq<T>, ys: seq<T>, less: (T, T) -> bool, dom: set<T>)
    requires StrictTotalOn(less, dom)
    requires forall x | x in xs :: x in dom
    requires multiset(xs) == multiset(ys)
    requires Ordered(xs, less) && Ordered(ys, less)
    ensures xs == ys
  {
    assert |multiset(xs)| == |multiset(ys)|;
    if xs == [] {
    } else {
      LeastFirst(xs, ys, less, dom);
      assert xs == [xs[0]] + xs[1..] && ys == [ys[0]] + ys[1..];
      assert multiset(xs[1..]) == multiset(xs) - multiset{xs[0]};
      assert multiset(ys[1..]) == multiset(ys) - multiset{ys[0]};
      OrderedUnique(xs[1..], ys[1..], less, dom);
    }
  }

  lemma SortIgnoresOrder<T(!new)>(xs: seq<T>, ys: seq<T>, less: (T, T) -> bool, dom: set<T>)
    requires StrictTotalOn(less, dom)
    requires forall x | x in xs :: x in dom
    requires multiset(xs) == multiset(ys)
    ensures Sort(xs, less) == Sort(ys, less)
  {
    forall y | y in ys ensures y in dom { assert y in multiset(xs); }
    SortPermutes(xs, less);
    SortPermutes(ys, less);
    SortOrders(xs, less, dom);
    SortOrders(ys, less, dom);
    assert forall x | x in Sort(xs, less) :: x in xs;
    OrderedUnique(Sort(xs, less), Sort(ys, less), less, dom);
  }

  ghost predicate NoDup<T>(xs: seq<T>) {
    forall i, j | 0 <= i < j < |xs| :: xs[i] != xs[j]
  }

  lemma NoDupCounts<T(!new)>(xs: seq<T>)
    ensures NoDup(xs) <==> forall x :: multiset(xs)[x] <= 1
  {
    if NoDup(xs) {
      forall x ensures multiset(xs)[x] <= 1 {
        if x in multiset(xs) {
          var k :| 0 <= k < |xs| && xs[k] == x;
          assert xs == xs[..k] + [x] + xs[k + 1..];
          assert x !in multiset(xs[..k]) && x !in multiset(xs[k + 1..]);
        }
      }
    } else {
      var i, j :| 0 <= i < j < |xs| && xs[i] == xs[j];
      var front, back := xs[..j], xs[j..];
      assert xs == front + back;
      assert front[i] == xs[i] && back[0] == xs[i];
      assert multiset(xs) == multiset(front) + multiset(back);
      assert multiset(xs)[xs[i]] >= 2;
    }
  }

  lemma NoDupPermutes<T(!new)>(xs: seq<T>, ys: seq<T>)
    requires multiset(xs) == multiset(ys) && NoDup(xs)
    ensures NoDup(ys)
  {
    NoDupCounts(xs);
    NoDupCounts(ys);
  }

  lemma SameElementsPermute<T(!new)>(xs: seq<T>, ys: seq<T>)
    requires NoDup(xs) && NoDup(ys) && forall x :: x in xs <==> x in ys
    ensures multiset(xs) == multiset(ys)
  {
    NoDupCounts(xs);
    NoDupCounts(ys);
    forall x ensures multiset(xs)[x] == multiset(ys)[x] {
      assert x in multiset(xs) <==> x in xs;
      assert x in multiset(ys) <==> x in ys;
    }
  }

  lemma {:induction false} FilterMapNoDup<A(!new), B(!new)>(xs: seq<A>, f: A -> Option<B>)
    requires NoDup(xs)
    requires forall x, y | x in xs && y in xs && f(x).Some? && f(x) == f(y) :: x == y
    ensures NoDup(FilterMap(xs, f))
  {
    if xs == [] {
    } else {
      var last, front := xs[|xs| - 1], xs[..|xs| - 1];
      FilterMapNoDup(front, f);
      if f(last).Some? {
        FilterMapIn(front, f, f(last).value);
        assert last !in front;
      }
    }
  }
}
