/** Python's stable sort, as a function and by its properties. */
module StableSorting {

  ghost predicate TotalPreorder<T(!new)>(leq: (T, T) -> bool) {
    && (forall x, y :: leq(x, y) || leq(y, x))
    && (forall x, y, z :: leq(x, y) && leq(y, z) ==> leq(x, z))
  }

  /** Before the first element it does not exceed: ahead of its equals. */
  function Insert<T>(x: T, xs: seq<T>, leq: (T, T) -> bool): seq<T> {
    if xs == [] then [x]
    else if leq(x, xs[0]) then [x] + xs
    else [xs[0]] + Insert(x, xs[1..], leq)
  }

  function StableSort<T>(xs: seq<T>, leq: (T, T) -> bool): seq<T> {
    if xs == [] then [] else Insert(xs[0], StableSort(xs[1..], leq), leq)
  }

  function Filter<T>(xs: seq<T>, p: T -> bool): seq<T> {
    if xs == [] then [] else (if p(xs[0]) then [xs[0]] else []) + Filter(xs[1..], p)
  }

  ghost predicate Sorted<T>(xs: seq<T>, leq: (T, T) -> bool) {
    forall i, j :: 0 <= i < j < |xs| ==> leq(xs[i], xs[j])
  }

  lemma SortedCons<T>(x: T, xs: seq<T>, leq: (T, T) -> bool)
    ensures Sorted([x] + xs, leq) <==> Sorted(xs, leq) && forall y :: y in xs ==> leq(x, y)
  {
    var all := [x] + xs;
    assert forall i :: 0 <= i < |xs| ==> xs[i] == all[i + 1];
    if Sorted(all, leq) {
      forall y | y in xs ensures leq(x, y) {
        var k :| 0 <= k < |xs| && xs[k] == y;
        assert leq(all[0], all[k + 1]);
      }
    }
    if Sorted(xs, leq) && forall y :: y in xs ==> leq(x, y) {
      forall i, j | 0 <= i < j < |all| ensures leq(all[i], all[j]) {
        assert all[j] == xs[j - 1] && all[j] in xs;
        assert i > 0 ==> leq(xs[i - 1], xs[j - 1]);
      }
    }
  }

  lemma {:induction false} InsertLaws<T(!new)>(x: T, xs: seq<T>, leq: (T, T) -> bool)
    requires TotalPreorder(leq) && Sorted(xs, leq)
    ensures Sorted(Insert(x, xs, leq), leq) && multiset(Insert(x, xs, leq)) == multiset(xs) + multiset{x}
    ensures forall y :: y in Insert(x, xs, leq) <==> y == x || y in xs
    decreases |xs|
  {
    hide Insert;
    hide Sorted;
    if xs == [] {
      InsertIntoNothing(x, leq);
      SortedCons(x, xs, leq);
      assert [x] + xs == [x];
    } else {
      assert xs == [xs[0]] + xs[1..];
      SortedCons(xs[0], xs[1..], leq);
      InsertCons(x, xs[0], xs[1..], leq);
      if leq(x, xs[0]) {
        SortedCons(x, xs, leq);
      } else {
        InsertLaws(x, xs[1..], leq);
        SortedCons(xs[0], Insert(x, xs[1..], leq), leq);
      }
    }
  }

  /** The sort is a sorted permutation. */
  lemma {:induction false} SortSorts<T(!new)>(xs: seq<T>, leq: (T, T) -> bool)
    requires TotalPreorder(leq)
    ensures Sorted(StableSort(xs, leq), leq) && multiset(StableSort(xs, leq)) == multiset(xs)
    decreases |xs|
  {
    if xs != [] {
      SortSorts(xs[1..], leq);
      InsertLaws(xs[0], StableSort(xs[1..], leq), leq);
      assert xs == [xs[0]] + xs[1..];
    }
  }

  lemma {:induction false} FilterLaws<T>(xs: seq<T>, p: T -> bool)
    ensures forall y :: y in Filter(xs, p) <==> y in xs && p(y)
    decreases |xs|
  {
    if xs != [] {
      assert xs == [xs[0]] + xs[1..];
      FilterLaws(xs[1..], p);
    }
  }

  lemma {:induction false} FilterConcat<T>(xs: seq<T>, ys: seq<T>, p: T -> bool)
    ensures Filter(xs + ys, p) == Filter(xs, p) + Filter(ys, p)
    decreases |xs|
  {
    hide Filter;
    if xs == [] {
      assert xs + ys == ys;
      FilterNothing(p);
    } else {
      assert xs == [xs[0]] + xs[1..] && xs + ys == [xs[0]] + (xs[1..] + ys);
      FilterConcat(xs[1..], ys, p);
      FilterCons(xs[0], xs[1..], p);
      FilterCons(xs[0], xs[1..] + ys, p);
    }
  }

  lemma FilterNothing<T>(p: T -> bool)
    ensures Filter<T>([], p) == []
  {
  }

  lemma FilterCons<T>(x: T, xs: seq<T>, p: T -> bool)
    ensures Filter([x] + xs, p) == if p(x) then [x] + Filter(xs, p) else Filter(xs, p)
  {
    assert ([x] + xs)[1..] == xs;
  }

  lemma InsertCons<T>(x: T, y: T, ys: seq<T>, leq: (T, T) -> bool)
    ensures Insert(x, [y] + ys, leq) == if leq(x, y) then [x] + ([y] + ys) else [y] + Insert(x, ys, leq)
  {
    assert ([y] + ys)[1..] == ys;
  }

  lemma InsertIntoNothing<T>(x: T, leq: (T, T) -> bool)
    ensures Insert(x, [], leq) == [x]
  {
  }

  lemma InsertFirst<T>(x: T, xs: seq<T>, leq: (T, T) -> bool)
    requires forall y :: y in xs ==> leq(x, y)
    ensures Insert(x, xs, leq) == [x] + xs
  {
    if xs != [] {
      assert xs[0] in xs;
    } else {
      assert [x] + xs == [x];
    }
  }

  lemma {:induction false} InsertThenFilter<T(!new)>(x: T, xs: seq<T>, leq: (T, T) -> bool, p: T -> bool)
    requires TotalPreorder(leq) && Sorted(xs, leq)
    ensures Filter(Insert(x, xs, leq), p) == if p(x) then Insert(x, Filter(xs, p), leq) else Filter(xs, p)
    decreases |xs|
  {
    hide Filter;
    hide Insert;
    FilterLaws(xs, p);
    if xs == [] {
      InsertFirst(x, xs, leq);
      FilterCons(x, xs, p);
      InsertFirst(x, Filter(xs, p), leq);
    } else {
      var y, rest := xs[0], xs[1..];
      assert xs == [y] + rest;
      SortedCons(y, rest, leq);
      InsertCons(x, y, rest, leq);
      if leq(x, y) {
        FilterCons(x, xs, p);
        InsertFirst(x, Filter(xs, p), leq);
      } else {
        InsertThenFilter(x, rest, leq, p);
        FilterCons(y, rest, p);
        FilterCons(y, Insert(x, rest, leq), p);
        InsertCons(x, y, Filter(rest, p), leq);
      }
    }
  }

  lemma SortCons<T>(x: T, xs: seq<T>, leq: (T, T) -> bool)
    ensures StableSort([x] + xs, leq) == Insert(x, StableSort(xs, leq), leq)
  {
    assert ([x] + xs)[1..] == xs;
  }

  /** Sorting and then restricting to any kind of element is restricting and then sorting: the sort
      never reorders what it has no reason to. */
  lemma {:induction false} SortThenFilter<T(!new)>(xs: seq<T>, leq: (T, T) -> bool, p: T -> bool)
    requires TotalPreorder(leq)
    ensures Filter(StableSort(xs, leq), p) == StableSort(Filter(xs, p), leq)
    decreases |xs|
  {
    hide Filter;
    hide Insert;
    hide StableSort;
    if xs == [] {
      NothingToSort(leq, p);
    } else {
      var x, rest := xs[0], xs[1..];
      assert xs == [x] + rest;
      SortThenFilter(rest, leq, p);
      SortSorts(rest, leq);
      SortCons(x, rest, leq);
      InsertThenFilter(x, StableSort(rest, leq), leq, p);
      FilterCons(x, rest, p);
      SortCons(x, Filter(rest, p), leq);
    }
  }

  lemma NothingToSort<T>(leq: (T, T) -> bool, p: T -> bool)
    ensures StableSort<T>([], leq) == [] && Filter<T>([], p) == []
  {
  }

  lemma {:induction false} SortedIsFixed<T>(xs: seq<T>, leq: (T, T) -> bool)
    requires Sorted(xs, leq)
    ensures StableSort(xs, leq) == xs
    decreases |xs|
  {
    if xs != [] {
      assert xs == [xs[0]] + xs[1..];
      SortedIsFixed(xs[1..], leq);
    }
  }

  /** `ys` is `xs` sorted stably: in order, and equal elements as they were. */
  ghost predicate IsStableSortOf<T(!new)>(ys: seq<T>, xs: seq<T>, leq: (T, T) -> bool) {
    Sorted(ys, leq) && forall x :: Filter(ys, Equals(x, leq)) == Filter(xs, Equals(x, leq))
  }

  function Equals<T>(x: T, leq: (T, T) -> bool): T -> bool {
    y => leq(x, y) && leq(y, x)
  }

  lemma EqualsKeepOrder<T(!new)>(xs: seq<T>, leq: (T, T) -> bool, x: T)
    requires TotalPreorder(leq)
    ensures Filter(StableSort(xs, leq), Equals(x, leq)) == Filter(xs, Equals(x, leq))
  {
    hide Filter;
    hide StableSort;
    var same := Filter(xs, Equals(x, leq));
    SortThenFilter(xs, leq, Equals(x, leq));
    FilterLaws(xs, Equals(x, leq));
    forall i | 0 <= i < |same| ensures leq(x, same[i]) && leq(same[i], x) {
      assert same[i] in same && Equals(x, leq)(same[i]);
    }
    SortedIsFixed(same, leq);
  }

  lemma SortIsStable<T(!new)>(xs: seq<T>, leq: (T, T) -> bool)
    requires TotalPreorder(leq)
    ensures IsStableSortOf(StableSort(xs, leq), xs, leq)
  {
    hide Filter;
    hide StableSort;
    hide Equals;
    SortSorts(xs, leq);
    forall x ensures Filter(StableSort(xs, leq), Equals(x, leq)) == Filter(xs, Equals(x, leq)) {
      EqualsKeepOrder(xs, leq, x);
    }
  }

  lemma HeadsAgree<T(!new)>(ys: seq<T>, zs: seq<T>, leq: (T, T) -> bool)
    requires TotalPreorder(leq) && Sorted(ys, leq) && Sorted(zs, leq) && ys != []
    requires forall x :: Filter(ys, Equals(x, leq)) == Filter(zs, Equals(x, leq))
    ensures zs != [] && leq(zs[0], ys[0])
  {
    var e := Equals(ys[0], leq);
    FilterLaws(ys, e);
    FilterLaws(zs, e);
    assert ys[0] in Filter(zs, e);
    var i :| 0 <= i < |zs| && zs[i] == ys[0];
    assert i > 0 ==> leq(zs[0], zs[i]);
  }

  /** There is one stable sort, so whatever algorithm sorts stably computes this function. */
  lemma {:induction false} StableSortIsUnique<T(!new)>(ys: seq<T>, zs: seq<T>, leq: (T, T) -> bool)
    requires TotalPreorder(leq) && Sorted(ys, leq) && Sorted(zs, leq)
    requires forall x :: Filter(ys, Equals(x, leq)) == Filter(zs, Equals(x, leq))
    ensures ys == zs
    decreases |ys|
  {
    if ys == [] {
      if zs != [] {
        HeadsAgree(zs, ys, leq);
      }
    } else {
      HeadsAgree(ys, zs, leq);
      HeadsAgree(zs, ys, leq);
      var e := Equals(ys[0], leq);
      assert Filter(ys, e)[0] == ys[0] && Filter(zs, e)[0] == zs[0];
      forall x ensures Filter(ys[1..], Equals(x, leq)) == Filter(zs[1..], Equals(x, leq)) {
        var f := Equals(x, leq);
        assert Filter(ys, f) == Filter(zs, f);
        if f(ys[0]) {
          assert Filter(ys, f)[1..] == Filter(ys[1..], f) && Filter(zs, f)[1..] == Filter(zs[1..], f);
        } else {
          assert Filter(ys, f) == Filter(ys[1..], f) && Filter(zs, f) == Filter(zs[1..], f);
        }
      }
      StableSortIsUnique(ys[1..], zs[1..], leq);
      assert ys == [ys[0]] + ys[1..] && zs == [zs[0]] + zs[1..];
    }
  }
}
