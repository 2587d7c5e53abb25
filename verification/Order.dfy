/** Python's `sorted` on sets: strings by code point, pairs of strings component by component. */
module Order {

  ghost predicate StrictTotal<T(!new)>(less: (T, T) -> bool) {
    && (forall x :: !less(x, x))
    && (forall x, y, z :: less(x, y) && less(y, z) ==> less(x, z))
    && (forall x, y :: x == y || less(x, y) || less(y, x))
  }

  /** `xs` holds the elements of `s`, each once, in increasing order. */
  ghost predicate SortedOf<T(!new)>(xs: seq<T>, s: set<T>, less: (T, T) -> bool) {
    && (forall x :: x in xs <==> x in s)
    && (forall i, j :: 0 <= i < j < |xs| ==> less(xs[i], xs[j]))
  }

  lemma LeastExists<T(!new)>(s: set<T>, less: (T, T) -> bool) returns (m: T)
    requires StrictTotal(less) && s != {}
    ensures m in s && forall x :: x in s ==> x == m || less(m, x)
    decreases |s|
  {
    var y :| y in s;
    if s == {y} {
      m := y;
    } else {
      var rest := LeastExists(s - {y}, less);
      m := if less(y, rest) then y else rest;
      assert forall x :: x in s ==> x == y || x in s - {y};
    }
  }

  method SortSet<T(!new, ==)>(s: set<T>, less: (T, T) -> bool) returns (xs: seq<T>)
    requires StrictTotal(less)
    ensures SortedOf(xs, s, less)
  {
    xs := [];
    var todo := s;
    while todo != {}
      invariant todo <= s && SortedOf(xs, s - todo, less)
      invariant forall x, y :: x in xs && y in todo ==> less(x, y)
      decreases |todo|
    {
      ghost var least := LeastExists(todo, less);
      assert exists m :: m in todo && forall x :: x in todo ==> x == m || less(m, x) by {
        assert least in todo;
      }
      var m :| m in todo && forall x :: x in todo ==> x == m || less(m, x);
      xs, todo := xs + [m], todo - {m};
    }
  }

  lemma EmptyIff<T(!new)>(xs: seq<T>, s: set<T>, less: (T, T) -> bool)
    requires SortedOf(xs, s, less)
    ensures xs == [] <==> s == {}
  {
    if s != {} {
      var x :| x in s;
      assert x in xs;
    }
    if xs != [] {
      assert xs[0] in s;
    }
  }

  /** A set has one sorted list, so nothing computed from it depends on how the set was built. */
  lemma {:induction false} SortedIsUnique<T(!new)>(xs: seq<T>, ys: seq<T>, s: set<T>, less: (T, T) -> bool)
    requires StrictTotal(less) && SortedOf(xs, s, less) && SortedOf(ys, s, less)
    ensures xs == ys
    decreases |xs|
  {
    EmptyIff(xs, s, less);
    EmptyIff(ys, s, less);
    if s != {} {
      assert xs[0] in s;
      assert xs[0] in ys && ys[0] in xs by {
        assert ys[0] in s;
      }
      var i :| 0 <= i < |ys| && ys[i] == xs[0];
      var j :| 0 <= j < |xs| && xs[j] == ys[0];
      assert xs[0] == ys[0];
      forall x ensures x in xs[1..] <==> x in s - {xs[0]} {
        assert x in xs <==> x == xs[0] || x in xs[1..];
      }
      forall x ensures x in ys[1..] <==> x in s - {xs[0]} {
        assert x in ys <==> x == ys[0] || x in ys[1..];
      }
      SortedIsUnique(xs[1..], ys[1..], s - {xs[0]}, less);
      assert xs == [xs[0]] + xs[1..] && ys == [ys[0]] + ys[1..];
    }
  }

  predicate Less(a: string, b: string) {
    b != "" && (a == "" || a[0] < b[0] || (a[0] == b[0] && Less(a[1..], b[1..])))
  }

  /** `a` comes before `b` in lexicographic order: `a` ends, or has the smaller character, where they part. */
  ghost predicate PartsAt(a: string, b: string, k: nat) {
    k <= |a| && k < |b| && (k < |a| ==> a[k] < b[k]) && forall i :: 0 <= i < k ==> a[i] == b[i]
  }

  ghost predicate Precedes(a: string, b: string) {
    exists k: nat :: PartsAt(a, b, k)
  }

  lemma {:induction false} LessIff(a: string, b: string)
    ensures Less(a, b) <==> Precedes(a, b)
    decreases |a|
  {
    if Less(a, b) && (a == "" || a[0] < b[0]) {
      assert PartsAt(a, b, 0);
    }
    if a != "" && b != "" && a[0] == b[0] {
      LessIff(a[1..], b[1..]);
      if Precedes(a[1..], b[1..]) {
        var k: nat :| PartsAt(a[1..], b[1..], k);
        assert PartsAt(a, b, k + 1);
      }
      if Precedes(a, b) {
        var k: nat :| PartsAt(a, b, k);
        assert PartsAt(a[1..], b[1..], k - 1);
      }
    }
  }

  lemma {:induction false} LessIrreflexive(a: string)
    ensures !Less(a, a)
  {
    if a != "" {
      LessIrreflexive(a[1..]);
    }
  }

  lemma {:induction false} LessTransitive(a: string, b: string, c: string)
    requires Less(a, b) && Less(b, c)
    ensures Less(a, c)
  {
    if a != "" && a[0] == b[0] == c[0] {
      LessTransitive(a[1..], b[1..], c[1..]);
    }
  }

  lemma {:induction false} LessTotal(a: string, b: string)
    ensures a == b || Less(a, b) || Less(b, a)
  {
    if a != "" && b != "" && a[0] == b[0] {
      LessTotal(a[1..], b[1..]);
      assert a == [a[0]] + a[1..] && b == [b[0]] + b[1..];
    }
  }

  lemma StringsAreOrdered()
    ensures StrictTotal(Less)
  {
    forall a ensures !Less(a, a) {
      LessIrreflexive(a);
    }
    forall a, b, c | Less(a, b) && Less(b, c) ensures Less(a, c) {
      LessTransitive(a, b, c);
    }
    forall a, b ensures a == b || Less(a, b) || Less(b, a) {
      LessTotal(a, b);
    }
  }

  predicate PairLess(a: (string, string), b: (string, string)) {
    Less(a.0, b.0) || (a.0 == b.0 && Less(a.1, b.1))
  }

  lemma PairsAreOrdered()
    ensures StrictTotal(PairLess)
  {
    hide Less;
    StringsAreOrdered();
    forall a, b, c | PairLess(a, b) && PairLess(b, c) ensures PairLess(a, c) {
      assert Less(a.0, b.0) && Less(b.0, c.0) ==> Less(a.0, c.0);
      assert Less(a.1, b.1) && Less(b.1, c.1) ==> Less(a.1, c.1);
    }
    forall a: (string, string), b: (string, string) ensures a == b || PairLess(a, b) || PairLess(b, a) {
      assert a.0 == b.0 || Less(a.0, b.0) || Less(b.0, a.0);
      assert a.1 == b.1 || Less(a.1, b.1) || Less(b.1, a.1);
    }
  }
}
