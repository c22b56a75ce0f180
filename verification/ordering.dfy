/** Strict total orders, the ascending list of a finite set, and the order on strings. */
module Ordering {
  ghost predicate StrictTotal<T(!new)>(less: (T, T) -> bool) {
    && (forall a :: !less(a, a))
    && (forall a, b, c :: less(a, b) && less(b, c) ==> less(a, c))
    && (forall a, b :: less(a, b) || a == b || less(b, a))
  }

  ghost predicate Ascending<T>(xs: seq<T>, less: (T, T) -> bool) {
    forall i, j :: 0 <= i < j < |xs| ==> less(xs[i], xs[j])
  }

  ghost predicate Lists<T(!new)>(xs: seq<T>, s: set<T>) {
    forall x :: x in xs <==> x in s
  }

  lemma EmptyListsEmpty<T(!new)>(xs: seq<T>, s: set<T>)
    requires Lists(xs, s)
    ensures xs == [] <==> s == {}
  {
    if xs != [] { assert xs[0] in s; }
    if s != {} {
      var x :| x in s;
      assert x in xs;
    }
  }

  /** Two ascending lists of one set are the same list. */
  lemma {:induction false} AscendingUnique<T(!new)>(xs: seq<T>, ys: seq<T>, s: set<T>, less: (T, T) -> bool)
    requires StrictTotal(less)
    requires Ascending(xs, less) && Lists(xs, s)
    requires Ascending(ys, less) && Lists(ys, s)
    ensures xs == ys
    decreases |xs|
  {
    EmptyListsEmpty(xs, s);
    EmptyListsEmpty(ys, s);
    if xs == [] {
    } else {
      FirstIsLeast(xs, s, less);
      FirstIsLeast(ys, s, less);
      assert xs[0] in s && ys[0] in s;
      assert xs[0] == ys[0];
      TailLists(xs, s, less);
      TailLists(ys, s, less);
      AscendingUnique(xs[1..], ys[1..], s - {xs[0]}, less);
      assert xs == [xs[0]] + xs[1..] && ys == [ys[0]] + ys[1..];
    }
  }

  lemma FirstIsLeast<T(!new)>(xs: seq<T>, s: set<T>, less: (T, T) -> bool)
    requires StrictTotal(less) && Ascending(xs, less) && Lists(xs, s) && xs != []
    ensures forall x :: x in s ==> x == xs[0] || less(xs[0], x)
  {}

  lemma TailLists<T(!new)>(xs: seq<T>, s: set<T>, less: (T, T) -> bool)
    requires StrictTotal(less) && Ascending(xs, less) && Lists(xs, s) && xs != []
    ensures Ascending(xs[1..], less) && Lists(xs[1..], s - {xs[0]})
  {
    assert xs == [xs[0]] + xs[1..];
    assert forall x :: x in xs <==> x == xs[0] || x in xs[1..];
  }

  /** Insertion keeps an ascending list ascending. */
  method InsertAscending<T(!new, ==)>(xs: seq<T>, x: T, less: (T, T) -> bool) returns (ys: seq<T>)
    requires StrictTotal(less) && Ascending(xs, less) && x !in xs
    ensures Ascending(ys, less)
    ensures forall y :: y in ys <==> y == x || y in xs
  {
    var k := 0;
    while k < |xs| && less(xs[k], x)
      invariant 0 <= k <= |xs|
      invariant forall i :: 0 <= i < k ==> less(xs[i], x)
    {
      k := k + 1;
    }
    ys := xs[..k] + [x] + xs[k..];
    InsertedAscending(xs, k, x, less);
  }

  lemma InsertedAscending<T(!new)>(xs: seq<T>, k: nat, x: T, less: (T, T) -> bool)
    requires StrictTotal(less) && Ascending(xs, less) && x !in xs && k <= |xs|
    requires forall i :: 0 <= i < k ==> less(xs[i], x)
    requires k < |xs| ==> !less(xs[k], x)
    ensures var ys := xs[..k] + [x] + xs[k..];
            Ascending(ys, less) && forall y :: y in ys <==> y == x || y in xs
  {
    var ys := xs[..k] + [x] + xs[k..];
    assert xs == xs[..k] + xs[k..];
    forall i | k <= i < |xs| ensures less(x, xs[i]) {
      assert less(x, xs[k]);
      if k < i { assert less(xs[k], xs[i]); }
    }
    forall i, j | 0 <= i < j < |ys| ensures less(ys[i], ys[j]) {
      if j == k { assert less(xs[i], x); }
      else if i == k { assert less(x, xs[j - 1]); }
      else { assert less(xs[if i < k then i else i - 1], xs[if j < k then j else j - 1]); }
    }
  }

  /** The elements of two sets, ascending: those of the first, then those only in the second. */
  method UnionAscending<T(!new, ==)>(a: set<T>, b: set<T>, less: (T, T) -> bool) returns (xs: seq<T>)
    requires StrictTotal(less)
    ensures Ascending(xs, less)
    ensures forall x :: x in xs <==> x in a || x in b
  {
    xs := [];
    var todo := a;
    while todo != {}
      invariant Ascending(xs, less) && todo <= a
      invariant forall x :: x in xs <==> x in a && x !in todo
      decreases todo
    {
      var x :| x in todo;
      xs := InsertAscending(xs, x, less);
      todo := todo - {x};
    }
    todo := b;
    while todo != {}
      invariant Ascending(xs, less) && todo <= b
      invariant forall x :: x in xs <==> x in a || (x in b && x !in todo)
      decreases todo
    {
      var x :| x in todo;
      if x !in xs { xs := InsertAscending(xs, x, less); }
      todo := todo - {x};
    }
  }

  /** The ascending list of a set. */
  ghost function Sorted<T(!new)>(s: set<T>, less: (T, T) -> bool): (xs: seq<T>)
    requires StrictTotal(less)
    ensures Ascending(xs, less) && Lists(xs, s)
  {
    SortedExists(s, less);
    var xs :| Ascending(xs, less) && Lists(xs, s);
    xs
  }

  lemma {:induction false} SortedExists<T(!new)>(s: set<T>, less: (T, T) -> bool)
    requires StrictTotal(less)
    ensures exists xs :: Ascending(xs, less) && Lists(xs, s)
    decreases |s|
  {
    if s == {} {
      assert Ascending<T>([], less) && Lists<T>([], s);
    } else {
      var m := Least(s, less);
      SortedExists(s - {m}, less);
      var xs :| Ascending(xs, less) && Lists(xs, s - {m});
      assert forall x :: x in [m] + xs <==> x == m || x in xs;
      assert forall i :: 0 <= i < |xs| ==> xs[i] in s - {m};
      assert Ascending([m] + xs, less) && Lists([m] + xs, s);
    }
  }

  lemma {:induction false} Least<T(!new)>(s: set<T>, less: (T, T) -> bool) returns (m: T)
    requires StrictTotal(less) && s != {}
    ensures m in s && forall x :: x in s ==> x == m || less(m, x)
    decreases |s|
  {
    var x :| x in s;
    if s == {x} {
      m := x;
    } else {
      var rest := s - {x};
      assert s == rest + {x};
      var n := Least(rest, less);
      m := if less(x, n) then x else n;
    }
  }

  // ---- Strings -----------------------------------------------------------------------------

  /** The order of `str`: by code point, a prefix first. */
  predicate StringLess(a: string, b: string) {
    b != "" && (a == "" || a[0] < b[0] || (a[0] == b[0] && StringLess(a[1..], b[1..])))
  }

  lemma {:induction false} StringLessTransitive(a: string, b: string, c: string)
    requires StringLess(a, b) && StringLess(b, c)
    ensures StringLess(a, c)
  {
    if a != "" && a[0] == b[0] == c[0] { StringLessTransitive(a[1..], b[1..], c[1..]); }
  }

  lemma {:induction false} StringLessIrreflexive(a: string)
    ensures !StringLess(a, a)
  {
    if a == "" {
    } else {
      StringLessIrreflexive(a[1..]);
    }
  }

  lemma {:induction false} StringLessTotal(a: string, b: string)
    ensures StringLess(a, b) || a == b || StringLess(b, a)
  {
    if a != "" && b != "" && a[0] == b[0] {
      StringLessTotal(a[1..], b[1..]);
      assert a == [a[0]] + a[1..] && b == [b[0]] + b[1..];
    }
  }

  /** One string is less than another exactly when, after what they share, it ends first or goes on
      with a smaller character. */
  lemma {:induction false} StringLessIff(a: string, b: string)
    ensures StringLess(a, b) <==>
            exists k :: 0 <= k <= |a| && k < |b| && a[..k] == b[..k] && (k == |a| || a[k] < b[k])
    decreases |a|
  {
    if a != "" && b != "" && a[0] == b[0] {
      StringLessIff(a[1..], b[1..]);
      if StringLess(a, b) {
        var k :| 0 <= k <= |a[1..]| && k < |b[1..]| && a[1..][..k] == b[1..][..k]
                 && (k == |a[1..]| || a[1..][k] < b[1..][k]);
        assert a[..k + 1] == [a[0]] + a[1..][..k] && b[..k + 1] == [b[0]] + b[1..][..k];
      }
      forall k | 0 <= k <= |a| && k < |b| && a[..k] == b[..k] && (k == |a| || a[k] < b[k])
        ensures StringLess(a, b)
      {
        assert k > 0;
        assert a[1..][..k - 1] == a[..k][1..] && b[1..][..k - 1] == b[..k][1..];
      }
    } else if StringLess(a, b) {
      assert a[..0] == b[..0];
    }
  }

  lemma StringOrder()
    ensures StrictTotal(StringLess)
  {
    forall a: string ensures !StringLess(a, a) { StringLessIrreflexive(a); }
    forall a, b, c | StringLess(a, b) && StringLess(b, c) ensures StringLess(a, c) { StringLessTransitive(a, b, c); }
    forall a, b ensures StringLess(a, b) || a == b || StringLess(b, a) { StringLessTotal(a, b); }
  }
}
