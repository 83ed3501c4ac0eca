/** Stable sorting and counting on sequences. */
module Seqs {

  /** Stable insertion sort; `before` is a strict order. */
  function InsertBy<T>(x: T, xs: seq<T>, before: (T, T) -> bool): seq<T> {
    if xs == [] || before(x, xs[0]) then [x] + xs else [xs[0]] + InsertBy(x, xs[1..], before)
  }

  function SortBy<T>(xs: seq<T>, before: (T, T) -> bool): seq<T> {
    if xs == [] then [] else InsertBy(xs[|xs|-1], SortBy(xs[..|xs|-1], before), before)
  }

  /** Strict, and incomparability is transitive: what a sort needs to order a sequence. */
  ghost predicate WeakOrder<T(!new)>(before: (T, T) -> bool) {
    && (forall a, b :: before(a, b) ==> !before(b, a))
    && (forall a, b, c :: before(a, c) ==> before(a, b) || before(b, c))
  }

  ghost predicate Sorted<T>(xs: seq<T>, before: (T, T) -> bool) {
    forall i, j | 0 <= i < j < |xs| :: !before(xs[j], xs[i])
  }

  lemma {:induction false} InsertSorted<T(!new)>(x: T, xs: seq<T>, before: (T, T) -> bool)
    requires WeakOrder(before) && Sorted(xs, before)
    ensures Sorted(InsertBy(x, xs, before), before)
    ensures forall y | y in InsertBy(x, xs, before) :: y == x || y in xs
  {
    if xs != [] && !before(x, xs[0]) {
      var rest := InsertBy(x, xs[1..], before);
      InsertSorted(x, xs[1..], before);
      forall j | 0 <= j < |rest| ensures !before(rest[j], xs[0]) { assert rest[j] in rest; }
    } else if xs != [] {
      forall j | 0 <= j < |xs| ensures before(x, xs[j]) { assert j > 0 ==> !before(xs[j], xs[0]); }
    }
  }

  lemma {:induction false} SortSorted<T(!new)>(xs: seq<T>, before: (T, T) -> bool)
    requires WeakOrder(before)
    ensures Sorted(SortBy(xs, before), before)
  {
    if xs != [] {
      SortSorted(xs[..|xs|-1], before);
      InsertSorted(xs[|xs|-1], SortBy(xs[..|xs|-1], before), before);
    }
  }

  function CountIf<T>(xs: seq<T>, p: T -> bool): nat {
    if xs == [] then 0 else (if p(xs[0]) then 1 else 0) + CountIf(xs[1..], p)
  }

  lemma {:induction false} CountAppend<T>(xs: seq<T>, ys: seq<T>, p: T -> bool)
    ensures CountIf(xs + ys, p) == CountIf(xs, p) + CountIf(ys, p)
  {
    if xs == [] {
      assert xs + ys == ys;
    } else {
      assert (xs + ys)[1..] == xs[1..] + ys;
      CountAppend(xs[1..], ys, p);
    }
  }

  lemma CountOne<T>(x: T, p: T -> bool)
    ensures CountIf([x], p) == if p(x) then 1 else 0
  {
    assert [x][1..] == [];
  }

  lemma {:induction false} CountInsert<T>(x: T, xs: seq<T>, before: (T, T) -> bool, p: T -> bool)
    ensures CountIf(InsertBy(x, xs, before), p) == CountIf([x], p) + CountIf(xs, p)
    ensures |InsertBy(x, xs, before)| == |xs| + 1
  {
    if !(xs == [] || before(x, xs[0])) { CountInsert(x, xs[1..], before, p); }
  }

  /** Sorting keeps every element as often as it was there. */
  lemma {:induction false} CountSort<T>(xs: seq<T>, before: (T, T) -> bool, p: T -> bool)
    ensures CountIf(SortBy(xs, before), p) == CountIf(xs, p)
    ensures |SortBy(xs, before)| == |xs|
  {
    if xs != [] {
      CountSort(xs[..|xs|-1], before, p);
      CountInsert(xs[|xs|-1], SortBy(xs[..|xs|-1], before), before, p);
      assert xs == xs[..|xs|-1] + [xs[|xs|-1]];
      CountAppend(xs[..|xs|-1], [xs[|xs|-1]], p);
    }
  }

  lemma {:induction false} CountPositive<T>(xs: seq<T>, p: T -> bool)
    ensures CountIf(xs, p) > 0 <==> exists x | x in xs :: p(x)
  {
    if xs != [] {
      CountPositive(xs[1..], p);
      assert forall x :: x in xs <==> x == xs[0] || x in xs[1..];
    }
  }

  function Any<T>(): T -> bool { _ => true }

  function Is(i: nat): nat -> bool { x => x == i }

  lemma {:induction false} CountUpdate<T>(xs: seq<T>, i: nat, x: T, p: T -> bool)
    requires i < |xs|
    ensures CountIf(xs[i := x], p) == CountIf(xs, p) - CountIf([xs[i]], p) + CountIf([x], p)
  {
    assert xs == xs[..i] + [xs[i]] + xs[i+1..];
    assert xs[i := x] == xs[..i] + [x] + xs[i+1..];
    CountAppend(xs[..i] + [xs[i]], xs[i+1..], p);
    CountAppend(xs[..i], [xs[i]], p);
    CountAppend(xs[..i] + [x], xs[i+1..], p);
    CountAppend(xs[..i], [x], p);
  }

  lemma {:induction false} CountAll<T>(xs: seq<T>)
    ensures CountIf(xs, Any<T>()) == |xs|
  {
    if xs != [] { CountAll(xs[1..]); }
  }

  function MapAll<T, U>(xs: seq<T>, f: T -> U): seq<U> {
    if xs == [] then [] else [f(xs[0])] + MapAll(xs[1..], f)
  }

  lemma {:induction false} CountMap<T, U>(xs: seq<T>, f: T -> U, p: U -> bool, q: T -> bool)
    requires forall x | x in xs :: p(f(x)) == q(x)
    ensures CountIf(MapAll(xs, f), p) == CountIf(xs, q)
  {
    if xs != [] {
      CountMap(xs[1..], f, p, q);
      assert xs[0] in xs;
      assert forall x | x in xs[1..] :: x in xs;
    }
  }

  ghost predicate NoRepeats<T>(xs: seq<T>) { forall i, j | 0 <= i < j < |xs| :: xs[i] != xs[j] }

  lemma {:induction false} InInserted<T>(y: T, xs: seq<T>, before: (T, T) -> bool, x: T)
    ensures x in InsertBy(y, xs, before) <==> x == y || x in xs
  {
    if !(xs == [] || before(y, xs[0])) { InInserted(y, xs[1..], before, x); }
  }

  lemma {:induction false} InSorted<T>(xs: seq<T>, before: (T, T) -> bool, x: T)
    ensures x in SortBy(xs, before) <==> x in xs
  {
    if xs != [] {
      InSorted(xs[..|xs|-1], before, x);
      InInserted(xs[|xs|-1], SortBy(xs[..|xs|-1], before), before, x);
      assert xs == xs[..|xs|-1] + [xs[|xs|-1]];
    }
  }

  lemma {:induction false} InsertNoRepeats<T(!new)>(y: T, xs: seq<T>, before: (T, T) -> bool)
    requires NoRepeats(xs) && y !in xs
    ensures NoRepeats(InsertBy(y, xs, before))
  {
    if !(xs == [] || before(y, xs[0])) {
      assert forall i | 0 <= i < |xs| - 1 :: xs[1..][i] == xs[i+1];
      InsertNoRepeats(y, xs[1..], before);
      var rest := InsertBy(y, xs[1..], before);
      InInserted(y, xs[1..], before, xs[0]);
      assert xs[0] !in rest;
      assert InsertBy(y, xs, before) == [xs[0]] + rest;
    }
  }

  lemma {:induction false} SortNoRepeats<T(!new)>(xs: seq<T>, before: (T, T) -> bool)
    requires NoRepeats(xs)
    ensures NoRepeats(SortBy(xs, before))
  {
    if xs != [] {
      var front := xs[..|xs|-1];
      SortNoRepeats(front, before);
      InSorted(front, before, xs[|xs|-1]);
      InsertNoRepeats(xs[|xs|-1], SortBy(front, before), before);
    }
  }

  ghost predicate Ascending<T>(xs: seq<T>, before: (T, T) -> bool) {
    forall i, j | 0 <= i < j < |xs| :: before(xs[i], xs[j])
  }

  /** There is only one way to list a collection in strictly ascending order. */
  lemma {:induction false} AscendingUnique<T(!new)>(a: seq<T>, b: seq<T>, before: (T, T) -> bool)
    requires WeakOrder(before) && Ascending(a, before) && Ascending(b, before)
    requires forall x :: x in a <==> x in b
    ensures a == b
  {
    assert a != [] ==> a[0] in b;
    assert b != [] ==> b[0] in a;
    if a != [] && b != [] {
      SameLeast(a, b, before);
      forall x ensures x in a[1..] <==> x in b[1..] {
        TailMembers(a, before, x);
        TailMembers(b, before, x);
      }
      AscendingUnique(a[1..], b[1..], before);
      assert a == [a[0]] + a[1..] && b == [b[0]] + b[1..];
    }
  }

  lemma SameLeast<T(!new)>(a: seq<T>, b: seq<T>, before: (T, T) -> bool)
    requires WeakOrder(before) && Ascending(a, before) && Ascending(b, before) && a != [] && b != []
    requires a[0] in b && b[0] in a
    ensures a[0] == b[0]
  {
    var i :| 0 <= i < |b| && b[i] == a[0];
    var j :| 0 <= j < |a| && a[j] == b[0];
    assert i > 0 ==> before(b[0], b[i]);
    assert j > 0 ==> before(a[0], a[j]);
  }

  lemma SplitAt<T>(xs: seq<T>, i: nat)
    requires i < |xs|
    ensures xs == xs[..i] + ([xs[i]] + xs[i+1..])
  {
  }

  lemma TailMembers<T(!new)>(xs: seq<T>, before: (T, T) -> bool, x: T)
    requires WeakOrder(before) && Ascending(xs, before) && xs != []
    ensures x in xs[1..] <==> x in xs && x != xs[0]
  {
    assert !before(xs[0], xs[0]);
  }

  lemma {:induction false} InMapped<T, U>(xs: seq<T>, f: T -> U, y: U)
    requires y in MapAll(xs, f)
    ensures exists x | x in xs :: f(x) == y
  {
    if y != f(xs[0]) {
      InMapped(xs[1..], f, y);
      var x :| x in xs[1..] && f(x) == y;
      assert x in xs;
    } else {
      assert xs[0] in xs;
    }
  }

  lemma FrontOfAppend<T>(a: seq<T>, c: seq<T>)
    requires c != []
    ensures (a + c)[..|a + c|-1] == a + c[..|c|-1] && (a + c)[|a + c|-1] == c[|c|-1]
  {
  }

  lemma Associative<T>(a: seq<T>, b: seq<T>, c: seq<T>)
    ensures (a + b) + c == a + (b + c)
  {
  }

  lemma FrontLast<T>(xs: seq<T>)
    requires xs != []
    ensures xs == xs[..|xs|-1] + [xs[|xs|-1]]
  {
  }

  lemma TakeFront<T>(a: seq<T>, b: seq<T>)
    ensures (a + b)[..|a|] == a && (a + b)[|a|..] == b
  {
  }

  lemma TakeNext<T>(a: seq<T>, xs: seq<T>, i: nat)
    requires i < |xs|
    ensures (a + xs[..i]) + [xs[i]] == a + xs[..i+1]
  {
  }
}
