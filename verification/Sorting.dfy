// Sorting a list by a strict order on keys that do not tie: the outcome is determined.

module Sorting {

  function Place<T>(xs: seq<T>, x: T, less: (T, T) -> bool): (k: nat)
    ensures k <= |xs|
    ensures forall i :: 0 <= i < k ==> less(xs[i], x)
    ensures k < |xs| ==> !less(xs[k], x)
  {
    if xs == [] || !less(xs[0], x) then 0 else 1 + Place(xs[1..], x, less)
  }

  function Insert<T>(xs: seq<T>, x: T, less: (T, T) -> bool): (r: seq<T>)
    ensures |r| == |xs| + 1
  {
    var k := Place(xs, x, less);
    xs[..k] + [x] + xs[k..]
  }

  lemma {:induction false} InsertMembers<T>(xs: seq<T>, x: T, less: (T, T) -> bool, y: T)
    ensures y in Insert(xs, x, less) <==> y in xs || y == x
  {
    var k := Place(xs, x, less);
    assert xs == xs[..k] + xs[k..];
  }

  function Sort<T(!new)>(xs: seq<T>, less: (T, T) -> bool): (r: seq<T>)
    ensures |r| == |xs|
    ensures forall x :: x in r <==> x in xs
  {
    if xs == [] then []
    else
      var last := xs[|xs| - 1];
      var front := Sort(xs[..|xs| - 1], less);
      assert xs == xs[..|xs| - 1] + [last];
      assert forall x :: x in Insert(front, last, less) <==> x in xs by {
        forall x ensures x in Insert(front, last, less) <==> x in front || x == last {
          InsertMembers(front, last, less, x);
        }
      }
      Insert(front, last, less)
  }

  ghost predicate StrictOrder<T(!new)>(less: (T, T) -> bool) {
    && (forall a :: !less(a, a))
    && forall a, b, c :: less(a, b) && less(b, c) ==> less(a, c)
  }

  // No two members tie.
  ghost predicate Comparable<T(!new)>(xs: seq<T>, less: (T, T) -> bool) {
    forall i, j :: 0 <= i < j < |xs| ==> less(xs[i], xs[j]) || less(xs[j], xs[i])
  }

  ghost predicate Sorted<T(!new)>(xs: seq<T>, less: (T, T) -> bool) {
    forall i, j :: 0 <= i < j < |xs| ==> less(xs[i], xs[j])
  }

  lemma {:induction false} InsertedIsSorted<T(!new)>(xs: seq<T>, x: T, less: (T, T) -> bool)
    requires StrictOrder(less) && Sorted(xs, less)
    requires forall i :: 0 <= i < |xs| ==> less(xs[i], x) || less(x, xs[i])
    ensures Sorted(Insert(xs, x, less), less)
  {
    var k := Place(xs, x, less);
    forall i | k <= i < |xs| ensures less(x, xs[i]) {
      assert less(x, xs[k]);
    }
    var r := Insert(xs, x, less);
    assert forall i :: 0 <= i < k ==> r[i] == xs[i];
    assert forall i :: k < i < |r| ==> r[i] == xs[i - 1];
  }

  lemma {:induction false} SortSorts<T(!new)>(xs: seq<T>, less: (T, T) -> bool)
    requires StrictOrder(less) && Comparable(xs, less)
    ensures Sorted(Sort(xs, less), less)
    decreases |xs|
  {
    if xs != [] {
      var last := xs[|xs| - 1];
      var front := Sort(xs[..|xs| - 1], less);
      SortSorts(xs[..|xs| - 1], less);
      forall i | 0 <= i < |front| ensures less(front[i], last) || less(last, front[i]) {
        assert front[i] in xs[..|xs| - 1];
      }
      InsertedIsSorted(front, last, less);
    }
  }

  // A sorted list is determined by its members.
  lemma {:induction false} SortedIsUnique<T(!new)>(a: seq<T>, b: seq<T>, less: (T, T) -> bool)
    requires StrictOrder(less) && Sorted(a, less) && Sorted(b, less)
    requires forall x :: x in a <==> x in b
    ensures a == b
    decreases |a|
  {
    assert b != [] ==> b[0] in b;
    if a != [] {
      assert a[0] in a && a[0] in b;
      assert b != [] && b[0] in a;
      assert a[0] == b[0];
      WithoutFirst(a, less);
      WithoutFirst(b, less);
      SortedIsUnique(a[1..], b[1..], less);
    }
  }

  lemma {:induction false} WithoutFirst<T(!new)>(a: seq<T>, less: (T, T) -> bool)
    requires StrictOrder(less) && Sorted(a, less) && a != []
    ensures forall x :: x in a[1..] <==> x in a && x != a[0]
  {
    assert a == [a[0]] + a[1..];
    forall i | 1 <= i < |a| ensures a[i] != a[0] {
      assert less(a[0], a[i]);
    }
  }
}
