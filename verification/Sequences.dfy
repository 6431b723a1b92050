// Lists without repetition, and the sets of their members.

module Sequences {

  predicate Distinct<T(==)>(xs: seq<T>) {
    forall i, j :: 0 <= i < j < |xs| ==> xs[i] != xs[j]
  }

  function Members<T(==,!new)>(xs: seq<T>): set<T> {
    set x | x in xs
  }

  lemma {:induction false} DistinctFront<T>(xs: seq<T>)
    requires xs != []
    ensures Distinct(xs) <==> Distinct(xs[..|xs| - 1]) && xs[|xs| - 1] !in xs[..|xs| - 1]
  {
    var front, last := xs[..|xs| - 1], xs[|xs| - 1];
    if last in front {
      var i :| 0 <= i < |front| && front[i] == last;
      assert xs[i] == xs[|xs| - 1];
    }
    if Distinct(xs) {
      forall i, j | 0 <= i < j < |front| ensures front[i] != front[j] {
        assert xs[i] != xs[j];
      }
    }
  }

  // A list has as many members as places exactly if it repeats none.
  lemma {:induction false} MembersSize<T(!new)>(xs: seq<T>)
    ensures |Members(xs)| <= |xs|
    ensures |Members(xs)| == |xs| <==> Distinct(xs)
    decreases |xs|
  {
    if xs == [] {
      assert Members(xs) == {};
    } else {
      var front, last := xs[..|xs| - 1], xs[|xs| - 1];
      MembersSize(front);
      DistinctFront(xs);
      assert xs == front + [last];
      assert Members(xs) == Members(front) + {last};
      if last in front {
        assert Members(xs) == Members(front);
      }
    }
  }
}
