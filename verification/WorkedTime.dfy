// Pauses of a shift and the time worked: the sort-and-scan validation of a pause list, and
// worked seconds as the number of seconds of the shift that no pause covers.

module WorkedTime {
  import opened Results
  import opened Sorting

  // A half-open interval of seconds [start, end).
  datatype Interval = Interval(start: int, end: int)

  // A pause of a shift; an open pause has no end yet.
  datatype Pause = Pause(start: int, end: Option<int>)

  // ----- What a valid pause list is ------------------------------------------------------

  predicate Disjoint(a: Interval, b: Interval) {
    a.end <= b.start || b.end <= a.start
  }

  predicate PairwiseDisjoint(ps: seq<Interval>) {
    forall i, j :: 0 <= i < j < |ps| ==> Disjoint(ps[i], ps[j])
  }

  predicate Inside(p: Interval, start: int, end: int) {
    p.start < p.end && start <= p.start && p.end <= end
  }

  predicate AllInside(ps: seq<Interval>, start: int, end: int) {
    forall i :: 0 <= i < |ps| ==> Inside(ps[i], start, end)
  }

  function TotalLength(ps: seq<Interval>): int {
    if ps == [] then 0 else TotalLength(ps[..|ps| - 1]) + ps[|ps| - 1].end - ps[|ps| - 1].start
  }

  predicate PausesFit(ps: seq<Interval>, start: int, end: int) {
    AllInside(ps, start, end) && PairwiseDisjoint(ps) && TotalLength(ps) < end - start
  }

  // ----- Sorting by start ----------------------------------------------------------------

  predicate SortedByStart(ps: seq<Interval>) {
    forall i, j :: 0 <= i < j < |ps| ==> ps[i].start <= ps[j].start
  }

  predicate StartsBefore(a: Interval, b: Interval) {
    a.start < b.start
  }

  // The place before the first pause that does not start earlier.
  function InsertIndex(ps: seq<Interval>, p: Interval): (k: nat)
    ensures k <= |ps|
  {
    Place(ps, p, StartsBefore)
  }

  function InsertAt(ps: seq<Interval>, k: nat, p: Interval): seq<Interval>
    requires k <= |ps|
  {
    ps[..k] + [p] + ps[k..]
  }

  // A stable sort by start.
  function SortByStart(ps: seq<Interval>): (r: seq<Interval>)
    ensures SortedByStart(r) && |r| == |ps|
  {
    if ps == [] then []
    else
      var rest := SortByStart(ps[1..]);
      InsertAt(rest, InsertIndex(rest, ps[0]), ps[0])
  }

  lemma {:induction false} TotalLengthConcat(a: seq<Interval>, b: seq<Interval>)
    ensures TotalLength(a + b) == TotalLength(a) + TotalLength(b)
    decreases |b|
  {
    if b == [] {
      assert a + b == a;
    } else {
      TotalLengthConcat(a, b[..|b| - 1]);
      assert (a + b)[..|a + b| - 1] == a + b[..|b| - 1];
    }
  }

  lemma {:induction false} InsertAtLength(ps: seq<Interval>, k: nat, p: Interval)
    requires k <= |ps|
    ensures TotalLength(InsertAt(ps, k, p)) == TotalLength([p]) + TotalLength(ps)
  {
    TotalLengthConcat(ps[..k] + [p], ps[k..]);
    TotalLengthConcat(ps[..k], [p]);
    TotalLengthConcat(ps[..k], ps[k..]);
    assert ps[..k] + ps[k..] == ps;
  }

  // Inserting a pause anywhere and putting it in front are the same for every condition.
  lemma {:induction false} InsertAtConditions(ps: seq<Interval>, k: nat, p: Interval, start: int, end: int)
    requires k <= |ps|
    ensures AllInside(InsertAt(ps, k, p), start, end) <==> Inside(p, start, end) && AllInside(ps, start, end)
    ensures PairwiseDisjoint(InsertAt(ps, k, p))
            <==> PairwiseDisjoint(ps) && forall i :: 0 <= i < |ps| ==> Disjoint(p, ps[i])
  {
    var r := InsertAt(ps, k, p);
    assert r[k] == p;
    assert forall i :: 0 <= i < k ==> r[i] == ps[i];
    assert forall i :: k <= i < |ps| ==> r[i + 1] == ps[i];
    assert forall i :: k < i < |r| ==> r[i] == ps[i - 1];
  }

  // Every pause of the list is at some place of the sorted list, and the other way round.
  lemma {:induction false} SortKeepsMembers(ps: seq<Interval>)
    ensures forall p :: p in ps <==> p in SortByStart(ps)
  {
    if ps != [] {
      var first, tail := ps[0], ps[1..];
      SortKeepsMembers(tail);
      forall p ensures p in SortByStart(ps) <==> p in ps {
        InsertMembers(SortByStart(tail), first, StartsBefore, p);
        assert SortByStart(ps) == Insert(SortByStart(tail), first, StartsBefore);
        assert ps == [first] + tail;
      }
    }
  }

  lemma {:induction false} SortKeepsFit(ps: seq<Interval>, start: int, end: int)
    ensures AllInside(SortByStart(ps), start, end) <==> AllInside(ps, start, end)
    ensures PairwiseDisjoint(SortByStart(ps)) <==> PairwiseDisjoint(ps)
    ensures TotalLength(SortByStart(ps)) == TotalLength(ps)
  {
    if ps != [] {
      SortKeepsFit(ps[1..], start, end);
      SortKeepsMembers(ps[1..]);
      var rest := SortByStart(ps[1..]);
      var k := InsertIndex(rest, ps[0]);
      InsertAtConditions(rest, k, ps[0], start, end);
      InsertAtConditions(ps[1..], 0, ps[0], start, end);
      assert InsertAt(ps[1..], 0, ps[0]) == ps;
      InsertAtLength(rest, k, ps[0]);
      InsertAtLength(ps[1..], 0, ps[0]);
      SameDisjointness(ps[0], ps[1..], rest);
    }
  }

  lemma {:induction false} SameDisjointness(p: Interval, a: seq<Interval>, b: seq<Interval>)
    requires forall q :: q in a <==> q in b
    ensures (forall i :: 0 <= i < |a| ==> Disjoint(p, a[i])) <==> (forall i :: 0 <= i < |b| ==> Disjoint(p, b[i]))
  {
    if forall i :: 0 <= i < |a| ==> Disjoint(p, a[i]) {
      forall i | 0 <= i < |b| ensures Disjoint(p, b[i]) {
        assert b[i] in a;
      }
    }
    if forall i :: 0 <= i < |b| ==> Disjoint(p, b[i]) {
      forall i | 0 <= i < |a| ensures Disjoint(p, a[i]) {
        assert a[i] in b;
      }
    }
  }

  // ----- The validation ------------------------------------------------------------------

  datatype PauseError = PauseReversed | PauseOutsideShift | PausesOverlap | PausesTooLong

  // The scan of the sorted list, with the previous end and a running total.
  method ScanPauses(ordered: seq<Interval>, start: int, end: int) returns (r: Result<(), PauseError>)
    requires SortedByStart(ordered)
    ensures r.Ok? <==> PausesFit(ordered, start, end)
    ensures r == Err(PauseReversed) ==> exists p :: p in ordered && p.end <= p.start
    ensures r == Err(PauseOutsideShift) ==> exists p :: p in ordered && (p.start < start || end < p.end)
    ensures r == Err(PausesOverlap) ==> !PairwiseDisjoint(ordered)
    ensures r == Err(PausesTooLong) ==> end - start <= TotalLength(ordered)
  {
    var prevEnd: Option<int> := None;
    var total := 0;
    for i := 0 to |ordered|
      invariant forall j :: 0 <= j < i ==> Inside(ordered[j], start, end)
      invariant forall j, k :: 0 <= j < k < i ==> ordered[j].end <= ordered[k].start
      invariant prevEnd == if i == 0 then None else Some(ordered[i - 1].end)
      invariant total == TotalLength(ordered[..i])
    {
      var p := ordered[i];
      if p.start >= p.end {
        assert !Inside(ordered[i], start, end);
        return Err(PauseReversed);
      }
      if p.start < start || p.end > end {
        assert !Inside(ordered[i], start, end);
        return Err(PauseOutsideShift);
      }
      if prevEnd.Some? && p.start < prevEnd.value {
        assert ordered[i - 1].start <= ordered[i].start;
        assert !Disjoint(ordered[i - 1], ordered[i]);
        return Err(PausesOverlap);
      }
      prevEnd := Some(p.end);
      total := total + (p.end - p.start);
      assert ordered[..i + 1][..i] == ordered[..i];
    }
    assert ordered[..|ordered|] == ordered;
    r := if total >= end - start then Err(PausesTooLong) else Ok(());
  }

  // _validate_pauses: it accepts exactly the lists that fit, in whatever order they come, and
  // each refusal names a condition that fails.
  method ValidatePauses(pauses: seq<Interval>, start: int, end: int) returns (r: Result<(), PauseError>)
    ensures r.Ok? <==> PausesFit(pauses, start, end)
    ensures r == Err(PauseReversed) ==> exists p :: p in pauses && p.end <= p.start
    ensures r == Err(PauseOutsideShift) ==> exists p :: p in pauses && (p.start < start || end < p.end)
    ensures r == Err(PausesOverlap) ==> !PairwiseDisjoint(pauses)
    ensures r == Err(PausesTooLong) ==> end - start <= TotalLength(pauses)
  {
    SortKeepsFit(pauses, start, end);
    SortKeepsMembers(pauses);
    r := ScanPauses(SortByStart(pauses), start, end);
  }

  // ----- Worked seconds ------------------------------------------------------------------

  function Closed(p: Pause, now: int): Interval {
    Interval(p.start, match p.end case None => now case Some(e) => e)
  }

  function ClosedAll(ps: seq<Pause>, now: int): (r: seq<Interval>)
    ensures |r| == |ps| && forall i :: 0 <= i < |ps| ==> r[i] == Closed(ps[i], now)
  {
    if ps == [] then [] else ClosedAll(ps[..|ps| - 1], now) + [Closed(ps[|ps| - 1], now)]
  }

  function EndOf(finished: Option<int>, now: int): int {
    match finished case None => now case Some(e) => e
  }

  // The length of a shift less its pauses, never negative.
  function NetSeconds(start: int, end: int, ps: seq<Interval>): (r: int)
    ensures 0 <= r
  {
    var total := end - start - TotalLength(ps);
    if total < 0 then 0 else total
  }

  function WorkedSeconds(start: int, finished: Option<int>, pauses: seq<Pause>, now: int): int {
    NetSeconds(start, EndOf(finished, now), ClosedAll(pauses, now))
  }

  lemma {:induction false} ClosedNext(pauses: seq<Pause>, i: nat, now: int)
    requires i < |pauses|
    ensures TotalLength(ClosedAll(pauses[..i + 1], now))
         == TotalLength(ClosedAll(pauses[..i], now)) + EndOf(pauses[i].end, now) - pauses[i].start
  {
    assert pauses[..i + 1][..i] == pauses[..i];
    var done := ClosedAll(pauses[..i + 1], now);
    assert done[..i] == ClosedAll(pauses[..i], now);
  }

  // calculate_worked_seconds: the running total of that function.
  method CalculateWorkedSeconds(start: int, finished: Option<int>, pauses: seq<Pause>, now: int) returns (r: int)
    ensures r == WorkedSeconds(start, finished, pauses, now)
    ensures 0 <= r
  {
    var total := EndOf(finished, now) - start;
    for i := 0 to |pauses|
      invariant total == EndOf(finished, now) - start - TotalLength(ClosedAll(pauses[..i], now))
    {
      var p := pauses[i];
      var pauseEnd := EndOf(p.end, now);
      total := total - (pauseEnd - p.start);
      ClosedNext(pauses, i, now);
    }
    assert pauses[..|pauses|] == pauses;
    r := if total < 0 then 0 else total;
  }

  ghost function Seconds(start: int, end: int): (r: set<int>)
    ensures forall t :: t in r <==> start <= t < end
    ensures start <= end ==> |r| == end - start
    decreases end - start
  {
    if end <= start then {} else Seconds(start, end - 1) + {end - 1}
  }

  ghost predicate Covers(p: Interval, t: int) {
    p.start <= t < p.end
  }

  ghost predicate Covered(ps: seq<Interval>, t: int) {
    exists i :: 0 <= i < |ps| && Covers(ps[i], t)
  }

  // The seconds of the shift that no pause covers.
  ghost function Uncovered(start: int, end: int, ps: seq<Interval>): set<int> {
    set t | t in Seconds(start, end) && !Covered(ps, t)
  }

  lemma {:induction false} CoveredByLast(ps: seq<Interval>, t: int)
    requires ps != []
    ensures Covered(ps, t) <==> Covered(ps[..|ps| - 1], t) || Covers(ps[|ps| - 1], t)
  {
    var front := ps[..|ps| - 1];
    if Covered(front, t) {
      var i :| 0 <= i < |front| && Covers(front[i], t);
      assert Covers(ps[i], t);
    }
  }

  lemma {:induction false} LastCoversFreshSeconds(ps: seq<Interval>, t: int)
    requires ps != [] && PairwiseDisjoint(ps) && Covers(ps[|ps| - 1], t)
    ensures !Covered(ps[..|ps| - 1], t)
  {
    var n := |ps| - 1;
    forall i | 0 <= i < n ensures !Covers(ps[..n][i], t) {
      assert Disjoint(ps[i], ps[n]);
    }
  }

  lemma {:induction false} UncoveredCount(start: int, end: int, ps: seq<Interval>)
    requires start <= end && PairwiseDisjoint(ps)
    requires forall i :: 0 <= i < |ps| ==> start <= ps[i].start <= ps[i].end <= end
    ensures |Uncovered(start, end, ps)| == end - start - TotalLength(ps)
    decreases |ps|
  {
    if ps == [] {
      assert Uncovered(start, end, ps) == Seconds(start, end);
    } else {
      var front, last := ps[..|ps| - 1], ps[|ps| - 1];
      UncoveredCount(start, end, front);
      var before, removed := Uncovered(start, end, front), Seconds(last.start, last.end);
      forall t | t in removed ensures t in before {
        LastCoversFreshSeconds(ps, t);
      }
      forall t ensures t in Uncovered(start, end, ps) <==> t in before - removed {
        CoveredByLast(ps, t);
      }
      assert Uncovered(start, end, ps) == before - removed;
    }
  }

  // For disjoint pauses inside the shift, worked seconds are the uncovered seconds.
  lemma {:induction false} WorkedIsUncovered(start: int, finished: Option<int>, pauses: seq<Pause>, now: int)
    requires var end, ps := EndOf(finished, now), ClosedAll(pauses, now);
             && start <= end && PairwiseDisjoint(ps)
             && forall i :: 0 <= i < |ps| ==> start <= ps[i].start <= ps[i].end <= end
    ensures WorkedSeconds(start, finished, pauses, now)
         == |Uncovered(start, EndOf(finished, now), ClosedAll(pauses, now))|
  {
    UncoveredCount(start, EndOf(finished, now), ClosedAll(pauses, now));
  }

  // A manual shift whose pause list was accepted has worked at least one second, and its
  // worked seconds are exactly the seconds outside the pauses.
  lemma {:induction false} AcceptedPausesMeasure(start: int, end: int, pauses: seq<Pause>, now: int)
    requires PausesFit(ClosedAll(pauses, now), start, end)
    ensures 0 < WorkedSeconds(start, Some(end), pauses, now)
         == |Uncovered(start, end, ClosedAll(pauses, now))|
  {
    var ps := ClosedAll(pauses, now);
    forall i | 0 <= i < |ps| ensures start <= ps[i].start <= ps[i].end <= end {
      assert Inside(ps[i], start, end);
    }
    TotalLengthNonNegative(ps);
    UncoveredCount(start, end, ps);
  }

  // The clock does not enter the worked seconds of a shift whose pauses are all closed.
  lemma {:induction false} ClosedPausesIgnoreClock(pauses: seq<Pause>, now: int, later: int)
    requires forall i :: 0 <= i < |pauses| ==> pauses[i].end.Some?
    ensures ClosedAll(pauses, now) == ClosedAll(pauses, later)
  {
    forall i | 0 <= i < |pauses| ensures ClosedAll(pauses, now)[i] == ClosedAll(pauses, later)[i] {
      assert pauses[i].end.Some?;
    }
  }

  lemma {:induction false} TotalLengthNonNegative(ps: seq<Interval>)
    requires forall i :: 0 <= i < |ps| ==> ps[i].start <= ps[i].end
    ensures 0 <= TotalLength(ps)
    decreases |ps|
  {
    if ps != [] {
      TotalLengthNonNegative(ps[..|ps| - 1]);
    }
  }
}
