// Sums over shifts: the monoid of report fields, sums over a list and over the shifts of a
// set of local days, for any way of valuing one shift.

module ShiftSums {
  import opened Results
  import opened Calendar
  import opened WorkedTime

  // A finished shift: it has an end, and all its pauses are closed.
  datatype WorkShift = WorkShift(
    id: nat,
    start: int,
    finish: int,
    pauses: seq<Interval>,
    scheduledStart: Option<int>,
    scheduledEnd: Option<int>)

  // The summed fields of a report row.
  datatype Sums = Sums(
    worked: int, overtimeSeconds: int, shifts: int,
    gross: int, base: int, overtime: int,
    unpaidSeconds: int, unpaidShifts: int,
    plannedSeconds: int, planned: int,
    lateCount: int, lateSeconds: int)

  const ZERO := Sums(0, 0, 0, 0, 0, 0, 0, 0, 0, 0, 0, 0)

  function Add(a: Sums, b: Sums): Sums {
    Sums(
      a.worked + b.worked, a.overtimeSeconds + b.overtimeSeconds, a.shifts + b.shifts,
      a.gross + b.gross, a.base + b.base, a.overtime + b.overtime,
      a.unpaidSeconds + b.unpaidSeconds, a.unpaidShifts + b.unpaidShifts,
      a.plannedSeconds + b.plannedSeconds, a.planned + b.planned,
      a.lateCount + b.lateCount, a.lateSeconds + b.lateSeconds)
  }

  lemma {:induction false} AddLaws(a: Sums, b: Sums, c: Sums)
    ensures Add(a, b) == Add(b, a)
    ensures Add(Add(a, b), c) == Add(a, Add(b, c))
    ensures Add(Add(a, b), c) == Add(Add(a, c), b)
    ensures Add(a, ZERO) == a == Add(ZERO, a)
  {}

  // A row with the two fields computed after summing.
  datatype Row = Row(sums: Sums, delta: int, missingRate: bool)

  function RowOf(s: Sums): Row {
    Row(s, s.gross - s.planned, s.unpaidShifts > 0)
  }

  // The value of a whole list.
  function SumOf(shifts: seq<WorkShift>, pay: WorkShift -> Sums): Sums {
    if shifts == [] then ZERO
    else Add(SumOf(shifts[..|shifts| - 1], pay), pay(shifts[|shifts| - 1]))
  }

  lemma {:induction false} SumOfStep(shifts: seq<WorkShift>, i: nat, pay: WorkShift -> Sums)
    requires i < |shifts|
    ensures SumOf(shifts[..i + 1], pay) == Add(SumOf(shifts[..i], pay), pay(shifts[i]))
  {
    assert shifts[..i + 1][..i] == shifts[..i];
  }

  lemma {:induction false} SumOfAppend(shifts: seq<WorkShift>, sh: WorkShift, pay: WorkShift -> Sums)
    ensures SumOf(shifts + [sh], pay) == Add(SumOf(shifts, pay), pay(sh))
  {
    assert (shifts + [sh])[..|shifts|] == shifts;
  }

  lemma {:induction false} SumOfConcat(a: seq<WorkShift>, b: seq<WorkShift>, pay: WorkShift -> Sums)
    ensures SumOf(a + b, pay) == Add(SumOf(a, pay), SumOf(b, pay))
    decreases |b|
  {
    if b == [] {
      assert a + b == a;
      AddLaws(SumOf(a, pay), ZERO, ZERO);
    } else {
      var front := b[..|b| - 1];
      SumOfConcat(a, front, pay);
      assert (a + b)[..|a + b| - 1] == a + front;
      AddLaws(SumOf(a, pay), SumOf(front, pay), pay(b[|b| - 1]));
    }
  }

  // ----- Local days ----------------------------------------------------------------------

  // The local day of a moment; the time zone is a parameter.
  type Zone = int -> Date

  ghost predicate ValidZone(zone: Zone) {
    forall x :: Valid(zone(x))
  }

  ghost function DaysOf(shifts: seq<WorkShift>, zone: Zone): set<Date> {
    set sh | sh in shifts :: zone(sh.start)
  }

  // The value of the shifts whose day is in the set.
  ghost function SumOn(shifts: seq<WorkShift>, pay: WorkShift -> Sums, zone: Zone, days: set<Date>): Sums {
    if shifts == [] then ZERO
    else
      var sh := shifts[|shifts| - 1];
      var front := SumOn(shifts[..|shifts| - 1], pay, zone, days);
      if zone(sh.start) in days then Add(front, pay(sh)) else front
  }

  lemma {:induction false} SumOnUnion(shifts: seq<WorkShift>, pay: WorkShift -> Sums, zone: Zone, a: set<Date>,
      b: set<Date>)
    requires a !! b
    ensures SumOn(shifts, pay, zone, a + b) == Add(SumOn(shifts, pay, zone, a), SumOn(shifts, pay, zone, b))
  {
    if shifts != [] {
      var front, sh := shifts[..|shifts| - 1], shifts[|shifts| - 1];
      SumOnUnion(front, pay, zone, a, b);
      AddLaws(SumOn(front, pay, zone, a), SumOn(front, pay, zone, b), pay(sh));
    }
  }

  lemma {:induction false} SumOnAllDays(shifts: seq<WorkShift>, pay: WorkShift -> Sums, zone: Zone, days: set<Date>)
    requires DaysOf(shifts, zone) <= days
    ensures SumOn(shifts, pay, zone, days) == SumOf(shifts, pay)
  {
    if shifts != [] {
      var front := shifts[..|shifts| - 1];
      forall d | d in DaysOf(front, zone) ensures d in days {
        var sh :| sh in front && zone(sh.start) == d;
        assert sh in shifts;
      }
      SumOnAllDays(front, pay, zone, days);
      assert zone(shifts[|shifts| - 1].start) in DaysOf(shifts, zone);
    }
  }

  lemma {:induction false} SumOnNoDay(shifts: seq<WorkShift>, pay: WorkShift -> Sums, zone: Zone)
    ensures SumOn(shifts, pay, zone, {}) == ZERO
  {
    if shifts != [] {
      SumOnNoDay(shifts[..|shifts| - 1], pay, zone);
    }
  }

  // The shifts of one day, in the order of the list.
  function OnDay(shifts: seq<WorkShift>, zone: Zone, day: Date): seq<WorkShift> {
    if shifts == [] then []
    else
      var sh := shifts[|shifts| - 1];
      OnDay(shifts[..|shifts| - 1], zone, day) + if zone(sh.start) == day then [sh] else []
  }

  lemma {:induction false} SumOnOneDay(shifts: seq<WorkShift>, pay: WorkShift -> Sums, zone: Zone, day: Date)
    ensures SumOf(OnDay(shifts, zone, day), pay) == SumOn(shifts, pay, zone, {day})
  {
    if shifts != [] {
      var front, sh := shifts[..|shifts| - 1], shifts[|shifts| - 1];
      SumOnOneDay(front, pay, zone, day);
      if zone(sh.start) == day {
        SumOfAppend(OnDay(front, zone, day), sh, pay);
      } else {
        assert OnDay(shifts, zone, day) == OnDay(front, zone, day);
      }
    }
  }

  // Unpaid shifts are counted, never uncounted.
  ghost predicate CountsUp(pay: WorkShift -> Sums) {
    forall sh :: 0 <= pay(sh).unpaidShifts
  }

  lemma {:induction false} UnpaidOn(shifts: seq<WorkShift>, pay: WorkShift -> Sums, zone: Zone, days: set<Date>)
    requires CountsUp(pay)
    ensures 0 <= SumOn(shifts, pay, zone, days).unpaidShifts
  {
    if shifts != [] {
      UnpaidOn(shifts[..|shifts| - 1], pay, zone, days);
    }
  }
}
