// The proleptic Gregorian calendar that periods and report buckets are counted in:
// day numbers, the calendar month shift with its end-of-month clamp, and bucket starts.

module Calendar {

  datatype Date = Date(year: int, month: int, day: int)

  // A moment is a date and the number of seconds since its midnight.
  datatype DateTime = DateTime(date: Date, time: int)

  datatype Granularity = Day | Week | Month

  const SECONDS_PER_DAY := 86400

  predicate Leap(year: int) {
    year % 4 == 0 && (year % 100 != 0 || year % 400 == 0)
  }

  function DaysInMonth(year: int, month: int): (n: int)
    requires 1 <= month <= 12
    ensures 28 <= n <= 31
  {
    if month == 2 then (if Leap(year) then 29 else 28)
    else if month in {4, 6, 9, 11} then 30
    else 31
  }

  predicate Valid(d: Date) {
    1 <= d.year && 1 <= d.month <= 12 && 1 <= d.day <= DaysInMonth(d.year, d.month)
  }

  predicate ValidTime(t: DateTime) {
    Valid(t.date) && 0 <= t.time < SECONDS_PER_DAY
  }

  // ----- Order and day numbers -----------------------------------------------------------

  predicate Before(a: Date, b: Date) {
    a.year < b.year
    || (a.year == b.year && a.month < b.month)
    || (a.year == b.year && a.month == b.month && a.day < b.day)
  }

  predicate AtMost(a: Date, b: Date) {
    a == b || Before(a, b)
  }

  function DaysBeforeYear(year: int): int {
    365 * (year - 1) + (year - 1) / 4 - (year - 1) / 100 + (year - 1) / 400
  }

  // Days of the year before the month, as in a common year plus the leap day.
  function DaysBeforeMonth(year: int, month: int): int
    requires 1 <= month <= 12
  {
    [0, 31, 59, 90, 120, 151, 181, 212, 243, 273, 304, 334][month - 1]
    + if 2 < month && Leap(year) then 1 else 0
  }

  // Day 1 is 1 January of year 1, a Monday.
  function Ordinal(d: Date): int
    requires 1 <= d.month <= 12
  {
    DaysBeforeYear(d.year) + DaysBeforeMonth(d.year, d.month) + d.day
  }

  function Instant(t: DateTime): int
    requires 1 <= t.date.month <= 12
  {
    Ordinal(t.date) * SECONDS_PER_DAY + t.time
  }

  lemma {:induction false} YearLength(year: int)
    ensures DaysBeforeYear(year + 1) == DaysBeforeYear(year) + DaysInYear(year)
  {
    var y := year - 1;
    assert (y + 1) / 4 == y / 4 + (if year % 4 == 0 then 1 else 0);
    assert (y + 1) / 100 == y / 100 + (if year % 100 == 0 then 1 else 0);
    assert (y + 1) / 400 == y / 400 + (if year % 400 == 0 then 1 else 0);
    assert year % 400 == 0 ==> year % 100 == 0;
    assert year % 100 == 0 ==> year % 4 == 0;
  }

  lemma {:induction false} YearsGrow(a: int, b: int)
    requires a < b
    ensures DaysBeforeYear(a + 1) <= DaysBeforeYear(b)
    decreases b - a
  {
    if a + 1 < b {
      YearsGrow(a, b - 1);
      YearLength(b - 1);
    }
  }

  function DaysInYear(year: int): int {
    if Leap(year) then 366 else 365
  }

  lemma {:induction false} MonthEnd(year: int, month: int)
    requires 1 <= month <= 12
    ensures DaysBeforeMonth(year, month) + DaysInMonth(year, month)
            == if month == 12 then DaysInYear(year) else DaysBeforeMonth(year, month + 1)
  {}

  lemma {:induction false} MonthsGrow(year: int, a: int, b: int)
    requires 1 <= a <= b <= 12
    ensures 0 <= DaysBeforeMonth(year, a) <= DaysBeforeMonth(year, b)
    ensures a < b ==> DaysBeforeMonth(year, a) + DaysInMonth(year, a) <= DaysBeforeMonth(year, b)
    ensures DaysBeforeMonth(year, b) + DaysInMonth(year, b) <= DaysInYear(year)
  {}

  // Day numbers and the calendar order of dates are the same order.
  lemma {:induction false} OrdinalOrder(a: Date, b: Date)
    requires Valid(a) && Valid(b)
    ensures Before(a, b) <==> Ordinal(a) < Ordinal(b)
    ensures a == b <==> Ordinal(a) == Ordinal(b)
  {
    if Before(a, b) {
      OrdinalGrows(a, b);
    } else if Before(b, a) {
      OrdinalGrows(b, a);
    }
  }

  lemma {:induction false} OrdinalGrows(a: Date, b: Date)
    requires Valid(a) && Valid(b) && Before(a, b)
    ensures Ordinal(a) < Ordinal(b)
  {
    if a.year < b.year {
      YearsGrow(a.year, b.year);
      YearLength(a.year);
      MonthsGrow(a.year, a.month, a.month);
      MonthsGrow(b.year, b.month, b.month);
    } else if a.month < b.month {
      MonthsGrow(a.year, a.month, b.month);
    }
  }

  lemma {:induction false} OrdinalPositive(d: Date)
    requires Valid(d)
    ensures 1 <= Ordinal(d)
  {
    OrdinalOrder(Date(1, 1, 1), d);
  }

  // ----- Calendar month shift ------------------------------------------------------------

  function AddMonths(d: Date, months: int): Date
    requires 1 <= d.month <= 12
  {
    var index := d.month - 1 + months;
    var year := d.year + index / 12;
    var month := index % 12 + 1;
    var last := DaysInMonth(year, month);
    Date(year, month, if d.day < last then d.day else last)
  }

  function ShiftMonths(t: DateTime, months: int): DateTime
    requires 1 <= t.date.month <= 12
  {
    DateTime(AddMonths(t.date, months), t.time)
  }

  // The number of the month since year 0; a shift by n months adds exactly n to it.
  function MonthIndex(d: Date): int {
    12 * d.year + d.month - 1
  }

  lemma {:induction false} AddMonthsShape(d: Date, months: int)
    requires Valid(d) && 12 <= MonthIndex(d) + months
    ensures var r := AddMonths(d, months);
            && Valid(r)
            && MonthIndex(r) == MonthIndex(d) + months
            && r.day <= d.day
            && (r.day != d.day ==> r.day == DaysInMonth(r.year, r.month))
  {}

  lemma {:induction false} SameMonth(a: Date, b: Date)
    requires Valid(a) && Valid(b)
    ensures MonthIndex(a) < MonthIndex(b) ==> Before(a, b)
    ensures MonthIndex(a) == MonthIndex(b) ==> a.year == b.year && a.month == b.month
  {}

  lemma {:induction false} AddMonthsLater(d: Date, months: int)
    requires Valid(d) && 1 <= months
    ensures Valid(AddMonths(d, months)) && Before(d, AddMonths(d, months))
  {
    AddMonthsShape(d, months);
    SameMonth(d, AddMonths(d, months));
  }

  lemma {:induction false} AddMonthsMonotone(a: Date, b: Date, months: int)
    requires Valid(a) && Valid(b) && AtMost(a, b) && 12 <= MonthIndex(a) + months
    ensures AtMost(AddMonths(a, months), AddMonths(b, months))
  {
    assert MonthIndex(a) <= MonthIndex(b);
    AddMonthsShape(a, months);
    AddMonthsShape(b, months);
    SameMonth(AddMonths(a, months), AddMonths(b, months));
    SameMonth(a, b);
  }

  // Two shifts land in the month of one combined shift, never later in it, and on the very
  // same day exactly if the month in between has the day, or is no shorter than the last one.
  lemma {:induction false} AddMonthsTwice(d: Date, first: int, second: int)
    requires Valid(d) && 12 <= MonthIndex(d) + first && 12 <= MonthIndex(d) + first + second
    ensures var mid, once := AddMonths(d, first), AddMonths(d, first + second);
      var twice := AddMonths(mid, second);
      && MonthIndex(twice) == MonthIndex(once)
      && AtMost(twice, once)
      && (twice == once <==>
            d.day <= DaysInMonth(mid.year, mid.month)
            || DaysInMonth(once.year, once.month) <= DaysInMonth(mid.year, mid.month))
  {
    var mid := AddMonths(d, first);
    AddMonthsShape(d, first);
    AddMonthsShape(mid, second);
    AddMonthsShape(d, first + second);
    SameMonth(AddMonths(mid, second), AddMonths(d, first + second));
  }

  // In particular nothing is lost when every month has the day.
  lemma {:induction false} EarlyDaysShiftExactly(d: Date, first: int, second: int)
    requires Valid(d) && 12 <= MonthIndex(d) + first && 12 <= MonthIndex(d) + first + second && d.day <= 28
    ensures AddMonths(AddMonths(d, first), second) == AddMonths(d, first + second)
  {
    AddMonthsShape(d, first);
    AddMonthsTwice(d, first, second);
  }

  // The clamp really loses days: the two-step shift can be strictly earlier.
  lemma {:induction false} AddMonthsTwiceCanBeEarlier()
    ensures Before(AddMonths(AddMonths(Date(2023, 1, 31), 1), 1), AddMonths(Date(2023, 1, 31), 2))
  {}

  lemma {:induction false} InstantOrder(a: DateTime, b: DateTime)
    requires ValidTime(a) && ValidTime(b)
    ensures Instant(a) < Instant(b) <==> Before(a.date, b.date) || (a.date == b.date && a.time < b.time)
    ensures Instant(a) == Instant(b) <==> a == b
  {
    OrdinalOrder(a.date, b.date);
    OrdinalOrder(b.date, a.date);
  }

  // On moments with a time of day the shift is not monotone. It swaps two ordered moments in
  // exactly one situation: both lie in one month, on days that the target month clamps to the
  // same last day, and the earlier one has the later time of day.
  lemma {:induction false} ShiftSwapsExactlyWhenClamped(a: DateTime, b: DateTime, months: int)
    requires ValidTime(a) && ValidTime(b) && Instant(a) < Instant(b) && 12 <= MonthIndex(a.date) + months
    ensures var target := AddMonths(a.date, months);
            Instant(ShiftMonths(b, months)) < Instant(ShiftMonths(a, months))
            <==> MonthIndex(a.date) == MonthIndex(b.date)
                 && DaysInMonth(target.year, target.month) <= a.date.day < b.date.day
                 && b.time < a.time
  {
    InstantOrder(a, b);
    AddMonthsShape(a.date, months);
    AddMonthsShape(b.date, months);
    SameMonth(a.date, b.date);
    SameMonth(b.date, a.date);
    AddMonthsMonotone(a.date, b.date, months);
    SameMonth(AddMonths(a.date, months), AddMonths(b.date, months));
    InstantOrder(ShiftMonths(b, months), ShiftMonths(a, months));
  }

  lemma {:induction false} ShiftMonthsLater(t: DateTime, months: int)
    requires ValidTime(t) && 1 <= months
    ensures ValidTime(ShiftMonths(t, months)) && Instant(t) < Instant(ShiftMonths(t, months))
  {
    AddMonthsLater(t.date, months);
    InstantOrder(t, ShiftMonths(t, months));
  }

  // ----- Days ahead ----------------------------------------------------------------------

  function NextDay(d: Date): Date
    requires Valid(d)
  {
    if d.day < DaysInMonth(d.year, d.month) then d.(day := d.day + 1)
    else if d.month < 12 then Date(d.year, d.month + 1, 1)
    else Date(d.year + 1, 1, 1)
  }

  lemma {:induction false} NextDayOrdinal(d: Date)
    requires Valid(d)
    ensures Valid(NextDay(d)) && Ordinal(NextDay(d)) == Ordinal(d) + 1
  {
    MonthEnd(d.year, d.month);
    YearLength(d.year);
  }

  function PlusDays(d: Date, days: nat): (r: Date)
    requires Valid(d)
    ensures Valid(r) && Ordinal(r) == Ordinal(d) + days
    decreases days
  {
    if days == 0 then d
    else
      NextDayOrdinal(d);
      PlusDays(NextDay(d), days - 1)
  }

  // The later of two moments.
  function Later(a: DateTime, b: DateTime): DateTime
    requires ValidTime(a) && ValidTime(b)
  {
    if Instant(a) < Instant(b) then b else a
  }

  // ----- Report buckets ------------------------------------------------------------------

  function PreviousDay(d: Date): Date
    requires Valid(d)
  {
    if 1 < d.day then d.(day := d.day - 1)
    else if 1 < d.month then Date(d.year, d.month - 1, DaysInMonth(d.year, d.month - 1))
    else Date(d.year - 1, 12, 31)
  }

  lemma {:induction false} NewYearsEve(year: int)
    ensures DaysBeforeYear(year - 1) + DaysBeforeMonth(year - 1, 12) + 31 == DaysBeforeYear(year)
  {
    YearLength(year - 1);
    MonthEnd(year - 1, 12);
  }

  lemma {:induction false} PreviousDayOrdinal(d: Date)
    requires Valid(d) && 1 < Ordinal(d)
    ensures Valid(PreviousDay(d)) && Ordinal(PreviousDay(d)) == Ordinal(d) - 1
  {
    if d.day == 1 && d.month == 1 {
      assert DaysBeforeMonth(d.year, 1) == 0;
      assert d.year != 1;
      NewYearsEve(d.year);
    } else if d.day == 1 {
      MonthEnd(d.year, d.month - 1);
    }
  }

  // The date `days` days earlier; the recursive calls' contracts carry the day number.
  function MinusDays(d: Date, days: nat): (r: Date)
    requires Valid(d) && days < Ordinal(d)
    ensures Valid(r) && Ordinal(r) == Ordinal(d) - days
    decreases days
  {
    if days == 0 then d
    else
      PreviousDayOrdinal(d);
      MinusDays(PreviousDay(d), days - 1)
  }

  // Monday is 0; day number 1 is a Monday.
  function WeekdayOf(ordinal: int): (w: nat)
    requires 1 <= ordinal
    ensures w < 7 && w < ordinal
  {
    (ordinal + 6) % 7
  }

  function Weekday(d: Date): nat
    requires Valid(d)
  {
    OrdinalPositive(d);
    WeekdayOf(Ordinal(d))
  }

  lemma {:induction false} WeekStartIsMonday(ordinal: int)
    requires 1 <= ordinal
    ensures WeekdayOf(ordinal - WeekdayOf(ordinal)) == 0
  {}

  lemma {:induction false} WeekStartMonotone(a: int, b: int)
    requires 1 <= a <= b
    ensures a - WeekdayOf(a) <= b - WeekdayOf(b)
  {}

  function BucketStart(d: Date, granularity: Granularity): Date
    requires Valid(d)
  {
    match granularity
    case Day => d
    case Week => MinusDays(d, Weekday(d))
    case Month => d.(day := 1)
  }

  lemma {:induction false} WeekStartShape(d: Date)
    requires Valid(d)
    ensures var s := BucketStart(d, Week);
            Valid(s) && Ordinal(d) - 6 <= Ordinal(s) <= Ordinal(d) && Weekday(s) == 0
  {
    OrdinalPositive(d);
    WeekStartIsMonday(Ordinal(d));
  }

  // A bucket start is a valid date not after the day, it is its own bucket start, and a
  // week starts on a Monday at most six days before, a month on the first of that month.
  lemma {:induction false} BucketStartShape(d: Date, g: Granularity)
    requires Valid(d)
    ensures Valid(BucketStart(d, g)) && AtMost(BucketStart(d, g), d)
    ensures BucketStart(BucketStart(d, g), g) == BucketStart(d, g)
    ensures g.Month? ==> BucketStart(d, g).day == 1 && MonthIndex(BucketStart(d, g)) == MonthIndex(d)
  {
    if g.Week? {
      WeekStartShape(d);
      OrdinalOrder(BucketStart(d, g), d);
    }
  }

  // Buckets are contiguous: the bucket start is monotone in the day.
  lemma {:induction false} BucketStartMonotone(a: Date, b: Date, g: Granularity)
    requires Valid(a) && Valid(b) && AtMost(a, b)
    ensures AtMost(BucketStart(a, g), BucketStart(b, g))
  {
    if g.Week? {
      OrdinalPositive(a);
      OrdinalOrder(a, b);
      WeekStartMonotone(Ordinal(a), Ordinal(b));
      OrdinalOrder(MinusDays(a, Weekday(a)), MinusDays(b, Weekday(b)));
    }
  }
}
