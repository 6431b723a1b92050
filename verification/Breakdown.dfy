// The breakdown of an employee's shifts into day, week or month buckets, and its agreement
// with the flat computation.

module Breakdown {
  import opened Calendar
  import opened Sequences
  import Sorting
  import opened ShiftSums
  import opened Earnings

  datatype BucketRow = BucketRow(start: Date, row: Row)

  // How days are put into buckets: the start of the bucket of a day.
  type Bucketing = Date -> Date

  function BucketsBy(g: Granularity): Bucketing {
    d => if Valid(d) then BucketStart(d, g) else d
  }

  // The bucket of a day starts on the day itself, on the Monday at most six days before it, or
  // on the first of its month.
  lemma {:induction false} BucketsFollowTheCalendar(g: Granularity, d: Date)
    requires Valid(d)
    ensures var start := BucketsBy(g)(d);
      && Valid(start)
      && match g
         case Day => start == d
         case Week => Weekday(start) == 0 && Ordinal(d) - 6 <= Ordinal(start) <= Ordinal(d)
         case Month => start.year == d.year && start.month == d.month && start.day == 1
  {
    BucketStartShape(d, g);
    WeekStartShape(d);
  }

  // The days that fall into a bucket starting on one of the given dates.
  ghost function DaysAt(days: set<Date>, bucketOf: Bucketing, starts: set<Date>): set<Date> {
    set d | d in days && bucketOf(d) in starts
  }

  // What a breakdown is: the bucket starts strictly increase, they are exactly the starts of
  // the shifts' days, and each row is the computation over the shifts of its bucket.
  ghost predicate IsBreakdown(shifts: seq<WorkShift>, pay: WorkShift -> Sums, zone: Zone, bucketOf: Bucketing,
      rows: seq<BucketRow>)
  {
    && Increasing(StartsOf(rows))
    && (forall b :: b in StartsOf(rows) <==> IsStart(DaysOf(shifts, zone), bucketOf, b))
    && (forall i {:trigger IsRowOf(rows[i], shifts, pay, zone, bucketOf)} :: 0 <= i < |rows| ==>
          IsRowOf(rows[i], shifts, pay, zone, bucketOf))
  }

  // The row is the computation over the shifts whose days fall into its bucket.
  ghost predicate IsRowOf(r: BucketRow, shifts: seq<WorkShift>, pay: WorkShift -> Sums, zone: Zone,
      bucketOf: Bucketing)
  {
    && r.row.sums == SumOn(shifts, pay, zone, DaysAt(DaysOf(shifts, zone), bucketOf, {r.start}))
    && r.row.delta == r.row.sums.gross - r.row.sums.planned
    && (r.row.missingRate <==> r.row.sums.unpaidShifts > 0)
  }

  function StartsOf(rows: seq<BucketRow>): (r: seq<Date>)
    ensures |r| == |rows| && forall i :: 0 <= i < |r| ==> r[i] == rows[i].start
  {
    if rows == [] then [] else StartsOf(rows[..|rows| - 1]) + [rows[|rows| - 1].start]
  }

  ghost predicate IsStart(days: set<Date>, bucketOf: Bucketing, b: Date) {
    exists d :: d in days && bucketOf(d) == b
  }

  // ----- Sorting the bucket starts -------------------------------------------------------

  predicate Increasing(dates: seq<Date>) {
    forall i, j :: 0 <= i < j < |dates| ==> Before(dates[i], dates[j])
  }

  lemma {:induction false} BeforeIsTotal(a: Date, b: Date, c: Date)
    ensures Before(a, b) || a == b || Before(b, a)
    ensures Before(a, b) && Before(b, c) ==> Before(a, c)
    ensures !Before(a, a)
  {}

  lemma {:induction false} DatesAreOrdered()
    ensures Sorting.StrictOrder(Before)
  {
    forall x, y, z ensures !Before(x, x) && (Before(x, y) && Before(y, z) ==> Before(x, z)) {
      BeforeIsTotal(x, y, z);
    }
  }

  lemma {:induction false} InsertDateIncreasing(dates: seq<Date>, d: Date)
    requires Increasing(dates) && d !in dates
    ensures Increasing(Sorting.Insert(dates, d, Before))
  {
    DatesAreOrdered();
    forall i | 0 <= i < |dates| ensures Before(dates[i], d) || Before(d, dates[i]) {
      BeforeIsTotal(dates[i], d, d);
    }
    Sorting.InsertedIsSorted(dates, d, Before);
  }

  method SortDates(dates: set<Date>) returns (sorted: seq<Date>)
    ensures Increasing(sorted)
    ensures forall d :: d in sorted <==> d in dates
  {
    sorted := [];
    var todo := dates;
    while todo != {}
      invariant todo <= dates && Increasing(sorted)
      invariant forall d :: d in sorted <==> d in dates - todo
      decreases todo
    {
      var d :| d in todo;
      InsertDateIncreasing(sorted, d);
      forall x ensures x in Sorting.Insert(sorted, d, Before) <==> x in sorted || x == d {
        Sorting.InsertMembers(sorted, d, Before, x);
      }
      sorted := Sorting.Insert(sorted, d, Before);
      todo := todo - {d};
    }
  }

  // Two increasing lists with the same members are the same list.
  lemma {:induction false} SameIncreasing(a: seq<Date>, b: seq<Date>)
    requires Increasing(a) && Increasing(b) && forall d :: d in a <==> d in b
    ensures a == b
  {
    DatesAreOrdered();
    Sorting.SortedIsUnique(a, b, Before);
  }

  // ----- _build_breakdown ----------------------------------------------------------------

  lemma {:induction false} DaysOfStep(shifts: seq<WorkShift>, i: nat, zone: Zone)
    requires i < |shifts|
    ensures DaysOf(shifts[..i + 1], zone) == DaysOf(shifts[..i], zone) + {zone(shifts[i].start)}
    ensures forall d :: OnDay(shifts[..i + 1], zone, d)
              == OnDay(shifts[..i], zone, d) + if zone(shifts[i].start) == d then [shifts[i]] else []
  {
    assert shifts[..i + 1] == shifts[..i] + [shifts[i]];
    assert shifts[..i + 1][..i] == shifts[..i];
  }

  lemma {:induction false} OnOtherDays(shifts: seq<WorkShift>, zone: Zone, day: Date)
    requires day !in DaysOf(shifts, zone)
    ensures OnDay(shifts, zone, day) == []
  {
    if shifts != [] {
      var front, sh := shifts[..|shifts| - 1], shifts[|shifts| - 1];
      assert shifts == front + [sh];
      OnOtherDays(front, zone, day);
    }
  }

  // Shifts by local day, with the days in the order of first appearance.
  method GroupByDay(shifts: seq<WorkShift>, zone: Zone) returns (order: seq<Date>, byDay: map<Date, seq<WorkShift>>)
    ensures Distinct(order) && byDay.Keys == DaysOf(shifts, zone)
    ensures forall d :: d in order <==> d in byDay
    ensures forall d :: d in byDay ==> byDay[d] == OnDay(shifts, zone, d)
  {
    order, byDay := [], map[];
    for i := 0 to |shifts|
      invariant Distinct(order) && byDay.Keys == DaysOf(shifts[..i], zone)
      invariant forall d :: d in order <==> d in byDay
      invariant forall d :: d in byDay ==> byDay[d] == OnDay(shifts[..i], zone, d)
    {
      DaysOfStep(shifts, i, zone);
      var day := zone(shifts[i].start);
      if day !in byDay {
        OnOtherDays(shifts[..i], zone, day);
        order := order + [day];
        byDay := byDay[day := []];
      }
      byDay := byDay[day := byDay[day] + [shifts[i]]];
    }
    assert shifts[..|shifts|] == shifts;
  }

  // The accumulators of one bucket.
  datatype Bucket = Bucket(sums: Sums, missingRate: bool)

  const EMPTY_BUCKET := Bucket(ZERO, false)

  // The accumulator holds the sums of the given days.
  ghost predicate IsBucket(acc: Bucket, shifts: seq<WorkShift>, pay: WorkShift -> Sums, zone: Zone, days: set<Date>) {
    && acc.sums == SumOn(shifts, pay, zone, days)
    && acc.missingRate == (acc.sums.unpaidShifts > 0)
  }

  // The buckets hold the sums of the days done so far, and no bucket is empty.
  ghost predicate BucketsOf(buckets: map<Date, Bucket>, shifts: seq<WorkShift>, pay: WorkShift -> Sums, zone: Zone,
      bucketOf: Bucketing, done: set<Date>)
  {
    && (forall b :: b in buckets <==> IsStart(done, bucketOf, b))
    && (forall b {:trigger IsBucket(buckets[b], shifts, pay, zone, DaysAt(done, bucketOf, {b}))} ::
          b in buckets ==> IsBucket(buckets[b], shifts, pay, zone, DaysAt(done, bucketOf, {b})))
  }

  lemma {:induction false} JoinDays(shifts: seq<WorkShift>, pay: WorkShift -> Sums, zone: Zone, a: set<Date>,
      b: set<Date>, both: set<Date>)
    requires CountsUp(pay) && a !! b && both == a + b
    ensures SumOn(shifts, pay, zone, both) == Add(SumOn(shifts, pay, zone, a), SumOn(shifts, pay, zone, b))
    ensures 0 <= SumOn(shifts, pay, zone, a).unpaidShifts && 0 <= SumOn(shifts, pay, zone, b).unpaidShifts
  {
    SumOnUnion(shifts, pay, zone, a, b);
    UnpaidOn(shifts, pay, zone, a);
    UnpaidOn(shifts, pay, zone, b);
  }

  // A day's row added to an accumulator of other days.
  function AddDay(acc: Bucket, daily: Row): Bucket {
    Bucket(Add(acc.sums, daily.sums), acc.missingRate || daily.missingRate)
  }

  lemma {:induction false} AddDayIsBucket(acc: Bucket, shifts: seq<WorkShift>, pay: WorkShift -> Sums, zone: Zone,
      days: set<Date>, day: Date, both: set<Date>)
    requires CountsUp(pay) && day !in days && both == days + {day} && IsBucket(acc, shifts, pay, zone, days)
    ensures IsBucket(AddDay(acc, RowOf(SumOf(OnDay(shifts, zone, day), pay))), shifts, pay, zone, both)
  {
    var before, daily, after := SumOn(shifts, pay, zone, days), SumOn(shifts, pay, zone, {day}),
        SumOn(shifts, pay, zone, both);
    assert after == Add(before, daily) && 0 <= before.unpaidShifts && 0 <= daily.unpaidShifts by {
      JoinDays(shifts, pay, zone, days, {day}, both);
    }
    assert SumOf(OnDay(shifts, zone, day), pay) == daily by {
      SumOnOneDay(shifts, pay, zone, day);
    }
    AddRow(acc, before, daily, after);
  }

  lemma {:induction false} AddRow(acc: Bucket, before: Sums, daily: Sums, after: Sums)
    requires after == Add(before, daily) && 0 <= before.unpaidShifts && 0 <= daily.unpaidShifts
    requires acc.sums == before && acc.missingRate == (before.unpaidShifts > 0)
    ensures AddDay(acc, RowOf(daily)).sums == after
    ensures AddDay(acc, RowOf(daily)).missingRate == (after.unpaidShifts > 0)
  {}

  lemma {:induction false} DaysAtStep(done: set<Date>, bucketOf: Bucketing, day: Date, b: Date)
    ensures DaysAt(done + {day}, bucketOf, {b}) == DaysAt(done, bucketOf, {b}) + if bucketOf(day) == b then {day}
        else {}
    ensures IsStart(done + {day}, bucketOf, b) <==> IsStart(done, bucketOf, b) || bucketOf(day) == b
  {
    if IsStart(done, bucketOf, b) {
      var d :| d in done && bucketOf(d) == b;
      assert d in done + {day};
    }
    if bucketOf(day) == b {
      assert day in done + {day};
    }
  }

  function Accumulator(buckets: map<Date, Bucket>, start: Date): Bucket {
    if start in buckets then buckets[start] else EMPTY_BUCKET
  }

  lemma {:induction false} AccumulatorIsBucket(buckets: map<Date, Bucket>, shifts: seq<WorkShift>,
      pay: WorkShift -> Sums, zone: Zone, bucketOf: Bucketing, done: set<Date>, b: Date)
    requires BucketsOf(buckets, shifts, pay, zone, bucketOf, done)
    ensures IsBucket(Accumulator(buckets, b), shifts, pay, zone, DaysAt(done, bucketOf, {b}))
  {
    if b !in buckets {
      assert DaysAt(done, bucketOf, {b}) == {};
      SumOnNoDay(shifts, pay, zone);
    }
  }

  lemma {:induction false} BucketStep(buckets: map<Date, Bucket>, shifts: seq<WorkShift>, pay: WorkShift -> Sums,
      zone: Zone, bucketOf: Bucketing, done: set<Date>, day: Date, buckets': map<Date, Bucket>)
    requires CountsUp(pay) && day !in done && BucketsOf(buckets, shifts, pay, zone, bucketOf, done)
    requires buckets' == buckets[bucketOf(day) :=
      AddDay(Accumulator(buckets, bucketOf(day)), RowOf(SumOf(OnDay(shifts, zone, day), pay)))]
    ensures BucketsOf(buckets', shifts, pay, zone, bucketOf, done + {day})
  {
    var start := bucketOf(day);
    AccumulatorIsBucket(buckets, shifts, pay, zone, bucketOf, done, start);
    forall b ensures b in buckets' <==> IsStart(done + {day}, bucketOf, b) {
      DaysAtStep(done, bucketOf, day, b);
    }
    forall b | b in buckets' ensures IsBucket(buckets'[b], shifts, pay, zone, DaysAt(done + {day}, bucketOf, {b})) {
      DaysAtStep(done, bucketOf, day, b);
      if b == start {
        AddDayIsBucket(Accumulator(buckets, start), shifts, pay, zone, DaysAt(done, bucketOf, {start}), day,
            DaysAt(done + {day}, bucketOf, {start}));
      } else {
        SameDays(buckets[b], shifts, pay, zone, DaysAt(done, bucketOf, {b}), DaysAt(done + {day}, bucketOf, {b}));
      }
    }
  }

  lemma {:induction false} SameDays(acc: Bucket, shifts: seq<WorkShift>, pay: WorkShift -> Sums, zone: Zone,
      days: set<Date>, same: set<Date>)
    requires days == same && IsBucket(acc, shifts, pay, zone, days)
    ensures IsBucket(acc, shifts, pay, zone, same)
  {}

  // The accumulator of the start, made on first use, with the day's row added.
  method AddToBucket(buckets: map<Date, Bucket>, starts: seq<Date>, start: Date, daily: Row)
      returns (buckets': map<Date, Bucket>, starts': seq<Date>)
    requires Distinct(starts) && forall b :: b in starts <==> b in buckets
    ensures buckets' == buckets[start := AddDay(Accumulator(buckets, start), daily)]
    ensures Distinct(starts') && forall b :: b in starts' <==> b in buckets'
  {
    buckets', starts' := buckets, starts;
    if start !in buckets' {
      buckets' := buckets'[start := EMPTY_BUCKET];
      starts' := starts' + [start];
    }
    var acc := buckets'[start];
    buckets' := buckets'[start := Bucket(Add(acc.sums, daily.sums), acc.missingRate || daily.missingRate)];
  }

  // One day's computation added to its bucket.
  method TakeDay(ghost shifts: seq<WorkShift>, t: Terms, ghost zone: Zone, bucketOf: Bucketing, ghost done: set<Date>,
      day: Date, dayShifts: seq<WorkShift>, buckets: map<Date, Bucket>, starts: seq<Date>)
      returns (buckets': map<Date, Bucket>, starts': seq<Date>)
    requires BucketsOf(buckets, shifts, PayOf(t), zone, bucketOf, done)
    requires day !in done && dayShifts == OnDay(shifts, zone, day)
    requires Distinct(starts) && forall b :: b in starts <==> b in buckets
    ensures BucketsOf(buckets', shifts, PayOf(t), zone, bucketOf, done + {day})
    ensures Distinct(starts') && forall b :: b in starts' <==> b in buckets'
  {
    var daily := CalcEarnings(dayShifts, t);
    buckets', starts' := AddToBucket(buckets, starts, bucketOf(day), daily);
    PayCountsUp(t);
    BucketStep(buckets, shifts, PayOf(t), zone, bucketOf, done, day, buckets');
  }

  // All days in their order of appearance; `starts` keeps the order of first use of buckets.
  method FillBuckets(shifts: seq<WorkShift>, t: Terms, zone: Zone, bucketOf: Bucketing, order: seq<Date>,
      byDay: map<Date, seq<WorkShift>>) returns (buckets: map<Date, Bucket>, starts: seq<Date>)
    requires Distinct(order) && byDay.Keys == DaysOf(shifts, zone)
    requires forall d :: d in order <==> d in byDay
    requires forall d :: d in byDay ==> byDay[d] == OnDay(shifts, zone, d)
    ensures BucketsOf(buckets, shifts, PayOf(t), zone, bucketOf, DaysOf(shifts, zone))
    ensures Distinct(starts) && forall b :: b in starts <==> b in buckets
  {
    buckets, starts := map[], [];
    for i := 0 to |order|
      invariant BucketsOf(buckets, shifts, PayOf(t), zone, bucketOf, MembersUpTo(order, i))
      invariant Distinct(starts) && forall b :: b in starts <==> b in buckets
    {
      assert order[i] in byDay;
      MembersStep(order, i);
      buckets, starts := TakeDay(shifts, t, zone, bucketOf, MembersUpTo(order, i), order[i], byDay[order[i]], buckets,
          starts);
    }
    AllMembers(order, DaysOf(shifts, zone));
  }

  ghost function MembersUpTo(dates: seq<Date>, k: nat): set<Date>
    requires k <= |dates|
  {
    set i | 0 <= i < k :: dates[i]
  }

  lemma {:induction false} MembersStep(dates: seq<Date>, k: nat)
    requires k < |dates| && Distinct(dates)
    ensures dates[k] !in MembersUpTo(dates, k)
    ensures MembersUpTo(dates, k + 1) == MembersUpTo(dates, k) + {dates[k]}
  {}

  lemma {:induction false} AllMembers(dates: seq<Date>, all: set<Date>)
    requires forall d :: d in dates <==> d in all
    ensures MembersUpTo(dates, |dates|) == all
  {
    forall d | d in all ensures d in MembersUpTo(dates, |dates|) {
      var i :| 0 <= i < |dates| && dates[i] == d;
    }
  }

  lemma {:induction false} DaysAtUnion(days: set<Date>, bucketOf: Bucketing, seen: set<Date>, b: Date)
    requires b !in seen
    ensures DaysAt(days, bucketOf, seen) !! DaysAt(days, bucketOf, {b})
    ensures DaysAt(days, bucketOf, seen + {b}) == DaysAt(days, bucketOf, seen) + DaysAt(days, bucketOf, {b})
  {}

  // The totals over all buckets, in the order they were created.
  method AggregateBuckets(ghost shifts: seq<WorkShift>, ghost pay: WorkShift -> Sums, ghost zone: Zone,
      ghost bucketOf: Bucketing, buckets: map<Date, Bucket>, starts: seq<Date>) returns (aggregate: Row)
    requires CountsUp(pay) && BucketsOf(buckets, shifts, pay, zone, bucketOf, DaysOf(shifts, zone))
    requires Distinct(starts) && forall b :: b in starts <==> b in buckets
    ensures aggregate == RowOf(SumOf(shifts, pay))
  {
    var sums, missing := ZERO, false;
    ghost var days := DaysOf(shifts, zone);
    SumOnNoDay(shifts, pay, zone);
    assert DaysAt(days, bucketOf, MembersUpTo(starts, 0)) == {};
    for i := 0 to |starts|
      invariant sums == SumOn(shifts, pay, zone, DaysAt(days, bucketOf, MembersUpTo(starts, i)))
      invariant missing == (sums.unpaidShifts > 0)
    {
      var b := starts[i];
      ghost var seen := MembersUpTo(starts, i);
      assert b in buckets;
      MembersStep(starts, i);
      DaysAtUnion(days, bucketOf, seen, b);
      JoinDays(shifts, pay, zone, DaysAt(days, bucketOf, seen), DaysAt(days, bucketOf, {b}),
          DaysAt(days, bucketOf, seen + {b}));
      assert IsBucket(buckets[b], shifts, pay, zone, DaysAt(days, bucketOf, {b}));
      sums := Add(sums, buckets[b].sums);
      missing := missing || buckets[b].missingRate;
    }
    forall d | d in days ensures bucketOf(d) in MembersUpTo(starts, |starts|) {
      assert IsStart(days, bucketOf, bucketOf(d));
      assert bucketOf(d) in starts;
    }
    assert DaysAt(days, bucketOf, MembersUpTo(starts, |starts|)) == days;
    SumOnAllDays(shifts, pay, zone, days);
    aggregate := Row(sums, sums.gross - sums.planned, missing);
  }

  // One report row per bucket, in the order of the sorted starts.
  method BucketRows(buckets: map<Date, Bucket>, sorted: seq<Date>) returns (rows: seq<BucketRow>)
    requires forall d :: d in sorted <==> d in buckets
    ensures |rows| == |sorted|
    ensures forall j :: 0 <= j < |rows| ==>
              sorted[j] in buckets
              && var acc := buckets[sorted[j]];
                 rows[j] == BucketRow(sorted[j], Row(acc.sums, acc.sums.gross - acc.sums.planned, acc.missingRate))
  {
    rows := [];
    for i := 0 to |sorted|
      invariant |rows| == i
      invariant forall j :: 0 <= j < i ==>
                  sorted[j] in buckets
                  && var acc := buckets[sorted[j]];
                     rows[j] == BucketRow(sorted[j], Row(acc.sums, acc.sums.gross - acc.sums.planned, acc.missingRate))
    {
      assert sorted[i] in sorted;
      var acc := buckets[sorted[i]];
      rows := rows + [BucketRow(sorted[i], Row(acc.sums, acc.sums.gross - acc.sums.planned, acc.missingRate))];
    }
  }

  // _build_breakdown: the rows are a breakdown, and the aggregate is the flat computation
  // over all shifts, in every field, for every zone and granularity.
  method BuildBreakdown(shifts: seq<WorkShift>, t: Terms, zone: Zone, bucketOf: Bucketing)
      returns (rows: seq<BucketRow>, aggregate: Row)
    ensures IsBreakdown(shifts, PayOf(t), zone, bucketOf, rows)
    ensures aggregate == RowOf(EarningsOf(shifts, t))
  {
    var order, byDay := GroupByDay(shifts, zone);
    var buckets, starts := FillBuckets(shifts, t, zone, bucketOf, order, byDay);
    var sorted := SortDates(buckets.Keys);
    rows := BucketRows(buckets, sorted);
    assert StartsOf(rows) == sorted;
    forall i | 0 <= i < |rows|
      ensures IsRowOf(rows[i], shifts, PayOf(t), zone, bucketOf)
    {
      assert IsBucket(buckets[sorted[i]], shifts, PayOf(t), zone, DaysAt(DaysOf(shifts, zone), bucketOf, {sorted[i]}));
    }
    PayCountsUp(t);
    aggregate := AggregateBuckets(shifts, PayOf(t), zone, bucketOf, buckets, starts);
  }

  // ----- What follows from being a breakdown ---------------------------------------------

  // The shifts, their values, the zone and the bucketing determine the breakdown.
  lemma {:induction false} BreakdownIsUnique(shifts: seq<WorkShift>, pay: WorkShift -> Sums, zone: Zone,
      bucketOf: Bucketing, a: seq<BucketRow>, b: seq<BucketRow>)
    requires IsBreakdown(shifts, pay, zone, bucketOf, a) && IsBreakdown(shifts, pay, zone, bucketOf, b)
    ensures a == b
  {
    SameIncreasing(StartsOf(a), StartsOf(b));
    forall i | 0 <= i < |a| ensures a[i] == b[i] {
      assert StartsOf(a)[i] == StartsOf(b)[i];
      assert IsRowOf(a[i], shifts, pay, zone, bucketOf) && IsRowOf(b[i], shifts, pay, zone, bucketOf);
    }
  }

  // Sum of the day rows whose date falls into the bucket.
  function RollUp(days: seq<BucketRow>, bucketOf: Bucketing, bucket: Date): Sums {
    if days == [] then ZERO
    else
      var last := days[|days| - 1];
      var front := RollUp(days[..|days| - 1], bucketOf, bucket);
      if bucketOf(last.start) == bucket then Add(front, last.row.sums) else front
  }

  ghost function StartsUpTo(days: seq<BucketRow>, k: nat): set<Date>
    requires k <= |days|
  {
    set i | 0 <= i < k :: days[i].start
  }

  // A bucketing that leaves every day its own bucket.
  ghost predicate Daily(bucketOf: Bucketing, days: set<Date>) {
    forall d :: d in days ==> bucketOf(d) == d
  }

  lemma {:induction false} DayRow(shifts: seq<WorkShift>, pay: WorkShift -> Sums, zone: Zone, daily: Bucketing,
      days: seq<BucketRow>, i: nat)
    requires IsBreakdown(shifts, pay, zone, daily, days) && Daily(daily, DaysOf(shifts, zone)) && i < |days|
    ensures days[i].start in DaysOf(shifts, zone)
    ensures days[i].row.sums == SumOn(shifts, pay, zone, {days[i].start})
  {
    var day := days[i].start;
    assert StartsOf(days)[i] in StartsOf(days);
    assert IsStart(DaysOf(shifts, zone), daily, day);
    assert IsRowOf(days[i], shifts, pay, zone, daily);
    assert DaysAt(DaysOf(shifts, zone), daily, {day}) == {day};
  }

  lemma {:induction false} DayRowIsNew(days: seq<BucketRow>, k: nat)
    requires k < |days| && Increasing(StartsOf(days))
    ensures days[k].start !in StartsUpTo(days, k)
    ensures StartsUpTo(days, k + 1) == StartsUpTo(days, k) + {days[k].start}
  {
    forall i | 0 <= i < k ensures days[i].start != days[k].start {
      assert Before(StartsOf(days)[i], StartsOf(days)[k]);
      BeforeIsTotal(days[k].start, days[k].start, days[k].start);
    }
  }

  lemma {:induction false} RollUpPrefix(shifts: seq<WorkShift>, pay: WorkShift -> Sums, zone: Zone, daily: Bucketing,
      days: seq<BucketRow>, k: nat, bucketOf: Bucketing, bucket: Date)
    requires IsBreakdown(shifts, pay, zone, daily, days) && Daily(daily, DaysOf(shifts, zone)) && k <= |days|
    ensures RollUp(days[..k], bucketOf, bucket)
        == SumOn(shifts, pay, zone, DaysAt(StartsUpTo(days, k), bucketOf, {bucket}))
    decreases k
  {
    if k == 0 {
      SumOnNoDay(shifts, pay, zone);
      assert DaysAt(StartsUpTo(days, 0), bucketOf, {bucket}) == {};
    } else {
      RollUpPrefix(shifts, pay, zone, daily, days, k - 1, bucketOf, bucket);
      assert days[..k][..k - 1] == days[..k - 1];
      DayRowIsNew(days, k - 1);
      DayRow(shifts, pay, zone, daily, days, k - 1);
      RollUpStep(shifts, pay, zone, StartsUpTo(days, k - 1), days[k - 1].start, bucketOf, bucket);
    }
  }

  lemma {:induction false} RollUpStep(shifts: seq<WorkShift>, pay: WorkShift -> Sums, zone: Zone, done: set<Date>,
      day: Date, bucketOf: Bucketing, bucket: Date)
    requires day !in done
    ensures var before, after := DaysAt(done, bucketOf, {bucket}), DaysAt(done + {day}, bucketOf, {bucket});
            SumOn(shifts, pay, zone, after) ==
              if bucketOf(day) == bucket then Add(SumOn(shifts, pay, zone, before), SumOn(shifts, pay, zone, {day}))
              else SumOn(shifts, pay, zone, before)
  {
    DaysAtStep(done, bucketOf, day, bucket);
    var before := DaysAt(done, bucketOf, {bucket});
    if bucketOf(day) == bucket {
      SumOnUnion(shifts, pay, zone, before, {day});
    } else {
      assert before + {} == before;
    }
  }

  lemma {:induction false} AllDaysHaveRows(shifts: seq<WorkShift>, pay: WorkShift -> Sums, zone: Zone,
      daily: Bucketing, days: seq<BucketRow>)
    requires IsBreakdown(shifts, pay, zone, daily, days) && Daily(daily, DaysOf(shifts, zone))
    ensures StartsUpTo(days, |days|) == DaysOf(shifts, zone)
  {
    forall d | d in DaysOf(shifts, zone) ensures d in StartsUpTo(days, |days|) {
      assert IsStart(DaysOf(shifts, zone), daily, d);
      var i :| 0 <= i < |days| && StartsOf(days)[i] == d;
      assert days[i].start == d;
    }
    forall i | 0 <= i < |days| ensures days[i].start in DaysOf(shifts, zone) {
      DayRow(shifts, pay, zone, daily, days, i);
    }
  }

  // Rolling the day rows up by the bucketing gives the rows of the coarser breakdown, and
  // every day row belongs to one of them.
  lemma {:induction false} DaysRollUp(shifts: seq<WorkShift>, pay: WorkShift -> Sums, zone: Zone, daily: Bucketing,
      bucketOf: Bucketing, days: seq<BucketRow>, rows: seq<BucketRow>)
    requires Daily(daily, DaysOf(shifts, zone))
    requires IsBreakdown(shifts, pay, zone, daily, days) && IsBreakdown(shifts, pay, zone, bucketOf, rows)
    ensures forall i :: 0 <= i < |rows| ==> rows[i].row.sums == RollUp(days, bucketOf, rows[i].start)
    ensures forall i :: 0 <= i < |days| ==> bucketOf(days[i].start) in StartsOf(rows)
  {
    AllDaysHaveRows(shifts, pay, zone, daily, days);
    assert days[..|days|] == days;
    forall i | 0 <= i < |rows| ensures rows[i].row.sums == RollUp(days, bucketOf, rows[i].start) {
      RollUpPrefix(shifts, pay, zone, daily, days, |days|, bucketOf, rows[i].start);
      assert IsRowOf(rows[i], shifts, pay, zone, bucketOf);
    }
    forall i | 0 <= i < |days| ensures bucketOf(days[i].start) in StartsOf(rows) {
      DayRow(shifts, pay, zone, daily, days, i);
      assert IsStart(DaysOf(shifts, zone), bucketOf, bucketOf(days[i].start));
    }
  }

  // The report's week and month rows are sums of its day rows, for every zone.
  lemma {:induction false} WeeksAndMonthsRollUp(shifts: seq<WorkShift>, t: Terms, zone: Zone, g: Granularity,
      days: seq<BucketRow>, rows: seq<BucketRow>)
    requires ValidZone(zone)
    requires IsBreakdown(shifts, PayOf(t), zone, BucketsBy(Day), days)
    requires IsBreakdown(shifts, PayOf(t), zone, BucketsBy(g), rows)
    ensures forall i :: 0 <= i < |rows| ==> rows[i].row.sums == RollUp(days, BucketsBy(g), rows[i].start)
    ensures forall i :: 0 <= i < |days| ==> BucketsBy(g)(days[i].start) in StartsOf(rows)
  {
    DaysRollUp(shifts, PayOf(t), zone, BucketsBy(Day), BucketsBy(g), days, rows);
  }

  // ----- Which shifts a bucket holds -----------------------------------------------------

  // The shifts that start, by local time, on a day of the bucket.
  function StartingIn(shifts: seq<WorkShift>, zone: Zone, bucketOf: Bucketing, bucket: Date): seq<WorkShift> {
    if shifts == [] then []
    else
      var sh := shifts[|shifts| - 1];
      StartingIn(shifts[..|shifts| - 1], zone, bucketOf, bucket) + if bucketOf(zone(sh.start)) == bucket then [sh]
          else []
  }

  lemma {:induction false} SumOnBucket(shifts: seq<WorkShift>, pay: WorkShift -> Sums, zone: Zone, bucketOf: Bucketing,
      bucket: Date, days: set<Date>)
    requires forall sh :: sh in shifts ==> (zone(sh.start) in days <==> bucketOf(zone(sh.start)) == bucket)
    ensures SumOn(shifts, pay, zone, days) == SumOf(StartingIn(shifts, zone, bucketOf, bucket), pay)
    decreases |shifts|
  {
    if shifts != [] {
      var front, sh := shifts[..|shifts| - 1], shifts[|shifts| - 1];
      assert sh in shifts;
      SumOnBucket(front, pay, zone, bucketOf, bucket, days);
      if bucketOf(zone(sh.start)) == bucket {
        SumOfAppend(StartingIn(front, zone, bucketOf, bucket), sh, pay);
      } else {
        assert StartingIn(shifts, zone, bucketOf, bucket) == StartingIn(front, zone, bucketOf, bucket);
      }
    }
  }

  // Every row is the computation over exactly the shifts that start in its bucket, and every
  // shift's bucket has a row.
  lemma {:induction false} RowsHoldTheirShifts(shifts: seq<WorkShift>, pay: WorkShift -> Sums, zone: Zone,
      bucketOf: Bucketing, rows: seq<BucketRow>)
    requires IsBreakdown(shifts, pay, zone, bucketOf, rows)
    ensures forall i :: 0 <= i < |rows| ==>
      rows[i].row.sums == SumOf(StartingIn(shifts, zone, bucketOf, rows[i].start), pay)
    ensures forall sh :: sh in shifts ==> exists i :: 0 <= i < |rows| && rows[i].start == bucketOf(zone(sh.start))
  {
    var days := DaysOf(shifts, zone);
    forall i | 0 <= i < |rows| ensures rows[i].row.sums
        == SumOf(StartingIn(shifts, zone, bucketOf, rows[i].start), pay) {
      assert IsRowOf(rows[i], shifts, pay, zone, bucketOf);
      SumOnBucket(shifts, pay, zone, bucketOf, rows[i].start, DaysAt(days, bucketOf, {rows[i].start}));
    }
    forall sh | sh in shifts ensures exists i :: 0 <= i < |rows| && rows[i].start == bucketOf(zone(sh.start)) {
      assert zone(sh.start) in days && IsStart(days, bucketOf, bucketOf(zone(sh.start)));
      assert bucketOf(zone(sh.start)) in StartsOf(rows);
      var i :| 0 <= i < |StartsOf(rows)| && StartsOf(rows)[i] == bucketOf(zone(sh.start));
      assert rows[i].start == bucketOf(zone(sh.start));
    }
  }

  // ----- Buckets balance -----------------------------------------------------------------

  lemma {:induction false} SumOnBalances(shifts: seq<WorkShift>, t: Terms, zone: Zone, days: set<Date>)
    ensures var e := SumOn(shifts, PayOf(t), zone, days);
      e.base + e.overtime == e.gross && (PositiveRates(t) ==> 0 <= e.overtime && 0 <= e.base)
  {
    if shifts != [] {
      SumOnBalances(shifts[..|shifts| - 1], t, zone, days);
      ContributionParts(shifts[|shifts| - 1], t);
    }
  }

  // In every bucket base and overtime make up gross, and with positive rates neither is
  // negative; the delta is gross less the plan.
  lemma {:induction false} BucketsBalance(shifts: seq<WorkShift>, t: Terms, zone: Zone, bucketOf: Bucketing,
      rows: seq<BucketRow>, i: nat)
    requires IsBreakdown(shifts, PayOf(t), zone, bucketOf, rows) && i < |rows|
    ensures var r := rows[i].row;
      && r.sums.base + r.sums.overtime == r.sums.gross
      && r.delta == r.sums.gross - r.sums.planned
      && (PositiveRates(t) ==> 0 <= r.sums.overtime && 0 <= r.sums.base)
  {
    assert IsRowOf(rows[i], shifts, PayOf(t), zone, bucketOf);
    SumOnBalances(shifts, t, zone, DaysAt(DaysOf(shifts, zone), bucketOf, {rows[i].start}));
  }
}
