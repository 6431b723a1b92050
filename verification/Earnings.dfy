// Earnings of finished shifts: what one shift adds to every field, with half-up rounding on
// every shift, the flat computation over a list, and its rounding bounds.

module Earnings {
  import opened Results
  import opened WorkedTime
  import opened Rates
  import opened ShiftSums

  // What a computation depends on besides the shifts: the look-up of the rate in force, the
  // approved overtime minutes by shift, and the organisation's lateness tolerance in minutes.
  datatype Terms = Terms(rateAt: int -> Option<Rate>, overtime: map<nat, nat>, tolerance: int)

  // The terms of a member with the given rate history.
  function MemberTerms(rates: seq<Rate>, overtime: map<nat, nat>, tolerance: int): Terms
    requires Ascending(rates)
  {
    Terms(moment => RateForMoment(rates, moment), overtime, tolerance)
  }

  // The rate of a moment is the one with the greatest start not after it.
  predicate IsRateAt(rates: seq<Rate>, moment: int, r: Option<Rate>) {
    match r
    case None => forall q :: q in rates ==> moment < q.effectiveFrom
    case Some(p) =>
      && p in rates && p.effectiveFrom <= moment
      && forall q :: q in rates && q.effectiveFrom <= moment ==> q.effectiveFrom <= p.effectiveFrom
  }

  lemma {:induction false} TermsFollowHistory(rates: seq<Rate>, overtime: map<nat, nat>, tolerance: int, moment: int)
    requires Ascending(rates)
    ensures var t := MemberTerms(rates, overtime, tolerance);
      IsRateAt(rates, moment, t.rateAt(moment)) && t.overtime == overtime && t.tolerance == tolerance
  {}

  // Rates are positive, as the service demands when a rate is written.
  ghost predicate PositiveRates(t: Terms) {
    forall moment :: t.rateAt(moment).Some? ==> 0 < t.rateAt(moment).value.amount
  }

  // ----- One shift -----------------------------------------------------------------------

  const SECONDS_PER_HOUR := 3600

  // Rounding of n/3600 to the nearest integer, halves away from zero.
  function HalfUp(n: int): int {
    if 0 <= n then (2 * n + SECONDS_PER_HOUR) / (2 * SECONDS_PER_HOUR)
    else -((-2 * n + SECONDS_PER_HOUR) / (2 * SECONDS_PER_HOUR))
  }

  function ShiftAmount(rate: Rate, seconds: int): int {
    match rate.rateType
    case Hourly => HalfUp(seconds * rate.amount)
    case PerShift => rate.amount
  }

  function Worked(sh: WorkShift): (r: int)
    ensures 0 <= r
  {
    NetSeconds(sh.start, sh.finish, sh.pauses)
  }

  function OvertimeSeconds(sh: WorkShift, t: Terms): (r: int)
    ensures 0 <= r
  {
    if sh.id in t.overtime then t.overtime[sh.id] * 60 else 0
  }

  function PlannedSeconds(sh: WorkShift): int {
    if sh.scheduledStart.Some? && sh.scheduledEnd.Some? then sh.scheduledEnd.value - sh.scheduledStart.value
    else Worked(sh)
  }

  function LateSeconds(sh: WorkShift, tolerance: int): Option<int> {
    match sh.scheduledStart
    case None => None
    case Some(s) =>
      var late := sh.start - s - tolerance * 60;
      Some(if late < 0 then 0 else late)
  }

  // What one shift adds to every field.
  function Contribution(sh: WorkShift, t: Terms): Sums
  {
    var seconds, extra, plannedSeconds := Worked(sh), OvertimeSeconds(sh, t), PlannedSeconds(sh);
    var late := match LateSeconds(sh, t.tolerance) case None => 0 case Some(l) => l;
    var lateCount := if late > 0 then 1 else 0;
    match t.rateAt(sh.start)
    case None => Sums(seconds, extra, 1, 0, 0, 0, seconds, 1, plannedSeconds, 0, lateCount, late)
    case Some(rate) =>
      var gross, base := ShiftAmount(rate, seconds + extra), ShiftAmount(rate, seconds);
      Sums(seconds, extra, 1, gross, base, gross - base, 0, 0,
           plannedSeconds, ShiftAmount(rate, plannedSeconds), lateCount, late)
  }

  // The minutes approved for a shift.
  function ApprovedMinutes(sh: WorkShift, t: Terms): nat {
    if sh.id in t.overtime then t.overtime[sh.id] else 0
  }

  // The length of the shift less its pauses, but never negative.
  predicate IsNet(sh: WorkShift, seconds: int) {
    var net := sh.finish - sh.start - TotalLength(sh.pauses);
    if net < 0 then seconds == 0 else seconds == net
  }

  // What so many seconds earn: the fixed amount, or the amount of the hours, to the nearest
  // kopeck and from the middle upwards.
  predicate PaidFor(rate: Rate, seconds: int, amount: int) {
    var off := 3600 * amount - seconds * rate.amount;
    match rate.rateType
    case PerShift => amount == rate.amount
    case Hourly => if 0 <= seconds * rate.amount then -1800 < off <= 1800 else -1800 <= off < 1800
  }

  // What a shift adds, in its own bounds, pauses, approved minutes and planned window.
  predicate Earned(sh: WorkShift, t: Terms, c: Sums) {
    && c.shifts == 1 && IsNet(sh, c.worked) && c.overtimeSeconds == 60 * ApprovedMinutes(sh, t)
    && c.plannedSeconds == (if sh.scheduledStart != None && sh.scheduledEnd != None
                            then sh.scheduledEnd.value - sh.scheduledStart.value else c.worked)
    && (match t.rateAt(sh.start)
        case None =>
          && c.gross == 0 && c.base == 0 && c.overtime == 0 && c.planned == 0
          && c.unpaidShifts == 1 && c.unpaidSeconds == c.worked
        case Some(rate) =>
          && PaidFor(rate, c.worked + c.overtimeSeconds, c.gross) && PaidFor(rate, c.worked, c.base)
          && c.overtime == c.gross - c.base && PaidFor(rate, c.plannedSeconds, c.planned)
          && c.unpaidShifts == 0 && c.unpaidSeconds == 0)
    && IsLate(sh, t.tolerance, c.lateCount, c.lateSeconds)
  }

  // Late exactly if it starts more than the tolerated minutes after its planned start, by what
  // goes beyond them.
  predicate IsLate(sh: WorkShift, tolerance: int, count: int, seconds: int) {
    if sh.scheduledStart != None && 60 * tolerance < sh.start - sh.scheduledStart.value
    then count == 1 && seconds == sh.start - sh.scheduledStart.value - 60 * tolerance
    else count == 0 && seconds == 0
  }

  lemma {:induction false} HalfUpIsNearest(rate: Rate, seconds: int)
    ensures PaidFor(rate, seconds, ShiftAmount(rate, seconds))
  {
    var n := seconds * rate.amount;
    var h := HalfUp(n);
    assert 0 <= n ==> -1800 < 3600 * h - n <= 1800;
    assert n < 0 ==> -1800 <= 3600 * h - n < 1800;
  }

  lemma {:induction false} ContributionIsEarned(sh: WorkShift, t: Terms)
    ensures Earned(sh, t, Contribution(sh, t))
  {
    match t.rateAt(sh.start)
    case None =>
    case Some(rate) =>
      var c := Contribution(sh, t);
      HalfUpIsNearest(rate, c.worked + c.overtimeSeconds);
      HalfUpIsNearest(rate, c.worked);
      HalfUpIsNearest(rate, c.plannedSeconds);
  }

  // Nothing else can be earned.
  lemma {:induction false} EarnedIsUnique(sh: WorkShift, t: Terms, a: Sums, b: Sums)
    requires Earned(sh, t, a) && Earned(sh, t, b)
    ensures a == b
  {}

  // The value of a shift under the terms.
  function PayOf(t: Terms): WorkShift -> Sums {
    sh => Contribution(sh, t)
  }

  // The specification of the flat computation.
  function EarningsOf(shifts: seq<WorkShift>, t: Terms): Sums {
    SumOf(shifts, PayOf(t))
  }

  // One pass of the loop of _calc_earnings: the counters after one more shift.
  method TallyShift(acc: Sums, sh: WorkShift, t: Terms) returns (r: Sums)
    ensures r == Add(acc, Contribution(sh, t))
  {
    r := acc;
    var seconds := Worked(sh);
    r := r.(worked := r.worked + seconds, shifts := r.shifts + 1);
    var extra := OvertimeSeconds(sh, t);
    r := r.(overtimeSeconds := r.overtimeSeconds + extra);
    var shiftPlanned := PlannedSeconds(sh);
    r := r.(plannedSeconds := r.plannedSeconds + shiftPlanned);
    var late := LateSeconds(sh, t.tolerance);
    if late.Some? && late.value > 0 {
      r := r.(lateCount := r.lateCount + 1, lateSeconds := r.lateSeconds + late.value);
    }
    match t.rateAt(sh.start) {
      case None =>
        r := r.(unpaidSeconds := r.unpaidSeconds + seconds, unpaidShifts := r.unpaidShifts + 1);
      case Some(rate) =>
        var shiftGross := ShiftAmount(rate, seconds + extra);
        var shiftBase := ShiftAmount(rate, seconds);
        r := r.(gross := r.gross + shiftGross, base := r.base + shiftBase,
                overtime := r.overtime + (shiftGross - shiftBase),
                planned := r.planned + ShiftAmount(rate, shiftPlanned));
    }
  }

  // _calc_earnings: one pass over the list, then the two fields computed after summing.
  method CalcEarnings(shifts: seq<WorkShift>, t: Terms) returns (r: Row)
    ensures r.sums == EarningsOf(shifts, t)
    ensures r.delta == r.sums.gross - r.sums.planned && (r.missingRate <==> r.sums.unpaidShifts > 0)
    ensures r.sums.overtimeSeconds == 60 * ApprovedInAll(shifts, t)
    ensures var off := 3600 * r.sums.gross - ExactPay(shifts, t);
      -1800 * HourlyShifts(shifts, t) <= off <= 1800 * HourlyShifts(shifts, t)
  {
    var acc := ZERO;
    for i := 0 to |shifts|
      invariant acc == EarningsOf(shifts[..i], t)
    {
      SumOfStep(shifts, i, PayOf(t));
      acc := TallyShift(acc, shifts[i], t);
    }
    assert shifts[..|shifts|] == shifts;
    r := Row(acc, acc.gross - acc.planned, acc.unpaidShifts > 0);
    MinutesAreSixtySeconds(shifts, t);
    GrossRoundingBound(shifts, t);
  }

  // ----- Rounding ------------------------------------------------------------------------

  // An hourly amount differs from the exact one by at most half a kopeck (1800/3600).
  lemma {:induction false} HalfUpNearest(n: int)
    ensures -1800 <= SECONDS_PER_HOUR * HalfUp(n) - n <= 1800
    ensures 0 <= n && n % 3600 == 1800 ==> SECONDS_PER_HOUR * HalfUp(n) == n + 1800
  {}

  lemma {:induction false} HalfUpMonotone(a: int, b: int)
    requires a <= b
    ensures HalfUp(a) <= HalfUp(b)
  {
    HalfUpNearest(a);
    HalfUpNearest(b);
  }

  lemma {:induction false} AmountMonotone(rate: Rate, fewer: int, more: int)
    requires 0 <= rate.amount && fewer <= more
    ensures ShiftAmount(rate, fewer) <= ShiftAmount(rate, more)
  {
    assert fewer * rate.amount <= more * rate.amount;
    HalfUpMonotone(fewer * rate.amount, more * rate.amount);
  }

  // The exact pay of a shift, in kopecks times 3600: the length less the pauses, and 60 seconds
  // for each approved minute, times the rate of the hour.
  function ExactShiftPay(sh: WorkShift, t: Terms): int {
    var net := sh.finish - sh.start - TotalLength(sh.pauses);
    match t.rateAt(sh.start)
    case None => 0
    case Some(rate) =>
      if rate.rateType == PerShift then 3600 * rate.amount
      else ((if net < 0 then 0 else net) + 60 * ApprovedMinutes(sh, t)) * rate.amount
  }

  function ExactPay(shifts: seq<WorkShift>, t: Terms): int
  {
    if shifts == [] then 0
    else ExactPay(shifts[..|shifts| - 1], t) + ExactShiftPay(shifts[|shifts| - 1], t)
  }

  function ApprovedInAll(shifts: seq<WorkShift>, t: Terms): nat {
    if shifts == [] then 0
    else ApprovedInAll(shifts[..|shifts| - 1], t) + ApprovedMinutes(shifts[|shifts| - 1], t)
  }

  // Approved minutes are paid as 60 seconds each.
  lemma {:induction false} MinutesAreSixtySeconds(shifts: seq<WorkShift>, t: Terms)
    ensures EarningsOf(shifts, t).overtimeSeconds == 60 * ApprovedInAll(shifts, t)
  {
    if shifts != [] {
      MinutesAreSixtySeconds(shifts[..|shifts| - 1], t);
    }
  }

  function HourlyShifts(shifts: seq<WorkShift>, t: Terms): nat
  {
    if shifts == [] then 0
    else
      var rate := t.rateAt(shifts[|shifts| - 1].start);
      HourlyShifts(shifts[..|shifts| - 1], t) + if rate.Some? && rate.value.rateType.Hourly? then 1 else 0
  }

  // The whole list is off by at most half a kopeck for each shift paid by the hour.
  lemma {:induction false} GrossRoundingBound(shifts: seq<WorkShift>, t: Terms)
    ensures var off := SECONDS_PER_HOUR * EarningsOf(shifts, t).gross - ExactPay(shifts, t);
            -1800 * HourlyShifts(shifts, t) <= off <= 1800 * HourlyShifts(shifts, t)
  {
    if shifts != [] {
      GrossRoundingBound(shifts[..|shifts| - 1], t);
      ShiftRoundingBound(shifts[|shifts| - 1], t);
    }
  }

  lemma {:induction false} ShiftRoundingBound(sh: WorkShift, t: Terms)
    ensures var off, rate := 3600 * Contribution(sh, t).gross - ExactShiftPay(sh, t), t.rateAt(sh.start);
      if rate.Some? && rate.value.rateType.Hourly? then -1800 <= off <= 1800 else off == 0
  {
    match t.rateAt(sh.start)
    case None =>
    case Some(rate) =>
      var net := sh.finish - sh.start - TotalLength(sh.pauses);
      HalfUpNearest(((if net < 0 then 0 else net) + 60 * ApprovedMinutes(sh, t)) * rate.amount);
  }

  // At every level base and overtime make up gross; with positive rates, as the service
  // demands of them, no overtime part is negative and an unpaid shift is counted as such.
  lemma {:induction false} BaseAndOvertime(shifts: seq<WorkShift>, t: Terms)
    ensures var e := EarningsOf(shifts, t);
            && e.base + e.overtime == e.gross
            && e.shifts == |shifts|
            && 0 <= e.unpaidShifts <= e.shifts
            && 0 <= e.unpaidSeconds <= e.worked
            && (PositiveRates(t) ==> 0 <= e.overtime && 0 <= e.base)
  {
    if shifts != [] {
      BaseAndOvertime(shifts[..|shifts| - 1], t);
      ContributionParts(shifts[|shifts| - 1], t);
    }
  }

  lemma {:induction false} ContributionParts(sh: WorkShift, t: Terms)
    ensures var c := Contribution(sh, t);
            && c.base + c.overtime == c.gross
            && 0 <= c.unpaidShifts <= c.shifts == 1
            && 0 <= c.unpaidSeconds <= c.worked
            && (PositiveRates(t) ==> 0 <= c.overtime && 0 <= c.base)
  {
    match t.rateAt(sh.start)
    case None =>
    case Some(rate) =>
      if PositiveRates(t) {
        AmountMonotone(rate, Worked(sh), Worked(sh) + OvertimeSeconds(sh, t));
        AmountMonotone(rate, 0, Worked(sh));
      }
  }

  lemma {:induction false} PayCountsUp(t: Terms)
    ensures CountsUp(PayOf(t))
  {
    forall sh ensures 0 <= PayOf(t)(sh).unpaidShifts {
      ContributionParts(sh, t);
    }
  }
}
