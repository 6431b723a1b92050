// What the operations write to a subscription and its journal, in dates, months and fields.

module SubscriptionEffects {
  import opened Results
  import opened Calendar
  import opened Subscriptions

  // ----- How far an extension reaches ----------------------------------------------------

  // The later of now and the end granted before: the period end, or the end of the trial if
  // there is no period end.
  predicate IsLater(base: DateTime, now: DateTime, s: Subscription)
    requires ValidDates(s) && ValidTime(now) && ValidTime(base)
  {
    var granted := if s.periodEnd != None then s.periodEnd else s.trialEnd;
    && (base == now || granted == Some(base))
    && Instant(now) <= Instant(base) && (granted != None ==> Instant(granted.value) <= Instant(base))
  }

  // The same day and time so many months on, or the last day of that month if it has no such
  // day. Months are counted through the years.
  predicate MonthsOn(base: DateTime, months: int, end: DateTime)
    requires ValidTime(base) && ValidTime(end)
  {
    && 12 * end.date.year + end.date.month == 12 * base.date.year + base.date.month + months
    && end.time == base.time
    && (end.date.day == base.date.day
        || (end.date.day < base.date.day && end.date.day == DaysInMonth(end.date.year, end.date.month)))
  }

  // The end reaches exactly so many months beyond the later of now and the old end.
  ghost predicate ReachesMonthsOn(before: Subscription, now: DateTime, months: int, after: Subscription)
    requires ValidDates(before) && ValidTime(now)
  {
    ValidDates(after) && after.periodEnd != None
    && exists base :: ValidTime(base) && IsLater(base, now, before) && MonthsOn(base, months, after.periodEnd.value)
  }

  // What an extension of the given months with the given plan leaves.
  ghost predicate ExtendedFor(before: Subscription, plan: PlanCode, now: DateTime, months: int, after: Subscription)
    requires ValidDates(before) && ValidTime(now)
  {
    && ReachesMonthsOn(before, now, months, after)
    && after.plan == plan && after.status == Active
    && after.periodStart == (if before.periodStart == None then Some(now) else before.periodStart)
    && after.trialEnd == before.trialEnd && after.notice == None
  }

  lemma {:induction false} ExtensionIsExact(s: Subscription, plan: PlanCode, now: DateTime, months: int)
    requires ValidDates(s) && ValidTime(now) && 1 <= months
    ensures ExtendedFor(s, plan, now, months, ExtendedBy(s, plan, now, months))
    ensures ExtendedBy(s, plan, now, months).note == s.note
  {
    var base := ExtensionBase(s, now);
    assert IsLater(base, now, s);
    ShiftMonthsLater(base, months);
    AddMonthsShape(base.date, months);
    assert MonthsOn(base, months, ShiftMonths(base, months));
  }

  // The end is determined: no other end reaches exactly as far.
  lemma {:induction false} ReachIsUnique(before: Subscription, now: DateTime, months: int, a: Subscription,
      b: Subscription)
    requires ValidDates(before) && ValidTime(now)
    requires ReachesMonthsOn(before, now, months, a) && ReachesMonthsOn(before, now, months, b)
    ensures a.periodEnd == b.periodEnd
  {
    var x :| ValidTime(x) && IsLater(x, now, before) && MonthsOn(x, months, a.periodEnd.value);
    var y :| ValidTime(y) && IsLater(y, now, before) && MonthsOn(y, months, b.periodEnd.value);
    InstantOrder(x, y);
    MonthsOnIsUnique(x, months, a.periodEnd.value, b.periodEnd.value);
  }

  lemma {:induction false} MonthsOnIsUnique(base: DateTime, months: int, a: DateTime, b: DateTime)
    requires ValidTime(base) && ValidTime(a) && ValidTime(b) && MonthsOn(base, months, a) && MonthsOn(base, months, b)
    ensures a == b
  {
    SameMonth(a.date, b.date);
  }

  // ----- What is written -----------------------------------------------------------------

  // The journal has one more event, from the old row to the new one.
  predicate Recorded(before: Account, after: Account, kind: EventKind, months: Option<int>, amount: Option<int>,
      payment: Option<PaymentId>)
  {
    after.journal == before.journal + [Event(kind, Some(before.sub.plan), Some(after.sub.plan), Some(before.sub.status),
      Some(after.sub.status), before.sub.periodEnd, after.sub.periodEnd, months, amount, payment)]
  }

  // A manual extension is accepted for 1 to 24 months and a plan on offer, or the present one.
  // It charges the given amount, or the plan's price for every month.
  lemma {:induction false} ExtendWrites(a: Account, plans: Plans, now: DateTime, months: int, plan: Option<PlanCode>,
      amount: Option<int>, note: Option<string>)
    requires ValidDates(a.sub) && ValidTime(now)
    ensures var (after, r) := ExtendSubscription(a, plans, now, months, plan, amount, note);
      && (r.Ok? <==>
            && 1 <= months <= 24
            && (if plan != None then plan.value in plans && plans[plan.value].active else a.sub.plan in plans))
      && (r.Err? ==> after == a)
      && (r.Ok? ==>
            var target := if plan != None then plan.value else a.sub.plan;
            && ExtendedFor(a.sub, target, now, months, after.sub)
            && after.sub.note == (if note != None then note else a.sub.note)
            && Recorded(a, after, if target != a.sub.plan then PlanChanged else Extended, Some(months),
                        Some(if amount != None then amount.value else plans[target].price * months), None))
  {
    if 1 <= months {
      ExtensionIsExact(a.sub, if plan != None then plan.value else a.sub.plan, now, months);
    }
  }

  // A paid extension reaches the months bought; an upgrade changes the plan alone. An
  // extension without its months is refused.
  ghost predicate Bought(before: Subscription, p: Purchase, now: DateTime, after: Subscription)
    requires ValidDates(before) && ValidTime(now)
  {
    if p.kind == ExtendKind then
      p.months != None && ExtendedFor(before, p.plan, now, p.months.value, after) && after.note == before.note
    else after == before.(plan := p.plan)
  }

  lemma {:induction false} PurchaseWrites(a: Account, p: Purchase, now: DateTime)
    requires ValidDates(a.sub) && ValidTime(now) && (p.months != None ==> 1 <= p.months.value)
    ensures var (after, r) := ApplyPurchase(a, p, now);
      && (r.Err? <==> p.kind == ExtendKind && p.months == None)
      && (r.Err? ==> after == a)
      && (r.Ok? ==> Bought(a.sub, p, now, after.sub)
                    && Recorded(a, after, PaidOnline, p.months, Some(p.amount), Some(p.id)))
  {
    if p.months.Some? {
      ExtensionIsExact(a.sub, p.plan, now, p.months.value);
    }
  }

  // A correction changes exactly the fields given. It is refused for a plan that is not on
  // offer, an unknown status, and a status whose end would be missing.
  lemma {:induction false} PatchWrites(a: Account, plans: Plans, p: Patch)
    ensures var (after, r) := PatchSubscription(a, plans, p);
      var plan := if p.plan != None then p.plan.value else a.sub.plan;
      var status := if p.status == None then Some(a.sub.status)
        else if p.status.value.Known? then Some(p.status.value.status) else None;
      var trialEnd := if p.trialEnd != None then p.trialEnd else a.sub.trialEnd;
      var periodEnd := if p.periodEnd != None then p.periodEnd else a.sub.periodEnd;
      && (r.Ok? <==>
            && (p.plan != None ==> plan in plans && plans[plan].active) && status != None
            && !(status == Some(Active) && periodEnd == None) && !(status == Some(Trialing) && trialEnd == None))
      && (r.Err? ==> after == a)
      && (r.Ok? ==>
            && after.sub.plan == plan && Some(after.sub.status) == status
            && after.sub.trialEnd == trialEnd && after.sub.periodEnd == periodEnd
            && after.sub.periodStart == (if p.periodStart != None then p.periodStart else a.sub.periodStart)
            && after.sub.note == (if p.note != None then p.note else a.sub.note)
            && after.sub.notice ==
                 (if p.status == None && p.trialEnd == None && p.periodStart == None && p.periodEnd == None
                  then a.sub.notice else None)
            && Recorded(a, after, if plan != a.sub.plan then PlanChanged else StatusChanged, None, None, None))
  {}

  // A new organisation is on trial with the premium plan for exactly so many days.
  lemma {:induction false} CreateWrites(premium: PlanCode, now: DateTime, trialDays: nat)
    requires ValidTime(now)
    ensures var a := Create(premium, now, trialDays);
      && a.sub.plan == premium && a.sub.status == Trialing && a.sub.periodStart == None && a.sub.periodEnd == None
      && a.sub.note == None && a.sub.notice == None
      && a.sub.trialEnd != None && ValidTime(a.sub.trialEnd.value)
      && Instant(a.sub.trialEnd.value) == Instant(now) + 86400 * trialDays && a.sub.trialEnd.value.time == now.time
      && a.journal ==
           [Event(Created, None, Some(premium), None, Some(Trialing), None, a.sub.trialEnd, None, None, None)]
  {}

  // A refund is noted with its amount negative, against the payment and its plan, and with no
  // change to the subscription.
  lemma {:induction false} RefundWrites(a: Account, p: Purchase, refunded: int)
    ensures var after := NoteRefund(a, p, refunded);
      && after.sub == a.sub && |after.journal| == |a.journal| + 1 && after.journal[..|a.journal|] == a.journal
      && var e := after.journal[|a.journal|];
         && e.kind == PaymentRefunded && e.amount == Some(0 - refunded) && e.payment == Some(p.id)
         && e.fromPlan == Some(p.plan) && e.toPlan == Some(p.plan)
         && e.fromStatus == None && e.toStatus == None && e.endBefore == None && e.endAfter == None && e.months == None
  {
    assert NoteRefund(a, p, refunded).journal[..|a.journal|] == a.journal;
  }

  // ----- The status in force -------------------------------------------------------------

  // The end that counts: of the trial on trial, of the period when active.
  function Deadline(s: Subscription): Option<DateTime> {
    match s.status
    case Trialing => s.trialEnd
    case Active => s.periodEnd
    case Canceled => None
  }

  // In force up to and including the end, past due for seven days more, then suspended.
  lemma {:induction false} EffectiveByDates(s: Subscription, now: DateTime)
    requires ValidDates(s) && ValidTime(now)
    ensures Effective(s, now) == IsCanceled <==> s.status == Canceled
    ensures Effective(s, now) == InTrial <==>
      s.status == Trialing && s.trialEnd != None && Instant(now) <= Instant(s.trialEnd.value)
    ensures Effective(s, now) == IsActive <==>
      s.status == Active && s.periodEnd != None && Instant(now) <= Instant(s.periodEnd.value)
    ensures Effective(s, now) == PastDue <==>
      Deadline(s) != None && 0 < Instant(now) - Instant(Deadline(s).value) <= 7 * 86400
  {}

  // Days left are whole days, rounded down.
  lemma {:induction false} DaysLeftAreWhole(s: Subscription, now: DateTime)
    requires ValidDates(s) && ValidTime(now) && DaysLeft(s, now) != None
    ensures Deadline(s) != None
    ensures var left := Instant(Deadline(s).value) - Instant(now);
      86400 * DaysLeft(s, now).value <= left < 86400 * (DaysLeft(s, now).value + 1)
  {}

  // ----- The daily notice ----------------------------------------------------------------

  // The mark that belongs to the time left: the least of 7, 3 and 1 whole days that has been
  // reached, a whole day or less counting as 1.
  predicate IsMark(left: int, mark: Option<int>) {
    match mark
    case None => 8 * 86400 <= left
    case Some(m) =>
      || (m == 1 && left < 2 * 86400)
      || (m == 3 && 2 * 86400 <= left < 4 * 86400)
      || (m == 7 && 4 * 86400 <= left < 8 * 86400)
  }

  // In trial or active the mark follows the time left: it goes down to the mark reached, never
  // up, and is taken away when more than a week is left again; nothing is recorded.
  lemma {:induction false} NoticeFollowsTimeLeft(a: Account, now: DateTime, mark: Option<int>)
    requires ValidDates(a.sub) && ValidTime(now) && Effective(a.sub, now) in {InTrial, IsActive}
    requires Deadline(a.sub) != None && IsMark(Instant(Deadline(a.sub).value) - Instant(now), mark)
    ensures var after := NotifyStatus(a, now);
      && after.journal == a.journal && after.sub == a.sub.(notice := after.sub.notice)
      && after.sub.notice ==
           if mark == None || a.sub.notice == None || mark.value < a.sub.notice.value then mark else a.sub.notice
  {
    DaysLeftAreWhole(a.sub, now);
  }

  // A suspension is marked with 0 and recorded, unless it is marked already; past due and
  // canceled nothing happens.
  lemma {:induction false} SuspensionIsMarked(a: Account, now: DateTime)
    requires ValidDates(a.sub) && ValidTime(now)
    ensures var after := NotifyStatus(a, now);
      && (Effective(a.sub, now) in {PastDue, IsCanceled} ==> after == a)
      && (Effective(a.sub, now) == Suspended ==>
            && after.sub == a.sub.(notice := Some(0))
            && if a.sub.notice == Some(0) then after.journal == a.journal
               else
                 var note := Event(AutoSuspended, None, None, Some(a.sub.status), Some(a.sub.status), Deadline(a.sub),
                                   None, None, None, None);
                 after.journal == a.journal + [note])
  {}

  // A run takes its operations one after another.
  lemma {:induction false} RunTakesEach(a: Account, ops: seq<Op>, op: Op)
    requires ValidDates(a.sub) && ValidRun(ops) && ValidOp(op)
    ensures ValidRun(ops + [op]) && Run(a, []) == a && Run(a, ops + [op]) == Apply(Run(a, ops), op)
  {
    assert (ops + [op])[..|ops|] == ops;
  }

  lemma {:induction false} JobRunsDaily(a: Account, days: seq<DateTime>, now: DateTime)
    requires ValidDates(a.sub) && ValidMoments(days) && ValidTime(now)
    ensures NotifyDaily(a, []) == a && NotifyDaily(a, days + [now]) == NotifyStatus(NotifyDaily(a, days), now)
  {
    assert (days + [now])[..|days|] == days;
  }
}
