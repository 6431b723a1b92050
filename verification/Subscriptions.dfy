// A subscription: its effective status as a function of the dates, the operations that
// change it, and the append-only journal that they write.

module Subscriptions {
  import opened Results
  import opened Calendar

  type PlanCode = nat
  type PaymentId = nat

  // Only manual states are stored.
  datatype Status = Trialing | Active | Canceled

  datatype EffectiveStatus = InTrial | IsActive | PastDue | Suspended | IsCanceled

  datatype Subscription = Subscription(
    plan: PlanCode,
    status: Status,
    trialEnd: Option<DateTime>,
    periodStart: Option<DateTime>,
    periodEnd: Option<DateTime>,
    note: Option<string>,
    notice: Option<int>)

  const GRACE_DAYS := 7
  const EXPIRING_SOON_DAYS := 7

  predicate ValidMoment(t: Option<DateTime>) {
    t.Some? ==> ValidTime(t.value)
  }

  predicate ValidDates(s: Subscription) {
    ValidMoment(s.trialEnd) && ValidMoment(s.periodStart) && ValidMoment(s.periodEnd)
  }

  // ----- Effective status ----------------------------------------------------------------

  datatype Resolution = Resolution(status: EffectiveStatus, reference: Option<DateTime>)

  function Resolve(s: Subscription, now: DateTime): Resolution
    requires ValidDates(s) && ValidTime(now)
  {
    if s.status.Canceled? then Resolution(IsCanceled, None)
    else
      var reference := if s.status.Trialing? then s.trialEnd else s.periodEnd;
      if reference.None? then Resolution(Suspended, None)
      else if Instant(now) <= Instant(reference.value) then
        Resolution(if s.status.Trialing? then InTrial else IsActive, reference)
      else if Instant(now) <= Instant(reference.value) + GRACE_DAYS * SECONDS_PER_DAY then
          Resolution(PastDue, reference)
      else Resolution(Suspended, reference)
  }

  function Effective(s: Subscription, now: DateTime): EffectiveStatus
    requires ValidDates(s) && ValidTime(now)
  {
    Resolve(s, now).status
  }

  // Whole days to the reference, rounded down.
  function DaysLeft(s: Subscription, now: DateTime): Option<int>
    requires ValidDates(s) && ValidTime(now)
  {
    var r := Resolve(s, now);
    if r.status.Suspended? || r.status.IsCanceled? || r.reference.None? then None
    else Some((Instant(r.reference.value) - Instant(now)) / SECONDS_PER_DAY)
  }

  predicate IsExpiringSoon(s: Subscription, now: DateTime)
    requires ValidDates(s) && ValidTime(now)
  {
    var left := DaysLeft(s, now);
    left.Some? && 0 <= left.value <= EXPIRING_SOON_DAYS
  }

  // How far the decline has gone; a canceled subscription stays canceled.
  function Stage(e: EffectiveStatus): nat {
    match e
    case InTrial => 0
    case IsActive => 0
    case PastDue => 1
    case Suspended => 2
    case IsCanceled => 3
  }

  // As time alone passes the status never moves back.
  lemma {:induction false} StatusNeverMovesBack(s: Subscription, sooner: DateTime, later: DateTime)
    requires ValidDates(s) && ValidTime(sooner) && ValidTime(later) && Instant(sooner) <= Instant(later)
    ensures Stage(Effective(s, sooner)) <= Stage(Effective(s, later))
    ensures Effective(s, sooner).IsCanceled? <==> Effective(s, later).IsCanceled?
  {}

  // The days are absent exactly for a read-only subscription, negative exactly when past due.
  lemma {:induction false} DaysLeftShape(s: Subscription, now: DateTime)
    requires ValidDates(s) && ValidTime(now)
    ensures DaysLeft(s, now).None? <==> Effective(s, now) in {Suspended, IsCanceled}
    ensures DaysLeft(s, now).Some? ==> (DaysLeft(s, now).value < 0 <==> Effective(s, now).PastDue?)
    ensures DaysLeft(s, now).Some? ==> -GRACE_DAYS <= DaysLeft(s, now).value
  {}

  // Expiring soon: in trial or active, with at most seven whole days left, that is with less
  // than eight days to go.
  lemma {:induction false} ExpiringSoonExactly(s: Subscription, now: DateTime)
    requires ValidDates(s) && ValidTime(now)
    ensures IsExpiringSoon(s, now) <==>
      Effective(s, now) in {InTrial, IsActive}
      && Instant(Resolve(s, now).reference.value) - Instant(now) < 8 * SECONDS_PER_DAY
  {}

  // ----- Journal -------------------------------------------------------------------------

  datatype EventKind = Created | Extended | PlanChanged | StatusChanged | AutoSuspended | PaidOnline | PaymentRefunded

  datatype Event = Event(
    kind: EventKind,
    fromPlan: Option<PlanCode>,
    toPlan: Option<PlanCode>,
    fromStatus: Option<Status>,
    toStatus: Option<Status>,
    endBefore: Option<DateTime>,
    endAfter: Option<DateTime>,
    months: Option<int>,
    amount: Option<int>,
    payment: Option<PaymentId>)

  datatype Account = Account(sub: Subscription, journal: seq<Event>)

  // What the journal says about the stored row.
  datatype Snapshot = Snapshot(plan: Option<PlanCode>, status: Option<Status>, end: Option<DateTime>)

  function SnapshotOf(s: Subscription): Snapshot {
    Snapshot(Some(s.plan), Some(s.status), s.periodEnd)
  }

  // Events that record a change of the subscription.
  predicate Records(e: Event) {
    e.kind in {Created, Extended, PlanChanged, StatusChanged, PaidOnline}
  }

  function BeforeEvent(e: Event): Snapshot {
    Snapshot(e.fromPlan, e.fromStatus, e.endBefore)
  }

  function AfterEvent(e: Event): Snapshot {
    Snapshot(e.toPlan, e.toStatus, e.endAfter)
  }

  // The row as the last recording event leaves it.
  function Replay(journal: seq<Event>): Option<Snapshot> {
    if journal == [] then None
    else if Records(journal[|journal| - 1]) then Some(AfterEvent(journal[|journal| - 1]))
    else Replay(journal[..|journal| - 1])
  }

  // ----- Operations ----------------------------------------------------------------------

  datatype PlanRow = PlanRow(active: bool, price: nat)

  type Plans = map<PlanCode, PlanRow>

  datatype Error = PlanNotFound | ValidationError | CorruptPayment

  function PlusDaysOf(now: DateTime, days: nat): (t: DateTime)
    requires ValidTime(now)
    ensures ValidTime(t) && Instant(t) == Instant(now) + days * SECONDS_PER_DAY
  {
    DateTime(PlusDays(now.date, days), now.time)
  }

  // create_subscription_for_org. The journal notes the end of the trial as the period end,
  // although the stored period end is empty.
  function Create(premium: PlanCode, now: DateTime, trialDays: nat): Account
    requires ValidTime(now)
  {
    var trialEnd := PlusDaysOf(now, trialDays);
    Account(
      Subscription(premium, Trialing, Some(trialEnd), None, None, None, None),
      [Event(Created, None, Some(premium), None, Some(Trialing), None, Some(trialEnd), None, None, None)])
  }

  datatype StatusText = Known(status: Status) | Unknown

  datatype Patch = Patch(
    plan: Option<PlanCode>,
    status: Option<StatusText>,
    trialEnd: Option<DateTime>,
    periodStart: Option<DateTime>,
    periodEnd: Option<DateTime>,
    note: Option<string>)

  function Over<T>(given: Option<T>, stored: Option<T>): Option<T> {
    if given.Some? then given else stored
  }

  predicate ResetsNotice(p: Patch) {
    p.status.Some? || p.trialEnd.Some? || p.periodStart.Some? || p.periodEnd.Some?
  }

  function Patched(s: Subscription, p: Patch): Subscription
    requires p.status != Some(Unknown)
  {
    Subscription(
      if p.plan.Some? then p.plan.value else s.plan,
      if p.status.Some? then p.status.value.status else s.status,
      Over(p.trialEnd, s.trialEnd),
      Over(p.periodStart, s.periodStart),
      Over(p.periodEnd, s.periodEnd),
      Over(p.note, s.note),
      if ResetsNotice(p) then None else s.notice)
  }

  // A running period has its end.
  predicate HasEnd(s: Subscription) {
    (s.status.Active? ==> s.periodEnd.Some?) && (s.status.Trialing? ==> s.trialEnd.Some?)
  }

  function ChangeEvent(kind: EventKind, from: Subscription, to: Subscription, months: Option<int>,
      amount: Option<int>, payment: Option<PaymentId>): Event
  {
    Event(kind, Some(from.plan), Some(to.plan), Some(from.status), Some(to.status), from.periodEnd, to.periodEnd,
        months, amount, payment)
  }

  predicate Assignable(plans: Plans, code: PlanCode) {
    code in plans && plans[code].active
  }

  function PatchSubscription(a: Account, plans: Plans, p: Patch): (Account, Result<bool, Error>) {
    if p.plan.Some? && !Assignable(plans, p.plan.value) then (a, Err(PlanNotFound))
    else if p.status == Some(Unknown) then (a, Err(ValidationError))
    else if !HasEnd(Patched(a.sub, p)) then (a, Err(ValidationError))
    else
      var to := Patched(a.sub, p);
      var kind := if p.plan.Some? && p.plan.value != a.sub.plan then PlanChanged else StatusChanged;
      (Account(to, a.journal + [ChangeEvent(kind, a.sub, to, None, None, None)]), Ok(true))
  }

  const EXTEND_MIN_MONTHS := 1
  const EXTEND_MAX_MONTHS := 24

  // The period is counted on from the later of now and the end of what is already granted.
  function ExtensionBase(s: Subscription, now: DateTime): DateTime
    requires ValidDates(s) && ValidTime(now)
  {
    var reference := Over(s.periodEnd, s.trialEnd);
    if reference.Some? then Later(now, reference.value) else now
  }

  function ExtendedBy(s: Subscription, plan: PlanCode, now: DateTime, months: int): Subscription
    requires ValidDates(s) && ValidTime(now)
  {
    s.(plan := plan, status := Active,
       periodStart := Over(s.periodStart, Some(now)),
       periodEnd := Some(ShiftMonths(ExtensionBase(s, now), months)),
       notice := None)
  }

  function ExtendSubscription(a: Account, plans: Plans, now: DateTime, months: int, plan: Option<PlanCode>,
      amount: Option<int>, note: Option<string>):
      (Account, Result<bool, Error>)
    requires ValidDates(a.sub) && ValidTime(now)
  {
    if !(EXTEND_MIN_MONTHS <= months <= EXTEND_MAX_MONTHS) then (a, Err(ValidationError))
    else if plan.Some? && !Assignable(plans, plan.value) then (a, Err(PlanNotFound))
    else if plan.None? && a.sub.plan !in plans then (a, Err(PlanNotFound))
    else
      var target := if plan.Some? then plan.value else a.sub.plan;
      var to := ExtendedBy(a.sub, target, now, months).(note := Over(note, a.sub.note));
      var kind := if target != a.sub.plan then PlanChanged else Extended;
      var final := if amount.Some? then amount.value else plans[target].price * months;
      (Account(to, a.journal + [ChangeEvent(kind, a.sub, to, Some(months), Some(final), None)]), Ok(true))
  }

  datatype PaymentKind = ExtendKind | UpgradeKind

  // What a payment is for, fixed when it is created.
  datatype Purchase = Purchase(id: PaymentId, kind: PaymentKind, plan: PlanCode, months: Option<int>, amount: int)

  // The subscription after the payment has been applied, as in both branches of the service.
  function PaidSubscription(s: Subscription, p: Purchase, now: DateTime): Subscription
    requires ValidDates(s) && ValidTime(now)
  {
    if p.kind.ExtendKind? && p.months.Some? then ExtendedBy(s, p.plan, now, p.months.value) else s.(plan := p.plan)
  }

  function PaidEvent(s: Subscription, p: Purchase, now: DateTime): Event
    requires ValidDates(s) && ValidTime(now)
  {
    ChangeEvent(PaidOnline, s, PaidSubscription(s, p, now), p.months, Some(p.amount), Some(p.id))
  }

  // An extension payment without its months is corrupt, and is not applied.
  function ApplyPurchase(a: Account, p: Purchase, now: DateTime): (Account, Result<bool, Error>)
    requires ValidDates(a.sub) && ValidTime(now)
  {
    if p.kind.ExtendKind? && p.months.None? then (a, Err(CorruptPayment))
    else (Account(PaidSubscription(a.sub, p, now), a.journal + [PaidEvent(a.sub, p, now)]), Ok(true))
  }

  // A refund is only noted; the paid period stays.
  function NoteRefund(a: Account, p: Purchase, refunded: int): Account {
    Account(a.sub, a.journal + [Event(PaymentRefunded, Some(p.plan), Some(p.plan), None, None, None, None, None,
        Some(-refunded), Some(p.id))])
  }

  const SUSPENDED_NOTICE := 0

  // The least of the thresholds 7, 3 and 1 that the days left have come down to.
  function Threshold(days: int): Option<int> {
    if days <= 1 then Some(1) else if days <= 3 then Some(3) else if days <= 7 then Some(7) else None
  }

  // The daily job, for one organisation: the notice mark, and the record of a suspension.
  function NotifyStatus(a: Account, now: DateTime): Account
    requires ValidDates(a.sub) && ValidTime(now)
  {
    var s := a.sub;
    var r := Resolve(s, now);
    match r.status
    case Suspended =>
      if s.notice == Some(SUSPENDED_NOTICE) then a
      else Account(s.(notice := Some(SUSPENDED_NOTICE)),
                   a.journal + [Event(AutoSuspended, None, None, Some(s.status), Some(s.status), r.reference, None,
                       None, None, None)])
    case PastDue => a
    case IsCanceled => a
    case _ =>
      var threshold := Threshold(DaysLeft(s, now).value);
      if threshold.None? then a.(sub := s.(notice := None))
      else if s.notice.None? || s.notice.value > threshold.value then a.(sub := s.(notice := threshold))
      else a
  }

  // ----- Runs ----------------------------------------------------------------------------

  datatype Op =
    | DoPatch(plans: Plans, patch: Patch)
    | DoExtend(plans: Plans, now: DateTime, months: int, plan: Option<PlanCode>, amount: Option<int>,
        note: Option<string>)
    | DoPay(purchase: Purchase, now: DateTime)
    | DoRefund(purchase: Purchase, refunded: int)
    | DoNotify(now: DateTime)

  // Dates of a request are dates, and months bought are at least one.
  predicate ValidOp(op: Op) {
    match op
    case DoPatch(_, p) => ValidMoment(p.trialEnd) && ValidMoment(p.periodStart) && ValidMoment(p.periodEnd)
    case DoExtend(_, now, _, _, _, _) => ValidTime(now)
    case DoPay(p, now) => ValidTime(now) && (p.months.Some? ==> 1 <= p.months.value)
    case DoRefund(_, _) => true
    case DoNotify(now) => ValidTime(now)
  }

  function Apply(a: Account, op: Op): Account
    requires ValidDates(a.sub) && ValidOp(op)
  {
    match op
    case DoPatch(plans, p) => PatchSubscription(a, plans, p).0
    case DoExtend(plans, now, months, plan, amount, note) =>
        ExtendSubscription(a, plans, now, months, plan, amount, note).0
    case DoPay(p, now) => ApplyPurchase(a, p, now).0
    case DoRefund(p, refunded) => NoteRefund(a, p, refunded)
    case DoNotify(now) => NotifyStatus(a, now)
  }

  predicate ValidRun(ops: seq<Op>) {
    forall i :: 0 <= i < |ops| ==> ValidOp(ops[i])
  }

  // The dates of a subscription stay dates.
  lemma {:induction false} ApplyKeepsDates(a: Account, op: Op)
    requires ValidDates(a.sub) && ValidOp(op)
    ensures ValidDates(Apply(a, op).sub)
  {
    match op
    case DoExtend(_, now, months, _, _, _) =>
      if 1 <= months {
        ShiftMonthsLater(ExtensionBase(a.sub, now), months);
      }
    case DoPay(p, now) =>
      if p.months.Some? {
        ShiftMonthsLater(ExtensionBase(a.sub, now), p.months.value);
      }
    case _ =>
  }

  function Run(a: Account, ops: seq<Op>): (r: Account)
    requires ValidDates(a.sub) && ValidRun(ops)
    ensures ValidDates(r.sub)
  {
    if ops == [] then a
    else
      var front := Run(a, ops[..|ops| - 1]);
      ApplyKeepsDates(front, ops[|ops| - 1]);
      Apply(front, ops[|ops| - 1])
  }

  // ----- The journal replays to the stored row -------------------------------------------

  // Reading the creation event as what was stored: no period end.
  function Corrected(e: Event): Snapshot {
    if e.kind == Created then AfterEvent(e).(end := None) else AfterEvent(e)
  }

  function CorrectedReplay(journal: seq<Event>): Option<Snapshot> {
    if journal == [] then None
    else if Records(journal[|journal| - 1]) then Some(Corrected(journal[|journal| - 1]))
    else CorrectedReplay(journal[..|journal| - 1])
  }

  // Every recording event after the first starts where the one before it ended.
  predicate Chained(journal: seq<Event>) {
    journal == []
    || (Chained(journal[..|journal| - 1])
        && (Records(journal[|journal| - 1]) ==>
          |journal| == 1 || CorrectedReplay(journal[..|journal| - 1]) == Some(BeforeEvent(journal[|journal| - 1]))))
  }

  // The journal starts with the creation, chains, and ends with the stored row; and the
  // subscription never lacks the end of a running period.
  predicate Sound(a: Account) {
    && a.journal != [] && a.journal[0].kind == Created && a.journal[0].endAfter.Some?
    && (forall i :: 0 < i < |a.journal| ==> a.journal[i].kind != Created)
    && Chained(a.journal)
    && CorrectedReplay(a.journal) == Some(SnapshotOf(a.sub))
    && HasEnd(a.sub)
  }

  // One more recording event that starts at the stored row and ends at the new one.
  lemma {:induction false} RecordKeepsSound(a: Account, to: Subscription, kind: EventKind, months: Option<int>,
      amount: Option<int>, payment: Option<PaymentId>)
    requires Sound(a) && HasEnd(to) && kind in {Extended, PlanChanged, StatusChanged, PaidOnline}
    ensures Sound(Account(to, a.journal + [ChangeEvent(kind, a.sub, to, months, amount, payment)]))
  {
    var e := ChangeEvent(kind, a.sub, to, months, amount, payment);
    assert (a.journal + [e])[..|a.journal|] == a.journal;
  }

  // An event that records nothing, with no change to what the journal records.
  lemma {:induction false} NoteKeepsSound(a: Account, to: Subscription, e: Event)
    requires Sound(a) && SnapshotOf(to) == SnapshotOf(a.sub) && to.trialEnd == a.sub.trialEnd && !Records(e)
    ensures Sound(Account(to, a.journal + [e]))
  {
    assert (a.journal + [e])[..|a.journal|] == a.journal;
  }

  lemma {:induction false} ApplyKeepsSound(a: Account, op: Op)
    requires ValidDates(a.sub) && ValidOp(op) && Sound(a)
    ensures Sound(Apply(a, op))
  {
    match op
    case DoPatch(plans, p) =>
      if p.status != Some(Unknown) && HasEnd(Patched(a.sub, p)) {
        RecordKeepsSound(a, Patched(a.sub, p), PlanChanged, None, None, None);
        RecordKeepsSound(a, Patched(a.sub, p), StatusChanged, None, None, None);
      }
    case DoExtend(plans, now, months, plan, amount, note) =>
      ExtendKeepsSound(a, plans, now, months, plan, amount, note);
    case DoPay(p, now) =>
      RecordKeepsSound(a, PaidSubscription(a.sub, p, now), PaidOnline, p.months, Some(p.amount), Some(p.id));
    case DoRefund(p, refunded) =>
      NoteKeepsSound(a, a.sub, NoteRefund(a, p, refunded).journal[|a.journal|]);
    case DoNotify(now) =>
      var after := NotifyStatus(a, now);
      if after.journal != a.journal {
        NoteKeepsSound(a, after.sub, after.journal[|a.journal|]);
      }
  }

  lemma {:induction false} ExtendKeepsSound(a: Account, plans: Plans, now: DateTime, months: int,
      plan: Option<PlanCode>, amount: Option<int>, note: Option<string>)
    requires ValidDates(a.sub) && ValidTime(now) && Sound(a)
    ensures Sound(ExtendSubscription(a, plans, now, months, plan, amount, note).0)
  {
    var (after, r) := ExtendSubscription(a, plans, now, months, plan, amount, note);
    if r.Ok? {
      var e := after.journal[|a.journal|];
      RecordKeepsSound(a, after.sub, e.kind, e.months, e.amount, e.payment);
    }
  }

  // Over every run since the creation: the recording events chain, the last one agrees with
  // the stored row, active implies a period end and trialing a trial end.
  lemma {:induction false} RunsAreSound(premium: PlanCode, created: DateTime, trialDays: nat, ops: seq<Op>)
    requires ValidTime(created) && ValidRun(ops)
    ensures Sound(Run(Create(premium, created, trialDays), ops))
    decreases |ops|
  {
    var a := Create(premium, created, trialDays);
    if ops == [] {
      assert a.journal[..0] == [];
    } else {
      RunsAreSound(premium, created, trialDays, ops[..|ops| - 1]);
      ApplyKeepsSound(Run(a, ops[..|ops| - 1]), ops[|ops| - 1]);
    }
  }

  // Read as it is written, the journal agrees on plan and status always, and on the period
  // end exactly when something has been recorded since the creation.
  lemma {:induction false} ReplayAgreesExactly(a: Account)
    requires Sound(a)
    ensures Replay(a.journal).Some?
    ensures Replay(a.journal).value.plan == Some(a.sub.plan) && Replay(a.journal).value.status == Some(a.sub.status)
    ensures Replay(a.journal) == Some(SnapshotOf(a.sub)) <==> exists i :: 0 < i < |a.journal| && Records(a.journal[i])
  {
    ReplayFindsRecord(a.journal);
  }

  lemma {:induction false} ReplayFindsRecord(journal: seq<Event>)
    requires journal != [] && journal[0].kind == Created && journal[0].endAfter.Some?
    requires forall i :: 0 < i < |journal| ==> journal[i].kind != Created
    ensures Replay(journal).Some? && CorrectedReplay(journal).Some?
    ensures Replay(journal).value.(end := None) == CorrectedReplay(journal).value.(end := None)
    ensures Replay(journal) == CorrectedReplay(journal) <==> exists i :: 0 < i < |journal| && Records(journal[i])
    decreases |journal|
  {
    var n := |journal| - 1;
    if Records(journal[n]) {
      assert n > 0 ==> 0 < n < |journal| && Records(journal[n]);
    } else {
      ReplayFindsRecord(journal[..n]);
      if i :| 0 < i < n && Records(journal[..n][i]) {
        assert Records(journal[i]);
      }
      if i :| 0 < i < |journal| && Records(journal[i]) {
        assert Records(journal[..n][i]);
      }
    }
  }

  // Right after the creation the journal names a period end that is not stored.
  lemma {:induction false} CreationRecordsForeignEnd(premium: PlanCode, now: DateTime, trialDays: nat)
    requires ValidTime(now)
    ensures var a := Create(premium, now, trialDays);
      Replay(a.journal).Some? && Replay(a.journal).value.end != a.sub.periodEnd
  {}

  // ----- Extensions ----------------------------------------------------------------------

  // After an extension, paid or manual, the subscription is active until its new end, past
  // due for exactly the days of grace, and then suspended; the new end is later than now and
  // than the end granted before.
  lemma {:induction false} ExtensionRunsOut(s: Subscription, plan: PlanCode, now: DateTime, months: int, t: DateTime)
    requires ValidDates(s) && ValidTime(now) && ValidTime(t) && 1 <= months
    ensures var to := ExtendedBy(s, plan, now, months);
      && ValidDates(to) && to.periodEnd.Some?
      && Instant(now) < Instant(to.periodEnd.value)
      && (Over(s.periodEnd, s.trialEnd).Some? ==>
          Instant(Over(s.periodEnd, s.trialEnd).value) < Instant(to.periodEnd.value))
      && (Effective(to, t) == IsActive <==> Instant(t) <= Instant(to.periodEnd.value))
      && (Effective(to, t) == PastDue <==>
            Instant(to.periodEnd.value) < Instant(t) <= Instant(to.periodEnd.value) + GRACE_DAYS * SECONDS_PER_DAY)
      && (Effective(to, t) == Suspended <==> Instant(to.periodEnd.value) + GRACE_DAYS * SECONDS_PER_DAY < Instant(t))
  {
    ShiftMonthsLater(ExtensionBase(s, now), months);
  }

  // Paid months are never lost: the new end lies at least that many months further.
  lemma {:induction false} ExtensionAddsMonths(s: Subscription, plan: PlanCode, now: DateTime, months: int)
    requires ValidDates(s) && ValidTime(now) && 1 <= months
    ensures var to := ExtendedBy(s, plan, now, months);
      && to.periodEnd.Some?
      && (Over(s.periodEnd, s.trialEnd).Some? ==>
            MonthIndex(Over(s.periodEnd, s.trialEnd).value.date) + months <= MonthIndex(to.periodEnd.value.date))
      && MonthIndex(now.date) + months <= MonthIndex(to.periodEnd.value.date)
  {
    var base := ExtensionBase(s, now);
    AddMonthsShape(base.date, months);
    InstantOrder(now, base);
    if Over(s.periodEnd, s.trialEnd).Some? {
      InstantOrder(Over(s.periodEnd, s.trialEnd).value, base);
    }
  }

  // ----- Suspension is recorded once -----------------------------------------------------

  function SuspensionsRecorded(journal: seq<Event>): nat {
    if journal == [] then 0
    else SuspensionsRecorded(journal[..|journal| - 1]) + if journal[|journal| - 1].kind == AutoSuspended then 1 else 0
  }

  predicate ValidMoments(days: seq<DateTime>) {
    forall i :: 0 <= i < |days| ==> ValidTime(days[i])
  }

  function NotifyDaily(a: Account, days: seq<DateTime>): (r: Account)
    requires ValidDates(a.sub) && ValidMoments(days)
    ensures ValidDates(r.sub) && r.sub.(notice := a.sub.notice) == a.sub
  {
    if days == [] then a else NotifyStatus(NotifyDaily(a, days[..|days| - 1]), days[|days| - 1])
  }

  // A run of the job records a suspension only if the subscription is suspended and no
  // record has been made; afterwards the mark says that one has.
  lemma {:induction false} NotifyStep(a: Account, now: DateTime)
    requires ValidDates(a.sub) && ValidTime(now)
    ensures var r := NotifyStatus(a, now);
      && SuspensionsRecorded(a.journal) <= SuspensionsRecorded(r.journal) <= SuspensionsRecorded(a.journal) + 1
      && (Effective(a.sub, now) == Suspended ==> r.sub.notice == Some(SUSPENDED_NOTICE))
      && (SuspensionsRecorded(r.journal) > SuspensionsRecorded(a.journal) ==>
            Effective(a.sub, now) == Suspended && a.sub.notice != Some(SUSPENDED_NOTICE))
  {
    var r := NotifyStatus(a, now);
    if r.journal != a.journal {
      assert r.journal[..|a.journal|] == a.journal;
    }
  }

  lemma {:induction false} SameDatesSameStatus(s: Subscription, notice: Option<int>, now: DateTime)
    requires ValidDates(s) && ValidTime(now)
    ensures Effective(s.(notice := notice), now) == Effective(s, now)
  {}

  // However often the job runs while nothing else happens, it records one suspension at
  // most, and it leaves everything but the notice mark as it was.
  lemma {:induction false} SuspensionRecordedOnce(a: Account, days: seq<DateTime>)
    requires ValidDates(a.sub) && ValidMoments(days)
    requires forall i, j | 0 <= i < j < |days| && ValidTime(days[i])
        && ValidTime(days[j]) :: Instant(days[i]) <= Instant(days[j])
    ensures var r := NotifyDaily(a, days);
      && r.sub.(notice := a.sub.notice) == a.sub
      && SuspensionsRecorded(r.journal) <= SuspensionsRecorded(a.journal) + 1
      && (SuspensionsRecorded(r.journal) > SuspensionsRecorded(a.journal) ==>
            days != [] && Effective(a.sub, days[|days| - 1]) == Suspended && r.sub.notice == Some(SUSPENDED_NOTICE))
    decreases |days|
  {
    if days != [] {
      var front, now := NotifyDaily(a, days[..|days| - 1]), days[|days| - 1];
      SuspensionRecordedOnce(a, days[..|days| - 1]);
      NotifyStep(front, now);
      SameDatesSameStatus(a.sub, front.sub.notice, now);
      if |days| > 1 {
        StatusNeverMovesBack(a.sub, days[|days| - 2], now);
      }
    }
  }
}
