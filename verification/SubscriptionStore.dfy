// The subscription row and its journal, changed in place by the service's functions; an error
// part of the way rolls the row back.

module SubscriptionStore {
  import opened Results
  import opened Calendar
  import opened Subscriptions
  import opened SubscriptionEffects

  lemma {:induction false} OperationKeeps(a: Account, op: Op)
    requires ValidDates(a.sub) && Sound(a) && ValidOp(op)
    ensures ValidDates(Apply(a, op).sub) && Sound(Apply(a, op))
  {
    ApplyKeepsDates(a, op);
    ApplyKeepsSound(a, op);
  }

  class Store {
    var plan: PlanCode
    var status: Status
    var trialEnd: Option<DateTime>
    var periodStart: Option<DateTime>
    var periodEnd: Option<DateTime>
    var note: Option<string>
    var notice: Option<int>
    var journal: seq<Event>

    function Row(): Subscription
      reads this
    {
      Subscription(plan, status, trialEnd, periodStart, periodEnd, note, notice)
    }

    function State(): Account
      reads this
    {
      Account(Row(), journal)
    }

    // The journal chains and replays to the row, and the row has the end of its period.
    ghost predicate Valid()
      reads this
    {
      ValidDates(Row()) && Sound(State())
    }

    // create_subscription_for_org.
    constructor (premium: PlanCode, now: DateTime, trialDays: nat)
      requires ValidTime(now)
      ensures Valid() && State() == Create(premium, now, trialDays)
    {
      RunsAreSound(premium, now, trialDays, []);
      var end := PlusDaysOf(now, trialDays);
      plan, status := premium, Trialing;
      trialEnd, periodStart, periodEnd := Some(end), None, None;
      note, notice := None, None;
      journal := [Event(Created, None, Some(premium), None, Some(Trialing), None, Some(end), None, None, None)];
    }

    method Rollback(row: Subscription)
      modifies this
      ensures Row() == row && journal == old(journal)
    {
      plan, status, trialEnd, periodStart := row.plan, row.status, row.trialEnd, row.periodStart;
      periodEnd, note, notice := row.periodEnd, row.note, row.notice;
    }

    // The checks and assignments of a correction, in the order of the service.
    method Assign(plans: Plans, p: Patch) returns (r: Result<bool, Error>)
      modifies this
      ensures (State(), r) == Subscriptions.PatchSubscription(old(State()), plans, p)
    {
      var begun := Row();
      var planChanged := false;
      if p.plan.Some? {
        if !Assignable(plans, p.plan.value) {
          return Err(PlanNotFound);
        }
        planChanged := p.plan.value != plan;
        plan := p.plan.value;
      }
      if p.status.Some? {
        if p.status.value.Unknown? {
          Rollback(begun);
          return Err(ValidationError);
        }
        status := p.status.value.status;
      }
      trialEnd := Over(p.trialEnd, trialEnd);
      periodStart := Over(p.periodStart, periodStart);
      periodEnd := Over(p.periodEnd, periodEnd);
      note := Over(p.note, note);
      if status.Active? && periodEnd.None? {
        Rollback(begun);
        return Err(ValidationError);
      }
      if status.Trialing? && trialEnd.None? {
        Rollback(begun);
        return Err(ValidationError);
      }
      if ResetsNotice(p) {
        notice := None;
      }
      assert Row() == Patched(begun, p);
      journal := journal + [ChangeEvent(if planChanged then PlanChanged else StatusChanged, begun, Row(), None, None,
          None)];
      r := Ok(true);
    }

    // patch_subscription.
    method PatchSubscription(plans: Plans, p: Patch) returns (r: Result<bool, Error>)
      requires Valid() && ValidOp(DoPatch(plans, p))
      modifies this
      ensures Valid()
      ensures (State(), r) == Subscriptions.PatchSubscription(old(State()), plans, p)
    {
      OperationKeeps(State(), DoPatch(plans, p));
      r := Assign(plans, p);
    }

    // The assignments that a manual extension and a paid one share.
    method ExtendRow(target: PlanCode, now: DateTime, months: int)
      requires ValidDates(Row()) && ValidTime(now)
      modifies this
      ensures Row() == ExtendedBy(old(Row()), target, now, months) && journal == old(journal)
    {
      var base := now;
      var reference := if periodEnd.Some? then periodEnd else trialEnd;
      if reference.Some? {
        base := Later(now, reference.value);
      }
      periodEnd := Some(ShiftMonths(base, months));
      if periodStart.None? {
        periodStart := Some(now);
      }
      plan, status, notice := target, Active, None;
    }

    // extend_subscription.
    method ExtendSubscription(plans: Plans, now: DateTime, months: int, code: Option<PlanCode>, amount: Option<int>,
        remark: Option<string>) returns (r: Result<bool, Error>)
      requires Valid() && ValidTime(now)
      modifies this
      ensures r.Ok? ==> ExtendedFor(old(Row()), if code != None then code.value else old(plan), now, months, Row())
      ensures Valid()
      ensures (State(), r) == Subscriptions.ExtendSubscription(old(State()), plans, now, months, code, amount, remark)
    {
      ExtendWrites(State(), plans, now, months, code, amount, remark);
      OperationKeeps(State(), DoExtend(plans, now, months, code, amount, remark));
      if months < EXTEND_MIN_MONTHS || EXTEND_MAX_MONTHS < months {
        return Err(ValidationError);
      }
      var begun := Row();
      var target, planChanged := plan, false;
      if code.Some? {
        if !Assignable(plans, code.value) {
          return Err(PlanNotFound);
        }
        target, planChanged := code.value, code.value != plan;
      } else if plan !in plans {
        return Err(PlanNotFound);
      }
      var final := if amount.Some? then amount.value else plans[target].price * months;
      ExtendRow(target, now, months);
      note := Over(remark, note);
      journal := journal + [ChangeEvent(if planChanged then PlanChanged else Extended, begun, Row(), Some(months),
          Some(final), None)];
      r := Ok(true);
    }

    // The branches of apply_payment that change the subscription, and the event they write.
    method ApplyPurchase(p: Purchase, now: DateTime) returns (r: Result<bool, Error>)
      requires Valid() && ValidOp(DoPay(p, now))
      modifies this
      ensures r.Ok? ==> Bought(old(Row()), p, now, Row())
      ensures Valid()
      ensures (State(), r) == Subscriptions.ApplyPurchase(old(State()), p, now)
    {
      PurchaseWrites(State(), p, now);
      OperationKeeps(State(), DoPay(p, now));
      var begun := Row();
      if p.kind.ExtendKind? {
        if p.months.None? {
          return Err(CorruptPayment);
        }
        ExtendRow(p.plan, now, p.months.value);
      } else {
        plan := p.plan;
      }
      journal := journal + [ChangeEvent(PaidOnline, begun, Row(), p.months, Some(p.amount), Some(p.id))];
      r := Ok(true);
    }

    // notify_subscription_status, for one organisation.
    method NotifyStatus(now: DateTime)
      requires Valid() && ValidTime(now)
      modifies this
      ensures Valid()
      ensures State() == Subscriptions.NotifyStatus(old(State()), now)
    {
      OperationKeeps(State(), DoNotify(now));
      var r := Resolve(Row(), now);
      if r.status.InTrial? || r.status.IsActive? {
        var threshold := Threshold(DaysLeft(Row(), now).value);
        if threshold.Some? {
          if notice.None? || notice.value > threshold.value {
            notice := threshold;
          }
        } else if notice.Some? {
          notice := None;
        }
      } else if r.status.Suspended? && notice != Some(SUSPENDED_NOTICE) {
        journal := journal + [Event(AutoSuspended, None, None, Some(status), Some(status), r.reference, None, None,
            None, None)];
        notice := Some(SUSPENDED_NOTICE);
      }
    }
  }
}
