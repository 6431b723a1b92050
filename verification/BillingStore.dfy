// The payment service of one organisation: the rows it changes in place. Each method, run on
// its own, does what a worker of the protocol does from its first step to its commit.

module BillingStore {
  import opened Results
  import opened Calendar
  import M = Money
  import opened Subscriptions
  import opened SubscriptionEffects
  import opened BillingProtocol

  datatype ProviderStatus = PaidByCustomer | CanceledByProvider | StillPending

  // The rows after a lone worker has gone through the given steps.
  function RowsAfter(db: Database, steps: seq<Step>): Option<Database> {
    var r := After(State(db, map[], []), steps);
    if r.Some? then Some(r.value.db) else None
  }

  // The rows that a worker leaves when it commits what it has decided.
  function Outcome(db: Database, k: Worker): Database {
    if !(k.Applying? || k.Marking? || k.Canceling?) || k.payment !in db.payments then db
    else
      var row := db.payments[k.payment];
      match k
      case Applying(p, sub, entry, at) =>
        db.(sub := Some(sub),
            payments := db.payments[p := row.(status := Succeeded, appliedAt := Some(at), event := Some(entry.id))],
            journal := db.journal + [entry])
      case Marking(p) => db.(payments := db.payments[p := row.(status := Succeeded)])
      case Canceling(p) => db.(payments := db.payments[p := row.(status := CanceledPayment)])
  }

  // What the provider has to return for a payment of ours.
  function StoredOf(p: Purchase, organization: string): M.StoredPayment {
    M.StoredPayment(M.NatText(p.id), organization, p.amount)
  }

  // The provider's answer about one of our payments verifies for that payment, and for no
  // other one.
  lemma {:induction false} OnlyOwnAnswerVerifies(p: Purchase, q: Purchase, organization: string)
    ensures M.VerifyProviderData(StoredOf(q, organization), M.Echo(StoredOf(p, organization)))
       <==> q.id == p.id && q.amount == p.amount
  {
    M.EchoVerifies(StoredOf(p, organization), StoredOf(q, organization));
    M.NatTextRoundTrip(p.id);
    M.NatTextRoundTrip(q.id);
  }

  // What an application leaves, in the fields of the rows. An applied payment, and an extension
  // without its months, change nothing; without a subscription, or for a deleted organisation,
  // the payment is only marked as succeeded; otherwise it is marked as applied now, the
  // subscription gets what was bought, and one event records it.
  ghost predicate AppliedRows(before: Database, after: Database, p: PaymentId, now: DateTime, id: EventId)
    requires p in before.payments && ValidTime(now) && (before.sub != None ==> ValidDates(before.sub.value))
  {
    var row := before.payments[p];
    if row.appliedAt != None then after == before
    else if before.sub == None || before.deleted then
      after == before.(payments := before.payments[p := row.(status := Succeeded)])
    else if row.purchase.kind == ExtendKind && row.purchase.months == None then after == before
    else
      && after.deleted == before.deleted && after.sub != None
      && Bought(before.sub.value, row.purchase, now, after.sub.value)
      && after.payments == before.payments[p := PaymentRow(row.purchase, Succeeded, Some(now), Some(id))]
      && after.journal == before.journal + [Entry(id, Event(PaidOnline,
           Some(before.sub.value.plan), Some(after.sub.value.plan), Some(before.sub.value.status),
               Some(after.sub.value.status),
           before.sub.value.periodEnd, after.sub.value.periodEnd,
           row.purchase.months, Some(row.purchase.amount), Some(row.purchase.id)))]
  }

  lemma {:induction false} DecisionWrites(db: Database, p: PaymentId, now: DateTime, id: EventId)
    requires p in db.payments && ValidTime(now) && (db.sub != None ==> ValidDates(db.sub.value))
    requires ValidPurchase(db.payments[p].purchase)
    ensures AppliedRows(db, Outcome(db, Decision(db, p, now, id)), p, now, id)
  {
    var bought := db.payments[p].purchase;
    if db.sub.Some? {
      PurchaseWrites(Account(db.sub.value, []), bought, now);
    }
  }

  // The protocol's invariant, with nobody at work.
  ghost predicate Settled(start: Option<Subscription>, db: Database, log: seq<Change>) {
    Inv(State(db, map[], log)) && Serial(start, log, db.payments, db.sub)
  }

  lemma {:induction false} StepKeepsSettled(start: Option<Subscription>, db: Database, log: seq<Change>, step: Step)
    requires Settled(start, db, log) && (step.NewPayment? || step.Refund?) && Enabled(State(db, map[], log), step)
    ensures Settled(start, Do(State(db, map[], log), step).db, log)
  {
    StepKeeps(State(db, map[], log), step);
    StepIsSerial(start, State(db, map[], log), step);
  }

  function LogOf(log: seq<Change>, k: Worker): seq<Change> {
    if k.Applying? then log + [Paid(k.payment, k.at)] else log
  }

  lemma {:induction false} LoneCommit(db: Database, log: seq<Change>, k: Worker)
    requires WellFormed(State(db, map[0 := k], log)) && (k.Applying? || k.Marking? || k.Canceling?)
    ensures var after := Do(State(db, map[0 := k], log), Commit(0));
      after.db == Outcome(db, k) && after.log == LogOf(log, k)
  {}

  lemma {:induction false} WorkersGoHome(s: State)
    requires Inv(s)
    ensures Inv(State(s.db, map[], s.log))
  {
    NobodyHasLock(s.db, map[]);
  }

  lemma {:induction false} LoneWorkerIsSafe(db: Database, log: seq<Change>, k: Worker)
    requires Inv(State(db, map[], log)) && PointsWell(k, db.payments)
    requires k.Applying? ==> IsCurrent(db, k) && !InJournal(db.journal, k.entry.id)
    ensures Inv(State(db, map[0 := k], log))
  {
    WorkerStepKeeps(State(db, map[], log), 0, k);
    assert State(db, map[], log).(workers := map[][0 := k]) == State(db, map[0 := k], log);
  }

  // A lone worker that commits what it has decided.
  lemma {:induction false} CommitKeepsSettled(start: Option<Subscription>, db: Database, log: seq<Change>, k: Worker)
    requires Settled(start, db, log) && PointsWell(k, db.payments)
    requires k.Applying? ==> IsCurrent(db, k) && !InJournal(db.journal, k.entry.id)
    requires k.Idle? || k.Applying? || k.Marking? || k.Canceling?
    ensures Settled(start, Outcome(db, k), LogOf(log, k))
  {
    if !k.Idle? {
      var s := State(db, map[0 := k], log);
      LoneWorkerIsSafe(db, log, k);
      StepKeeps(s, Commit(0));
      StepIsSerial(start, s, Commit(0));
      LoneCommit(db, log, k);
      WorkersGoHome(Do(s, Commit(0)));
    }
  }

  lemma {:induction false} DecisionKeepsSettled(start: Option<Subscription>, db: Database, log: seq<Change>,
      p: PaymentId, now: DateTime, id: EventId)
    requires Settled(start, db, log) && p in db.payments && ValidTime(now) && !InJournal(db.journal, id)
    ensures Settled(start, Outcome(db, Decision(db, p, now, id)), LogOf(log, Decision(db, p, now, id)))
  {
    CommitKeepsSettled(start, db, log, Decision(db, p, now, id));
  }

  class Billing {
    const organization: string
    ghost const start: Option<Subscription>
    // The payments applied so far, in order.
    ghost var log: seq<Change>
    var sub: Option<Subscription>
    var deleted: bool
    var payments: map<PaymentId, PaymentRow>
    var journal: seq<Entry>

    constructor (organization: string, sub: Option<Subscription>)
      requires sub.Some? ==> ValidDates(sub.value)
      ensures Valid() && Rows() == Database(sub, false, map[], []) && log == []
      ensures start == sub && this.organization == organization
    {
      this.organization, start, log := organization, sub, [];
      this.sub, deleted, payments, journal := sub, false, map[], [];
    }

    // Every payment is counted once, and the subscription is what the applied ones make of
    // the first one.
    ghost predicate Valid()
      reads this
    {
      Settled(start, Rows(), log)
    }

    // The row of a new payment.
    method CreatePayment(purchase: Purchase)
      requires Valid() && purchase.id !in payments && ValidPurchase(purchase)
      modifies this
      ensures Valid() && log == old(log)
      ensures Rows() == old(Rows()).(payments :=
          old(payments)[purchase.id := PaymentRow(purchase, Pending, None, None)])
    {
      StepKeepsSettled(start, Rows(), log, NewPayment(purchase));
      payments := payments[purchase.id := PaymentRow(purchase, Pending, None, None)];
    }

    function Rows(): Database
      reads this
    {
      Database(sub, deleted, payments, journal)
    }

    // apply_payment: under the lock the payment is read again, and an applied one left alone.
    method ApplyPayment(p: PaymentId, now: DateTime, id: EventId)
      requires Valid() && p in payments && ValidTime(now) && !InJournal(journal, id)
      modifies this
      ensures Valid()
      ensures Rows() == Outcome(old(Rows()), Decision(old(Rows()), p, now, id))
      ensures AppliedRows(old(Rows()), Rows(), p, now, id)
      ensures log == LogOf(old(log), Decision(old(Rows()), p, now, id))
    {
      DecisionKeepsSettled(start, Rows(), log, p, now, id);
      DecisionWrites(Rows(), p, now, id);
      log := LogOf(log, Decision(Rows(), p, now, id));
      WriteRows(p, now, id);
    }

    // The locking read, the checks under the lock, and the writes.
    method WriteRows(p: PaymentId, now: DateTime, id: EventId)
      requires p in payments && ValidTime(now) && (sub.Some? ==> ValidDates(sub.value))
      modifies this`sub, this`payments, this`journal
      ensures Rows() == Outcome(old(Rows()), Decision(old(Rows()), p, now, id))
    {
      var row := payments[p];
      if row.appliedAt.Some? {
        return;
      }
      if sub.None? || deleted {
        payments := payments[p := row.(status := Succeeded)];
        return;
      }
      var before := sub.value;
      var after := before;
      if row.purchase.kind.ExtendKind? {
        if row.purchase.months.None? {
          return;
        }
        after := ExtendedBy(before, row.purchase.plan, now, row.purchase.months.value);
      } else {
        after := before.(plan := row.purchase.plan);
      }
      sub := Some(after);
      journal := journal + [Entry(id, ChangeEvent(PaidOnline, before, after, row.purchase.months,
          Some(row.purchase.amount), Some(row.purchase.id)))];
      payments := payments[p := row.(status := Succeeded, appliedAt := Some(now), event := Some(id))];
    }

    // mark_payment_canceled.
    method MarkCanceled(p: PaymentId)
      requires Valid() && p in payments
      modifies this
      ensures Valid() && log == old(log)
      ensures Rows() == if old(payments)[p].status != Pending then old(Rows()) else Outcome(old(Rows()), Canceling(p))
    {
      if payments[p].status != Pending {
        return;
      }
      CommitKeepsSettled(start, Rows(), log, Canceling(p));
      payments := payments[p := payments[p].(status := CanceledPayment)];
    }

    // reconcile_payment: an answer that does not match our payment changes nothing.
    method Reconcile(p: PaymentId, data: M.ProviderData, status: ProviderStatus, now: DateTime, id: EventId)
      requires Valid() && p in payments && ValidTime(now) && !InJournal(journal, id)
      modifies this
      ensures Valid()
      ensures var verified := M.VerifyProviderData(StoredOf(old(payments)[p].purchase, organization), data);
        && (!verified || status.StillPending? ==> Rows() == old(Rows()) && log == old(log))
        && (verified && status.PaidByCustomer? ==>
              Rows() == Outcome(old(Rows()), Decision(old(Rows()), p, now, id))
              && log == LogOf(old(log), Decision(old(Rows()), p, now, id)))
        && (verified && status.CanceledByProvider? ==>
              log == old(log)
              && Rows() == if old(payments)[p].status != Pending then old(Rows())
                  else Outcome(old(Rows()), Canceling(p)))
    {
      if !M.VerifyProviderData(StoredOf(payments[p].purchase, organization), data) {
        return;
      }
      match status {
        case PaidByCustomer => ApplyPayment(p, now, id);
        case CanceledByProvider => MarkCanceled(p);
        case StillPending =>
      }
    }

    // apply_refund.
    method ApplyRefund(p: PaymentId, id: EventId, amount: int)
      requires Valid() && p in payments && !InJournal(journal, id)
      modifies this
      ensures Valid() && log == old(log)
      ensures old(payments)[p].status == Refunded ==> Rows() == old(Rows())
      ensures old(payments)[p].status != Refunded ==>
        && sub == old(sub) && payments == old(payments)[p := old(payments)[p].(status := Refunded)]
        && |journal| == |old(journal)| + 1 && journal[..|old(journal)|] == old(journal)
        && journal[|old(journal)|].event.kind == PaymentRefunded
        && journal[|old(journal)|].event.amount == Some(0 - amount)
        && journal[|old(journal)|].event.payment == Some(old(payments)[p].purchase.id)
      ensures Rows() == if old(payments)[p].status == Refunded then old(Rows())
        else Database(old(sub), old(deleted), old(payments)[p := old(payments)[p].(status := Refunded)],
                      old(journal) + [RefundEntry(old(payments)[p].purchase, id, amount)])
    {
      var row := payments[p];
      if row.status == Refunded {
        return;
      }
      StepKeepsSettled(start, Rows(), log, Refund(p, id, amount));
      payments := payments[p := row.(status := Refunded)];
      journal := journal + [RefundEntry(row.purchase, id, amount)];
    }
  }

  // The method is the protocol's worker from verification to commit, with nobody else about.
  lemma {:induction false} LoneWorkerApplies(db: Database, w: WorkerId, p: PaymentId, now: DateTime, id: EventId)
    requires WellFormed(State(db, map[], [])) && p in db.payments && ValidTime(now) && !InJournal(db.journal, id)
    ensures var k := Decision(db, p, now, id);
      RowsAfter(db, [Verified(w, p), Lock(w), Decide(w, now, id)] + if k.Idle? then [] else [Commit(w)])
          == Some(Outcome(db, k))
  {
    var k := Decision(db, p, now, id);
    var s0 := State(db, map[], []);
    var s1 := Do(s0, Verified(w, p));
    assert s1 == State(db, map[w := Waiting(p)], []);
    var s2 := Do(s1, Lock(w));
    assert s2 == State(db, map[w := Holding(p)], []);
    var s3 := Do(s2, Decide(w, now, id));
    assert s3 == State(db, map[w := k], []);
    var last := if k.Idle? then [] else [Commit(w)];
    AfterStep(s0, [Verified(w, p), Lock(w), Decide(w, now, id)] + last, Verified(w, p),
        [Lock(w), Decide(w, now, id)] + last);
    AfterStep(s1, [Lock(w), Decide(w, now, id)] + last, Lock(w), [Decide(w, now, id)] + last);
    AfterStep(s2, [Decide(w, now, id)] + last, Decide(w, now, id), last);
    if !k.Idle? {
      AfterStep(s3, last, Commit(w), []);
    }
  }
}
