// What the steps of the payment protocol write, in the columns of payments, subscription and
// journal.

module BillingEffects {
  import opened Results
  import opened Calendar
  import opened Subscriptions
  import opened BillingProtocol

  // An entry is added at the end of the journal.
  predicate OneMore(before: seq<Entry>, after: seq<Entry>, id: EventId) {
    |after| == |before| + 1 && after[..|before|] == before && after[|before|].id == id
  }

  // With the lock, a payment is applied exactly if it has not been applied before, the
  // organisation and its subscription are there, and an extension names its months. If only the
  // organisation or the subscription is missing, it is marked as succeeded.
  lemma {:induction false} DecisionByRow(db: Database, p: PaymentId, now: DateTime, id: EventId)
    requires p in db.payments && ValidTime(now) && (db.sub.Some? ==> ValidDates(db.sub.value))
    ensures var row := db.payments[p];
      var k := Decision(db, p, now, id);
      && (k.Applying? <==> row.appliedAt == None && db.sub != None && !db.deleted
                           && (row.purchase.kind.ExtendKind? ==> row.purchase.months != None))
      && (k.Marking? <==> row.appliedAt == None && (db.sub == None || db.deleted))
      && (!k.Applying? && !k.Marking? ==> k == Idle)
      && (k.Marking? ==> k.payment == p)
      && (k.Applying? ==>
            && k.payment == p && k.at == now && k.entry.id == id
            && k.entry.event.kind == PaidOnline && k.entry.event.payment == Some(row.purchase.id)
            && k.entry.event.months == row.purchase.months && k.entry.event.amount == Some(row.purchase.amount)
            && k.entry.event.fromPlan == Some(db.sub.value.plan) && k.entry.event.toPlan == Some(row.purchase.plan)
            && k.entry.event.endBefore == db.sub.value.periodEnd && k.entry.event.endAfter == k.sub.periodEnd)
  {}

  // A commit writes its own payment's row only; an application also the subscription and one
  // event, which the row names. Whatever has been written, a crash takes it back.
  lemma {:induction false} CommitWrites(s: State, w: WorkerId)
    requires WellFormed(s) && Enabled(s, Commit(w))
    ensures var k, db, after := WorkerAt(s, w), s.db, Do(s, Commit(w)).db;
      && after.deleted == db.deleted && after.payments.Keys == db.payments.Keys
      && (forall q :: q in db.payments && q != k.payment ==> after.payments[q] == db.payments[q])
      && after.payments[k.payment].purchase == db.payments[k.payment].purchase
      && (if k.Canceling? then after.payments[k.payment].status == CanceledPayment
          else after.payments[k.payment].status == Succeeded)
      && (if k.Applying? then
            && after.sub == Some(k.sub) && OneMore(db.journal, after.journal, k.entry.id)
            && after.journal[|db.journal|].event == k.entry.event
            && after.payments[k.payment].appliedAt == Some(k.at) && after.payments[k.payment].event == Some(k.entry.id)
          else
            && after.sub == db.sub && after.journal == db.journal
            && after.payments[k.payment].appliedAt == db.payments[k.payment].appliedAt
            && after.payments[k.payment].event == db.payments[k.payment].event)
    ensures Do(s, Crash(w)).db == s.db
    ensures WorkerAt(Do(s, Commit(w)), w) == Idle && WorkerAt(Do(s, Crash(w)), w) == Idle
  {}

  // A refund marks its payment and notes what went back; the subscription stays as it is.
  lemma {:induction false} RefundStepWrites(s: State, p: PaymentId, id: EventId, amount: int)
    requires WellFormed(s) && Enabled(s, Refund(p, id, amount))
    ensures var db, after := s.db, Do(s, Refund(p, id, amount)).db;
      && after.sub == db.sub && after.deleted == db.deleted
      && after.payments == db.payments[p := db.payments[p].(status := Refunded)]
      && OneMore(db.journal, after.journal, id)
      && var event := after.journal[|db.journal|].event;
         && event.kind == PaymentRefunded && event.payment == Some(p) && event.amount == Some(0 - amount)
         && event.fromPlan == Some(db.payments[p].purchase.plan) && event.toPlan == event.fromPlan
         && event.fromStatus == None && event.toStatus == None && event.endBefore == None && event.endAfter == None
         && event.months == None
  {}

  // A column with the value read, the value the operation makes of it, and the value that is
  // committed by the time of the write: what stands there afterwards.
  predicate ChangedOnly<T(==)>(read: T, made: T, committed: T, after: T) {
    (made != read ==> after == made) && (made == read ==> after == committed)
  }

  predicate ChangedColumns(read: Subscription, made: Subscription, committed: Subscription, after: Subscription) {
    && ChangedOnly(read.plan, made.plan, committed.plan, after.plan)
    && ChangedOnly(read.status, made.status, committed.status, after.status)
    && ChangedOnly(read.trialEnd, made.trialEnd, committed.trialEnd, after.trialEnd)
    && ChangedOnly(read.periodStart, made.periodStart, committed.periodStart, after.periodStart)
    && ChangedOnly(read.periodEnd, made.periodEnd, committed.periodEnd, after.periodEnd)
    && ChangedOnly(read.note, made.note, committed.note, after.note)
    && ChangedOnly(read.notice, made.notice, committed.notice, after.notice)
  }

  lemma {:induction false} OverwriteChangesColumns(committed: Subscription, read: Subscription, made: Subscription)
    ensures ChangedColumns(read, made, committed, Overwrite(committed, read, made))
  {}

  lemma {:induction false} OneNoteAtMost(read: Subscription, op: Op)
    requires ValidDates(read) && IsManual(op)
    ensures |EditOf(read, op).journal| <= 1
  {}

  // A manual operation that writes late puts back the columns it has changed and no others, so
  // what a payment wrote meanwhile to the other columns stays. It notes one event, or none if
  // it found nothing to change; payments are not touched.
  lemma {:induction false} LateWriteWrites(s: State, w: WorkerId, id: EventId)
    requires WellFormed(s) && Enabled(s, Write(w, id))
    ensures var k := WorkerAt(s, w);
      var edit := EditOf(k.read, k.op);
      var db, after := s.db, Do(s, Write(w, id)).db;
      && after.payments == db.payments && after.deleted == db.deleted && after.sub != None
      && ChangedColumns(k.read, edit.sub, db.sub.value, after.sub.value)
      && (edit.journal == [] ==> after.journal == db.journal)
      && (edit.journal != [] ==>
            OneMore(db.journal, after.journal, id) && edit.journal == [after.journal[|db.journal|].event])
  {
    var k := WorkerAt(s, w);
    OneNoteAtMost(k.read, k.op);
    OverwriteChangesColumns(s.db.sub.value, k.read, EditOf(k.read, k.op).sub);
  }
}
