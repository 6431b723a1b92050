// Webhook and polling workers applying the payments of one organisation under the row lock of
// its subscription, and the manual operations, which read it without the lock. Reads see what
// is committed; writes are seen when they are committed, and a write waits for the row lock.

module BillingProtocol {
  import opened Results
  import opened Calendar
  import opened Subscriptions

  type WorkerId = nat
  type EventId = nat

  datatype PaymentStatus = Pending | Succeeded | CanceledPayment | Refunded

  datatype PaymentRow = PaymentRow(purchase: Purchase, status: PaymentStatus, appliedAt: Option<DateTime>,
      event: Option<EventId>)

  datatype Entry = Entry(id: EventId, event: Event)

  // Committed rows. A missing subscription is reported and its payments are never applied.
  datatype Database = Database(
    sub: Option<Subscription>,
    deleted: bool,
    payments: map<PaymentId, PaymentRow>,
    journal: seq<Entry>)

  datatype Worker =
    | Idle
    // The provider's answer has been verified and says that the payment succeeded.
    | Waiting(payment: PaymentId)
    | Holding(payment: PaymentId)
    // Written but not committed: the payment applied, or only marked as succeeded.
    | Applying(payment: PaymentId, sub: Subscription, entry: Entry, at: DateTime)
    | Marking(payment: PaymentId)
    // The provider says canceled, and the payment was read as pending.
    | Canceling(payment: PaymentId)
    // A manual operation that has read the subscription, without the lock.
    | Editing(read: Subscription, op: Op)

  datatype Change = Paid(payment: PaymentId, at: DateTime) | Edited(op: Op)

  // `log` remembers which changes were committed, in the order of the commits.
  datatype State = State(db: Database, workers: Workers, log: seq<Change>)

  type Workers = map<WorkerId, Worker>

  function At(workers: Workers, w: WorkerId): Worker {
    if w in workers then workers[w] else Idle
  }

  function WorkerAt(s: State, w: WorkerId): Worker {
    At(s.workers, w)
  }

  // The worker has passed the locking read of the subscription.
  predicate HasLock(workers: Workers, w: WorkerId) {
    At(workers, w).Holding? || At(workers, w).Applying? || At(workers, w).Marking?
  }

  predicate Used(s: State, id: EventId) {
    InJournal(s.db.journal, id)
    || exists w :: w in s.workers && s.workers[w].Applying? && s.workers[w].entry.id == id
  }

  // ----- Steps ---------------------------------------------------------------------------

  datatype Step =
    | NewPayment(purchase: Purchase)
    | Verified(w: WorkerId, payment: PaymentId)
    | Lock(w: WorkerId)
    | Decide(w: WorkerId, now: DateTime, id: EventId)
    | Commit(w: WorkerId)
    | Crash(w: WorkerId)
    | VerifiedCanceled(w: WorkerId, payment: PaymentId)
    | Refund(payment: PaymentId, id: EventId, amount: int)
    | DeleteOrganization
    | Read(w: WorkerId, op: Op)
    | Write(w: WorkerId, id: EventId)

  // Purchases buy at least one month; an extension without months is corrupt.
  predicate ValidPurchase(p: Purchase) {
    p.months.Some? ==> 1 <= p.months.value
  }

  // The operations on a subscription besides payments: correction, extension, daily notice.
  predicate IsManual(op: Op) {
    ValidOp(op) && (op.DoPatch? || op.DoExtend? || op.DoNotify?)
  }

  predicate LockIsFree(workers: Workers) {
    forall v :: v in workers ==> !HasLock(workers, v)
  }

  predicate Enabled(s: State, step: Step) {
    match step
    case NewPayment(p) => p.id !in s.db.payments && ValidPurchase(p)
    case Verified(w, p) => WorkerAt(s, w).Idle? && p in s.db.payments
    case Lock(w) => WorkerAt(s, w).Waiting? && (s.db.sub.Some? ==> LockIsFree(s.workers))
    case Decide(w, now, id) => WorkerAt(s, w).Holding? && ValidTime(now) && !Used(s, id)
    case Commit(w) => WorkerAt(s, w).Applying? || WorkerAt(s, w).Marking? || WorkerAt(s, w).Canceling?
    case Crash(w) => true
    case VerifiedCanceled(w, p) => WorkerAt(s, w).Idle? && p in s.db.payments && s.db.payments[p].status == Pending
    case Refund(p, id, _) => p in s.db.payments && s.db.payments[p].status != Refunded && !Used(s, id)
    case DeleteOrganization => true
    case Read(w, op) => WorkerAt(s, w).Idle? && s.db.sub.Some? && !s.db.deleted && IsManual(op)
    case Write(w, id) => WorkerAt(s, w).Editing? && s.db.sub.Some? && LockIsFree(s.workers) && !Used(s, id)
  }

  // What a worker with the lock does with the payment, re-read under the lock.
  function Decision(db: Database, p: PaymentId, now: DateTime, id: EventId): Worker
    requires p in db.payments && ValidTime(now) && (db.sub.Some? ==> ValidDates(db.sub.value))
  {
    var row := db.payments[p];
    if row.appliedAt.Some? then Idle
    else if db.sub.None? || db.deleted then Marking(p)
    else if row.purchase.kind.ExtendKind? && row.purchase.months.None? then Idle
    else Applying(p, PaidSubscription(db.sub.value, row.purchase, now),
        Entry(id, PaidEvent(db.sub.value, row.purchase, now)), now)
  }

  function Committed(s: State, w: WorkerId): State
    requires Enabled(s, Commit(w)) && WorkerAt(s, w).payment in s.db.payments
  {
    var k := WorkerAt(s, w);
    var row := s.db.payments[k.payment];
    var workers := s.workers[w := Idle];
    match k
    case Applying(p, sub, entry, at) =>
      State(s.db.(sub := Some(sub),
                  payments := s.db.payments[p :=
                      row.(status := Succeeded, appliedAt := Some(at), event := Some(entry.id))],
                  journal := s.db.journal + [entry]),
            workers, s.log + [Paid(p, at)])
    case Marking(p) => State(s.db.(payments := s.db.payments[p := row.(status := Succeeded)]), workers, s.log)
    case Canceling(p) => State(s.db.(payments := s.db.payments[p := row.(status := CanceledPayment)]), workers, s.log)
  }

  function RefundEntry(p: Purchase, id: EventId, amount: int): Entry {
    Entry(id, Event(PaymentRefunded, Some(p.plan), Some(p.plan), None, None, None, None, None, Some(-amount),
        Some(p.id)))
  }

  // The columns that a writer has changed go over what is committed by then.
  function Overwrite(committed: Subscription, read: Subscription, written: Subscription): Subscription {
    Subscription(
      if written.plan != read.plan then written.plan else committed.plan,
      if written.status != read.status then written.status else committed.status,
      if written.trialEnd != read.trialEnd then written.trialEnd else committed.trialEnd,
      if written.periodStart != read.periodStart then written.periodStart else committed.periodStart,
      if written.periodEnd != read.periodEnd then written.periodEnd else committed.periodEnd,
      if written.note != read.note then written.note else committed.note,
      if written.notice != read.notice then written.notice else committed.notice)
  }

  // What a manual operation makes of the subscription that it has read, and what it notes.
  function EditOf(read: Subscription, op: Op): Account
    requires ValidDates(read) && ValidOp(op)
  {
    Apply(Account(read, []), op)
  }

  function Notes(events: seq<Event>, id: EventId): seq<Entry> {
    if events == [] then [] else [Entry(id, events[0])]
  }

  function Written(s: State, w: WorkerId): State
    requires WellFormed(s) && WorkerAt(s, w).Editing? && s.db.sub.Some?
    requires ValidDates(WorkerAt(s, w).read) && ValidOp(WorkerAt(s, w).op)
  {
    var k := WorkerAt(s, w);
    State(s.db.(sub := Some(Overwrite(s.db.sub.value, k.read, EditOf(k.read, k.op).sub))),
          s.workers[w := Idle], s.log + [Edited(k.op)])
  }

  // Workers only ever point at existing payments, and the subscription's dates are dates.
  predicate WellFormed(s: State) {
    && (s.db.sub.Some? ==> ValidDates(s.db.sub.value))
    && (forall p :: p in s.db.payments ==>
        s.db.payments[p].purchase.id == p && ValidPurchase(s.db.payments[p].purchase))
    && (forall w :: w in s.workers ==> PointsWell(s.workers[w], s.db.payments))
  }

  predicate PointsWell(k: Worker, payments: map<PaymentId, PaymentRow>) {
    if k.Idle? then true
    else if k.Editing? then ValidDates(k.read) && IsManual(k.op)
    else k.payment in payments
  }

  function Do(s: State, step: Step): State
    requires WellFormed(s) && Enabled(s, step)
  {
    match step
    case NewPayment(p) => s.(db := s.db.(payments := s.db.payments[p.id := PaymentRow(p, Pending, None, None)]))
    case Verified(w, p) => s.(workers := s.workers[w := Waiting(p)])
    case Lock(w) => s.(workers := s.workers[w := Holding(WorkerAt(s, w).payment)])
    case Decide(w, now, id) => s.(workers := s.workers[w := Decision(s.db, WorkerAt(s, w).payment, now, id)])
    case Commit(w) => Committed(s, w)
    case Crash(w) => s.(workers := s.workers[w := Idle])
    case VerifiedCanceled(w, p) => s.(workers := s.workers[w := Canceling(p)])
    case Refund(p, id, amount) =>
      var row := s.db.payments[p];
      s.(db := s.db.(payments := s.db.payments[p := row.(status := Refunded)],
                     journal := s.db.journal + [RefundEntry(row.purchase, id, amount)]))
    case DeleteOrganization => s.(db := s.db.(deleted := true))
    case Read(w, op) => s.(workers := s.workers[w := Editing(s.db.sub.value, op)])
    case Write(w, id) =>
      var k := WorkerAt(s, w);
      var written := Written(s, w);
      written.(db := written.db.(journal := s.db.journal + Notes(EditOf(k.read, k.op).journal, id)))
  }

  // ----- The invariant -------------------------------------------------------------------

  predicate IsPaidEntry(e: Entry, p: PaymentId) {
    e.event.kind == PaidOnline && e.event.payment == Some(p)
  }

  predicate IsPaid(c: Change, p: PaymentId) {
    c.Paid? && c.payment == p
  }

  predicate InLog(log: seq<Change>, p: PaymentId) {
    exists i :: 0 <= i < |log| && IsPaid(log[i], p)
  }

  predicate PaidOnce(log: seq<Change>) {
    forall i, j :: 0 <= i < j < |log| && log[i].Paid? ==> !IsPaid(log[j], log[i].payment)
  }

  // No two workers are past the locking read.
  ghost predicate Exclusive(workers: Workers) {
    forall v, w :: HasLock(workers, v) && HasLock(workers, w) ==> v == w
  }

  // An uncommitted application is the application to what is committed now.
  ghost predicate IsCurrent(db: Database, k: Worker)
    requires k.Applying?
  {
    && db.sub.Some? && ValidDates(db.sub.value) && ValidTime(k.at)
    && k.payment in db.payments && db.payments[k.payment].appliedAt.None?
    && k.sub == PaidSubscription(db.sub.value, db.payments[k.payment].purchase, k.at)
    && k.entry.event == PaidEvent(db.sub.value, db.payments[k.payment].purchase, k.at)
  }

  ghost predicate Current(db: Database, workers: Workers) {
    forall w :: At(workers, w).Applying? ==> IsCurrent(db, At(workers, w))
  }

  predicate InJournal(journal: seq<Entry>, id: EventId) {
    exists i :: 0 <= i < |journal| && journal[i].id == id
  }

  // Identifiers of events are not used twice.
  ghost predicate DistinctEvents(journal: seq<Entry>, workers: Workers) {
    && (forall i, j :: 0 <= i < j < |journal| ==> journal[i].id != journal[j].id)
    && (forall w :: At(workers, w).Applying? ==> !InJournal(journal, At(workers, w).entry.id))
  }

  // A payment is applied exactly if it is in the log, once, and exactly if it references an
  // event of the journal that records it; nothing else records it.
  ghost predicate CountedOnce(db: Database, log: seq<Change>) {
    && PaidOnce(log)
    && (forall i :: 0 <= i < |log| && log[i].Paid? ==> log[i].payment in db.payments)
    && (forall p :: p in db.payments ==> (db.payments[p].appliedAt.Some? <==> InLog(log, p)))
    && (forall p :: p in db.payments ==> (db.payments[p].appliedAt.Some? <==> db.payments[p].event.Some?))
    && (forall p, i :: 0 <= i < |db.journal| && IsPaidEntry(db.journal[i], p) ==>
          p in db.payments && db.payments[p].event == Some(db.journal[i].id))
    && (forall p :: p in db.payments && db.payments[p].event.Some? ==>
          exists i :: 0 <= i < |db.journal| && db.journal[i].id == db.payments[p].event.value
              && IsPaidEntry(db.journal[i], p))
  }

  predicate ValidChange(c: Change, payments: map<PaymentId, PaymentRow>) {
    match c
    case Paid(p, at) => ValidTime(at) && p in payments && ValidPurchase(payments[p].purchase)
    case Edited(op) => IsManual(op)
  }

  function ChangedBy(before: Subscription, c: Change, payments: map<PaymentId, PaymentRow>): Subscription
    requires ValidDates(before) && ValidChange(c, payments)
  {
    match c
    case Paid(p, at) => PaidSubscription(before, payments[p].purchase, at)
    case Edited(op) => EditOf(before, op).sub
  }

  // The subscription as the changes of the log, one after another, make it.
  ghost predicate Serial(start: Option<Subscription>, log: seq<Change>, payments: map<PaymentId, PaymentRow>,
      sub: Option<Subscription>)
    decreases |log|
  {
    if log == [] then sub == start
    else
      var last := log[|log| - 1];
      exists before ::
        && ValidDates(before) && ValidChange(last, payments)
        && Serial(start, log[..|log| - 1], payments, Some(before))
        && sub == Some(ChangedBy(before, last, payments))
  }

  ghost predicate Inv(s: State) {
    && WellFormed(s)
    && (s.db.sub.Some? ==> Exclusive(s.workers))
    && Current(s.db, s.workers)
    && DistinctEvents(s.db.journal, s.workers)
    && CountedOnce(s.db, s.log)
  }

  // ----- Every step keeps it -------------------------------------------------------------

  // A purchase of a stored payment never changes.
  ghost predicate SamePurchases(a: map<PaymentId, PaymentRow>, b: map<PaymentId, PaymentRow>) {
    forall p :: p in a ==> p in b && b[p].purchase == a[p].purchase
  }

  lemma {:induction false} SerialKept(start: Option<Subscription>, log: seq<Change>, a: map<PaymentId, PaymentRow>,
      b: map<PaymentId, PaymentRow>, sub: Option<Subscription>)
    requires Serial(start, log, a, sub) && SamePurchases(a, b)
    ensures Serial(start, log, b, sub)
    decreases |log|
  {
    if log != [] {
      var last := log[|log| - 1];
      var before :| ValidDates(before) && ValidChange(last, a)
        && Serial(start, log[..|log| - 1], a, Some(before)) && sub == Some(ChangedBy(before, last, a));
      SerialKept(start, log[..|log| - 1], a, b, Some(before));
      assert ChangedBy(before, last, b) == ChangedBy(before, last, a);
    }
  }

  lemma {:induction false} PaidKeepsDates(s: Subscription, p: Purchase, now: DateTime)
    requires ValidDates(s) && ValidTime(now) && ValidPurchase(p)
    ensures ValidDates(PaidSubscription(s, p, now))
  {
    if p.kind.ExtendKind? && p.months.Some? {
      ShiftMonthsLater(ExtensionBase(s, now), p.months.value);
    }
  }

  // Steps that change one worker only.
  lemma {:induction false} WorkerStepKeeps(s: State, w: WorkerId, k: Worker)
    requires Inv(s) && PointsWell(k, s.db.payments)
    requires k.Applying? ==> IsCurrent(s.db, k) && !InJournal(s.db.journal, k.entry.id)
    requires k.Holding? || k.Marking? || k.Applying? ==> s.db.sub.Some? ==> forall v :: HasLock(s.workers, v) ==> v == w
    ensures Inv(s.(workers := s.workers[w := k]))
  {
    var after := s.workers[w := k];
    forall v ensures At(after, v) == if v == w then k else At(s.workers, v) {}
    forall v ensures v != w ==> (HasLock(after, v) <==> HasLock(s.workers, v)) {}
  }

  lemma {:induction false} DecideKeeps(s: State, w: WorkerId, now: DateTime, id: EventId)
    requires Inv(s) && Enabled(s, Decide(w, now, id))
    ensures Inv(Do(s, Decide(w, now, id)))
  {
    assert HasLock(s.workers, w);
    WorkerStepKeeps(s, w, Decision(s.db, WorkerAt(s, w).payment, now, id));
  }

  // With a worker about to commit an application, no other worker is past the locking read.
  lemma {:induction false} ApplyingIsAlone(s: State, w: WorkerId, v: WorkerId)
    requires Inv(s) && WorkerAt(s, w).Applying? && v != w
    ensures !HasLock(s.workers, v)
  {
    assert IsCurrent(s.db, At(s.workers, w));
    assert HasLock(s.workers, w);
  }

  lemma {:induction false} CommitCounts(db: Database, log: seq<Change>, p: PaymentId, at: DateTime, entry: Entry)
    requires CountedOnce(db, log) && p in db.payments && db.payments[p].appliedAt.None? && IsPaidEntry(entry, p)
    requires forall i :: 0 <= i < |db.journal| ==> db.journal[i].id != entry.id
    ensures var row := db.payments[p].(status := Succeeded, appliedAt := Some(at), event := Some(entry.id));
      CountedOnce(db.(payments := db.payments[p := row], journal := db.journal + [entry]), log + [Paid(p, at)])
  {
    var row := db.payments[p].(status := Succeeded, appliedAt := Some(at), event := Some(entry.id));
    var after, log' := db.(payments := db.payments[p := row], journal := db.journal + [entry]), log + [Paid(p, at)];
    assert !InLog(log, p);
    forall q ensures InLog(log', q) <==> InLog(log, q) || q == p {
      if InLog(log, q) {
        var i :| 0 <= i < |log| && IsPaid(log[i], q);
        assert IsPaid(log'[i], q);
      }
      assert IsPaid(log'[|log|], p);
    }
    forall q, i | 0 <= i < |after.journal| && IsPaidEntry(after.journal[i], q)
      ensures q in after.payments && after.payments[q].event == Some(after.journal[i].id)
    {
      if i < |db.journal| {
        assert IsPaidEntry(db.journal[i], q);
      }
    }
    forall q | q in after.payments && after.payments[q].event.Some?
      ensures exists i | 0 <= i < |after.journal| && IsPaidEntry(after.journal[i], q) ::
        after.journal[i].id == after.payments[q].event.value
    {
      if q == p {
        assert after.journal[|db.journal|] == entry;
      } else {
        var i :| 0 <= i < |db.journal| && db.journal[i].id == db.payments[q].event.value
            && IsPaidEntry(db.journal[i], q);
        assert after.journal[i] == db.journal[i];
      }
    }
  }

  // After the commit nobody is past the locking read.
  lemma {:induction false} CommitReleases(s: State, w: WorkerId, v: WorkerId)
    requires Inv(s) && WorkerAt(s, w).Applying?
    ensures !HasLock(s.workers[w := Idle], v)
  {
    if v != w {
      ApplyingIsAlone(s, w, v);
    }
  }

  lemma {:induction false} FreshEntry(journal: seq<Entry>, workers: Workers, w: WorkerId)
    requires DistinctEvents(journal, workers) && At(workers, w).Applying?
    ensures forall i :: 0 <= i < |journal| ==> journal[i].id != At(workers, w).entry.id
  {
    assert !InJournal(journal, At(workers, w).entry.id);
  }

  lemma {:induction false} CommittedDatabase(s: State, w: WorkerId)
    requires Inv(s) && WorkerAt(s, w).Applying?
    ensures CountedOnce(Do(s, Commit(w)).db, Do(s, Commit(w)).log)
  {
    var k := WorkerAt(s, w);
    assert IsCurrent(s.db, k);
    FreshEntry(s.db.journal, s.workers, w);
    CommitCounts(s.db, s.log, k.payment, k.at, k.entry);
  }

  lemma {:induction false} CommittedIsWellFormed(s: State, w: WorkerId)
    requires Inv(s) && WorkerAt(s, w).Applying?
    ensures WellFormed(Do(s, Commit(w)))
  {
    var k := WorkerAt(s, w);
    assert IsCurrent(s.db, k);
    PaidKeepsDates(s.db.sub.value, s.db.payments[k.payment].purchase, k.at);
  }

  lemma {:induction false} NobodyHasLock(db: Database, workers: Workers)
    requires forall v :: !HasLock(workers, v)
    requires forall i, j :: 0 <= i < j < |db.journal| ==> db.journal[i].id != db.journal[j].id
    ensures Exclusive(workers) && Current(db, workers) && DistinctEvents(db.journal, workers)
  {
    forall v ensures !At(workers, v).Applying? {
      assert !HasLock(workers, v);
    }
  }

  lemma {:induction false} CommitApplyingKeeps(s: State, w: WorkerId)
    requires Inv(s) && WorkerAt(s, w).Applying?
    ensures Inv(Do(s, Commit(w)))
  {
    var after := Do(s, Commit(w));
    assert after.workers == s.workers[w := Idle];
    forall v ensures !HasLock(after.workers, v) {
      CommitReleases(s, w, v);
    }
    FreshEntry(s.db.journal, s.workers, w);
    assert after.db.journal == s.db.journal + [WorkerAt(s, w).entry];
    NobodyHasLock(after.db, after.workers);
    CommittedDatabase(s, w);
    CommittedIsWellFormed(s, w);
  }

  // The rows agree in everything but the status, and new rows have no mark of application.
  ghost predicate SameMarks(a: map<PaymentId, PaymentRow>, b: map<PaymentId, PaymentRow>) {
    && (forall p :: p in a ==> p in b && b[p].purchase == a[p].purchase)
    && (forall p :: p in a && p in b ==> b[p].appliedAt == a[p].appliedAt && b[p].event == a[p].event)
    && (forall p :: p in b && p !in a ==> b[p].appliedAt.None? && b[p].event.None?)
  }

  lemma {:induction false} SameMarksCount(db: Database, log: seq<Change>, payments: map<PaymentId, PaymentRow>)
    requires CountedOnce(db, log) && SameMarks(db.payments, payments)
    ensures CountedOnce(db.(payments := payments), log)
  {}

  lemma {:induction false} PaymentsChangeKeeps(s: State, payments: map<PaymentId, PaymentRow>)
    requires Inv(s) && SameMarks(s.db.payments, payments) && WellFormed(s.(db := s.db.(payments := payments)))
    ensures Inv(s.(db := s.db.(payments := payments)))
  {
    SameMarksCount(s.db, s.log, payments);
  }

  // One more journal entry that records no payment.
  lemma {:induction false} NoteCounts(db: Database, log: seq<Change>, entry: Entry)
    requires CountedOnce(db, log) && entry.event.kind != PaidOnline
    ensures CountedOnce(db.(journal := db.journal + [entry]), log)
  {
    var after := db.journal + [entry];
    forall q | q in db.payments && db.payments[q].event.Some?
      ensures exists i :: 0 <= i < |after| && after[i].id == db.payments[q].event.value && IsPaidEntry(after[i], q)
    {
      var i :| 0 <= i < |db.journal| && db.journal[i].id == db.payments[q].event.value && IsPaidEntry(db.journal[i], q);
      assert after[i] == db.journal[i];
    }
  }

  lemma {:induction false} NoteKeeps(s: State, entry: Entry)
    requires Inv(s) && !Used(s, entry.id) && entry.event.kind != PaidOnline
    ensures Inv(s.(db := s.db.(journal := s.db.journal + [entry])))
  {
    NoteCounts(s.db, s.log, entry);
    NewIdIsDistinct(s, entry);
  }

  lemma {:induction false} NewIdIsDistinct(s: State, entry: Entry)
    requires DistinctEvents(s.db.journal, s.workers) && !Used(s, entry.id)
    ensures DistinctEvents(s.db.journal + [entry], s.workers)
  {
    var after := s.db.journal + [entry];
    forall w | At(s.workers, w).Applying? ensures !InJournal(after, At(s.workers, w).entry.id) {
      assert w in s.workers;
    }
    forall i | 0 <= i < |s.db.journal| ensures s.db.journal[i].id != entry.id {
      assert !InJournal(s.db.journal, entry.id);
    }
  }

  // A commit of nothing but a status.
  lemma {:induction false} StatusCommit(s: State, w: WorkerId)
    requires WellFormed(s) && (WorkerAt(s, w).Marking? || WorkerAt(s, w).Canceling?)
    ensures var after := Do(s, Commit(w));
      && after == s.(workers := s.workers[w := Idle], db := s.db.(payments := after.db.payments))
      && SameMarks(s.db.payments, after.db.payments) && WellFormed(after)
  {}

  lemma {:induction false} CommitStatusKeeps(s: State, w: WorkerId)
    requires Inv(s) && (WorkerAt(s, w).Marking? || WorkerAt(s, w).Canceling?)
    ensures Inv(Do(s, Commit(w)))
  {
    StatusCommit(s, w);
    WorkerStepKeeps(s, w, Idle);
    PaymentsChangeKeeps(s.(workers := s.workers[w := Idle]), Do(s, Commit(w)).db.payments);
  }

  lemma {:induction false} RefundKeeps(s: State, p: PaymentId, id: EventId, amount: int)
    requires Inv(s) && Enabled(s, Refund(p, id, amount))
    ensures Inv(Do(s, Refund(p, id, amount)))
  {
    NoteKeeps(s, RefundEntry(s.db.payments[p].purchase, id, amount));
    var noted := s.(db := s.db.(journal := s.db.journal + [RefundEntry(s.db.payments[p].purchase, id, amount)]));
    PaymentsChangeKeeps(noted, Do(s, Refund(p, id, amount)).db.payments);
  }

  lemma {:induction false} LockKeeps(s: State, w: WorkerId)
    requires Inv(s) && Enabled(s, Lock(w))
    ensures Inv(Do(s, Lock(w)))
  {
    forall v | HasLock(s.workers, v) ensures s.db.sub.Some? ==> v == w {
      assert v in s.workers;
    }
    WorkerStepKeeps(s, w, Holding(WorkerAt(s, w).payment));
  }

  // Steps by which a worker moves without committing anything.
  lemma {:induction false} MoveKeeps(s: State, step: Step)
    requires Inv(s) && Enabled(s, step)
    requires step.Verified? || step.Crash? || step.VerifiedCanceled? || step.Read?
    ensures Inv(Do(s, step))
  {
    match step
    case Verified(w, p) => WorkerStepKeeps(s, w, Waiting(p));
    case Crash(w) => WorkerStepKeeps(s, w, Idle);
    case VerifiedCanceled(w, p) => WorkerStepKeeps(s, w, Canceling(p));
    case Read(w, op) => WorkerStepKeeps(s, w, Editing(s.db.sub.value, op));
  }

  // A manual operation notes one event at most, never a payment, and leaves dates dates.
  lemma {:induction false} EditIsNoPayment(read: Subscription, op: Op)
    requires ValidDates(read) && IsManual(op)
    ensures var edit := EditOf(read, op);
      ValidDates(edit.sub) && |edit.journal| <= 1 && (edit.journal != [] ==> edit.journal[0].kind != PaidOnline)
  {
    ApplyKeepsDates(Account(read, []), op);
  }

  // One more change of the log that is no payment.
  lemma {:induction false} EditCounts(db: Database, log: seq<Change>, sub: Option<Subscription>, op: Op)
    requires CountedOnce(db, log)
    ensures CountedOnce(db.(sub := sub), log + [Edited(op)])
  {
    var after := log + [Edited(op)];
    forall p ensures InLog(after, p) <==> InLog(log, p) {
      if InLog(log, p) {
        var i :| 0 <= i < |log| && IsPaid(log[i], p);
        assert IsPaid(after[i], p);
      }
    }
  }

  lemma {:induction false} WriteKeeps(s: State, w: WorkerId, id: EventId)
    requires Inv(s) && Enabled(s, Write(w, id))
    ensures Inv(Do(s, Write(w, id)))
  {
    var k := WorkerAt(s, w);
    EditIsNoPayment(k.read, k.op);
    var written := Written(s, w);
    forall v ensures !HasLock(written.workers, v) {
      assert v in s.workers ==> !HasLock(s.workers, v);
    }
    NobodyHasLock(written.db, written.workers);
    EditCounts(s.db, s.log, written.db.sub, k.op);
    var events := EditOf(k.read, k.op).journal;
    if events == [] {
      assert Do(s, Write(w, id)) == written;
    } else {
      NoteKeeps(written, Entry(id, events[0]));
    }
  }

  lemma {:induction false} StepKeeps(s: State, step: Step)
    requires Inv(s) && Enabled(s, step)
    ensures Inv(Do(s, step))
  {
    match step
    case NewPayment(p) => PaymentsChangeKeeps(s, Do(s, step).db.payments);
    case Lock(w) => LockKeeps(s, w);
    case Decide(w, now, id) => DecideKeeps(s, w, now, id);
    case Commit(w) =>
      if WorkerAt(s, w).Applying? {
        CommitApplyingKeeps(s, w);
      } else {
        CommitStatusKeeps(s, w);
      }
    case Refund(p, id, amount) => RefundKeeps(s, p, id, amount);
    case DeleteOrganization =>
    case Write(w, id) => WriteKeeps(s, w, id);
    case _ => MoveKeeps(s, step);
  }

  // ----- Runs ----------------------------------------------------------------------------

  // A database before any of the payments, with whatever else is in its journal.
  ghost predicate Initial(s: State) {
    && s.workers == map[] && s.log == [] && s.db.payments == map[]
    && (s.db.sub.Some? ==> ValidDates(s.db.sub.value))
    && (forall i :: 0 <= i < |s.db.journal| ==> s.db.journal[i].event.kind != PaidOnline)
    && (forall i, j :: 0 <= i < j < |s.db.journal| ==> s.db.journal[i].id != s.db.journal[j].id)
  }

  // The states of an interleaving, one after each step.
  ghost predicate IsRun(states: seq<State>, steps: seq<Step>) {
    && |states| == |steps| + 1 && Initial(states[0])
    && forall i :: 0 <= i < |steps| ==>
         WellFormed(states[i]) && Enabled(states[i], steps[i]) && states[i + 1] == Do(states[i], steps[i])
  }

  lemma {:induction false} RunKeeps(states: seq<State>, steps: seq<Step>, n: nat)
    requires IsRun(states, steps) && n < |states|
    ensures Inv(states[n])
  {
    if n > 0 {
      RunKeeps(states, steps, n - 1);
      StepKeeps(states[n - 1], steps[n - 1]);
    }
  }

  // ----- The subscription is a serial one ------------------------------------------------

  // A manual operation writes over the subscription that it has read, and no later one.
  predicate Tidy(s: State, step: Step) {
    step.Write? && WorkerAt(s, step.w).Editing? ==> s.db.sub == Some(WorkerAt(s, step.w).read)
  }

  lemma {:induction false} OneMoreChange(start: Option<Subscription>, log: seq<Change>, c: Change, before: Subscription,
      payments: map<PaymentId, PaymentRow>)
    requires Serial(start, log, payments, Some(before)) && ValidDates(before) && ValidChange(c, payments)
    ensures Serial(start, log + [c], payments, Some(ChangedBy(before, c, payments)))
  {
    assert (log + [c])[..|log|] == log;
  }

  lemma {:induction false} CommitIsSerial(start: Option<Subscription>, s: State, w: WorkerId)
    requires Inv(s) && WorkerAt(s, w).Applying? && Serial(start, s.log, s.db.payments, s.db.sub)
    ensures var after := Do(s, Commit(w)); Serial(start, after.log, after.db.payments, after.db.sub)
  {
    var after, k := Do(s, Commit(w)), WorkerAt(s, w);
    assert IsCurrent(s.db, k);
    SerialKept(start, s.log, s.db.payments, after.db.payments, s.db.sub);
    OneMoreChange(start, s.log, Paid(k.payment, k.at), s.db.sub.value, after.db.payments);
  }

  lemma {:induction false} WriteIsSerial(start: Option<Subscription>, s: State, w: WorkerId, id: EventId)
    requires Inv(s) && Enabled(s, Write(w, id)) && Tidy(s, Write(w, id))
    requires Serial(start, s.log, s.db.payments, s.db.sub)
    ensures var after := Do(s, Write(w, id)); Serial(start, after.log, after.db.payments, after.db.sub)
  {
    OneMoreChange(start, s.log, Edited(WorkerAt(s, w).op), s.db.sub.value, s.db.payments);
  }

  lemma {:induction false} StepIsSerial(start: Option<Subscription>, s: State, step: Step)
    requires Inv(s) && Enabled(s, step) && Tidy(s, step) && Serial(start, s.log, s.db.payments, s.db.sub)
    ensures var after := Do(s, step); Serial(start, after.log, after.db.payments, after.db.sub)
  {
    if step.Commit? && WorkerAt(s, step.w).Applying? {
      CommitIsSerial(start, s, step.w);
    } else if step.Write? {
      WriteIsSerial(start, s, step.w, step.id);
    } else {
      SerialKept(start, s.log, s.db.payments, Do(s, step).db.payments, s.db.sub);
    }
  }

  ghost predicate TidyRun(states: seq<State>, steps: seq<Step>, n: nat)
    requires n <= |steps| <= |states|
  {
    forall i :: 0 <= i < n ==> Tidy(states[i], steps[i])
  }

  lemma {:induction false} RunIsSerial(states: seq<State>, steps: seq<Step>, n: nat)
    requires IsRun(states, steps) && n < |states| && TidyRun(states, steps, n)
    ensures Serial(states[0].db.sub, states[n].log, states[n].db.payments, states[n].db.sub)
  {
    if n > 0 {
      RunIsSerial(states, steps, n - 1);
      RunKeeps(states, steps, n - 1);
      StepIsSerial(states[0].db.sub, states[n - 1], steps[n - 1]);
    }
  }

  // Whatever the interleaving: a payment carries the mark of application exactly if the
  // journal holds an event recording it, which is then the only one, and referenced. And the
  // subscription is the one that some order of the applied payments and the manual operations
  // gives, each counted once, as long as no manual operation writes over a later one.
  lemma {:induction false} PaymentsCountOnce(states: seq<State>, steps: seq<Step>, n: nat)
    requires IsRun(states, steps) && n < |states|
    ensures var db, log := states[n].db, states[n].log;
      && (TidyRun(states, steps, n) ==> Serial(states[0].db.sub, log, db.payments, db.sub))
      && PaidOnce(log)
      && (forall p :: p in db.payments ==> (db.payments[p].appliedAt.Some? <==> InLog(log, p)))
      && (forall p :: p in db.payments ==>
            (db.payments[p].appliedAt.Some? <==> exists i :: 0 <= i < |db.journal| && IsPaidEntry(db.journal[i], p)))
      && (forall p, i, j | p in db.payments && 0 <= i < |db.journal| && 0 <= j < |db.journal|
            && IsPaidEntry(db.journal[i], p) && IsPaidEntry(db.journal[j], p) :: i == j)
      && (forall p, i :: p in db.payments && 0 <= i < |db.journal| && IsPaidEntry(db.journal[i], p) ==>
            db.payments[p].event == Some(db.journal[i].id))
  {
    RunKeeps(states, steps, n);
    if TidyRun(states, steps, n) {
      RunIsSerial(states, steps, n);
    }
    var db := states[n].db;
    forall p, i, j | p in db.payments && 0 <= i < |db.journal| && 0 <= j < |db.journal|
      && IsPaidEntry(db.journal[i], p) && IsPaidEntry(db.journal[j], p)
      ensures i == j
    {
      assert db.journal[i].id == db.journal[j].id;
    }
  }

  // ----- Paid months are kept ------------------------------------------------------------

  // The months that a payment adds; an upgrade adds none.
  function MonthsOf(p: Purchase): int {
    if p.kind.ExtendKind? && p.months.Some? then p.months.value else 0
  }

  function MonthsPaid(log: seq<Change>, payments: map<PaymentId, PaymentRow>): int
  {
    if log == [] then 0
    else
      var last := log[|log| - 1];
      MonthsPaid(log[..|log| - 1], payments)
      + if last.Paid? && last.payment in payments then MonthsOf(payments[last.payment].purchase) else 0
  }

  // No administrator has set another end by hand.
  predicate LeavesEnds(log: seq<Change>) {
    forall i :: 0 <= i < |log| && log[i].Edited? && log[i].op.DoPatch? ==>
      log[i].op.patch.periodEnd.None? && log[i].op.patch.trialEnd.None?
  }

  lemma {:induction false} ChangeAddsMonths(before: Subscription, c: Change, payments: map<PaymentId, PaymentRow>)
    requires ValidDates(before) && ValidChange(c, payments) && Over(before.periodEnd, before.trialEnd).Some?
    requires LeavesEnds([c])
    ensures var after := ChangedBy(before, c, payments);
      && Over(after.periodEnd, after.trialEnd).Some?
      && MonthIndex(Over(before.periodEnd, before.trialEnd).value.date)
         + (if c.Paid? then MonthsOf(payments[c.payment].purchase) else 0)
         <= MonthIndex(Over(after.periodEnd, after.trialEnd).value.date)
  {
    match c
    case Paid(p, at) =>
      var bought := payments[p].purchase;
      if bought.kind.ExtendKind? && bought.months.Some? {
        ExtensionAddsMonths(before, bought.plan, at, bought.months.value);
      }
    case Edited(op) =>
      assert [c][0] == c;
      if op.DoExtend? && 1 <= op.months {
        ExtensionAddsMonths(before, if op.plan.Some? then op.plan.value else before.plan, op.now, op.months);
      }
  }

  // Changes in any order move the end at least as many months on as were paid.
  lemma {:induction false} SerialAddsMonths(start: Subscription, log: seq<Change>, payments: map<PaymentId, PaymentRow>,
      sub: Subscription)
    requires ValidDates(start) && Over(start.periodEnd, start.trialEnd).Some?
    requires Serial(Some(start), log, payments, Some(sub)) && LeavesEnds(log)
    ensures Over(sub.periodEnd, sub.trialEnd).Some?
    ensures MonthIndex(Over(start.periodEnd, start.trialEnd).value.date) + MonthsPaid(log, payments)
         <= MonthIndex(Over(sub.periodEnd, sub.trialEnd).value.date)
    decreases |log|
  {
    if log != [] {
      var last := log[|log| - 1];
      var before :| ValidDates(before) && ValidChange(last, payments)
        && Serial(Some(start), log[..|log| - 1], payments, Some(before))
        && Some(sub) == Some(ChangedBy(before, last, payments));
      SerialAddsMonths(start, log[..|log| - 1], payments, before);
      ChangeAddsMonths(before, last, payments);
    }
  }

  // Hence no interleaving of workers loses a paid month, upgrades and manual operations
  // between them or not.
  lemma {:induction false} NoPaidMonthIsLost(states: seq<State>, steps: seq<Step>, n: nat)
    requires IsRun(states, steps) && n < |states| && states[0].db.sub.Some?
    requires Over(states[0].db.sub.value.periodEnd, states[0].db.sub.value.trialEnd).Some?
    requires TidyRun(states, steps, n) && LeavesEnds(states[n].log)
    ensures states[n].db.sub.Some?
    ensures var end := Over(states[n].db.sub.value.periodEnd, states[n].db.sub.value.trialEnd);
      end.Some? && MonthIndex(Over(states[0].db.sub.value.periodEnd, states[0].db.sub.value.trialEnd).value.date)
                   + MonthsPaid(states[n].log, states[n].db.payments) <= MonthIndex(end.value.date)
  {
    RunIsSerial(states, steps, n);
    SerialAddsMonths(states[0].db.sub.value, states[n].log, states[n].db.payments, states[n].db.sub.value);
  }

  // The months that a manual extension asks for.
  function MonthsAsked(op: Op): int {
    if op.DoExtend? && 1 <= op.months then op.months else 0
  }

  function MonthsBought(log: seq<Change>, payments: map<PaymentId, PaymentRow>): int
  {
    if log == [] then 0
    else
      var last := log[|log| - 1];
      MonthsBought(log[..|log| - 1], payments)
      + match last
        case Paid(p, _) => if p in payments then MonthsOf(payments[p].purchase) else 0
        case Edited(op) => MonthsAsked(op)
  }

  // No extension was granted after the month `latest`.
  predicate GrantedBy(log: seq<Change>, latest: int) {
    && (forall i :: 0 <= i < |log| && log[i].Paid? ==> MonthIndex(log[i].at.date) <= latest)
    && (forall i :: 0 <= i < |log| && log[i].Edited? && log[i].op.DoExtend? ==>
        MonthIndex(log[i].op.now.date) <= latest)
  }

  predicate EndsBy(s: Subscription, month: int) {
    var end := Over(s.periodEnd, s.trialEnd);
    end.Some? ==> MonthIndex(end.value.date) <= month
  }

  lemma {:induction false} ExtensionEndsBy(s: Subscription, plan: PlanCode, now: DateTime, months: int, month: int)
    requires ValidDates(s) && ValidTime(now) && 1 <= months && EndsBy(s, month) && MonthIndex(now.date) <= month
    ensures EndsBy(ExtendedBy(s, plan, now, months), month + months)
  {
    AddMonthsShape(ExtensionBase(s, now).date, months);
  }

  lemma {:induction false} ChangeEndsBy(before: Subscription, c: Change, payments: map<PaymentId, PaymentRow>,
      latest: int, month: int)
    requires ValidDates(before) && ValidChange(c, payments) && LeavesEnds([c]) && GrantedBy([c], latest)
    requires EndsBy(before, month) && latest <= month
    ensures EndsBy(ChangedBy(before, c, payments), month + MonthsBought([c], payments))
    ensures 0 <= MonthsBought([c], payments)
  {
    assert [c][..0] == [] && [c][0] == c;
    match c
    case Paid(p, at) =>
      var bought := payments[p].purchase;
      if bought.kind.ExtendKind? && bought.months.Some? {
        ExtensionEndsBy(before, bought.plan, at, bought.months.value, month);
      }
    case Edited(op) =>
      if op.DoExtend? && 1 <= op.months {
        ExtensionEndsBy(before, if op.plan.Some? then op.plan.value else before.plan, op.now, op.months, month);
      }
  }

  // Changes in any order leave the end no further on than the months bought justify, counted
  // from the first end or the month of the last extension, whichever is later.
  lemma {:induction false} SerialEndsBy(start: Subscription, log: seq<Change>, payments: map<PaymentId, PaymentRow>,
      sub: Subscription, latest: int, month: int)
    requires ValidDates(start) && EndsBy(start, month) && latest <= month
    requires Serial(Some(start), log, payments, Some(sub)) && LeavesEnds(log) && GrantedBy(log, latest)
    ensures EndsBy(sub, month + MonthsBought(log, payments)) && 0 <= MonthsBought(log, payments)
    decreases |log|
  {
    if log != [] {
      var front, last := log[..|log| - 1], log[|log| - 1];
      var before :| ValidDates(before) && ValidChange(last, payments)
          && Serial(Some(start), front, payments, Some(before))
        && Some(sub) == Some(ChangedBy(before, last, payments));
      SerialEndsBy(start, front, payments, before, latest, month);
      assert [last][..0] == [] && [last][0] == last;
      ChangeEndsBy(before, last, payments, latest, month + MonthsBought(front, payments));
    }
  }

  // Over every run the end lies no further on than the months bought justify.
  lemma {:induction false} NoMonthIsGranted(states: seq<State>, steps: seq<Step>, n: nat, latest: int, month: int)
    requires IsRun(states, steps) && n < |states| && states[0].db.sub.Some?
    requires TidyRun(states, steps, n) && LeavesEnds(states[n].log) && GrantedBy(states[n].log, latest)
    requires EndsBy(states[0].db.sub.value, month) && latest <= month
    ensures states[n].db.sub.Some?
      && EndsBy(states[n].db.sub.value, month + MonthsBought(states[n].log, states[n].db.payments))
  {
    RunIsSerial(states, steps, n);
    SerialEndsBy(states[0].db.sub.value, states[n].log, states[n].db.payments, states[n].db.sub.value, latest, month);
  }

  lemma {:induction false} OnlyPaymentsBuy(log: seq<Change>, payments: map<PaymentId, PaymentRow>)
    requires forall i :: 0 <= i < |log| && log[i].Edited? ==> !log[i].op.DoExtend?
    ensures MonthsBought(log, payments) == MonthsPaid(log, payments)
    decreases |log|
  {
    if log != [] {
      OnlyPaymentsBuy(log[..|log| - 1], payments);
    }
  }

  // In particular: when all payments come in while the first end lies ahead, and nobody
  // extends by hand, the end moves on by exactly the months paid.
  lemma {:induction false} PaidMonthsAddUp(states: seq<State>, steps: seq<Step>, n: nat)
    requires IsRun(states, steps) && n < |states| && states[0].db.sub.Some?
    requires TidyRun(states, steps, n) && LeavesEnds(states[n].log)
    requires forall i :: 0 <= i < |states[n].log| && states[n].log[i].Edited? ==> !states[n].log[i].op.DoExtend?
    requires var end := Over(states[0].db.sub.value.periodEnd, states[0].db.sub.value.trialEnd);
      end.Some? && GrantedBy(states[n].log, MonthIndex(end.value.date))
    ensures states[n].db.sub.Some?
    ensures var first := Over(states[0].db.sub.value.periodEnd, states[0].db.sub.value.trialEnd).value;
      var end := Over(states[n].db.sub.value.periodEnd, states[n].db.sub.value.trialEnd);
      && end.Some?
      && MonthIndex(end.value.date) == MonthIndex(first.date) + MonthsPaid(states[n].log, states[n].db.payments)
  {
    var month := MonthIndex(Over(states[0].db.sub.value.periodEnd, states[0].db.sub.value.trialEnd).value.date);
    NoPaidMonthIsLost(states, steps, n);
    NoMonthIsGranted(states, steps, n, month, month);
    OnlyPaymentsBuy(states[n].log, states[n].db.payments);
  }

  // ----- Why the lock matters ------------------------------------------------------------

  // The state after the given steps, if each of them can be taken.
  function After(s: State, steps: seq<Step>): Option<State>
    decreases |steps|
  {
    if steps == [] then Some(s)
    else if WellFormed(s) && Enabled(s, steps[0]) then After(Do(s, steps[0]), steps[1..])
    else None
  }

  lemma {:induction false} AfterStep(s: State, steps: seq<Step>, first: Step, rest: seq<Step>)
    requires steps == [first] + rest && WellFormed(s) && Enabled(s, first)
    ensures After(s, steps) == After(Do(s, first), rest)
  {
    assert steps[1..] == rest;
  }

  function Alone(s: Subscription): State {
    State(Database(Some(s), false, map[], []), map[], [])
  }

  // The payment is there, and both the worker and the manual operation have begun.
  function Begun(s: Subscription, p: Purchase, op: Op): State {
    State(Database(Some(s), false, map[p.id := PaymentRow(p, Pending, None, None)], []),
          map[1 := Waiting(p.id), 2 := Editing(s, op)], [])
  }

  // A worker applies the payment while a manual operation is under way.
  function LateWrite(p: Purchase, now: DateTime, op: Op): seq<Step> {
    [NewPayment(p), Verified(1, p.id), Read(2, op)] + FromBegun(now)
  }

  function FromBegun(now: DateTime): seq<Step> {
    [Lock(1), Decide(1, now, 1), Commit(1), Write(2, 2)]
  }

  function Created(s: Subscription, p: Purchase): State {
    State(Database(Some(s), false, map[p.id := PaymentRow(p, Pending, None, None)], []), map[], [])
  }

  function Claimed(s: Subscription, p: Purchase): State {
    Created(s, p).(workers := map[1 := Waiting(p.id)])
  }

  lemma {:induction false} PaymentIsCreated(s: Subscription, p: Purchase, rest: seq<Step>)
    requires ValidDates(s) && ValidPurchase(p)
    ensures After(Alone(s), [NewPayment(p)] + rest) == After(Created(s, p), rest)
  {
    assert Do(Alone(s), NewPayment(p)) == Created(s, p);
    AfterStep(Alone(s), [NewPayment(p)] + rest, NewPayment(p), rest);
  }

  lemma {:induction false} WorkerClaims(s: Subscription, p: Purchase, rest: seq<Step>)
    requires ValidDates(s) && ValidPurchase(p)
    ensures After(Created(s, p), [Verified(1, p.id)] + rest) == After(Claimed(s, p), rest)
  {
    assert Do(Created(s, p), Verified(1, p.id)) == Claimed(s, p);
    AfterStep(Created(s, p), [Verified(1, p.id)] + rest, Verified(1, p.id), rest);
  }

  lemma {:induction false} EditorReads(s: Subscription, p: Purchase, op: Op, rest: seq<Step>)
    requires ValidDates(s) && ValidPurchase(p) && IsManual(op)
    ensures After(Claimed(s, p), [Read(2, op)] + rest) == After(Begun(s, p, op), rest)
  {
    assert Do(Claimed(s, p), Read(2, op)) == Begun(s, p, op);
    AfterStep(Claimed(s, p), [Read(2, op)] + rest, Read(2, op), rest);
  }

  lemma {:induction false} BothBegin(s: Subscription, p: Purchase, now: DateTime, op: Op)
    requires ValidDates(s) && ValidPurchase(p) && IsManual(op)
    ensures After(Alone(s), LateWrite(p, now, op)) == After(Begun(s, p, op), FromBegun(now))
  {
    var rest := [Read(2, op)] + FromBegun(now);
    assert LateWrite(p, now, op) == [NewPayment(p)] + ([Verified(1, p.id)] + rest);
    PaymentIsCreated(s, p, [Verified(1, p.id)] + rest);
    WorkerClaims(s, p, rest);
    EditorReads(s, p, op, FromBegun(now));
  }

  // The worker has decided and not committed yet.
  function Undecided(s: Subscription, p: Purchase, op: Op): State {
    Begun(s, p, op).(workers := map[1 := Holding(p.id), 2 := Editing(s, op)])
  }

  function Decided(s: Subscription, p: Purchase, now: DateTime, op: Op): State
    requires ValidDates(s) && ValidTime(now)
  {
    var k := Applying(p.id, PaidSubscription(s, p, now), Entry(1, PaidEvent(s, p, now)), now);
    Begun(s, p, op).(workers := map[1 := k, 2 := Editing(s, op)])
  }

  function PaidState(s: Subscription, p: Purchase, now: DateTime, op: Op): State
    requires ValidDates(s) && ValidTime(now)
  {
    var row := PaymentRow(p, Succeeded, Some(now), Some(1));
    State(Database(Some(PaidSubscription(s, p, now)), false, map[p.id := row], [Entry(1, PaidEvent(s, p, now))]),
          map[1 := Idle, 2 := Editing(s, op)], [Paid(p.id, now)])
  }

  lemma {:induction false} WorkerLocks(s: Subscription, p: Purchase, now: DateTime, op: Op)
    requires ValidDates(s) && ValidTime(now) && ValidPurchase(p) && IsManual(op)
    ensures After(Begun(s, p, op), FromBegun(now)) ==
      After(Undecided(s, p, op), [Decide(1, now, 1), Commit(1), Write(2, 2)])
  {
    assert Do(Begun(s, p, op), Lock(1)) == Undecided(s, p, op);
    AfterStep(Begun(s, p, op), FromBegun(now), Lock(1), [Decide(1, now, 1), Commit(1), Write(2, 2)]);
  }

  lemma {:induction false} WorkerDecides(s: Subscription, p: Purchase, now: DateTime, op: Op)
    requires ValidDates(s) && ValidTime(now) && ValidPurchase(p) && (p.kind.ExtendKind? ==> p.months.Some?)
    requires IsManual(op)
    ensures After(Undecided(s, p, op), [Decide(1, now, 1), Commit(1), Write(2, 2)]) ==
      After(Decided(s, p, now, op), [Commit(1), Write(2, 2)])
  {
    assert Do(Undecided(s, p, op), Decide(1, now, 1)) == Decided(s, p, now, op);
    AfterStep(Undecided(s, p, op), [Decide(1, now, 1), Commit(1), Write(2, 2)], Decide(1, now, 1),
        [Commit(1), Write(2, 2)]);
  }

  lemma {:induction false} WorkerCommits(s: Subscription, p: Purchase, now: DateTime, op: Op)
    requires ValidDates(s) && ValidTime(now) && ValidPurchase(p) && IsManual(op)
    ensures After(Decided(s, p, now, op), [Commit(1), Write(2, 2)]) == After(PaidState(s, p, now, op), [Write(2, 2)])
  {
    assert Do(Decided(s, p, now, op), Commit(1)) == PaidState(s, p, now, op);
    AfterStep(Decided(s, p, now, op), [Commit(1), Write(2, 2)], Commit(1), [Write(2, 2)]);
  }

  lemma {:induction false} ManualWrites(s: Subscription, p: Purchase, now: DateTime, op: Op)
    requires ValidDates(s) && ValidTime(now) && ValidPurchase(p) && IsManual(op)
    ensures var end := After(PaidState(s, p, now, op), [Write(2, 2)]);
      end.Some? && end.value.db.sub == Some(Overwrite(PaidSubscription(s, p, now), s, EditOf(s, op).sub))
  {
    PaidKeepsDates(s, p, now);
    var paid := PaidState(s, p, now, op);
    assert WellFormed(paid);
    assert !Used(paid, 2);
    AfterStep(paid, [Write(2, 2)], Write(2, 2), []);
  }

  lemma {:induction false} LateWriteOverwrites(s: Subscription, p: Purchase, now: DateTime, op: Op)
    requires ValidDates(s) && ValidTime(now) && ValidPurchase(p) && (p.kind.ExtendKind? ==> p.months.Some?)
    requires IsManual(op)
    ensures var end := After(Alone(s), LateWrite(p, now, op));
      end.Some? && end.value.db.sub == Some(Overwrite(PaidSubscription(s, p, now), s, EditOf(s, op).sub))
  {
    BothBegin(s, p, now, op);
    WorkerLocks(s, p, now, op);
    WorkerDecides(s, p, now, op);
    WorkerCommits(s, p, now, op);
    ManualWrites(s, p, now, op);
  }

  // The extension of an administrator, with the plan named.
  function ManualExtension(plans: Plans, now: DateTime, months: int, plan: PlanCode, amount: Option<int>): Op {
    DoExtend(plans, now, months, Some(plan), amount, None)
  }

  // A payment that commits between the read and the write of a manual extension ends in what
  // one of the two orders gives exactly if it is an upgrade. A paid extension is always lost:
  // the end is earlier than in either order.
  lemma {:induction false} LateWriteIsSerialExactly(s: Subscription, p: Purchase, now: DateTime, plans: Plans,
      plan: PlanCode, months: int, amount: Option<int>)
    requires ValidDates(s) && ValidTime(now) && ValidPurchase(p) && (p.kind.ExtendKind? ==> p.months.Some?)
    requires Assignable(plans, plan) && EXTEND_MIN_MONTHS <= months <= EXTEND_MAX_MONTHS
    ensures var op := ManualExtension(plans, now, months, plan, amount);
      var paid, manual := PaidSubscription(s, p, now), EditOf(s, op).sub;
      && ValidDates(paid) && ValidDates(manual)
      && var end, paidFirst, manualFirst := After(Alone(s), LateWrite(p, now, op)), EditOf(paid, op).sub,
          PaidSubscription(manual, p, now);
         && end.Some? && end.value.db.sub.Some?
         && (end.value.db.sub.value == paidFirst || end.value.db.sub.value == manualFirst <==> p.kind.UpgradeKind?)
         && (p.kind.ExtendKind? ==>
               EndsBefore(end.value.db.sub.value, paidFirst) && EndsBefore(end.value.db.sub.value, manualFirst))
  {
    var op := ManualExtension(plans, now, months, plan, amount);
    LateWriteOverwrites(s, p, now, op);
    PaidKeepsDates(s, p, now);
    ApplyKeepsDates(Account(s, []), op);
    assert EditOf(s, op).sub == ExtendedBy(s, plan, now, months);
    if p.kind.ExtendKind? {
      LatePaymentIsLost(s, p, now, plan, months);
    } else {
      LateUpgradeIsKept(s, p, now, plan, months);
    }
  }

  predicate EndsBefore(a: Subscription, b: Subscription) {
    && ValidDates(a) && ValidDates(b) && a.periodEnd.Some? && b.periodEnd.Some?
    && Instant(a.periodEnd.value) < Instant(b.periodEnd.value)
  }

  lemma {:induction false} ManualMovesEnd(s: Subscription, plan: PlanCode, now: DateTime, months: int)
    requires ValidDates(s) && ValidTime(now) && 1 <= months
    ensures ExtendedBy(s, plan, now, months).periodEnd != s.periodEnd
  {
    ShiftMonthsLater(ExtensionBase(s, now), months);
    if s.periodEnd.Some? {
      assert Instant(s.periodEnd.value) <= Instant(ExtensionBase(s, now));
    }
  }

  lemma {:induction false} LateUpgradeIsKept(s: Subscription, p: Purchase, now: DateTime, plan: PlanCode, months: int)
    requires ValidDates(s) && ValidTime(now) && p.kind.UpgradeKind? && 1 <= months
    ensures var paid, manual := PaidSubscription(s, p, now), ExtendedBy(s, plan, now, months);
      && ValidDates(manual)
      && Overwrite(paid, s, manual) in {ExtendedBy(paid, plan, now, months), PaidSubscription(manual, p, now)}
  {
    ShiftMonthsLater(ExtensionBase(s, now), months);
  }

  lemma {:induction false} LatePaymentIsLost(s: Subscription, p: Purchase, now: DateTime, plan: PlanCode, months: int)
    requires ValidDates(s) && ValidTime(now) && ValidPurchase(p) && p.kind.ExtendKind? && p.months.Some? && 1 <= months
    ensures var paid, manual := PaidSubscription(s, p, now), ExtendedBy(s, plan, now, months);
      && ValidDates(paid) && ValidDates(manual)
      && EndsBefore(Overwrite(paid, s, manual), ExtendedBy(paid, plan, now, months))
      && EndsBefore(Overwrite(paid, s, manual), PaidSubscription(manual, p, now))
  {
    var base, n := ExtensionBase(s, now), p.months.value;
    var paid, manual := PaidSubscription(s, p, now), ExtendedBy(s, plan, now, months);
    ShiftMonthsLater(base, n);
    ShiftMonthsLater(base, months);
    assert ExtensionBase(paid, now) == ShiftMonths(base, n);
    assert ExtensionBase(manual, now) == ShiftMonths(base, months);
    ShiftMonthsLater(ShiftMonths(base, n), months);
    ShiftMonthsLater(ShiftMonths(base, months), n);
    FewerMonthsEnd(base, n, months);
    ManualMovesEnd(s, plan, now, months);
  }

  lemma {:induction false} FewerMonthsEnd(base: DateTime, n: int, months: int)
    requires ValidTime(base) && 1 <= n && 1 <= months
    ensures ValidTime(ShiftMonths(base, months)) && ValidTime(ShiftMonths(base, n))
    ensures ValidTime(ShiftMonths(ShiftMonths(base, n), months))
    ensures Instant(ShiftMonths(base, months)) < Instant(ShiftMonths(ShiftMonths(base, n), months))
  {
    AddMonthsShape(base.date, n);
    AddMonthsShape(base.date, months);
    var mid := AddMonths(base.date, n);
    AddMonthsShape(mid, months);
    SameMonth(AddMonths(base.date, months), AddMonths(mid, months));
    InstantOrder(ShiftMonths(base, months), ShiftMonths(ShiftMonths(base, n), months));
  }
}
