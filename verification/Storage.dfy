// The registry of files and the object store: uploads in two steps, deletes, the clean-up of
// orphans, the purge of expired files, and the reconciliation of the two stores.

module Storage {
  import opened Results
  import opened Sequences
  import Calendar

  type FileId = nat
  type OrgId = nat

  datatype Category = ChecklistPhoto | KnowledgeFile | ShiftGeoPhoto | Avatar | Other

  // Keys outside the prefixes of the categories have no category.
  datatype Key = Key(category: Option<Category>, name: nat)

  datatype FileRow = FileRow(key: Key, category: Category, attached: bool, created: int, purgedAt: Option<int>,
      org: Option<OrgId>)

  // The registry; the objects with the time of their last modification; and the uploads whose
  // object has been put but whose row is not committed yet.
  datatype Store = Store(files: map<FileId, FileRow>, objects: map<Key, int>, pending: map<Key, int>)

  // ----- Agreement -----------------------------------------------------------------------

  predicate UniqueKeys(files: map<FileId, FileRow>) {
    forall f, g :: f in files && g in files && files[f].key == files[g].key ==> f == g
  }

  // A row without a purge mark has its object, a row with one has none; a key belongs to one
  // row; and an upload in progress has no row.
  ghost predicate Agreement(s: Store) {
    && (forall f :: f in s.files ==> (s.files[f].purgedAt.None? <==> s.files[f].key in s.objects))
    && UniqueKeys(s.files)
    && (forall f :: f in s.files ==> s.files[f].key !in s.pending)
  }

  // ----- Upload and delete ---------------------------------------------------------------

  function PutObject(s: Store, key: Key, now: int): Store {
    s.(objects := s.objects[key := now], pending := s.pending[key := now])
  }

  function CommitUpload(s: Store, f: FileId, key: Key, category: Category, org: Option<OrgId>, now: int): Store {
    s.(files := s.files[f := FileRow(key, category, false, now, None, org)], pending := s.pending - {key})
  }

  // The row was never committed; the object stays behind.
  function AbandonUpload(s: Store, key: Key): Store {
    s.(pending := s.pending - {key})
  }

  datatype Error = FileNotFound | FileInUse

  // The row goes even if the deletion of its object fails.
  function DeleteFile(s: Store, f: FileId, failing: set<Key>): (Store, Result<FileId, Error>) {
    if f !in s.files then (s, Err(FileNotFound))
    else if s.files[f].attached then (s, Err(FileInUse))
    else
      var gone := if s.files[f].purgedAt.None? then {s.files[f].key} - failing else {};
      (s.(files := s.files - {f}, objects := s.objects - gone), Ok(f))
  }

  function SetAttached(s: Store, f: FileId, attached: bool): Store {
    if f in s.files then s.(files := s.files[f := s.files[f].(attached := attached)]) else s
  }

  // ----- Rules in batches ----------------------------------------------------------------

  const BATCH_SIZE := 500
  const MAX_BATCHES := 20

  // Orphans lose their rows with their objects; the other rules only mark the rows.
  datatype Rule =
    | Orphans(cutoff: int)
    | Expired(category: Category, cutoff: int)
    | OfDeletedOrganizations(orgs: set<OrgId>)

  predicate Candidate(row: FileRow, rule: Rule) {
    match rule
    case Orphans(cutoff) => !row.attached && row.created < cutoff
    case Expired(category, cutoff) =>
        row.attached && row.purgedAt.None? && row.category == category && row.created < cutoff
    case OfDeletedOrganizations(orgs) => row.attached && row.purgedAt.None? && row.org.Some? && row.org.value in orgs
  }

  function Candidates(files: map<FileId, FileRow>, rule: Rule): set<FileId> {
    set f | f in files && Candidate(files[f], rule)
  }

  // The members of a set in the order of a list.
  function InOrder(order: seq<FileId>, members: set<FileId>): (r: seq<FileId>)
    ensures forall f :: f in r <==> f in order && f in members
  {
    if order == [] then []
    else
      assert order == [order[0]] + order[1..];
      (if order[0] in members then [order[0]] else []) + InOrder(order[1..], members)
  }

  // The listing of the table by the time of creation.
  predicate IsOrder(files: map<FileId, FileRow>, order: seq<FileId>) {
    Distinct(order) && forall f :: f in files ==> f in order
  }

  // The selected batch: the first candidates, up to the limit.
  function Batch(files: map<FileId, FileRow>, order: seq<FileId>, rule: Rule): (r: seq<FileId>)
    ensures |r| <= BATCH_SIZE
    ensures forall f :: f in r ==> f in files && Candidate(files[f], rule)
  {
    var due := InOrder(order, Candidates(files, rule));
    assert forall f :: f in due ==> f in Candidates(files, rule);
    if |due| <= BATCH_SIZE then due
    else
      assert forall f :: f in due[..BATCH_SIZE] ==> f in due;
      due[..BATCH_SIZE]
  }

  // The rows of the batch whose objects are gone afterwards.
  function Succeeded(files: map<FileId, FileRow>, batch: seq<FileId>, failing: set<Key>): set<FileId> {
    set f | f in batch && f in files && files[f].key !in failing
  }

  function KeysOf(files: map<FileId, FileRow>, fs: set<FileId>): set<Key> {
    set f | f in fs && f in files :: files[f].key
  }

  function ApplyBatch(s: Store, batch: seq<FileId>, rule: Rule, failing: set<Key>, now: int): Store {
    var done := Succeeded(s.files, batch, failing);
    s.(files := if rule.Orphans? then s.files - done
                else map f | f in s.files :: if f in done then s.files[f].(purgedAt := Some(now)) else s.files[f],
       objects := s.objects - KeysOf(s.files, done))
  }

  function CountFailed(files: map<FileId, FileRow>, batch: seq<FileId>, failing: set<Key>): (n: nat)
    ensures n <= |batch|
  {
    if batch == [] then 0
    else
      var last := batch[|batch| - 1];
      CountFailed(files, batch[..|batch| - 1], failing) + if last in files && files[last].key in failing then 1 else 0
  }

  // The keys whose deletion fails, batch by batch; later batches succeed.
  type Failures = seq<set<Key>>

  function FailingIn(failures: Failures, k: nat): set<Key> {
    if k < |failures| then failures[k] else {}
  }

  predicate AllSucceed(failures: Failures) {
    forall i :: 0 <= i < |failures| ==> failures[i] == {}
  }

  datatype Outcome = Outcome(store: Store, done: nat, failed: nat)

  // One rule: batch after batch, until nothing is left, a deletion has failed, or the limit of
  // batches is reached.
  function RunRule(s: Store, order: seq<FileId>, rule: Rule, failures: Failures, now: int, k: nat): Outcome
    requires k <= MAX_BATCHES
    decreases MAX_BATCHES - k, order
  {
    var batch := Batch(s.files, order, rule);
    if k == MAX_BATCHES || batch == [] then Outcome(s, 0, 0)
    else
      var after := ApplyBatch(s, batch, rule, FailingIn(failures, k), now);
      var bad := CountFailed(s.files, batch, FailingIn(failures, k));
      if bad > 0 || |batch| < BATCH_SIZE then Outcome(after, |batch| - bad, bad)
      else
        var rest := RunRule(after, order, rule, failures, now, k + 1);
        Outcome(rest.store, |batch| - bad + rest.done, bad + rest.failed)
  }

  datatype Retention = Retention(checklistDays: int, geoDays: int, deletedOrgDays: int)

  lemma {:induction false} SucceededNext(files: map<FileId, FileRow>, batch: seq<FileId>, f: FileId, failing: set<Key>)
    requires f in files && forall g :: g in batch ==> g in files
    ensures var next := Succeeded(files, batch + [f], failing);
      && next == Succeeded(files, batch, failing) + (if files[f].key in failing then {} else {f})
      && KeysOf(files, next) == KeysOf(files, Succeeded(files, batch, failing))
          + (if files[f].key in failing then {} else {files[f].key})
    ensures CountFailed(files, batch + [f], failing)
        == CountFailed(files, batch, failing) + if files[f].key in failing then 1 else 0
  {
    assert (batch + [f])[..|batch|] == batch;
    assert Succeeded(files, batch + [f], failing)
        == Succeeded(files, batch, failing) + (if files[f].key in failing then {} else {f});
  }

  lemma {:induction false} RunEnds(s: Store, order: seq<FileId>, rule: Rule, failures: Failures, now: int, k: nat)
    requires k <= MAX_BATCHES && (k == MAX_BATCHES || Batch(s.files, order, rule) == [])
    ensures RunRule(s, order, rule, failures, now, k) == Outcome(s, 0, 0)
  {}

  lemma {:induction false} RunContinues(s: Store, order: seq<FileId>, rule: Rule, failures: Failures, now: int, k: nat)
    requires k < MAX_BATCHES && Batch(s.files, order, rule) != []
    ensures var batch := Batch(s.files, order, rule);
      var after, bad := ApplyBatch(s, batch, rule, FailingIn(failures, k), now),
          CountFailed(s.files, batch, FailingIn(failures, k));
      RunRule(s, order, rule, failures, now, k) ==
        if bad > 0 || |batch| < BATCH_SIZE then Outcome(after, |batch| - bad, bad)
        else Outcome(RunRule(after, order, rule, failures, now, k + 1).store,
          |batch| + RunRule(after, order, rule, failures, now, k + 1).done,
              RunRule(after, order, rule, failures, now, k + 1).failed)
  {}

  // A rule that is switched off is skipped; the others run one after another, each with its
  // own failures.
  datatype Stage = Stage(on: bool, rule: Rule, failures: Failures)

  function RunStages(s: Store, order: seq<FileId>, stages: seq<Stage>, now: int): Store {
    if stages == [] then s
    else
      var before, last := RunStages(s, order, stages[..|stages| - 1], now), stages[|stages| - 1];
      if last.on then RunRule(before, order, last.rule, last.failures, now, 0).store else before
  }

  datatype PurgeFailures = PurgeFailures(photos: Failures, geo: Failures, deleted: Failures)

  // The organisations deleted before the cutoff.
  function DeletedBefore(deletedAt: map<OrgId, int>, cutoff: int): set<OrgId> {
    set org | org in deletedAt && deletedAt[org] < cutoff
  }

  // The three rules of the purge; a rule without retention is switched off. `deletedAt` has the
  // times of the deleted organisations.
  function PurgeStages(r: Retention, deletedAt: map<OrgId, int>, failures: PurgeFailures,
      now: int): (stages: seq<Stage>)
    ensures |stages| == 3
  {
    [Stage(r.checklistDays > 0, Expired(ChecklistPhoto, now - r.checklistDays * Calendar.SECONDS_PER_DAY),
        failures.photos),
     Stage(r.geoDays > 0, Expired(ShiftGeoPhoto, now - r.geoDays * Calendar.SECONDS_PER_DAY), failures.geo),
     Stage(r.deletedOrgDays > 0,
           OfDeletedOrganizations(DeletedBefore(deletedAt, now - r.deletedOrgDays * Calendar.SECONDS_PER_DAY)),
           failures.deleted)]
  }

  // ----- Reconciliation ------------------------------------------------------------------

  // The row of the key is live.
  predicate LiveKey(files: map<FileId, FileRow>, key: Key) {
    exists f :: f in files && files[f].key == key && files[f].purgedAt.None?
  }

  predicate OrphanObject(s: Store, key: Key, cutoff: int) {
    key in s.objects && key.category.Some? && s.objects[key] < cutoff && !LiveKey(s.files, key)
  }

  function OrphanObjects(s: Store, cutoff: int): set<Key> {
    set key | key in s.objects && OrphanObject(s, key, cutoff)
  }

  // Above the limit nothing is deleted.
  function Reconcile(s: Store, cutoff: int, maxDeletes: int, failing: set<Key>): Store {
    var candidates := OrphanObjects(s, cutoff);
    if |candidates| > maxDeletes then s else s.(objects := s.objects - (candidates - failing))
  }

  function KeysOfPages(pages: seq<seq<Key>>): set<Key> {
    if pages == [] then {} else KeysOfPages(pages[..|pages| - 1]) + Members(pages[|pages| - 1])
  }

  // The listings of the prefixes show every object with a category once.
  ghost predicate ArePages(s: Store, pages: seq<seq<Key>>) {
    && (forall key :: key in KeysOfPages(pages) <==> key in s.objects && key.category.Some?)
    && (forall i :: 0 <= i < |pages| ==> Distinct(pages[i]) && Members(pages[i]) !! KeysOfPages(pages[..i]))
  }

  lemma {:induction false} PageOfPages(s: Store, pages: seq<seq<Key>>, i: nat)
    requires ArePages(s, pages) && i < |pages|
    ensures forall key :: key in pages[i] ==> key in s.objects && key.category.Some? && key !in KeysOfPages(pages[..i])
    ensures Distinct(pages[i])
    ensures KeysOfPages(pages[..i + 1]) == KeysOfPages(pages[..i]) + Members(pages[i])
  {
    assert pages[..i + 1][..i] == pages[..i];
    PrefixKeys(pages, i + 1);
    assert forall key :: key in pages[i] ==> key in Members(pages[i]);
  }

  lemma {:induction false} PrefixKeys(pages: seq<seq<Key>>, n: nat)
    requires n <= |pages|
    ensures KeysOfPages(pages[..n]) <= KeysOfPages(pages)
    decreases |pages|
  {
    if n == |pages| {
      assert pages[..n] == pages;
    } else {
      PrefixKeys(pages[..|pages| - 1], n);
      assert pages[..|pages| - 1][..n] == pages[..n];
    }
  }

  lemma {:induction false} DistinctConcat(a: seq<Key>, b: seq<Key>)
    requires Distinct(a) && Distinct(b) && forall key :: key in a ==> key !in b
    ensures Distinct(a + b)
  {
    forall i, j | 0 <= i < j < |a + b| ensures (a + b)[i] != (a + b)[j] {
      if i < |a| <= j {
        assert a[i] in a && b[j - |a|] in b;
      }
    }
  }

  // The candidates gathered page by page are the orphan objects, counted once each.
  lemma {:induction false} CandidatesAreOrphans(s: Store, pages: seq<seq<Key>>, candidates: seq<Key>, cutoff: int)
    requires ArePages(s, pages) && Distinct(candidates)
    requires forall key :: key in candidates <==> key in KeysOfPages(pages) && OrphanObject(s, key, cutoff)
    ensures Members(candidates) == OrphanObjects(s, cutoff) && |candidates| == |OrphanObjects(s, cutoff)|
  {
    MembersSize(candidates);
    assert Members(candidates) == OrphanObjects(s, cutoff);
  }

  // ----- Agreement is kept ---------------------------------------------------------------

  lemma {:induction false} BatchKeepsAgreement(s: Store, batch: seq<FileId>, rule: Rule, failing: set<Key>, now: int)
    requires Agreement(s) && forall f :: f in batch ==> f in s.files && Candidate(s.files[f], rule)
    ensures Agreement(ApplyBatch(s, batch, rule, failing, now))
  {
    var after := ApplyBatch(s, batch, rule, failing, now);
    var done := Succeeded(s.files, batch, failing);
    forall f | f in s.files ensures s.files[f].key in KeysOf(s.files, done) <==> f in done {
      if s.files[f].key in KeysOf(s.files, done) {
        var g :| g in done && g in s.files && s.files[g].key == s.files[f].key;
      }
    }
  }

  lemma {:induction false} RuleKeepsAgreement(s: Store, order: seq<FileId>, rule: Rule, failures: Failures, now: int,
      k: nat)
    requires Agreement(s) && k <= MAX_BATCHES
    ensures Agreement(RunRule(s, order, rule, failures, now, k).store)
    decreases MAX_BATCHES - k
  {
    var batch := Batch(s.files, order, rule);
    if k < MAX_BATCHES && batch != [] {
      BatchKeepsAgreement(s, batch, rule, FailingIn(failures, k), now);
      if CountFailed(s.files, batch, FailingIn(failures, k)) == 0 && |batch| == BATCH_SIZE {
        RuleKeepsAgreement(ApplyBatch(s, batch, rule, FailingIn(failures, k), now), order, rule, failures, now, k + 1);
      }
    }
  }

  lemma {:induction false} ReconcileKeepsAgreement(s: Store, cutoff: int, maxDeletes: int, failing: set<Key>)
    requires Agreement(s)
    ensures Agreement(Reconcile(s, cutoff, maxDeletes, failing))
  {
    forall f | f in s.files && s.files[f].purgedAt.None? ensures LiveKey(s.files, s.files[f].key) {}
  }

  // ----- What a rule leaves --------------------------------------------------------------

  lemma {:induction false} InOrderDistinct(order: seq<FileId>, members: set<FileId>)
    requires Distinct(order)
    ensures Distinct(InOrder(order, members))
    decreases |order|
  {
    if order != [] {
      assert order == [order[0]] + order[1..];
      InOrderDistinct(order[1..], members);
      forall i | 1 <= i < |order| ensures order[i] != order[0] {}
      assert order[0] !in order[1..];
    }
  }

  lemma {:induction false} InOrderCons(first: FileId, rest: seq<FileId>, members: set<FileId>)
    ensures InOrder([first] + rest, members) == (if first in members then [first] else []) + InOrder(rest, members)
  {
    assert ([first] + rest)[1..] == rest;
  }

  // Without the first members the rest remains, in the same order.
  lemma {:induction false} InOrderWithout(order: seq<FileId>, members: set<FileId>, n: nat, gone: set<FileId>)
    requires Distinct(order) && n <= |InOrder(order, members)|
    requires forall f :: f in gone <==> f in InOrder(order, members)[..n]
    ensures InOrder(order, members - gone) == InOrder(order, members)[n..]
    decreases |order|, 0
  {
    if order != [] {
      var first, rest := order[0], order[1..];
      assert order == [first] + rest;
      assert forall i :: 0 <= i < |rest| ==> rest[i] == order[i + 1] && order[i + 1] != first;
      InOrderCons(first, rest, members);
      InOrderCons(first, rest, members - gone);
      if first in members {
        FirstIsMember(first, rest, members, n, gone);
      } else {
        assert InOrder(order, members) == InOrder(rest, members);
        InOrderWithout(rest, members, n, gone);
      }
    }
  }

  lemma {:induction false} FirstIsMember(first: FileId, rest: seq<FileId>, members: set<FileId>, n: nat,
      gone: set<FileId>)
    requires Distinct(rest) && first !in rest && first in members && n <= 1 + |InOrder(rest, members)|
    requires forall f :: f in gone <==> f in ([first] + InOrder(rest, members))[..n]
    ensures (if first in members - gone then [first] else []) + InOrder(rest, members - gone)
        == ([first] + InOrder(rest, members))[n..]
    decreases |rest|, 1
  {
    var tail := InOrder(rest, members);
    if n == 0 {
      assert gone == {} && members - gone == members;
    } else {
      assert ([first] + tail)[..n] == [first] + tail[..n - 1];
      assert ([first] + tail)[n..] == tail[n - 1..];
      assert forall f :: f in tail[..n - 1] ==> f in tail && f in rest;
      InOrderWithout(rest, members, n - 1, gone - {first});
      InOrderSame(rest, members - (gone - {first}), members - gone);
    }
  }

  lemma {:induction false} InOrderSame(order: seq<FileId>, a: set<FileId>, b: set<FileId>)
    requires forall f :: f in order ==> (f in a <==> f in b)
    ensures InOrder(order, a) == InOrder(order, b)
    decreases |order|
  {
    if order != [] {
      assert order == [order[0]] + order[1..];
      InOrderSame(order[1..], a, b);
    }
  }

  // A batch without failures takes its rows out of the candidates.
  lemma {:induction false} BatchClears(s: Store, order: seq<FileId>, rule: Rule, now: int)
    requires IsOrder(s.files, order)
    ensures var batch := Batch(s.files, order, rule);
      InOrder(order, Candidates(ApplyBatch(s, batch, rule, {}, now).files, rule))
          == InOrder(order, Candidates(s.files, rule))[|batch|..]
  {
    var batch := Batch(s.files, order, rule);
    var due := InOrder(order, Candidates(s.files, rule));
    var after := ApplyBatch(s, batch, rule, {}, now);
    var done := Succeeded(s.files, batch, {});
    assert batch == due[..|batch|];
    assert forall f :: f in done <==> f in batch;
    assert Candidates(after.files, rule) == Candidates(s.files, rule) - done;
    InOrderWithout(order, Candidates(s.files, rule), |batch|, done);
  }

  lemma {:induction false} NoneFailed(files: map<FileId, FileRow>, batch: seq<FileId>)
    ensures CountFailed(files, batch, {}) == 0
    decreases |batch|
  {
    if batch != [] {
      NoneFailed(files, batch[..|batch| - 1]);
    }
  }

  function Due(files: map<FileId, FileRow>, order: seq<FileId>, rule: Rule): seq<FileId> {
    InOrder(order, Candidates(files, rule))
  }

  // One full batch without failures: the rest of the run is the run on what it leaves.
  lemma {:induction false} FullBatch(s: Store, order: seq<FileId>, rule: Rule, failures: Failures, now: int, k: nat,
      r: Outcome) returns (after: Store, rest: Outcome)
    requires IsOrder(s.files, order) && k < MAX_BATCHES && FailingIn(failures, k) == {}
    requires |Due(s.files, order, rule)| >= BATCH_SIZE
    requires r == RunRule(s, order, rule, failures, now, k)
    ensures IsOrder(after.files, order) && |Due(after.files, order, rule)| == |Due(s.files, order, rule)| - BATCH_SIZE
    ensures rest == RunRule(after, order, rule, failures, now, k + 1)
    ensures r == Outcome(rest.store, BATCH_SIZE + rest.done, rest.failed)
  {
    var batch := Batch(s.files, order, rule);
    after := ApplyBatch(s, batch, rule, {}, now);
    rest := RunRule(after, order, rule, failures, now, k + 1);
    assert |batch| == BATCH_SIZE;
    NoneFailed(s.files, batch);
    BatchClears(s, order, rule, now);
    RunContinues(s, order, rule, failures, now, k);
  }

  // The last batch.
  lemma {:induction false} LastBatch(s: Store, order: seq<FileId>, rule: Rule, failures: Failures, now: int, k: nat)
    requires IsOrder(s.files, order) && k < MAX_BATCHES && FailingIn(failures, k) == {}
    requires 0 < |Due(s.files, order, rule)| < BATCH_SIZE
    ensures var r := RunRule(s, order, rule, failures, now, k);
      Due(r.store.files, order, rule) == [] && IsOrder(r.store.files, order) && r.done == |Due(s.files, order, rule)|
          && r.failed == 0
  {
    NoneFailed(s.files, Batch(s.files, order, rule));
    BatchClears(s, order, rule, now);
  }

  lemma {:induction false} NothingDue(s: Store, order: seq<FileId>, rule: Rule, failures: Failures, now: int, k: nat)
    requires k <= MAX_BATCHES && Due(s.files, order, rule) == []
    ensures RunRule(s, order, rule, failures, now, k) == Outcome(s, 0, 0)
  {}

  ghost predicate Clears(r: Outcome, order: seq<FileId>, rule: Rule, n: nat) {
    Candidates(r.store.files, rule) == {} && r.done == n && r.failed == 0
  }

  lemma {:induction false} ShortRuleClears(s: Store, order: seq<FileId>, rule: Rule, failures: Failures, now: int,
      k: nat)
    requires IsOrder(s.files, order) && k <= MAX_BATCHES && AllSucceed(failures)
    requires |Due(s.files, order, rule)| < BATCH_SIZE && (k == MAX_BATCHES ==> Due(s.files, order, rule) == [])
    ensures Clears(RunRule(s, order, rule, failures, now, k), order, rule, |Due(s.files, order, rule)|)
  {
    if Due(s.files, order, rule) == [] {
      NothingDue(s, order, rule, failures, now, k);
      NobodyDue(s.files, order, rule);
    } else {
      LastBatch(s, order, rule, failures, now, k);
      NobodyDue(RunRule(s, order, rule, failures, now, k).store.files, order, rule);
    }
  }

  // Without failures, and with no more candidates than the batches hold, none is left.
  lemma {:induction false} RuleClears(s: Store, order: seq<FileId>, rule: Rule, failures: Failures, now: int, k: nat,
      r: Outcome)
    requires IsOrder(s.files, order) && k <= MAX_BATCHES && AllSucceed(failures)
    requires |Due(s.files, order, rule)| <= (MAX_BATCHES - k) * BATCH_SIZE
    requires r == RunRule(s, order, rule, failures, now, k)
    ensures Clears(r, order, rule, |Due(s.files, order, rule)|)
    decreases MAX_BATCHES - k
  {
    if |Due(s.files, order, rule)| < BATCH_SIZE {
      ShortRuleClears(s, order, rule, failures, now, k);
    } else {
      var after, rest := FullBatch(s, order, rule, failures, now, k, r);
      RuleClears(after, order, rule, failures, now, k + 1, rest);
    }
  }

  lemma {:induction false} NobodyDue(files: map<FileId, FileRow>, order: seq<FileId>, rule: Rule)
    requires IsOrder(files, order)
    ensures Due(files, order, rule) == [] <==> Candidates(files, rule) == {}
  {
    var due := InOrder(order, Candidates(files, rule));
    assert forall f :: f in Candidates(files, rule) ==> f in order && f in due;
    assert due != [] ==> due[0] in due;
  }

  // A purge rule without failures and with at most 20 times 500 candidates leaves none.
  lemma {:induction false} PurgeRuleLeavesNone(s: Store, order: seq<FileId>, rule: Rule, failures: Failures, now: int)
    requires IsOrder(s.files, order) && AllSucceed(failures)
    requires |Due(s.files, order, rule)| <= 10000
    ensures Candidates(RunRule(s, order, rule, failures, now, 0).store.files, rule) == {}
  {
    RuleClears(s, order, rule, failures, now, 0, RunRule(s, order, rule, failures, now, 0));
  }

  // Only candidates have been touched: a row outside is as it was, a row that is left differs
  // in its mark at most, and an object that has gone was the object of a candidate.
  ghost predicate OnlyCandidates(s: Store, after: Store, rule: Rule) {
    && after.pending == s.pending && after.files.Keys <= s.files.Keys
    && (forall f :: f in s.files && !Candidate(s.files[f], rule) ==> f in after.files && after.files[f] == s.files[f])
    && (forall f :: f in after.files ==> after.files[f].(purgedAt := None) == s.files[f].(purgedAt := None))
    && (forall f :: f in after.files && s.files[f].purgedAt.Some? ==> after.files[f].purgedAt.Some?)
    && (forall f :: f in after.files && Candidate(after.files[f], rule) ==> Candidate(s.files[f], rule))
    && (forall key :: key in after.objects ==> key in s.objects && after.objects[key] == s.objects[key])
    && (forall key :: key in s.objects && key !in after.objects ==> CandidateKey(s.files, rule, key))
  }

  ghost predicate CandidateKey(files: map<FileId, FileRow>, rule: Rule, key: Key) {
    exists f :: f in files && Candidate(files[f], rule) && files[f].key == key
  }

  lemma {:induction false} OnlyCandidatesCompose(a: Store, b: Store, c: Store, rule: Rule)
    requires OnlyCandidates(a, b, rule) && OnlyCandidates(b, c, rule)
    ensures OnlyCandidates(a, c, rule)
  {
    forall key | key in a.objects && key !in c.objects ensures CandidateKey(a.files, rule, key) {
      if key in b.objects {
        var f :| f in b.files && Candidate(b.files[f], rule) && b.files[f].key == key;
        assert f in a.files && a.files[f].key == key;
      }
    }
  }

  lemma {:induction false} BatchTouchesCandidatesOnly(s: Store, batch: seq<FileId>, rule: Rule, failing: set<Key>,
      now: int)
    requires forall f :: f in batch ==> f in s.files && Candidate(s.files[f], rule)
    ensures OnlyCandidates(s, ApplyBatch(s, batch, rule, failing, now), rule)
  {
    var done := Succeeded(s.files, batch, failing);
    forall key | key in KeysOf(s.files, done) ensures CandidateKey(s.files, rule, key) {
      var f :| f in done && f in s.files && s.files[f].key == key;
    }
  }

  // Whatever fails, a rule touches only its candidates.
  lemma {:induction false} RuleTouchesCandidatesOnly(s: Store, order: seq<FileId>, rule: Rule, failures: Failures,
      now: int, k: nat)
    requires k <= MAX_BATCHES
    ensures OnlyCandidates(s, RunRule(s, order, rule, failures, now, k).store, rule)
    decreases MAX_BATCHES - k
  {
    var batch := Batch(s.files, order, rule);
    if k < MAX_BATCHES && batch != [] {
      var next := ApplyBatch(s, batch, rule, FailingIn(failures, k), now);
      BatchTouchesCandidatesOnly(s, batch, rule, FailingIn(failures, k), now);
      if CountFailed(s.files, batch, FailingIn(failures, k)) == 0 && |batch| == BATCH_SIZE {
        RuleTouchesCandidatesOnly(next, order, rule, failures, now, k + 1);
        OnlyCandidatesCompose(s, next, RunRule(next, order, rule, failures, now, k + 1).store, rule);
      }
    }
  }

  // ----- A crash between the deletions and the commit ------------------------------------

  // The objects are gone, the rows are as they were.
  function CrashedBatch(s: Store, batch: seq<FileId>, failing: set<Key>): Store {
    s.(objects := s.objects - KeysOf(s.files, Succeeded(s.files, batch, failing)))
  }

  // Then the agreement is broken exactly if some deletion of a live row's object succeeded,
  // and the same batch, run again without failures, ends as if there had been no crash.
  lemma {:induction false} CrashIsHealedByRetry(s: Store, batch: seq<FileId>, rule: Rule, failing: set<Key>, now: int)
    requires Agreement(s) && forall f :: f in batch ==> f in s.files && Candidate(s.files[f], rule)
    ensures Agreement(CrashedBatch(s, batch, failing)) <==>
      forall f :: f in Succeeded(s.files, batch, failing) ==> s.files[f].purgedAt.Some?
    ensures ApplyBatch(CrashedBatch(s, batch, failing), batch, rule, {}, now) == ApplyBatch(s, batch, rule, {}, now)
  {
    var done := Succeeded(s.files, batch, failing);
    var crashed := CrashedBatch(s, batch, failing);
    forall f | f in s.files ensures s.files[f].key in KeysOf(s.files, done) <==> f in done {
      if s.files[f].key in KeysOf(s.files, done) {
        var g :| g in done && g in s.files && s.files[g].key == s.files[f].key;
      }
    }
    var all := Succeeded(s.files, batch, {});
    assert done <= all;
    assert KeysOf(s.files, done) <= KeysOf(s.files, all);
    assert (s.objects - KeysOf(s.files, done)) - KeysOf(s.files, all) == s.objects - KeysOf(s.files, all);
  }

  // ----- Runs ----------------------------------------------------------------------------

  // A reconciliation under way: the page it has listed, with the times of the listing, and the
  // keys it has gathered from the pages checked so far.
  datatype Sweep = Sweep(cutoff: int, listed: map<Key, int>, gathered: set<Key>)

  // The clock never goes back; `ttl` is the age from which an orphan may be deleted. `used`
  // are the keys of all uploads so far.
  datatype System = System(store: Store, clock: int, used: set<Key>, sweep: Option<Sweep>)

  datatype Op =
    | Put(key: Key, now: int)
    | Commit(f: FileId, key: Key, category: Category, org: Option<OrgId>, now: int)
    | Abandon(key: Key, now: int)
    | Delete(f: FileId, failing: set<Key>, now: int)
    | Attach(f: FileId, attached: bool, now: int)
    | CleanUp(order: seq<FileId>, failures: Failures, now: int)
    | Purge(order: seq<FileId>, retention: Retention, deletedAt: map<OrgId, int>, purgeFailures: PurgeFailures,
        now: int)
    // The steps of the reconciliation, with anything else between them.
    | BeginSweep(now: int)
    | ListPage(page: set<Key>, now: int)
    | CheckPage(now: int)
    | DeleteGathered(maxDeletes: int, failing: set<Key>, now: int)
    | AbandonSweep(now: int)

  // Keys and file identifiers are drawn afresh, and an upload is committed within the age
  // that protects it. One reconciliation runs at a time.
  predicate Enabled(y: System, op: Op, ttl: int) {
    && y.clock <= op.now
    && match op
       case Put(key, _) => key !in y.used
       case Commit(f, key, _, _, now) =>
           f !in y.store.files && key in y.store.pending && now <= y.store.pending[key] + ttl
       case Abandon(key, _) => key in y.store.pending
       case BeginSweep(_) => y.sweep.None?
       case ListPage(page, _) => y.sweep.Some? && forall key :: key in page ==>
           key in y.store.objects && key.category.Some?
       case CheckPage(_) => y.sweep.Some?
       case DeleteGathered(_, _, _) => y.sweep.Some?
       case _ => true
  }

  // The orphans of a listed page, by the rows of the moment of the check.
  function Checked(files: map<FileId, FileRow>, w: Sweep): set<Key> {
    set key | key in w.listed && w.listed[key] < w.cutoff && !LiveKey(files, key)
  }

  function NextStore(y: System, op: Op, ttl: int): Store
    requires Enabled(y, op, ttl)
  {
    var s := y.store;
    match op
    case Put(key, now) => PutObject(s, key, now)
    case Commit(f, key, category, org, now) => CommitUpload(s, f, key, category, org, now)
    case Abandon(key, _) => AbandonUpload(s, key)
    case Delete(f, failing, _) => DeleteFile(s, f, failing).0
    case Attach(f, attached, _) => SetAttached(s, f, attached)
    case CleanUp(order, failures, now) => RunRule(s, order, Orphans(now - ttl), failures, now, 0).store
    case Purge(order, retention, deletedAt, failures, now) =>
      RunStages(s, order, PurgeStages(retention, deletedAt, failures, now), now)
    case DeleteGathered(maxDeletes, failing, _) =>
      var gathered := y.sweep.value.gathered;
      if |gathered| > maxDeletes then s else s.(objects := s.objects - (gathered - failing))
    case _ => s
  }

  function NextSweep(y: System, op: Op, ttl: int): Option<Sweep>
    requires Enabled(y, op, ttl)
  {
    match op
    case BeginSweep(now) => Some(Sweep(now - ttl, map[], {}))
    case ListPage(page, _) => Some(y.sweep.value.(listed := map key | key in page :: y.store.objects[key]))
    case CheckPage(_) =>
      var w := y.sweep.value;
      Some(w.(listed := map[], gathered := w.gathered + Checked(y.store.files, w)))
    case DeleteGathered(_, _, _) => None
    case AbandonSweep(_) => None
    case _ => y.sweep
  }

  function Apply(y: System, op: Op, ttl: int): System
    requires Enabled(y, op, ttl)
  {
    System(NextStore(y, op, ttl), op.now, if op.Put? then y.used + {op.key} else y.used, NextSweep(y, op, ttl))
  }

  // An upload that may still be committed has its object.
  ghost predicate PendingSafe(s: Store, clock: int, ttl: int) {
    forall key :: key in s.pending ==>
      s.pending[key] <= clock && (clock <= s.pending[key] + ttl ==>
          key in s.objects && s.objects[key] == s.pending[key])
  }

  // Every key in the stores has been used, and an object is as old as its upload.
  ghost predicate KeysUsed(s: Store, used: set<Key>) {
    && s.objects.Keys <= used && s.pending.Keys <= used
    && (forall f :: f in s.files ==> s.files[f].key in used)
    && (forall key :: key in s.pending && key in s.objects ==> s.pending[key] == s.objects[key])
  }

  // What has been listed is as old as it was listed; and no key that has been gathered has a
  // live row, or an upload that may still be committed.
  ghost predicate SweepSafe(s: Store, used: set<Key>, w: Sweep) {
    && (forall key :: key in w.listed ==> key in used && key.category.Some?)
    && (forall key :: key in w.listed && key in s.pending ==> s.pending[key] == w.listed[key])
    && (forall key :: key in w.gathered ==> key in used && key.category.Some? && !LiveKey(s.files, key))
    && (forall key :: key in w.gathered && key in s.pending ==> s.pending[key] < w.cutoff)
  }

  ghost predicate Inv(y: System, ttl: int) {
    && Agreement(y.store) && PendingSafe(y.store, y.clock, ttl) && KeysUsed(y.store, y.used)
    && (y.sweep.Some? ==> y.sweep.value.cutoff <= y.clock - ttl && SweepSafe(y.store, y.used, y.sweep.value))
  }

  // Nothing new in either store, no row back to life, and the objects of uploads that may
  // still be committed are left alone.
  ghost predicate OnlyLess(s: Store, after: Store, now: int, ttl: int) {
    && after.pending == s.pending
    && (forall key :: key in after.objects ==> key in s.objects && after.objects[key] == s.objects[key])
    && (forall f :: f in after.files ==> f in s.files && after.files[f].key == s.files[f].key)
    && (forall f :: f in after.files && f in s.files && s.files[f].purgedAt.Some? ==> after.files[f].purgedAt.Some?)
    && (forall key :: key in s.pending && key in s.objects && now <= s.pending[key] + ttl ==> key in after.objects)
  }

  lemma {:induction false} OnlyLessComposes(a: Store, b: Store, c: Store, now: int, ttl: int)
    requires OnlyLess(a, b, now, ttl) && OnlyLess(b, c, now, ttl)
    ensures OnlyLess(a, c, now, ttl)
  {}

  lemma {:induction false} LessKeeps(y: System, after: Store, now: int, ttl: int)
    requires Inv(y, ttl) && y.clock <= now && Agreement(after) && OnlyLess(y.store, after, now, ttl)
    ensures Inv(System(after, now, y.used, y.sweep), ttl)
  {
    if y.sweep.Some? {
      forall key | key in y.sweep.value.gathered ensures !LiveKey(after.files, key) {
        assert !LiveKey(y.store.files, key);
      }
    }
  }

  lemma {:induction false} RuleOnlyLess(s: Store, order: seq<FileId>, rule: Rule, failures: Failures, now: int,
      ttl: int)
    requires Agreement(s)
    ensures var after := RunRule(s, order, rule, failures, now, 0).store;
      Agreement(after) && OnlyLess(s, after, now, ttl)
  {
    RuleKeepsAgreement(s, order, rule, failures, now, 0);
    RuleTouchesCandidatesOnly(s, order, rule, failures, now, 0);
    forall key | key in s.pending ensures !CandidateKey(s.files, rule, key) {}
  }

  lemma {:induction false} StagesOnlyLess(s: Store, order: seq<FileId>, stages: seq<Stage>, now: int, ttl: int)
    requires Agreement(s)
    ensures Agreement(RunStages(s, order, stages, now)) && OnlyLess(s, RunStages(s, order, stages, now), now, ttl)
    decreases |stages|
  {
    if stages != [] {
      var front, last := stages[..|stages| - 1], stages[|stages| - 1];
      var before := RunStages(s, order, front, now);
      StagesOnlyLess(s, order, front, now, ttl);
      if last.on {
        RuleOnlyLess(before, order, last.rule, last.failures, now, ttl);
        OnlyLessComposes(s, before, RunStages(s, order, stages, now), now, ttl);
      }
    }
  }

  lemma {:induction false} DeletionKeeps(y: System, op: Op, ttl: int)
    requires op.Delete? || op.CleanUp? || op.Purge?
    requires Inv(y, ttl) && Enabled(y, op, ttl)
    ensures Inv(Apply(y, op, ttl), ttl)
  {
    match op {
      case CleanUp(order, failures, now) =>
        RuleOnlyLess(y.store, order, Orphans(now - ttl), failures, now, ttl);
      case Purge(order, retention, deletedAt, failures, now) =>
        StagesOnlyLess(y.store, order, PurgeStages(retention, deletedAt, failures, now), now, ttl);
      case Delete(f, failing, now) =>
    }
    LessKeeps(y, NextStore(y, op, ttl), op.now, ttl);
  }

  lemma {:induction false} UploadStepKeeps(y: System, op: Op, ttl: int)
    requires op.Put? || op.Commit? || op.Abandon? || op.Attach?
    requires Inv(y, ttl) && Enabled(y, op, ttl)
    ensures Inv(Apply(y, op, ttl), ttl)
  {
    if y.sweep.Some? {
      forall key | key in y.sweep.value.gathered ensures !LiveKey(Apply(y, op, ttl).store.files, key) {
        assert !LiveKey(y.store.files, key);
      }
    }
  }

  // What has been gathered may be deleted, however long ago that was.
  lemma {:induction false} SweepStepKeeps(y: System, op: Op, ttl: int)
    requires op.BeginSweep? || op.ListPage? || op.CheckPage? || op.DeleteGathered? || op.AbandonSweep?
    requires Inv(y, ttl) && Enabled(y, op, ttl)
    ensures Inv(Apply(y, op, ttl), ttl)
  {
    if op.DeleteGathered? {
      var s, after := y.store, NextStore(y, op, ttl);
      forall f | f in s.files && s.files[f].purgedAt.None? ensures s.files[f].key !in y.sweep.value.gathered {
        assert LiveKey(s.files, s.files[f].key);
      }
    }
  }

  lemma {:induction false} ApplyKeeps(y: System, op: Op, ttl: int)
    requires Inv(y, ttl) && Enabled(y, op, ttl)
    ensures Inv(Apply(y, op, ttl), ttl)
  {
    if op.Delete? || op.CleanUp? || op.Purge? {
      DeletionKeeps(y, op, ttl);
    } else if op.Put? || op.Commit? || op.Abandon? || op.Attach? {
      UploadStepKeeps(y, op, ttl);
    } else {
      SweepStepKeeps(y, op, ttl);
    }
  }

  function EmptySystem(start: int): System {
    System(Store(map[], map[], map[]), start, {}, None)
  }

  // The states of a run from empty stores, one after each operation.
  ghost predicate IsRun(states: seq<System>, ops: seq<Op>, start: int, ttl: int) {
    && |states| == |ops| + 1 && states[0] == EmptySystem(start)
    && forall i :: 0 <= i < |ops| ==> Enabled(states[i], ops[i], ttl) && states[i + 1] == Apply(states[i], ops[i], ttl)
  }

  lemma {:induction false} RunKeeps(states: seq<System>, ops: seq<Op>, start: int, ttl: int, n: nat)
    requires IsRun(states, ops, start, ttl) && n < |states|
    ensures Inv(states[n], ttl)
  {
    if n > 0 {
      RunKeeps(states, ops, start, ttl, n - 1);
      ApplyKeeps(states[n - 1], ops[n - 1], ttl);
    }
  }

  // Over every run from empty stores, with any pattern of failing deletions and anything
  // between the steps of a reconciliation: a row without a purge mark has its object, and a
  // row with one has none.
  lemma {:induction false} RunsAgree(states: seq<System>, ops: seq<Op>, start: int, ttl: int, n: nat)
    requires IsRun(states, ops, start, ttl) && n < |states|
    ensures Agreement(states[n].store)
  {
    RunKeeps(states, ops, start, ttl, n);
  }

  // And a key that a reconciliation has gathered never gets a live row until it is deleted,
  // although the rows are read once, page by page, and uploads go on.
  lemma {:induction false} GatheredNeverLive(states: seq<System>, ops: seq<Op>, start: int, ttl: int, n: nat, key: Key)
    requires IsRun(states, ops, start, ttl) && n < |states|
    requires states[n].sweep.Some? && key in states[n].sweep.value.gathered
    ensures !LiveKey(states[n].store.files, key) && key.category.Some?
    ensures forall f, category, org, now :: !Enabled(states[n], Commit(f, key, category, org, now), ttl)
  {
    RunKeeps(states, ops, start, ttl, n);
  }

  // The age is what protects an upload in progress: its row, committed after a
  // reconciliation, has its object exactly if the reconciliation could not take it for old.
  lemma {:induction false} AgeProtectsUploadsExactly(s: Store, key: Key, f: FileId, category: Category,
      org: Option<OrgId>, cutoff: int, maxDeletes: int, failing: set<Key>, now: int)
    requires Agreement(s) && f !in s.files && key in s.pending && key in s.objects && key.category.Some?
    requires key !in failing
    requires |OrphanObjects(s, cutoff)| <= maxDeletes
    ensures Agreement(CommitUpload(Reconcile(s, cutoff, maxDeletes, failing), f, key, category, org, now))
        <==> cutoff <= s.objects[key]
  {
    var swept := Reconcile(s, cutoff, maxDeletes, failing);
    var after := CommitUpload(swept, f, key, category, org, now);
    ReconcileKeepsAgreement(s, cutoff, maxDeletes, failing);
    assert !LiveKey(s.files, key);
    assert key in swept.objects <==> cutoff <= s.objects[key];
    if Agreement(after) {
      assert after.files[f].key in after.objects;
    }
  }

  // With nothing in between, the steps of a reconciliation do what the method does.
  lemma {:induction false} SweepAloneReconciles(y: System, maxDeletes: int, failing: set<Key>, now: int, ttl: int)
    requires y.clock <= now && y.sweep.None?
    ensures var page := set key | key in y.store.objects && key.category.Some?;
      && Enabled(y, BeginSweep(now), ttl)
      && var y1 := Apply(y, BeginSweep(now), ttl);
      && Enabled(y1, ListPage(page, now), ttl)
      && var y2 := Apply(y1, ListPage(page, now), ttl);
      && Enabled(y2, CheckPage(now), ttl)
      && var y3 := Apply(y2, CheckPage(now), ttl);
      && Enabled(y3, DeleteGathered(maxDeletes, failing, now), ttl)
      && Apply(y3, DeleteGathered(maxDeletes, failing, now), ttl).store
          == Reconcile(y.store, now - ttl, maxDeletes, failing)
  {
    var page := set key | key in y.store.objects && key.category.Some?;
    var y2 := Apply(Apply(y, BeginSweep(now), ttl), ListPage(page, now), ttl);
    assert Apply(y2, CheckPage(now), ttl).sweep.value.gathered == OrphanObjects(y.store, now - ttl);
  }
}
