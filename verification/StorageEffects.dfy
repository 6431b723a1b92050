// What the housekeeping jobs may take, in the fields of the rows: which rows go or are marked,
// which objects go with them, and that nothing due is left when nothing fails.

module StorageEffects {
  import opened Results
  import opened Sequences
  import opened Storage

  // ----- Single files --------------------------------------------------------------------

  // Every row of the key, if there is one, has been purged.
  predicate WithoutLiveRow(files: map<FileId, FileRow>, key: Key) {
    forall f :: f in files && files[f].key == key ==> files[f].purgedAt != None
  }

  // A file is deleted if and only if nothing holds on to it; then its row goes, and its object
  // unless it has been purged or the deletion fails.
  lemma {:induction false} DeleteWrites(s: Store, f: FileId, failing: set<Key>)
    ensures var (after, r) := DeleteFile(s, f, failing);
      && (r == Ok(f) <==> f in s.files && !s.files[f].attached) && (r.Err? ==> after == s)
      && (r.Ok? ==>
            && after.pending == s.pending && after.files.Keys == s.files.Keys - {f}
            && (forall g :: g in after.files ==> after.files[g] == s.files[g])
            && (forall key :: key in s.objects ==>
                  (key in after.objects <==>
                     key != s.files[f].key || s.files[f].purgedAt != None || key in failing))
            && forall key :: key in after.objects ==> key in s.objects && after.objects[key] == s.objects[key])
  {}

  // An upload goes through: its row may be committed within the age after the put, under a fresh
  // identifier; it is live then, unattached, and has its object.
  lemma {:induction false} UploadGoesThrough(y: System, key: Key, at: int, f: FileId, category: Category,
      org: Option<OrgId>, now: int, ttl: int)
    requires Enabled(y, Put(key, at), ttl) && f !in y.store.files && at <= now <= at + ttl
    ensures var put := Apply(y, Put(key, at), ttl);
      && Enabled(put, Commit(f, key, category, org, now), ttl)
      && var s := Apply(put, Commit(f, key, category, org, now), ttl).store;
      && f in s.files && s.files[f] == FileRow(key, category, false, now, None, org)
      && key in s.objects && s.objects[key] == at && key !in s.pending
      && forall g :: g in y.store.files ==> g in s.files && s.files[g] == y.store.files[g]
  {}

  // One run of a rule tries at most 10000 deletions.
  lemma {:induction false} RunIsBounded(s: Store, order: seq<FileId>, rule: Rule, failures: Failures, now: int, k: nat)
    requires k <= 20
    ensures RunRule(s, order, rule, failures, now, k).done + RunRule(s, order, rule, failures, now, k).failed
      <= 500 * (20 - k)
    decreases 20 - k
  {
    var batch := Batch(s.files, order, rule);
    if k == MAX_BATCHES || batch == [] {
      RunEnds(s, order, rule, failures, now, k);
    } else {
      RunContinues(s, order, rule, failures, now, k);
      RunIsBounded(ApplyBatch(s, batch, rule, FailingIn(failures, k), now), order, rule, failures, now, k + 1);
    }
  }

  // ----- The clean-up of orphans ---------------------------------------------------------

  // Only rows of unattached files from before the cutoff have gone, each with its object; every
  // other row is as it was, and no other object has gone.
  ghost predicate OnlyOrphansGone(s: Store, after: Store, cutoff: int) {
    && after.pending == s.pending
    && (forall f :: f in after.files ==> f in s.files && after.files[f] == s.files[f])
    && (forall f :: f in s.files && (s.files[f].attached || cutoff <= s.files[f].created) ==> f in after.files)
    && (forall f :: f in s.files && f !in after.files ==> s.files[f].key !in after.objects)
    && (forall key :: key in after.objects ==> key in s.objects && after.objects[key] == s.objects[key])
    && (forall key :: key in s.objects && key !in after.objects ==> HasGone(s, after, key))
  }

  ghost predicate HasGone(s: Store, after: Store, key: Key) {
    exists f :: f in s.files && f !in after.files && s.files[f].key == key
  }

  lemma {:induction false} OrphansGoneTwice(a: Store, b: Store, c: Store, cutoff: int)
    requires OnlyOrphansGone(a, b, cutoff) && OnlyOrphansGone(b, c, cutoff)
    ensures OnlyOrphansGone(a, c, cutoff)
  {
    forall key | key in a.objects && key !in c.objects ensures HasGone(a, c, key) {
      if key in b.objects {
        var f :| f in b.files && f !in c.files && b.files[f].key == key;
        assert a.files[f].key == key;
      } else {
        var f :| f in a.files && f !in b.files && a.files[f].key == key;
        assert f !in c.files;
      }
    }
  }

  lemma {:induction false} OrphanBatch(s: Store, batch: seq<FileId>, cutoff: int, failing: set<Key>, now: int)
    requires forall f :: f in batch ==> f in s.files && Candidate(s.files[f], Orphans(cutoff))
    ensures OnlyOrphansGone(s, ApplyBatch(s, batch, Orphans(cutoff), failing, now), cutoff)
  {
    var after, done := ApplyBatch(s, batch, Orphans(cutoff), failing, now), Succeeded(s.files, batch, failing);
    forall key | key in KeysOf(s.files, done) ensures HasGone(s, after, key) {
      var f :| f in done && f in s.files && s.files[f].key == key;
    }
  }

  lemma {:induction false} OrphanRule(s: Store, order: seq<FileId>, cutoff: int, failures: Failures, now: int, k: nat)
    requires k <= MAX_BATCHES
    ensures OnlyOrphansGone(s, RunRule(s, order, Orphans(cutoff), failures, now, k).store, cutoff)
    decreases MAX_BATCHES - k
  {
    var rule := Orphans(cutoff);
    var batch := Batch(s.files, order, rule);
    if k == MAX_BATCHES || batch == [] {
      RunEnds(s, order, rule, failures, now, k);
    } else {
      RunContinues(s, order, rule, failures, now, k);
      var next := ApplyBatch(s, batch, rule, FailingIn(failures, k), now);
      OrphanBatch(s, batch, cutoff, FailingIn(failures, k), now);
      OrphanRule(next, order, cutoff, failures, now, k + 1);
      OrphansGoneTwice(s, next, RunRule(next, order, rule, failures, now, k + 1).store, cutoff);
    }
  }

  lemma {:induction false} DueSize(files: map<FileId, FileRow>, order: seq<FileId>, rule: Rule)
    requires IsOrder(files, order)
    ensures |Due(files, order, rule)| == |Candidates(files, rule)|
  {
    var due := Due(files, order, rule);
    InOrderDistinct(order, Candidates(files, rule));
    MembersSize(due);
    assert forall f :: f in Candidates(files, rule) ==> f in order;
    assert Members(due) == Candidates(files, rule);
  }

  function OldOrphans(files: map<FileId, FileRow>, cutoff: int): set<FileId> {
    set f | f in files && !files[f].attached && files[f].created < cutoff
  }

  // Without failures, and with at most 10000 of them, no old orphan is left.
  lemma {:induction false} AllOrphansGo(s: Store, order: seq<FileId>, cutoff: int, failures: Failures, now: int)
    requires IsOrder(s.files, order) && AllSucceed(failures) && |OldOrphans(s.files, cutoff)| <= 10000
    ensures OldOrphans(RunRule(s, order, Orphans(cutoff), failures, now, 0).store.files, cutoff) == {}
  {
    var rule := Orphans(cutoff);
    assert Candidates(s.files, rule) == OldOrphans(s.files, cutoff);
    DueSize(s.files, order, rule);
    PurgeRuleLeavesNone(s, order, rule, failures, now);
    var after := RunRule(s, order, rule, failures, now, 0).store;
    assert Candidates(after.files, rule) == OldOrphans(after.files, cutoff);
  }

  // Where registry and objects agree, a live row that must stay therefore keeps its object.
  ghost predicate KeepsTheRest(s: Store, after: Store, cutoff: int) {
    forall f :: f in s.files && (s.files[f].attached || cutoff <= s.files[f].created) ==>
      f in after.files && after.files[f] == s.files[f]
      && (s.files[f].purgedAt == None && s.files[f].key in s.objects ==>
            s.files[f].key in after.objects && after.objects[s.files[f].key] == s.objects[s.files[f].key])
  }

  ghost predicate NoneIsLeft(files: map<FileId, FileRow>, cutoff: int) {
    forall f :: f in files ==> files[f].attached || cutoff <= files[f].created
  }

  lemma {:induction false} TheRestIsKept(s: Store, after: Store, cutoff: int)
    requires Agreement(after) && OnlyOrphansGone(s, after, cutoff)
    ensures KeepsTheRest(s, after, cutoff)
  {}

  lemma {:induction false} NoneIsLeftIfNoneIsOld(files: map<FileId, FileRow>, cutoff: int)
    requires OldOrphans(files, cutoff) == {}
    ensures NoneIsLeft(files, cutoff)
  {
    forall f | f in files ensures files[f].attached || cutoff <= files[f].created {
      assert f !in OldOrphans(files, cutoff);
    }
  }

  // What the clean-up does: only old orphans go, whatever fails, and without failures and with
  // at most 10000 of them all go.
  ghost predicate CleanedUp(s: Store, after: Store, order: seq<FileId>, failures: Failures, cutoff: int) {
    && OnlyOrphansGone(s, after, cutoff) && KeepsTheRest(s, after, cutoff)
    && (IsOrder(s.files, order) && AllSucceed(failures) && |OldOrphans(s.files, cutoff)| <= 10000 ==>
          NoneIsLeft(after.files, cutoff))
  }

  // The run of the clean-up, from its first batch.
  function AfterCleanUp(s: Store, order: seq<FileId>, cutoff: int, failures: Failures, now: int): Store {
    RunRule(s, order, Orphans(cutoff), failures, now, 0).store
  }

  lemma {:induction false} CleanUpIsExact(s: Store, order: seq<FileId>, cutoff: int, failures: Failures, now: int)
    requires Agreement(s)
    ensures var after := AfterCleanUp(s, order, cutoff, failures, now);
      Agreement(after) && CleanedUp(s, after, order, failures, cutoff)
  {
    RuleKeepsAgreement(s, order, Orphans(cutoff), failures, now, 0);
    OrphanRule(s, order, cutoff, failures, now, 0);
    TheRestIsKept(s, AfterCleanUp(s, order, cutoff, failures, now), cutoff);
    if IsOrder(s.files, order) && AllSucceed(failures) && |OldOrphans(s.files, cutoff)| <= 10000 {
      AllOrphansGo(s, order, cutoff, failures, now);
      NoneIsLeftIfNoneIsOld(RunRule(s, order, Orphans(cutoff), failures, now, 0).store.files, cutoff);
    }
  }

  // ----- The purge -----------------------------------------------------------------------

  // A file that the purge may take: attached, not purged yet, and either a checklist photo or a
  // photo of a shift's place older than its retention, or a file of an organisation deleted
  // longer ago than theirs. A retention that is not positive switches its rule off.
  predicate MayPurge(row: FileRow, r: Retention, deletedAt: map<OrgId, int>, now: int) {
    && row.attached && row.purgedAt == None
    && ((r.checklistDays > 0 && row.category == ChecklistPhoto && row.created < now - 86400 * r.checklistDays)
        || (r.geoDays > 0 && row.category == ShiftGeoPhoto && row.created < now - 86400 * r.geoDays)
        || (r.deletedOrgDays > 0 && row.org != None && row.org.value in deletedAt
            && deletedAt[row.org.value] < now - 86400 * r.deletedOrgDays))
  }

  // Only rows that may be purged have been marked, now, each with its object gone; every other
  // row is as it was, and no other object has gone.
  ghost predicate OnlyPurged(s: Store, after: Store, r: Retention, deletedAt: map<OrgId, int>, now: int) {
    && after.pending == s.pending && after.files.Keys == s.files.Keys
    && (forall f :: f in s.files && after.files[f] != s.files[f] ==>
          MayPurge(s.files[f], r, deletedAt, now) && after.files[f] == s.files[f].(purgedAt := Some(now))
          && s.files[f].key !in after.objects)
    && (forall key :: key in after.objects ==> key in s.objects && after.objects[key] == s.objects[key])
    && (forall key :: key in s.objects && key !in after.objects ==> WasMarked(s, after, key))
  }

  ghost predicate WasMarked(s: Store, after: Store, key: Key) {
    exists f :: f in s.files && f in after.files && after.files[f] != s.files[f] && s.files[f].key == key
  }

  lemma {:induction false} PurgedTwice(a: Store, b: Store, c: Store, r: Retention, deletedAt: map<OrgId, int>, now: int)
    requires OnlyPurged(a, b, r, deletedAt, now) && OnlyPurged(b, c, r, deletedAt, now)
    ensures OnlyPurged(a, c, r, deletedAt, now)
  {
    forall f | f in a.files && b.files[f] != a.files[f] ensures c.files[f] == b.files[f] {
      assert b.files[f].purgedAt == Some(now);
    }
    forall key | key in a.objects && key !in c.objects ensures WasMarked(a, c, key) {
      if key in b.objects {
        var f :| f in b.files && f in c.files && c.files[f] != b.files[f] && b.files[f].key == key;
        assert a.files[f].key == key && c.files[f] != a.files[f];
      } else {
        var f :| f in a.files && f in b.files && b.files[f] != a.files[f] && a.files[f].key == key;
        assert c.files[f] != a.files[f];
      }
    }
  }

  // A rule whose candidates may all be purged.
  ghost predicate Purges(rule: Rule, r: Retention, deletedAt: map<OrgId, int>, now: int) {
    !rule.Orphans? && forall row: FileRow :: Candidate(row, rule) ==> MayPurge(row, r, deletedAt, now)
  }

  lemma {:induction false} PurgeBatch(s: Store, batch: seq<FileId>, rule: Rule, failing: set<Key>, r: Retention,
      deletedAt: map<OrgId, int>, now: int)
    requires Purges(rule, r, deletedAt, now) && forall f :: f in batch ==> f in s.files && Candidate(s.files[f], rule)
    ensures OnlyPurged(s, ApplyBatch(s, batch, rule, failing, now), r, deletedAt, now)
  {
    var after, done := ApplyBatch(s, batch, rule, failing, now), Succeeded(s.files, batch, failing);
    forall f | f in done ensures MayPurge(s.files[f], r, deletedAt, now) && after.files[f] != s.files[f] {
      assert Candidate(s.files[f], rule);
    }
    forall key | key in KeysOf(s.files, done) ensures WasMarked(s, after, key) {
      var f :| f in done && f in s.files && s.files[f].key == key;
    }
  }

  lemma {:induction false} PurgeRule(s: Store, order: seq<FileId>, rule: Rule, failures: Failures, r: Retention,
      deletedAt: map<OrgId, int>, now: int, k: nat)
    requires k <= MAX_BATCHES && Purges(rule, r, deletedAt, now)
    ensures OnlyPurged(s, RunRule(s, order, rule, failures, now, k).store, r, deletedAt, now)
    decreases MAX_BATCHES - k
  {
    var batch := Batch(s.files, order, rule);
    if k == MAX_BATCHES || batch == [] {
      RunEnds(s, order, rule, failures, now, k);
    } else {
      RunContinues(s, order, rule, failures, now, k);
      var next := ApplyBatch(s, batch, rule, FailingIn(failures, k), now);
      PurgeBatch(s, batch, rule, FailingIn(failures, k), r, deletedAt, now);
      PurgeRule(next, order, rule, failures, r, deletedAt, now, k + 1);
      PurgedTwice(s, next, RunRule(next, order, rule, failures, now, k + 1).store, r, deletedAt, now);
    }
  }

  lemma {:induction false} StagePurges(r: Retention, deletedAt: map<OrgId, int>, failures: PurgeFailures, now: int,
      i: nat)
    requires i < 3 && PurgeStages(r, deletedAt, failures, now)[i].on
    ensures Purges(PurgeStages(r, deletedAt, failures, now)[i].rule, r, deletedAt, now)
  {}

  lemma {:induction false} StagesPurge(s: Store, order: seq<FileId>, r: Retention, deletedAt: map<OrgId, int>,
      failures: PurgeFailures, now: int, n: nat)
    requires n <= 3
    ensures OnlyPurged(s, RunStages(s, order, PurgeStages(r, deletedAt, failures, now)[..n], now), r, deletedAt, now)
  {
    if n > 0 {
      var stages := PurgeStages(r, deletedAt, failures, now);
      StagesPurge(s, order, r, deletedAt, failures, now, n - 1);
      assert stages[..n][..n - 1] == stages[..n - 1];
      var before := RunStages(s, order, stages[..n - 1], now);
      if stages[n - 1].on {
        StagePurges(r, deletedAt, failures, now, n - 1);
        PurgeRule(before, order, stages[n - 1].rule, stages[n - 1].failures, r, deletedAt, now, 0);
        PurgedTwice(s, before, RunStages(s, order, stages[..n], now), r, deletedAt, now);
      }
    }
  }

  function DueForPurge(files: map<FileId, FileRow>, r: Retention, deletedAt: map<OrgId, int>, now: int): set<FileId> {
    set f | f in files && MayPurge(files[f], r, deletedAt, now)
  }

  // A rule without failures leaves none of its candidates, and nothing new becomes due.
  lemma {:induction false} StageClears(s: Store, order: seq<FileId>, rule: Rule, failures: Failures, r: Retention,
      deletedAt: map<OrgId, int>, now: int)
    requires IsOrder(s.files, order) && AllSucceed(failures) && Purges(rule, r, deletedAt, now)
    requires |DueForPurge(s.files, r, deletedAt, now)| <= 10000
    ensures var after := RunRule(s, order, rule, failures, now, 0).store;
      && Candidates(after.files, rule) == {} && IsOrder(after.files, order)
      && DueForPurge(after.files, r, deletedAt, now) <= DueForPurge(s.files, r, deletedAt, now)
  {
    assert Candidates(s.files, rule) <= DueForPurge(s.files, r, deletedAt, now);
    SubsetSize(Candidates(s.files, rule), DueForPurge(s.files, r, deletedAt, now));
    DueSize(s.files, order, rule);
    PurgeRuleLeavesNone(s, order, rule, failures, now);
    PurgeRule(s, order, rule, failures, r, deletedAt, now, 0);
  }

  lemma {:induction false} SubsetSize<T>(a: set<T>, b: set<T>)
    requires a <= b
    ensures |a| <= |b|
  {
    assert b == a + (b - a);
  }

  // Later rules bring no candidate of an earlier one back.
  lemma {:induction false} StaysClear(s: Store, after: Store, rule: Rule, r: Retention, deletedAt: map<OrgId, int>,
      now: int)
    requires OnlyPurged(s, after, r, deletedAt, now) && !rule.Orphans? && Candidates(s.files, rule) == {}
    ensures Candidates(after.files, rule) == {}
  {
    forall f | f in after.files ensures !Candidate(after.files[f], rule) {
      assert f !in Candidates(s.files, rule);
    }
  }

  // After the first n stages none of their candidates is left.
  lemma {:induction false} StagesClear(s: Store, order: seq<FileId>, r: Retention, deletedAt: map<OrgId, int>,
      failures: PurgeFailures, now: int, n: nat)
    requires n <= 3 && IsOrder(s.files, order)
    requires AllSucceed(failures.photos) && AllSucceed(failures.geo) && AllSucceed(failures.deleted)
    requires |DueForPurge(s.files, r, deletedAt, now)| <= 10000
    ensures var stages := PurgeStages(r, deletedAt, failures, now);
      var after := RunStages(s, order, stages[..n], now);
      && IsOrder(after.files, order)
      && DueForPurge(after.files, r, deletedAt, now) <= DueForPurge(s.files, r, deletedAt, now)
      && forall i :: 0 <= i < n && stages[i].on ==> Candidates(after.files, stages[i].rule) == {}
  {
    if n > 0 {
      var stages := PurgeStages(r, deletedAt, failures, now);
      StagesClear(s, order, r, deletedAt, failures, now, n - 1);
      assert stages[..n][..n - 1] == stages[..n - 1];
      var before, last := RunStages(s, order, stages[..n - 1], now), stages[n - 1];
      if last.on {
        StagePurges(r, deletedAt, failures, now, n - 1);
        SubsetSize(DueForPurge(before.files, r, deletedAt, now), DueForPurge(s.files, r, deletedAt, now));
        StageClears(before, order, last.rule, last.failures, r, deletedAt, now);
        PurgeRule(before, order, last.rule, last.failures, r, deletedAt, now, 0);
        var after := RunStages(s, order, stages[..n], now);
        assert after == RunRule(before, order, last.rule, last.failures, now, 0).store;
        forall i | 0 <= i < n - 1 && stages[i].on ensures Candidates(after.files, stages[i].rule) == {} {
          StaysClear(before, after, stages[i].rule, r, deletedAt, now);
        }
      }
    }
  }

  // A file that no stage takes is not due.
  lemma {:induction false} NotDue(files: map<FileId, FileRow>, f: FileId, r: Retention, deletedAt: map<OrgId, int>,
      failures: PurgeFailures, now: int)
    requires f in files
    requires var stages := PurgeStages(r, deletedAt, failures, now);
      forall i :: 0 <= i < 3 && stages[i].on ==> Candidates(files, stages[i].rule) == {}
    ensures !MayPurge(files[f], r, deletedAt, now)
  {
    var stages := PurgeStages(r, deletedAt, failures, now);
    forall i | 0 <= i < 3 && stages[i].on ensures !Candidate(files[f], stages[i].rule) {
      assert f !in Candidates(files, stages[i].rule);
    }
    assert !(stages[0].on && Candidate(files[f], stages[0].rule));
    assert !(stages[1].on && Candidate(files[f], stages[1].rule));
    assert !(stages[2].on && Candidate(files[f], stages[2].rule));
  }

  // Without failures, and with at most 10000 files due, every file that is due gets purged.
  lemma {:induction false} AllDueArePurged(s: Store, order: seq<FileId>, r: Retention, deletedAt: map<OrgId, int>,
      failures: PurgeFailures, now: int)
    requires IsOrder(s.files, order)
    requires AllSucceed(failures.photos) && AllSucceed(failures.geo) && AllSucceed(failures.deleted)
    requires |DueForPurge(s.files, r, deletedAt, now)| <= 10000
    ensures DueForPurge(RunStages(s, order, PurgeStages(r, deletedAt, failures, now), now).files, r, deletedAt, now)
        == {}
  {
    var stages := PurgeStages(r, deletedAt, failures, now);
    StagesClear(s, order, r, deletedAt, failures, now, 3);
    assert stages[..3] == stages;
    var after := RunStages(s, order, stages, now);
    forall f | f in after.files ensures !MayPurge(after.files[f], r, deletedAt, now) {
      NotDue(after.files, f, r, deletedAt, failures, now);
    }
  }

  ghost predicate NoneIsDue(files: map<FileId, FileRow>, r: Retention, deletedAt: map<OrgId, int>, now: int) {
    forall f :: f in files ==> !MayPurge(files[f], r, deletedAt, now)
  }

  predicate NothingFails(failures: PurgeFailures) {
    AllSucceed(failures.photos) && AllSucceed(failures.geo) && AllSucceed(failures.deleted)
  }

  // What the purge does: only what is due is marked, with its object gone, whatever fails, and
  // without failures and with at most 10000 files due all of them.
  ghost predicate PurgedAll(s: Store, after: Store, order: seq<FileId>, r: Retention, deletedAt: map<OrgId, int>,
      failures: PurgeFailures, now: int)
  {
    && OnlyPurged(s, after, r, deletedAt, now)
    && (IsOrder(s.files, order) && NothingFails(failures) && |DueForPurge(s.files, r, deletedAt, now)| <= 10000 ==>
          NoneIsDue(after.files, r, deletedAt, now))
  }

  lemma {:induction false} PurgeIsExact(s: Store, order: seq<FileId>, r: Retention, deletedAt: map<OrgId, int>,
      failures: PurgeFailures, now: int)
    requires Agreement(s)
    ensures var after := RunStages(s, order, PurgeStages(r, deletedAt, failures, now), now);
      Agreement(after) && PurgedAll(s, after, order, r, deletedAt, failures, now)
  {
    var stages := PurgeStages(r, deletedAt, failures, now);
    StagesOnlyLess(s, order, stages, now, 0);
    StagesPurge(s, order, r, deletedAt, failures, now, 3);
    assert stages[..3] == stages;
    if IsOrder(s.files, order) && NothingFails(failures) && |DueForPurge(s.files, r, deletedAt, now)| <= 10000 {
      AllDueArePurged(s, order, r, deletedAt, failures, now);
      var after := RunStages(s, order, stages, now);
      assert forall f :: f in after.files ==> f !in DueForPurge(after.files, r, deletedAt, now);
    }
  }
}
