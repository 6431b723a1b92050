// The file service and its housekeeping jobs: registry rows and stored objects changed in
// place, batch by batch.

module FileStore {
  import opened Results
  import opened Sequences
  import S = Storage
  import opened StorageEffects

  // _read_with_limit: the chunks of an upload, cut off as soon as they exceed the limit.
  method ReadWithLimit(declared: Option<nat>, chunks: seq<seq<bv8>>, limit: nat) returns (r: Option<seq<bv8>>)
    ensures r.Some? <==> (declared.Some? ==> declared.value <= limit) && |Joined(chunks)| <= limit
    ensures r.Some? ==> r.value == Joined(chunks)
  {
    if declared.Some? && declared.value > limit {
      return None;
    }
    var content := [];
    for i := 0 to |chunks|
      invariant content == Joined(chunks[..i]) && |content| <= limit
    {
      assert chunks[..i + 1][..i] == chunks[..i];
      if |content| + |chunks[i]| > limit {
        JoinedGrows(chunks, i + 1);
        return None;
      }
      content := content + chunks[i];
    }
    assert chunks[..|chunks|] == chunks;
    r := Some(content);
  }

  function Joined(chunks: seq<seq<bv8>>): seq<bv8> {
    if chunks == [] then [] else Joined(chunks[..|chunks| - 1]) + chunks[|chunks| - 1]
  }

  lemma {:induction false} JoinedGrows(chunks: seq<seq<bv8>>, n: nat)
    requires n <= |chunks|
    ensures |Joined(chunks[..n])| <= |Joined(chunks)|
    decreases |chunks|
  {
    if n == |chunks| {
      assert chunks[..n] == chunks;
    } else {
      JoinedGrows(chunks[..|chunks| - 1], n);
      assert chunks[..|chunks| - 1][..n] == chunks[..n];
    }
  }

  class Files {
    var files: map<S.FileId, S.FileRow>
    var objects: map<S.Key, int>
    var pending: map<S.Key, int>

    constructor ()
      ensures Valid() && State() == S.Store(map[], map[], map[])
    {
      files, objects, pending := map[], map[], map[];
    }

    // What every service function and every job keeps.
    ghost predicate Valid()
      reads this
    {
      S.Agreement(State())
    }

    function State(): S.Store
      reads this
    {
      S.Store(files, objects, pending)
    }

    // upload_file puts the object first; without success nothing has happened.
    method PutObject(key: S.Key, now: int, fails: bool) returns (ok: bool)
      requires Valid() && key !in objects && forall f :: f in files ==> files[f].key != key
      modifies this
      ensures Valid()
      ensures ok == !fails && State() == if fails then old(State()) else S.PutObject(old(State()), key, now)
    {
      ok := !fails;
      if fails {
        return;
      }
      objects := objects[key := now];
      pending := pending[key := now];
    }

    // Then the row is committed.
    method CommitUpload(f: S.FileId, key: S.Key, category: S.Category, org: Option<S.OrgId>, now: int)
      requires Valid() && f !in files && key in pending && key in objects
      modifies this
      ensures Valid()
      ensures State() == S.CommitUpload(old(State()), f, key, category, org, now)
    {
      files := files[f := S.FileRow(key, category, false, now, None, org)];
      pending := pending - {key};
    }

    // delete_file.
    method DeleteFile(f: S.FileId, failing: set<S.Key>) returns (r: Result<S.FileId, S.Error>)
      requires Valid()
      modifies this
      ensures Valid()
      ensures (State(), r) == S.DeleteFile(old(State()), f, failing)
    {
      if f !in files {
        return Err(S.FileNotFound);
      }
      var row := files[f];
      if row.attached {
        return Err(S.FileInUse);
      }
      if row.purgedAt.None? && row.key !in failing {
        objects := objects - {row.key};
      }
      files := files - {f};
      assert objects == old(objects) - (if row.purgedAt.None? then {row.key} - failing else {});
      r := Ok(f);
    }

    // _delete_objects_report for the objects of a batch: which rows' objects are gone, and how
    // many deletions failed.
    method DeleteObjects(batch: seq<S.FileId>, failing: set<S.Key>) returns (succeeded: set<S.FileId>, failed: nat)
      requires forall f :: f in batch ==> f in files
      modifies this`objects
      ensures succeeded == S.Succeeded(files, batch, failing) && failed == S.CountFailed(files, batch, failing)
      ensures objects == old(objects) - S.KeysOf(files, succeeded)
    {
      succeeded, failed := {}, 0;
      for i := 0 to |batch|
        invariant succeeded == S.Succeeded(files, batch[..i], failing)
        invariant failed == S.CountFailed(files, batch[..i], failing)
        invariant objects == old(objects) - S.KeysOf(files, succeeded)
      {
        assert batch[..i + 1] == batch[..i] + [batch[i]];
        assert batch[i] in batch;
        var key := files[batch[i]].key;
        S.SucceededNext(files, batch[..i], batch[i], failing);
        if key in failing {
          failed := failed + 1;
        } else {
          objects := objects - {key};
          succeeded := succeeded + {batch[i]};
        }
      }
      assert batch[..|batch|] == batch;
    }

    // One batch: the objects first, then the rows whose objects are gone.
    method RunBatch(batch: seq<S.FileId>, rule: S.Rule, failing: set<S.Key>, now: int) returns (bad: nat)
      requires forall f :: f in batch ==> f in files
      modifies this
      ensures State() == S.ApplyBatch(old(State()), batch, rule, failing, now)
      ensures bad == S.CountFailed(old(files), batch, failing)
    {
      var succeeded;
      succeeded, bad := DeleteObjects(batch, failing);
      if rule.Orphans? {
        files := files - succeeded;
      } else {
        files := map f | f in files :: if f in succeeded then files[f].(purgedAt := Some(now)) else files[f];
      }
    }

    // The next batch of a rule, if there is one; the run stops after a failure and after a
    // short batch.
    method NextBatch(order: seq<S.FileId>, rule: S.Rule, failures: S.Failures, now: int, k: nat)
        returns (stop: bool, done: nat, failed: nat, ghost rest: S.Outcome)
      requires k < S.MAX_BATCHES
      modifies this
      ensures S.RunRule(old(State()), order, rule, failures, now, k)
          == S.Outcome(rest.store, done + rest.done, failed + rest.failed)
      ensures if stop then rest == S.Outcome(State(), 0, 0)
        else failed == 0 && rest == S.RunRule(State(), order, rule, failures, now, k + 1)
    {
      var batch := S.Batch(files, order, rule);
      if batch == [] {
        S.RunEnds(State(), order, rule, failures, now, k);
        return true, 0, 0, S.Outcome(State(), 0, 0);
      }
      S.RunContinues(State(), order, rule, failures, now, k);
      failed := RunBatch(batch, rule, S.FailingIn(failures, k), now);
      done := |batch| - failed;
      stop := failed > 0 || |batch| < S.BATCH_SIZE;
      rest := if stop then S.Outcome(State(), 0, 0) else S.RunRule(State(), order, rule, failures, now, k + 1);
    }

    // The loop over batches shared by the clean-up of orphans and the rules of the purge.
    method RunBatches(order: seq<S.FileId>, rule: S.Rule, failures: S.Failures, now: int)
        returns (done: nat, failed: nat)
      modifies this
      ensures S.Outcome(State(), done, failed) == S.RunRule(old(State()), order, rule, failures, now, 0)
    {
      done, failed := 0, 0;
      ghost var whole := S.RunRule(State(), order, rule, failures, now, 0);
      ghost var rest := whole;
      var k, stop := 0, false;
      while k < S.MAX_BATCHES && !stop
        invariant k <= S.MAX_BATCHES
        invariant whole == S.Outcome(rest.store, done + rest.done, failed + rest.failed)
        invariant rest == if stop then S.Outcome(State(), 0, 0) else S.RunRule(State(), order, rule, failures, now, k)
        decreases S.MAX_BATCHES - k
      {
        var more, bad;
        stop, more, bad, rest := NextBatch(order, rule, failures, now, k);
        done, failed := done + more, failed + bad;
        k := k + 1;
      }
      if !stop {
        S.RunEnds(State(), order, rule, failures, now, k);
      }
    }

    // cleanup_orphan_files: whatever fails, every attached row and every one younger than the
    // age stays as it is, with its object, as the agreement says; and without failures all the
    // others go.
    method CleanupOrphanFiles(order: seq<S.FileId>, failures: S.Failures, now: int, ttl: int) returns (deleted: nat)
      requires Valid()
      modifies this
      ensures State() == AfterCleanUp(old(State()), order, now - ttl, failures, now)
      ensures CleanedUp(old(State()), State(), order, failures, now - ttl)
      ensures Valid()
    {
      CleanUpIsExact(State(), order, now - ttl, failures, now);
      deleted := RunOrphans(order, failures, now, ttl);
    }

    method RunOrphans(order: seq<S.FileId>, failures: S.Failures, now: int, ttl: int) returns (deleted: nat)
      modifies this
      ensures State() == AfterCleanUp(old(State()), order, now - ttl, failures, now)
    {
      var failed;
      deleted, failed := RunBatches(order, S.Orphans(now - ttl), failures, now);
    }

    // purge_expired_files: three rules, one after another. Whatever fails, only what is due is
    // marked, with its object gone; and without failures all that is due.
    method PurgeExpiredFiles(order: seq<S.FileId>, r: S.Retention, deletedAt: map<S.OrgId, int>,
        failures: S.PurgeFailures, now: int)
      requires Valid()
      modifies this
      ensures Valid()
      ensures PurgedAll(old(State()), State(), order, r, deletedAt, failures, now)
      ensures State() == S.RunStages(old(State()), order, S.PurgeStages(r, deletedAt, failures, now), now)
    {
      PurgeIsExact(State(), order, r, deletedAt, failures, now);
      RunPurgeRules(order, r, deletedAt, failures, now);
    }

    method RunPurgeRules(order: seq<S.FileId>, r: S.Retention, deletedAt: map<S.OrgId, int>,
        failures: S.PurgeFailures, now: int)
      modifies this
      ensures State() == S.RunStages(old(State()), order, S.PurgeStages(r, deletedAt, failures, now), now)
    {
      var stages := S.PurgeStages(r, deletedAt, failures, now);
      for i := 0 to |stages|
        invariant State() == S.RunStages(old(State()), order, stages[..i], now)
      {
        assert stages[..i + 1][..i] == stages[..i];
        if stages[i].on {
          var done, failed := RunBatches(order, stages[i].rule, stages[i].failures, now);
        }
      }
      assert stages[..|stages|] == stages;
    }

    // _find_orphan_candidates on one page of a listing.
    method FindOrphanCandidates(page: seq<S.Key>, cutoff: int) returns (found: seq<S.Key>)
      requires forall key :: key in page ==> key in objects && key.category.Some?
      ensures forall key :: key in found <==> key in page && S.OrphanObject(State(), key, cutoff)
      ensures Distinct(page) ==> Distinct(found)
    {
      found := [];
      for i := 0 to |page|
        invariant forall key :: key in found <==> key in page[..i] && S.OrphanObject(State(), key, cutoff)
        invariant Distinct(page) ==> Distinct(found)
      {
        assert page[i] in page && page[..i + 1] == page[..i] + [page[i]];
        if objects[page[i]] < cutoff && !S.LiveKey(files, page[i]) {
          assert Distinct(page) ==> page[i] !in page[..i];
          found := found + [page[i]];
        }
      }
      assert page[..|page|] == page;
    }

    // reconcile_storage_objects over the pages of the listings of all prefixes. No object of a
    // live row is deleted, none outside the prefixes and no young one; above the limit nothing
    // is; and up to it, without failures, no old object without a live row is left.
    method ReconcileStorageObjects(enabled: bool, pages: seq<seq<S.Key>>, cutoff: int, maxDeletes: int,
        failing: set<S.Key>)
      requires Valid() && S.ArePages(State(), pages)
      modifies this
      ensures Valid() && files == old(files) && pending == old(pending)
      ensures forall key :: key in objects ==> key in old(objects) && objects[key] == old(objects)[key]
      ensures forall key :: key in old(objects) && key !in objects ==>
        key.category != None && old(objects)[key] < cutoff && key !in failing && WithoutLiveRow(files, key)
      ensures !enabled || |S.OrphanObjects(old(State()), cutoff)| > maxDeletes ==> objects == old(objects)
      ensures enabled && |S.OrphanObjects(old(State()), cutoff)| <= maxDeletes ==>
        forall key :: key in objects && key.category != None && objects[key] < cutoff && key !in failing ==>
          !WithoutLiveRow(files, key)
    {
      if !enabled {
        return;
      }
      var candidates: seq<S.Key> := [];
      for i := 0 to |pages|
        invariant State() == old(State()) && Distinct(candidates)
        invariant forall key ::
          key in candidates <==> key in S.KeysOfPages(pages[..i]) && S.OrphanObject(State(), key, cutoff)
      {
        assert pages[..i + 1][..i] == pages[..i];
        S.PageOfPages(State(), pages, i);
        var found := FindOrphanCandidates(pages[i], cutoff);
        S.DistinctConcat(candidates, found);
        candidates := candidates + found;
      }
      assert pages[..|pages|] == pages;
      S.CandidatesAreOrphans(State(), pages, candidates, cutoff);
      if |candidates| > maxDeletes {
        return;
      }
      DeleteKeys(candidates, failing);
      assert State() == S.Reconcile(old(State()), cutoff, maxDeletes, failing);
      S.ReconcileKeepsAgreement(old(State()), cutoff, maxDeletes, failing);
      forall key ensures WithoutLiveRow(files, key) <==> !S.LiveKey(files, key) {}
    }

    method DeleteKeys(keys: seq<S.Key>, failing: set<S.Key>)
      modifies this`objects
      ensures objects == old(objects) - (Members(keys) - failing)
    {
      for i := 0 to |keys|
        invariant objects == old(objects) - (Members(keys[..i]) - failing)
      {
        assert keys[..i + 1] == keys[..i] + [keys[i]];
        if keys[i] !in failing {
          objects := objects - {keys[i]};
        }
      }
      assert keys[..|keys|] == keys;
    }
  }
}
