// The checklist service of one shift: the rows it changes in place, one method per function.

module ChecklistStore {
  import opened Results
  import C = Checklists

  lemma {:induction false} OperationKeeps(b: C.Board, op: C.Op)
    requires C.Sound(b) && C.FilesMatch(b)
    ensures C.Sound(C.Apply(b, op)) && C.FilesMatch(C.Apply(b, op))
  {
    C.ApplyKeepsSound(b, op);
    C.ApplyMatches(b, op);
  }

  lemma {:induction false} ExpiryKeeps(b: C.Board, now: int)
    requires C.Sound(b) && C.FilesMatch(b)
    ensures C.Sound(C.FinalizeExpired(b, now)) && C.FilesMatch(C.FinalizeExpired(b, now))
  {
    C.FinalizeAgrees(b.instances);
    C.SameItemsMatch(b, C.FinalizeExpired(b, now));
  }

  lemma {:induction false} FinishKeeps(b: C.Board, at: int)
    requires C.Sound(b) && C.FilesMatch(b)
    ensures C.Sound(C.Finish(b, at)) && C.FilesMatch(C.Finish(b, at))
  {
    C.FinalizeAgrees(b.instances);
    C.SameItemsMatch(b, C.Finish(b, at));
  }

  class Store {
    var shift: C.ShiftRow
    var grace: int
    var instances: map<C.InstanceId, C.Instance>
    var files: map<C.FileId, C.FileRow>

    function State(): C.Board
      reads this
    {
      C.Board(shift, grace, instances, files)
    }

    // Every status agrees with the items, the flag with the statuses, and the files with the
    // photos on the items.
    ghost predicate Valid()
      reads this
    {
      C.Sound(State()) && C.FilesMatch(State())
    }

    // create_instances_for_shift: a snapshot of every effective template.
    constructor (grace: int, templates: seq<C.Template>, files: map<C.FileId, C.FileRow>, now: int)
      requires forall f :: f in files ==> !files[f].attached
      ensures Valid() && C.Started(State(), templates, now) && this.grace == grace && this.files == files
    {
      shift := C.ShiftRow(false, None, false);
      this.grace, this.files := grace, files;
      instances := map[];
      new;
      for i := 0 to |templates|
        invariant instances == C.NewInstances(templates[..i], now)
        invariant shift == C.ShiftRow(false, None, false) && this.grace == grace && this.files == files
      {
        assert templates[..i + 1][..i] == templates[..i];
        var t := templates[i];
        var instance := C.Instance(t.required, C.Pending, None, C.NewItems(t.items));
        var hasRequired := exists k :: 0 <= k < |t.items| && t.items[k].required;
        if !hasRequired {
          instance := instance.(status := C.Completed, completedAt := Some(now));
        }
        instances := instances[t.id := instance];
      }
      assert templates[..|templates|] == templates;
      C.RunsAreSound(State(), templates, now, []);
      C.RunsMatchFiles(State(), templates, now, []);
    }

    // The status of an instance from its items, and the flag of the shift.
    method Settle(i: C.InstanceId, inst: C.Instance, loaded: C.Status, now: int)
      modifies this
      ensures State() == C.Settle(old(State()), i, inst, loaded, now)
    {
      var settled := inst;
      if !inst.status.Incomplete? {
        if !C.Blocked(inst.items) {
          if !loaded.Completed? {
            settled := settled.(status := C.Completed, completedAt := Some(now));
          }
        } else if !loaded.Pending? {
          settled := settled.(status := C.Pending, completedAt := None);
        }
      }
      instances := instances[i := settled];
      if shift.finished {
        var hasIncomplete := C.LiveIncomplete(instances);
        if shift.flagged != hasIncomplete {
          shift := shift.(flagged := hasIncomplete);
        }
      }
    }

    // The checks of an update, the new item, and the status that follows.
    method MarkItem(i: C.InstanceId, k: nat, done: bool, comment: Option<string>, now: int)
        returns (r: Result<bool, C.Error>)
      modifies this
      ensures (State(), r) == C.UpdateItem(old(State()), i, k, done, comment, now)
    {
      if !C.WindowOpen(State(), now) {
        return Err(C.ShiftFinished);
      }
      if i !in instances {
        return Err(C.InstanceNotFound);
      }
      var inst := instances[i];
      if k >= |inst.items| {
        return Err(C.ItemNotFound);
      }
      var item := inst.items[k];
      if item.done != done {
        item := item.(done := done, doneAt := if done then Some(now) else None);
      }
      item := item.(comment := comment, changes := item.changes + 1);
      Settle(i, C.WithItem(inst, k, item), inst.status, now);
      r := Ok(true);
    }

    method UpdateItem(i: C.InstanceId, k: nat, done: bool, comment: Option<string>, now: int)
        returns (r: Result<bool, C.Error>)
      requires Valid()
      modifies this
      ensures forall l :: l in instances ==> C.StatusFitsFields(instances[l])
      ensures Valid()
      ensures (State(), r) == C.UpdateItem(old(State()), i, k, done, comment, now)
    {
      OperationKeeps(State(), C.Mark(i, k, done, comment, now));
      r := MarkItem(i, k, done, comment, now);
      C.SoundInFields(State());
    }

    method NextPosition(photos: seq<C.Photo>) returns (p: int)
      ensures p == C.LastPosition(photos) + 1
    {
      var last := -1;
      for j := 0 to |photos|
        invariant last == C.LastPosition(photos[..j])
      {
        assert photos[..j + 1][..j] == photos[..j];
        if last < photos[j].position {
          last := photos[j].position;
        }
      }
      assert photos[..|photos|] == photos;
      p := last + 1;
    }

    // The checks of an attachment, the photo at the next position, and the status that follows.
    method AddPhoto(i: C.InstanceId, k: nat, f: C.FileId, id: C.PhotoId, maxPhotos: nat, now: int)
        returns (r: Result<bool, C.Error>)
      modifies this
      ensures (State(), r) == C.AttachPhoto(old(State()), i, k, f, id, maxPhotos, now)
    {
      if !C.WindowOpen(State(), now) {
        return Err(C.ShiftFinished);
      }
      if i !in instances {
        return Err(C.InstanceNotFound);
      }
      var inst := instances[i];
      if k >= |inst.items| {
        return Err(C.ItemNotFound);
      }
      var item := inst.items[k];
      if item.need.NoPhotos? {
        return Err(C.PhotoNotAllowed);
      }
      if f !in files || !files[f].usable || C.Bound(instances, f) {
        return Err(C.PhotoFileInvalid);
      }
      if |item.photos| >= maxPhotos {
        return Err(C.PhotoLimitExceeded);
      }
      var position := NextPosition(item.photos);
      files := files[f := files[f].(attached := true)];
      var photo := C.Photo(id, f, position);
      Settle(i, C.WithItem(inst, k, item.(photos := item.photos + [photo])), inst.status, now);
      r := Ok(true);
    }

    method AttachPhoto(i: C.InstanceId, k: nat, f: C.FileId, id: C.PhotoId, maxPhotos: nat, now: int)
        returns (r: Result<bool, C.Error>)
      requires Valid()
      modifies this
      ensures forall l :: l in instances ==> C.StatusFitsFields(instances[l])
      ensures Valid()
      ensures (State(), r) == C.AttachPhoto(old(State()), i, k, f, id, maxPhotos, now)
    {
      OperationKeeps(State(), C.Attach(i, k, f, id, maxPhotos, now));
      r := AddPhoto(i, k, f, id, maxPhotos, now);
      C.SoundInFields(State());
    }

    method DetachPhoto(i: C.InstanceId, k: nat, j: Option<nat>, now: int) returns (r: Result<bool, C.Error>)
      requires Valid()
      modifies this
      ensures forall l :: l in instances ==> C.StatusFitsFields(instances[l])
      ensures Valid()
      ensures (State(), r) == C.DetachPhoto(old(State()), i, k, j, now)
    {
      OperationKeeps(State(), C.Detach(i, k, j, now));
      if !C.WindowOpen(State(), now) {
        return Err(C.ShiftFinished);
      }
      if i !in instances {
        return Err(C.InstanceNotFound);
      }
      var inst := instances[i];
      if k >= |inst.items| {
        return Err(C.ItemNotFound);
      }
      var item := inst.items[k];
      if j.None? || j.value >= |item.photos| {
        return Err(C.PhotoNotFound);
      }
      files := files - {item.photos[j.value].file};
      Settle(i, C.WithItem(inst, k, item.(photos := C.Drop(item.photos, j.value))), inst.status, now);
      r := Ok(true);
      C.SoundInFields(State());
    }

    // finalize_shift_checklists.
    method FinalizeShiftChecklists() returns (hasIncomplete: bool)
      modifies this`instances
      ensures instances == C.FinalizeAll(old(instances)) && hasIncomplete == C.LiveIncomplete(instances)
    {
      instances := map i | i in instances ::
        if instances[i].status.Pending? && instances[i].required then instances[i].(status := C.Incomplete)
            else instances[i];
      hasIncomplete := C.LiveIncomplete(instances);
    }

    // close_shift_checklists, and the finish that it is part of.
    method FinishShift(at: int)
      requires Valid()
      modifies this
      ensures Valid()
      ensures State() == C.Finish(old(State()), at)
    {
      FinishKeeps(State(), at);
      if shift.finished {
        return;
      }
      var hasIncomplete;
      if grace <= 0 {
        hasIncomplete := FinalizeShiftChecklists();
      } else {
        hasIncomplete := C.LiveIncomplete(instances);
      }
      shift := C.ShiftRow(true, Some(at), hasIncomplete);
    }

    // Closes what is pending once the grace period is over.
    method CloseExpired(now: int)
      modifies this
      ensures State() == C.FinalizeExpired(old(State()), now)
    {
      var candidate := exists i :: i in instances && instances[i].status.Pending? && instances[i].required;
      if !candidate || !shift.finished || shift.finishedAt.None? {
        return;
      }
      var deadline := shift.finishedAt.value + grace * 60;
      if now < deadline {
        return;
      }
      var hasIncomplete := FinalizeShiftChecklists();
      shift := shift.(flagged := hasIncomplete);
    }

    // finalize_expired_checklist_grace_periods, for this shift.
    method FinalizeExpired(now: int)
      requires Valid()
      modifies this
      ensures Valid()
      ensures State() == C.FinalizeExpired(old(State()), now)
    {
      ExpiryKeeps(State(), now);
      CloseExpired(now);
    }
  }
}
