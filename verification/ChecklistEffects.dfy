// What the checklist operations write, in the fields of items, instances and files, and when
// they are refused.

module ChecklistEffects {
  import opened Results
  import opened Checklists

  // Edits are allowed until the finish, and after it while no required checklist has been
  // closed and less than the minutes of grace have passed.
  lemma {:induction false} WindowByClock(b: Board, now: int)
    ensures WindowOpen(b, now) <==>
      !b.shift.finished
      || (b.shift.finishedAt != None && 0 < b.grace && now - b.shift.finishedAt.value < 60 * b.grace
          && forall i :: i in b.instances && b.instances[i].status == Incomplete ==> !b.instances[i].required)
  {
    if i :| i in b.instances && b.instances[i].status == Incomplete && b.instances[i].required {
      assert Finalized(b.instances);
    }
  }

  // Only one item of one instance changes, besides statuses, completion time and flag.
  predicate OnlyItem(b: Board, after: Board, i: InstanceId, k: nat) {
    && i in b.instances && k < |b.instances[i].items| && after.instances.Keys == b.instances.Keys
    && after.grace == b.grace && after.shift.(flagged := b.shift.flagged) == b.shift
    && (forall j :: j in b.instances && j != i ==> after.instances[j] == b.instances[j])
    && after.instances[i].required == b.instances[i].required
    && |after.instances[i].items| == |b.instances[i].items|
    && forall l :: 0 <= l < |b.instances[i].items| && l != k ==> after.instances[i].items[l] == b.instances[i].items[l]
  }

  // A status that has been changed by an edit is no closing, and a completion is stamped now.
  predicate StatusMoves(before: Instance, after: Instance, now: int) {
    && (after.status == Incomplete <==> before.status == Incomplete)
    && (after.status == before.status ==> after.completedAt == before.completedAt)
    && (after.status != before.status && after.status == Completed ==> after.completedAt == Some(now))
    && (after.status != before.status && after.status == Pending ==> after.completedAt == None)
  }

  // What an edit of an item leaves of its instance.
  lemma {:induction false} SettledItems(inst: Instance, k: nat, item: Item, loaded: Status, now: int)
    requires k < |inst.items| && loaded == inst.status
    ensures var after := Recompute(WithItem(inst, k, item), loaded, now);
      after.items == inst.items[k := item] && after.required == inst.required && StatusMoves(inst, after, now)
  {}

  // An update of an item sets the mark and the comment and counts one change; the time of the
  // mark is now if the mark is new, kept if it was there, and absent without the mark.
  lemma {:induction false} UpdateWrites(b: Board, i: InstanceId, k: nat, done: bool, comment: Option<string>, now: int)
    ensures var (after, r) := UpdateItem(b, i, k, done, comment, now);
      && (r.Ok? <==> WindowOpen(b, now) && i in b.instances && k < |b.instances[i].items|)
      && (r.Err? ==> after == b)
      && (r.Ok? ==>
            var was, item := b.instances[i].items[k], after.instances[i].items[k];
            && OnlyItem(b, after, i, k) && after.files == b.files
            && StatusMoves(b.instances[i], after.instances[i], now)
            && item == was.(done := done, comment := comment, changes := was.changes + 1, doneAt := item.doneAt)
            && (done && !was.done ==> item.doneAt == Some(now)) && (!done && was.done ==> item.doneAt == None)
            && (done == was.done ==> item.doneAt == was.doneAt))
  {
    if UpdateItem(b, i, k, done, comment, now).1.Ok? {
      var inst := b.instances[i];
      var item := MarkedItem(inst.items[k], done, comment, now);
      SettledItems(inst, k, item, inst.status, now);
      assert UpdateItem(b, i, k, done, comment, now).0.instances[i]
          == Recompute(WithItem(inst, k, item), inst.status, now);
    }
  }

  // A photo is accepted on an item that takes photos and has fewer than allowed; its file must
  // be a usable one of the shift's owner, on no item yet.
  lemma {:induction false} AttachAccepts(b: Board, i: InstanceId, k: nat, f: FileId, id: PhotoId, maxPhotos: nat,
      now: int)
    requires FilesMatch(b)
    ensures AttachPhoto(b, i, k, f, id, maxPhotos, now).1.Ok? <==>
      && WindowOpen(b, now) && i in b.instances && k < |b.instances[i].items|
      && b.instances[i].items[k].need != NoPhotos && |b.instances[i].items[k].photos| < maxPhotos
      && f in b.files && b.files[f].usable && !b.files[f].attached
    ensures AttachPhoto(b, i, k, f, id, maxPhotos, now).1.Err? ==> AttachPhoto(b, i, k, f, id, maxPhotos, now).0 == b
  {
    assert f in b.files ==> (b.files[f].attached <==> Bound(b.instances, f));
  }

  // It is added last, with a position beyond all others, and its file is attached.
  lemma {:induction false} AttachWrites(b: Board, i: InstanceId, k: nat, f: FileId, id: PhotoId, maxPhotos: nat,
      now: int)
    requires AttachPhoto(b, i, k, f, id, maxPhotos, now).1.Ok?
    ensures var after := AttachPhoto(b, i, k, f, id, maxPhotos, now).0;
      && OnlyItem(b, after, i, k) && StatusMoves(b.instances[i], after.instances[i], now)
      && f in b.files && after.files == b.files[f := b.files[f].(attached := true)]
      && IsAdded(b.instances[i].items[k], after.instances[i].items[k], id, f)
  {
    var inst := b.instances[i];
    var item := inst.items[k];
    var added := item.(photos := item.photos + [Photo(id, f, LastPosition(item.photos) + 1)]);
    var after := AttachPhoto(b, i, k, f, id, maxPhotos, now).0;
    SettledItems(inst, k, added, inst.status, now);
    assert after.instances[i] == Recompute(WithItem(inst, k, added), inst.status, now);
  }

  predicate IsAdded(was: Item, item: Item, id: PhotoId, f: FileId) {
    && item == was.(photos := item.photos) && |item.photos| == |was.photos| + 1
    && item.photos[..|was.photos|] == was.photos
    && item.photos[|was.photos|].id == id && item.photos[|was.photos|].file == f
    && forall j :: 0 <= j < |was.photos| ==> was.photos[j].position < item.photos[|was.photos|].position
  }

  lemma {:induction false} DetachAccepts(b: Board, i: InstanceId, k: nat, j: Option<nat>, now: int)
    ensures DetachPhoto(b, i, k, j, now).1.Ok? <==>
      && WindowOpen(b, now) && i in b.instances && k < |b.instances[i].items|
      && j != None && j.value < |b.instances[i].items[k].photos|
    ensures DetachPhoto(b, i, k, j, now).1.Err? ==> DetachPhoto(b, i, k, j, now).0 == b
  {}

  // A photo is taken off its item, and its file goes with it.
  lemma {:induction false} DetachWrites(b: Board, i: InstanceId, k: nat, j: nat, now: int)
    requires DetachPhoto(b, i, k, Some(j), now).1.Ok?
    ensures var after := DetachPhoto(b, i, k, Some(j), now).0;
      && OnlyItem(b, after, i, k) && StatusMoves(b.instances[i], after.instances[i], now)
      && j < |b.instances[i].items[k].photos| && IsTaken(b.instances[i].items[k], after.instances[i].items[k], j)
      && after.files.Keys == b.files.Keys - {b.instances[i].items[k].photos[j].file}
      && forall f :: f in after.files ==> after.files[f] == b.files[f]
  {
    var inst := b.instances[i];
    var item := inst.items[k];
    var left := item.(photos := Drop(item.photos, j));
    SettledItems(inst, k, left, inst.status, now);
    assert DetachPhoto(b, i, k, Some(j), now).0.instances[i] == Recompute(WithItem(inst, k, left), inst.status, now);
  }

  predicate IsTaken(was: Item, item: Item, j: nat)
    requires j < |was.photos|
  {
    && item == was.(photos := item.photos) && |item.photos| == |was.photos| - 1
    && (forall l :: 0 <= l < j ==> item.photos[l] == was.photos[l])
    && forall l :: j < l < |was.photos| ==> item.photos[l - 1] == was.photos[l]
  }

  // Exactly the pending required instances become incomplete; the rest stays.
  predicate ClosesPending(before: map<InstanceId, Instance>, after: map<InstanceId, Instance>) {
    && after.Keys == before.Keys
    && forall i :: i in before ==>
         after[i] == if before[i].required && before[i].status == Pending then before[i].(status := Incomplete)
             else before[i]
  }

  // A finish with no grace closes what is pending; with grace it closes nothing.
  lemma {:induction false} FinishWrites(b: Board, at: int)
    ensures b.shift.finished ==> Finish(b, at) == b
    ensures !b.shift.finished ==>
      && Finish(b, at).shift.finished && Finish(b, at).shift.finishedAt == Some(at)
      && Finish(b, at).grace == b.grace && Finish(b, at).files == b.files
      && (b.grace <= 0 ==> ClosesPending(b.instances, Finish(b, at).instances))
      && (0 < b.grace ==> Finish(b, at).instances == b.instances)
  {}

  // The job closes what is pending once the minutes of grace have passed since the finish, and
  // nothing before.
  lemma {:induction false} ExpiryWrites(b: Board, now: int)
    ensures var after := FinalizeExpired(b, now);
      && after.grace == b.grace && after.files == b.files && after.shift.(flagged := b.shift.flagged) == b.shift
      && if b.shift.finished && b.shift.finishedAt != None && 60 * b.grace <= now - b.shift.finishedAt.value
         then ClosesPending(b.instances, after.instances)
         else after == b
  {}

  // A new instance has the items of its template, undone and without photos; it is completed
  // at once exactly if none of them is required.
  lemma {:induction false} NewInstanceWrites(t: Template, now: int)
    ensures var inst := NewInstance(t, now);
      && inst.required == t.required && |inst.items| == |t.items|
      && (forall k :: 0 <= k < |t.items| ==>
            inst.items[k].required == t.items[k].required && inst.items[k].need == t.items[k].need
            && !inst.items[k].done && inst.items[k].photos == [] && inst.items[k].doneAt == None)
      && (inst.status == if forall k :: 0 <= k < |t.items| ==> !t.items[k].required then Completed else Pending)
      && inst.completedAt == if inst.status == Completed then Some(now) else None
  {}

  // Every template gets its instance, and nothing else does; of two templates with one identifier
  // the later one counts.
  lemma {:induction false} EveryTemplateIsTaken(ts: seq<Template>, now: int, i: nat)
    requires i < |ts|
    requires forall j :: i < j < |ts| ==> ts[j].id != ts[i].id
    ensures ts[i].id in NewInstances(ts, now)
    ensures NewInstances(ts, now)[ts[i].id] == NewInstance(ts[i], now)
    decreases |ts|
  {
    var n := |ts| - 1;
    if i < n {
      EveryTemplateIsTaken(ts[..n], now, i);
    }
  }

  lemma {:induction false} InstancesHaveTemplates(ts: seq<Template>, now: int, id: InstanceId)
    ensures id in NewInstances(ts, now) ==> exists i :: 0 <= i < |ts| && ts[i].id == id
    decreases |ts|
  {
    if ts != [] && ts[|ts| - 1].id != id {
      InstancesHaveTemplates(ts[..|ts| - 1], now, id);
    }
  }

  // While the window is open after the finish, it names its deadline.
  lemma {:induction false} WindowNamesDeadline(shift: ShiftRow, grace: int, now: int, finalized: bool)
    ensures var w := FillWindow(shift, grace, now, finalized);
      w.deadline ==
        if w.allowed && shift.finished && shift.finishedAt != None then Some(shift.finishedAt.value + 60 * grace)
        else None
  {}

  // The other steps of a run: a file arrives attached to nothing, a setting changes, and the
  // end of a finished shift is corrected; nothing else changes with them.
  lemma {:induction false} OtherSteps(b: Board, f: FileId, usable: bool, minutes: int, at: int)
    ensures f !in b.files ==> Apply(b, Upload(f, usable)) == b.(files := b.files[f := FileRow(usable, false)])
    ensures f in b.files ==> Apply(b, Upload(f, usable)) == b
    ensures Apply(b, SetGrace(minutes)) == b.(grace := minutes)
    ensures b.shift.finished ==> Apply(b, MoveFinish(at)) == b.(shift := b.shift.(finishedAt := Some(at)))
    ensures !b.shift.finished ==> Apply(b, MoveFinish(at)) == b
  {}

  // A run takes its operations one after another.
  lemma {:induction false} RunTakesEach(b: Board, ops: seq<Op>, op: Op)
    ensures Run(b, []) == b && Run(b, ops + [op]) == Apply(Run(b, ops), op)
  {
    assert (ops + [op])[..|ops|] == ops;
  }
}
