// The checklists of a shift: the criterion for completion, the window for filling in, edits of
// items and photos, and the final closing of what was left open.

module Checklists {
  import opened Results

  type InstanceId = nat
  type PhotoId = nat
  type FileId = nat

  datatype Status = Pending | Completed | Incomplete

  datatype PhotoNeed = NoPhotos | OptionalPhotos | RequiredPhotos

  datatype Photo = Photo(id: PhotoId, file: FileId, position: int)

  datatype Item = Item(
    required: bool,
    need: PhotoNeed,
    done: bool,
    doneAt: Option<int>,
    comment: Option<string>,
    changes: nat,
    photos: seq<Photo>)

  // A snapshot of a template, taken when the shift starts; items are known by their place.
  datatype Instance = Instance(required: bool, status: Status, completedAt: Option<int>, items: seq<Item>)

  datatype ShiftRow = ShiftRow(finished: bool, finishedAt: Option<int>, flagged: bool)

  // `usable` files are checklist photos of the owner of the shift in its organisation.
  datatype FileRow = FileRow(usable: bool, attached: bool)

  datatype Board = Board(
    shift: ShiftRow,
    grace: int,
    instances: map<InstanceId, Instance>,
    files: map<FileId, FileRow>)

  datatype Error =
    | ShiftFinished
    | InstanceNotFound
    | ItemNotFound
    | PhotoNotAllowed
    | PhotoFileInvalid
    | PhotoLimitExceeded
    | PhotoNotFound

  // ----- The criterion -------------------------------------------------------------------

  predicate Satisfied(item: Item) {
    item.done && (item.need.RequiredPhotos? ==> item.photos != [])
  }

  // Some required item is not satisfied.
  predicate Blocked(items: seq<Item>) {
    exists i :: 0 <= i < |items| && items[i].required && !Satisfied(items[i])
  }

  // _recompute_instance_status: `loaded` is the status the transaction read at its start; the
  // instance is what the locking read finds, with the transaction's own changes of items.
  function Recompute(inst: Instance, loaded: Status, now: int): Instance {
    if inst.status.Incomplete? then inst
    else if !Blocked(inst.items) then
      if loaded.Completed? then inst else inst.(status := Completed, completedAt := Some(now))
    else
      if loaded.Pending? then inst else inst.(status := Pending, completedAt := None)
  }

  // The status of an instance that has not been closed tells whether an item blocks it, and
  // the time of completion is there exactly if it is completed; only a required one is closed.
  predicate Agrees(inst: Instance) {
    && (inst.status.Incomplete? ==> inst.required)
    && (!inst.status.Incomplete? ==> (inst.status.Completed? <==> !Blocked(inst.items)))
    && (inst.completedAt.Some? <==> inst.status.Completed?)
  }

  // The same in the fields of the items: a completed instance has no required item that is
  // undone, and none that demands a photo and has none; a pending one has such an item.
  ghost predicate StatusFitsFields(inst: Instance) {
    && (inst.status == Completed ==>
          forall k :: 0 <= k < |inst.items| && inst.items[k].required ==>
            inst.items[k].done && (inst.items[k].need == RequiredPhotos ==> |inst.items[k].photos| > 0))
    && ((forall k :: 0 <= k < |inst.items| && inst.items[k].required ==>
           inst.items[k].done && (inst.items[k].need == RequiredPhotos ==> |inst.items[k].photos| > 0))
        ==> inst.status != Pending)
    && (inst.completedAt != None <==> inst.status == Completed)
    && (inst.status == Incomplete ==> inst.required)
  }

  lemma {:induction false} AgreesInFields(inst: Instance)
    ensures Agrees(inst) <==> StatusFitsFields(inst)
  {
    forall k | 0 <= k < |inst.items| && inst.items[k].required
      ensures Satisfied(inst.items[k])
         <==> inst.items[k].done && (inst.items[k].need == RequiredPhotos ==> |inst.items[k].photos| > 0)
    {}
  }

  // The recomputation restores the agreement exactly unless the status was changed since it
  // was loaded, and the loaded one happens to be the right one, so that nothing is written.
  lemma {:induction false} RecomputeAgreesExactly(before: Instance, items: seq<Item>, loaded: Status, now: int)
    requires Agrees(before) && !loaded.Incomplete?
    ensures Agrees(Recompute(before.(items := items), loaded, now)) <==>
      before.status.Incomplete? || loaded == before.status || loaded != (if Blocked(items) then Pending else Completed)
  {}

  // ----- The window ----------------------------------------------------------------------

  datatype Window = Window(allowed: bool, deadline: Option<int>)

  function FillWindow(shift: ShiftRow, grace: int, now: int, finalized: bool): Window {
    if !shift.finished then Window(true, None)
    else if finalized then Window(false, None)
    else if grace <= 0 || shift.finishedAt.None? then Window(false, None)
    else
      var deadline := shift.finishedAt.value + grace * 60;
      if now < deadline then Window(true, Some(deadline)) else Window(false, None)
  }

  // A required checklist of the shift has been closed.
  predicate Finalized(instances: map<InstanceId, Instance>) {
    exists i :: i in instances && instances[i].required && instances[i].status.Incomplete?
  }

  predicate WindowOpen(b: Board, now: int) {
    FillWindow(b.shift, b.grace, now, Finalized(b.instances)).allowed
  }

  // A required checklist is not completed.
  predicate LiveIncomplete(instances: map<InstanceId, Instance>) {
    exists i :: i in instances && instances[i].required && !instances[i].status.Completed?
  }

  function RefreshFlag(b: Board): Board {
    if !b.shift.finished then b else b.(shift := b.shift.(flagged := LiveIncomplete(b.instances)))
  }

  // ----- Creation ------------------------------------------------------------------------

  datatype TemplateItem = TemplateItem(required: bool, need: PhotoNeed)

  datatype Template = Template(id: InstanceId, required: bool, items: seq<TemplateItem>)

  function NewItems(items: seq<TemplateItem>): (r: seq<Item>)
    ensures |r| == |items|
    ensures forall i :: 0 <= i < |r| ==> r[i] == Item(items[i].required, items[i].need, false, None, None, 0, [])
  {
    if items == [] then []
    else
      var last := items[|items| - 1];
      NewItems(items[..|items| - 1]) + [Item(last.required, last.need, false, None, None, 0, [])]
  }

  // Without a required item the checklist is completed from the start.
  function NewInstance(t: Template, now: int): Instance {
    if exists i :: 0 <= i < |t.items| && t.items[i].required then Instance(t.required, Pending, None, NewItems(t.items))
    else Instance(t.required, Completed, Some(now), NewItems(t.items))
  }

  function NewInstances(ts: seq<Template>, now: int): map<InstanceId, Instance> {
    if ts == [] then map[] else NewInstances(ts[..|ts| - 1], now)[ts[|ts| - 1].id := NewInstance(ts[|ts| - 1], now)]
  }

  lemma {:induction false} NewInstancesAgree(ts: seq<Template>, now: int)
    ensures forall i :: i in NewInstances(ts, now) ==>
      Agrees(NewInstances(ts, now)[i]) && !NewInstances(ts, now)[i].status.Incomplete?
      && forall k :: 0 <= k < |NewInstances(ts, now)[i].items| ==> NewInstances(ts, now)[i].items[k].photos == []
    decreases |ts|
  {
    if ts != [] {
      NewInstancesAgree(ts[..|ts| - 1], now);
      var t := ts[|ts| - 1];
      if k :| 0 <= k < |t.items| && t.items[k].required {
        assert NewItems(t.items)[k].required && !Satisfied(NewItems(t.items)[k]);
      }
    }
  }

  // ----- Edits ---------------------------------------------------------------------------

  predicate ItemExists(b: Board, i: InstanceId, k: nat) {
    i in b.instances && k < |b.instances[i].items|
  }

  function WithItem(inst: Instance, k: nat, item: Item): Instance
    requires k < |inst.items|
  {
    inst.(items := inst.items[k := item])
  }

  // What every edit ends with: the status from the items, then the flag of the shift.
  function Settle(b: Board, i: InstanceId, inst: Instance, loaded: Status, now: int): Board {
    RefreshFlag(b.(instances := b.instances[i := Recompute(inst, loaded, now)]))
  }

  function MarkedItem(item: Item, done: bool, comment: Option<string>, now: int): Item {
    item.(done := done,
          doneAt := if item.done != done then (if done then Some(now) else None) else item.doneAt,
          comment := comment,
          changes := item.changes + 1)
  }

  function UpdateItem(b: Board, i: InstanceId, k: nat, done: bool, comment: Option<string>,
      now: int): (Board, Result<bool, Error>)
  {
    if !WindowOpen(b, now) then (b, Err(ShiftFinished))
    else if i !in b.instances then (b, Err(InstanceNotFound))
    else if k >= |b.instances[i].items| then (b, Err(ItemNotFound))
    else
      var inst := b.instances[i];
      (Settle(b, i, WithItem(inst, k, MarkedItem(inst.items[k], done, comment, now)), inst.status, now), Ok(true))
  }

  predicate OnItem(item: Item, f: FileId) {
    exists j :: 0 <= j < |item.photos| && item.photos[j].file == f
  }

  predicate OnInstance(inst: Instance, f: FileId) {
    exists k :: 0 <= k < |inst.items| && OnItem(inst.items[k], f)
  }

  // The file is on some item.
  predicate Bound(instances: map<InstanceId, Instance>, f: FileId) {
    exists i :: i in instances && OnInstance(instances[i], f)
  }

  function LastPosition(photos: seq<Photo>): (p: int)
    ensures forall j :: 0 <= j < |photos| ==> photos[j].position <= p
    ensures p == -1 || exists j :: 0 <= j < |photos| && photos[j].position == p
  {
    if photos == [] then -1
    else
      var front, last := LastPosition(photos[..|photos| - 1]), photos[|photos| - 1].position;
      if front < last then last else front
  }

  function AttachPhoto(b: Board, i: InstanceId, k: nat, f: FileId, id: PhotoId, maxPhotos: nat,
      now: int): (Board, Result<bool, Error>)
  {
    if !WindowOpen(b, now) then (b, Err(ShiftFinished))
    else if i !in b.instances then (b, Err(InstanceNotFound))
    else if k >= |b.instances[i].items| then (b, Err(ItemNotFound))
    else
      var inst := b.instances[i];
      var item := inst.items[k];
      if item.need.NoPhotos? then (b, Err(PhotoNotAllowed))
      else if f !in b.files || !b.files[f].usable then (b, Err(PhotoFileInvalid))
      else if Bound(b.instances, f) then (b, Err(PhotoFileInvalid))
      else if |item.photos| >= maxPhotos then (b, Err(PhotoLimitExceeded))
      else
        var photo := Photo(id, f, LastPosition(item.photos) + 1);
        var attached := b.(files := b.files[f := b.files[f].(attached := true)]);
        (Settle(attached, i, WithItem(inst, k, item.(photos := item.photos + [photo])), inst.status, now), Ok(true))
  }

  function Drop(photos: seq<Photo>, j: nat): seq<Photo>
    requires j < |photos|
  {
    photos[..j] + photos[j + 1..]
  }

  // `j` is the place of the photo on the item, if it is there at all.
  function DetachPhoto(b: Board, i: InstanceId, k: nat, j: Option<nat>, now: int): (Board, Result<bool, Error>) {
    if !WindowOpen(b, now) then (b, Err(ShiftFinished))
    else if i !in b.instances then (b, Err(InstanceNotFound))
    else if k >= |b.instances[i].items| then (b, Err(ItemNotFound))
    else
      var inst := b.instances[i];
      var item := inst.items[k];
      if j.None? || j.value >= |item.photos| then (b, Err(PhotoNotFound))
      else
        var removed := b.(files := b.files - {item.photos[j.value].file});
        (Settle(removed, i, WithItem(inst, k, item.(photos := Drop(item.photos, j.value))), inst.status, now), Ok(true))
  }

  // ----- Closing -------------------------------------------------------------------------

  function Closed(inst: Instance): Instance {
    if inst.required && inst.status.Pending? then inst.(status := Incomplete) else inst
  }

  // finalize_shift_checklists: the pending required ones become incomplete for good.
  function FinalizeAll(instances: map<InstanceId, Instance>): map<InstanceId, Instance> {
    map i | i in instances :: Closed(instances[i])
  }

  // close_shift_checklists within the finish of the shift.
  function Finish(b: Board, at: int): Board {
    if b.shift.finished then b
    else
      var instances := if b.grace <= 0 then FinalizeAll(b.instances) else b.instances;
      b.(instances := instances, shift := ShiftRow(true, Some(at), LiveIncomplete(instances)))
  }

  predicate GraceExpired(shift: ShiftRow, grace: int, now: int) {
    shift.finished && shift.finishedAt.Some? && shift.finishedAt.value + grace * 60 <= now
  }

  predicate PendingRequired(inst: Instance) {
    inst.required && inst.status.Pending?
  }

  // finalize_expired_checklist_grace_periods, for this shift.
  function FinalizeExpired(b: Board, now: int): Board {
    if GraceExpired(b.shift, b.grace, now) && exists i :: i in b.instances && PendingRequired(b.instances[i]) then
      var instances := FinalizeAll(b.instances);
      b.(instances := instances, shift := b.shift.(flagged := LiveIncomplete(instances)))
    else b
  }

  // The job and the window meet without gap or overlap, for every moment from the finish on.
  lemma {:induction false} WindowAndJobMeet(shift: ShiftRow, grace: int, now: int)
    requires shift.finished && shift.finishedAt.Some? && shift.finishedAt.value <= now
    ensures GraceExpired(shift, grace, now) <==> !FillWindow(shift, grace, now, false).allowed
  {}

  // ----- Runs ----------------------------------------------------------------------------

  datatype Op =
    | Mark(i: InstanceId, k: nat, done: bool, comment: Option<string>, now: int)
    | Attach(i: InstanceId, k: nat, file: FileId, id: PhotoId, maxPhotos: nat, now: int)
    | Detach(i: InstanceId, k: nat, j: Option<nat>, now: int)
    | Upload(file: FileId, usable: bool)
    | FinishShift(at: int)
    | Expire(now: int)
    | SetGrace(minutes: int)
    | MoveFinish(at: int)

  function Apply(b: Board, op: Op): Board {
    match op
    case Mark(i, k, done, comment, now) => UpdateItem(b, i, k, done, comment, now).0
    case Attach(i, k, f, id, maxPhotos, now) => AttachPhoto(b, i, k, f, id, maxPhotos, now).0
    case Detach(i, k, j, now) => DetachPhoto(b, i, k, j, now).0
    case Upload(f, usable) => if f in b.files then b else b.(files := b.files[f := FileRow(usable, false)])
    case FinishShift(at) => Finish(b, at)
    case Expire(now) => FinalizeExpired(b, now)
    case SetGrace(minutes) => b.(grace := minutes)
    // A manual correction of the end of a finished shift.
    case MoveFinish(at) => if b.shift.finished then b.(shift := b.shift.(finishedAt := Some(at))) else b
  }

  function Run(b: Board, ops: seq<Op>): Board {
    if ops == [] then b else Apply(Run(b, ops[..|ops| - 1]), ops[|ops| - 1])
  }

  // Every status agrees with the items, the flag of a finished shift tells whether a required
  // checklist is not completed, and only a finished shift has a closed checklist.
  ghost predicate Sound(b: Board) {
    && (forall i :: i in b.instances ==> Agrees(b.instances[i]))
    && (b.shift.finished ==> (b.shift.flagged <==> LiveIncomplete(b.instances)))
    && (Finalized(b.instances) ==> b.shift.finished)
  }

  lemma {:induction false} SettleKeeps(b: Board, i: InstanceId, inst: Instance, now: int)
    requires Sound(b) && i in b.instances
    requires inst == b.instances[i].(items := inst.items)
    ensures Sound(Settle(b, i, inst, b.instances[i].status, now))
  {
    var after := Settle(b, i, inst, b.instances[i].status, now);
    if !b.instances[i].status.Incomplete? {
      RecomputeAgreesExactly(b.instances[i], inst.items, b.instances[i].status, now);
    }
    if Finalized(after.instances) {
      var j :| j in after.instances && after.instances[j].required && after.instances[j].status.Incomplete?;
      assert j in b.instances && b.instances[j].required && b.instances[j].status.Incomplete?;
    }
  }

  lemma {:induction false} FinalizeAgrees(instances: map<InstanceId, Instance>)
    requires forall i :: i in instances ==> Agrees(instances[i])
    ensures forall i :: i in FinalizeAll(instances) ==> Agrees(FinalizeAll(instances)[i])
  {}

  lemma {:induction false} ApplyKeepsSound(b: Board, op: Op)
    requires Sound(b)
    ensures Sound(Apply(b, op))
  {
    match op
    case Mark(i, k, done, comment, now) =>
      if WindowOpen(b, now) && ItemExists(b, i, k) {
        var inst := b.instances[i];
        SettleKeeps(b, i, WithItem(inst, k, MarkedItem(inst.items[k], done, comment, now)), now);
      }
    case Attach(i, k, f, id, maxPhotos, now) => AttachKeepsSound(b, i, k, f, id, maxPhotos, now);
    case Detach(i, k, j, now) =>
      if WindowOpen(b, now) && ItemExists(b, i, k) && j.Some? && j.value < |b.instances[i].items[k].photos| {
        var inst := b.instances[i];
        var item := inst.items[k];
        SettleKeeps(b.(files := b.files - {item.photos[j.value].file}), i,
                    WithItem(inst, k, item.(photos := Drop(item.photos, j.value))), now);
      }
    case FinishShift(at) => FinalizeAgrees(b.instances);
    case Expire(now) => FinalizeAgrees(b.instances);
    case _ =>
  }

  lemma {:induction false} AttachKeepsSound(b: Board, i: InstanceId, k: nat, f: FileId, id: PhotoId, maxPhotos: nat,
      now: int)
    requires Sound(b)
    ensures Sound(AttachPhoto(b, i, k, f, id, maxPhotos, now).0)
  {
    var (after, r) := AttachPhoto(b, i, k, f, id, maxPhotos, now);
    if r.Ok? {
      var inst := b.instances[i];
      var item := inst.items[k];
      SettleKeeps(b.(files := b.files[f := b.files[f].(attached := true)]), i,
                  WithItem(inst, k, item.(photos := item.photos + [Photo(id, f, LastPosition(item.photos) + 1)])), now);
    }
  }

  // A shift that starts with its checklists; files may be there already, not on any item.
  predicate Started(b: Board, ts: seq<Template>, now: int) {
    && !b.shift.finished && b.instances == NewInstances(ts, now)
    && forall f :: f in b.files ==> !b.files[f].attached
  }

  // Over every run since the start of the shift.
  lemma {:induction false} RunsAreSound(b: Board, ts: seq<Template>, now: int, ops: seq<Op>)
    requires Started(b, ts, now)
    ensures Sound(Run(b, ops))
    decreases |ops|
  {
    if ops == [] {
      NewInstancesAgree(ts, now);
    } else {
      RunsAreSound(b, ts, now, ops[..|ops| - 1]);
      ApplyKeepsSound(Run(b, ops[..|ops| - 1]), ops[|ops| - 1]);
    }
  }

  // In the fields: over every run a status that is not closed is completed exactly if every
  // required item is done and has a photo where one is demanded; and the flag of a finished
  // shift is up exactly if a required checklist is not completed.
  lemma {:induction false} StatusesFitOverRuns(b: Board, ts: seq<Template>, now: int, ops: seq<Op>)
    requires Started(b, ts, now)
    ensures forall i :: i in Run(b, ops).instances ==> StatusFitsFields(Run(b, ops).instances[i])
    ensures Run(b, ops).shift.finished ==>
      (Run(b, ops).shift.flagged <==>
         exists i :: i in Run(b, ops).instances && Run(b, ops).instances[i].required
           && Run(b, ops).instances[i].status != Completed)
  {
    RunsAreSound(b, ts, now, ops);
    SoundInFields(Run(b, ops));
  }

  lemma {:induction false} SoundInFields(b: Board)
    requires Sound(b)
    ensures forall i :: i in b.instances ==> StatusFitsFields(b.instances[i])
    ensures b.shift.finished ==>
      (b.shift.flagged <==> exists i ::
          i in b.instances && b.instances[i].required && b.instances[i].status != Completed)
  {
    forall i | i in b.instances ensures StatusFitsFields(b.instances[i]) {
      AgreesInFields(b.instances[i]);
    }
  }

  // ----- What is closed stays closed -----------------------------------------------------

  lemma {:induction false} ClosedStaysClosed(b: Board, op: Op, i: InstanceId)
    requires Sound(b) && i in b.instances && b.instances[i].status.Incomplete?
    ensures var after := Apply(b, op).instances;
      && i in after && after[i].status.Incomplete?
      && after[i].required == b.instances[i].required && after[i].completedAt == b.instances[i].completedAt
  {}

  // Once a required checklist has been closed it is closed for ever, and the window for
  // filling in never opens again, whatever becomes of the grace setting or the finish time.
  lemma {:induction false} ClosedForGood(b: Board, ops: seq<Op>, i: InstanceId)
    requires Sound(b) && i in b.instances && b.instances[i].status.Incomplete?
    ensures var after := Run(b, ops); i in after.instances && after.instances[i].status.Incomplete?
    ensures Sound(Run(b, ops)) && forall now :: !WindowOpen(Run(b, ops), now)
    decreases |ops|
  {
    if ops == [] {
      assert Finalized(b.instances);
    } else {
      var before, op := Run(b, ops[..|ops| - 1]), ops[|ops| - 1];
      ClosedForGood(b, ops[..|ops| - 1], i);
      ApplyKeepsSound(before, op);
      ClosedStaysClosed(before, op, i);
      assert Finalized(Run(b, ops).instances);
    }
  }

  // ----- Photos --------------------------------------------------------------------------

  predicate DistinctFiles(photos: seq<Photo>) {
    forall j, l :: 0 <= j < l < |photos| ==> photos[j].file != photos[l].file
  }

  ghost predicate OneItemEach(inst: Instance) {
    && (forall k :: 0 <= k < |inst.items| ==> DistinctFiles(inst.items[k].photos))
    && (forall k, l, f | 0 <= k < |inst.items| && 0 <= l < |inst.items| ::
          OnItem(inst.items[k], f) && OnItem(inst.items[l], f) ==> k == l)
  }

  // A file is attached exactly if it is on an item, and it is on one place at most.
  ghost predicate FilesMatch(b: Board) {
    && (forall f :: f in b.files ==> (b.files[f].attached <==> Bound(b.instances, f)))
    && (forall f :: Bound(b.instances, f) ==> f in b.files)
    && (forall i :: i in b.instances ==> OneItemEach(b.instances[i]))
    && (forall i, j, f | i in b.instances && j in b.instances ::
          OnInstance(b.instances[i], f) && OnInstance(b.instances[j], f) ==> i == j)
  }

  // The photos of an instance do not depend on its status.
  predicate SameItems(a: map<InstanceId, Instance>, b: map<InstanceId, Instance>) {
    a.Keys == b.Keys && forall i :: i in a ==> a[i].items == b[i].items
  }

  lemma {:induction false} SameItemsMatch(b: Board, after: Board)
    requires FilesMatch(b) && SameItems(b.instances, after.instances) && after.files == b.files
    ensures FilesMatch(after)
  {
    forall i, f | i in b.instances ensures OnInstance(b.instances[i], f) <==> OnInstance(after.instances[i], f) {}
    forall f ensures Bound(b.instances, f) <==> Bound(after.instances, f) {}
    forall i | i in b.instances ensures OneItemEach(after.instances[i]) {
      assert OneItemEach(b.instances[i]);
    }
  }

  lemma {:induction false} ItemChange(inst: Instance, k: nat, item: Item, f: FileId)
    requires k < |inst.items|
    ensures OnInstance(WithItem(inst, k, item), f)
       <==> OnItem(item, f) || exists l :: 0 <= l < |inst.items| && l != k && OnItem(inst.items[l], f)
  {
    var after := WithItem(inst, k, item);
    assert after.items[k] == item;
    if l :| 0 <= l < |inst.items| && l != k && OnItem(inst.items[l], f) {
      assert OnItem(after.items[l], f);
    }
  }

  // The files on the instance, before and after one item's photos change by one file.
  lemma {:induction false} OneFileMore(inst: Instance, k: nat, item: Item, f: FileId)
    requires k < |inst.items| && OneItemEach(inst) && !OnInstance(inst, f) && DistinctFiles(item.photos)
    requires forall g :: OnItem(item, g) <==> OnItem(inst.items[k], g) || g == f
    ensures OneItemEach(WithItem(inst, k, item))
    ensures forall g :: OnInstance(WithItem(inst, k, item), g) <==> OnInstance(inst, g) || g == f
  {
    forall g ensures OnInstance(WithItem(inst, k, item), g) <==> OnInstance(inst, g) || g == f {
      ItemChange(inst, k, item, g);
      assert OnItem(inst.items[k], g) ==> OnInstance(inst, g);
    }
    assert forall l :: 0 <= l < |inst.items| ==> !OnItem(inst.items[l], f);
  }

  lemma {:induction false} OneFileLess(inst: Instance, k: nat, item: Item, f: FileId)
    requires k < |inst.items| && OneItemEach(inst) && OnItem(inst.items[k], f) && DistinctFiles(item.photos)
    requires forall g :: OnItem(item, g) <==> OnItem(inst.items[k], g) && g != f
    ensures OneItemEach(WithItem(inst, k, item))
    ensures forall g :: OnInstance(WithItem(inst, k, item), g) <==> OnInstance(inst, g) && g != f
  {
    forall g ensures OnInstance(WithItem(inst, k, item), g) <==> OnInstance(inst, g) && g != f {
      ItemChange(inst, k, item, g);
      if OnInstance(inst, g) && g != f {
        var l :| 0 <= l < |inst.items| && OnItem(inst.items[l], g);
        assert l == k ==> OnItem(item, g);
      }
    }
  }

  lemma {:induction false} OneItemEachKept(inst: Instance, k: nat, item: Item)
    requires k < |inst.items| && OneItemEach(inst) && item.photos == inst.items[k].photos
    ensures OneItemEach(WithItem(inst, k, item))
    ensures forall g :: OnInstance(WithItem(inst, k, item), g) <==> OnInstance(inst, g)
  {
    forall g ensures OnItem(item, g) <==> OnItem(inst.items[k], g) {}
    forall g ensures OnInstance(WithItem(inst, k, item), g) <==> OnInstance(inst, g) {
      ItemChange(inst, k, item, g);
    }
  }

  // One instance is replaced by one that differs in one file, on no other instance.
  ghost predicate Replaced(b: Board, after: Board, i: InstanceId, f: FileId, present: bool) {
    && i in b.instances && i in after.instances && after.instances == b.instances[i := after.instances[i]]
    && (forall g :: g != f ==> (OnInstance(after.instances[i], g) <==> OnInstance(b.instances[i], g)))
    && (OnInstance(after.instances[i], f) <==> present)
    && (Bound(b.instances, f) ==> OnInstance(b.instances[i], f))
  }

  lemma {:induction false} BoundFollows(b: Board, after: Board, i: InstanceId, f: FileId, present: bool, g: FileId)
    requires FilesMatch(b) && Replaced(b, after, i, f, present)
    ensures Bound(after.instances, g) <==> if g == f then present else Bound(b.instances, g)
  {
    BoundAfter(b.instances, after.instances, i, g);
    BoundAfter(b.instances, b.instances, i, g);
  }

  lemma {:induction false} BoundWhereFound(instances: map<InstanceId, Instance>, i: InstanceId, f: FileId)
    requires i in instances
    ensures OnInstance(instances[i], f) ==> Bound(instances, f)
  {}

  lemma {:induction false} OneInstanceEach(b: Board, after: Board, i: InstanceId, f: FileId, present: bool,
      j: InstanceId, l: InstanceId, g: FileId)
    requires FilesMatch(b) && Replaced(b, after, i, f, present)
    requires j in after.instances && l in after.instances
    requires OnInstance(after.instances[j], g) && OnInstance(after.instances[l], g)
    ensures j == l
  {
    if g == f {
      BoundWhereFound(b.instances, j, f);
      BoundWhereFound(b.instances, l, f);
    } else {
      assert OnInstance(b.instances[j], g) && OnInstance(b.instances[l], g);
    }
  }

  // The files follow: attached or removed with the change.
  lemma {:induction false} FilesFollow(b: Board, after: Board, i: InstanceId, f: FileId, present: bool)
    requires FilesMatch(b) && Replaced(b, after, i, f, present) && OneItemEach(after.instances[i])
    requires if present then f in b.files && after.files == b.files[f := b.files[f].(attached := true)]
             else after.files == b.files - {f}
    ensures FilesMatch(after)
  {
    forall g ensures Bound(after.instances, g) <==> if g == f then present else Bound(b.instances, g) {
      BoundFollows(b, after, i, f, present, g);
    }
    forall j, l, g | j in after.instances && l in after.instances
      && OnInstance(after.instances[j], g) && OnInstance(after.instances[l], g)
      ensures j == l
    {
      OneInstanceEach(b, after, i, f, present, j, l, g);
    }
    forall j | j in after.instances ensures OneItemEach(after.instances[j]) {
      assert j != i ==> after.instances[j] == b.instances[j];
    }
  }

  lemma {:induction false} BoundAfter(instances: map<InstanceId, Instance>, after: map<InstanceId, Instance>,
      i: InstanceId, g: FileId)
    requires i in instances && i in after && after == instances[i := after[i]]
    ensures Bound(after, g)
       <==> OnInstance(after[i], g) || exists j :: j in instances && j != i && OnInstance(instances[j], g)
  {
    if j :| j in instances && j != i && OnInstance(instances[j], g) {
      assert OnInstance(after[j], g);
    }
  }

  lemma {:induction false} SettledMatch(b: Board, i: InstanceId, inst: Instance, loaded: Status, now: int)
    requires FilesMatch(b.(instances := b.instances[i := inst]))
    ensures FilesMatch(Settle(b, i, inst, loaded, now))
  {
    SameItemsMatch(b.(instances := b.instances[i := inst]), Settle(b, i, inst, loaded, now));
  }

  lemma {:induction false} MarkMatches(b: Board, i: InstanceId, k: nat, done: bool, comment: Option<string>, now: int)
    requires FilesMatch(b)
    ensures FilesMatch(UpdateItem(b, i, k, done, comment, now).0)
  {
    if UpdateItem(b, i, k, done, comment, now).1.Ok? {
      var inst := b.instances[i];
      var changed := WithItem(inst, k, MarkedItem(inst.items[k], done, comment, now));
      OneItemEachKept(inst, k, MarkedItem(inst.items[k], done, comment, now));
      var after := b.(instances := b.instances[i := changed]);
      forall g ensures Bound(after.instances, g) <==> Bound(b.instances, g) {
        BoundAfter(b.instances, after.instances, i, g);
        BoundAfter(b.instances, b.instances, i, g);
      }
      SettledMatch(b, i, changed, inst.status, now);
    }
  }

  lemma {:induction false} AddedFile(item: Item, photo: Photo, g: FileId)
    requires DistinctFiles(item.photos) && !OnItem(item, photo.file)
    ensures DistinctFiles(item.photos + [photo])
    ensures OnItem(item.(photos := item.photos + [photo]), g) <==> OnItem(item, g) || g == photo.file
  {
    var added := item.photos + [photo];
    if j :| 0 <= j < |item.photos| && item.photos[j].file == g {
      assert added[j].file == g;
    }
    assert added[|item.photos|] == photo;
  }

  lemma {:induction false} AttachMatches(b: Board, i: InstanceId, k: nat, f: FileId, id: PhotoId, maxPhotos: nat,
      now: int)
    requires FilesMatch(b)
    ensures FilesMatch(AttachPhoto(b, i, k, f, id, maxPhotos, now).0)
  {
    if AttachPhoto(b, i, k, f, id, maxPhotos, now).1.Ok? {
      var inst := b.instances[i];
      var item := inst.items[k];
      var photo := Photo(id, f, LastPosition(item.photos) + 1);
      var added := item.(photos := item.photos + [photo]);
      assert !OnInstance(inst, f) && !OnItem(item, f) && DistinctFiles(item.photos);
      forall g ensures DistinctFiles(added.photos) && (OnItem(added, g) <==> OnItem(item, g) || g == f) {
        AddedFile(item, photo, g);
      }
      OneFileMore(inst, k, added, f);
      var attached := b.(files := b.files[f := b.files[f].(attached := true)]);
      FilesFollow(b, attached.(instances := b.instances[i := WithItem(inst, k, added)]), i, f, true);
      SettledMatch(attached, i, WithItem(inst, k, added), inst.status, now);
    }
  }

  lemma {:induction false} DroppedFile(item: Item, j: nat, g: FileId)
    requires j < |item.photos| && DistinctFiles(item.photos)
    ensures DistinctFiles(Drop(item.photos, j))
    ensures OnItem(item.(photos := Drop(item.photos, j)), g) <==> OnItem(item, g) && g != item.photos[j].file
  {
    var dropped := Drop(item.photos, j);
    if l :| 0 <= l < |item.photos| && item.photos[l].file == g && l != j {
      assert dropped[if l < j then l else l - 1].file == g;
    }
  }

  lemma {:induction false} DetachMatches(b: Board, i: InstanceId, k: nat, j: Option<nat>, now: int)
    requires FilesMatch(b)
    ensures FilesMatch(DetachPhoto(b, i, k, j, now).0)
  {
    if DetachPhoto(b, i, k, j, now).1.Ok? {
      var inst := b.instances[i];
      var item := inst.items[k];
      var f := item.photos[j.value].file;
      var left := item.(photos := Drop(item.photos, j.value));
      assert DistinctFiles(item.photos) && OnItem(item, f) && OnInstance(inst, f);
      forall g ensures DistinctFiles(left.photos) && (OnItem(left, g) <==> OnItem(item, g) && g != f) {
        DroppedFile(item, j.value, g);
      }
      OneFileLess(inst, k, left, f);
      var removed := b.(files := b.files - {f});
      FilesFollow(b, removed.(instances := b.instances[i := WithItem(inst, k, left)]), i, f, false);
      SettledMatch(removed, i, WithItem(inst, k, left), inst.status, now);
    }
  }

  lemma {:induction false} ApplyMatches(b: Board, op: Op)
    requires FilesMatch(b)
    ensures FilesMatch(Apply(b, op))
  {
    match op
    case Mark(i, k, done, comment, now) => MarkMatches(b, i, k, done, comment, now);
    case Attach(i, k, f, id, maxPhotos, now) => AttachMatches(b, i, k, f, id, maxPhotos, now);
    case Detach(i, k, j, now) => DetachMatches(b, i, k, j, now);
    case Upload(f, usable) =>
    case _ => SameItemsMatch(b, Apply(b, op));
  }

  // Over every run a file is attached exactly if it is on an item, and on one item at most.
  lemma {:induction false} RunsMatchFiles(b: Board, ts: seq<Template>, now: int, ops: seq<Op>)
    requires Started(b, ts, now)
    ensures FilesMatch(Run(b, ops))
    decreases |ops|
  {
    if ops == [] {
      NewInstancesAgree(ts, now);
      forall f ensures !Bound(b.instances, f) {}
    } else {
      RunsMatchFiles(b, ts, now, ops[..|ops| - 1]);
      ApplyMatches(Run(b, ops[..|ops| - 1]), ops[|ops| - 1]);
    }
  }
}
