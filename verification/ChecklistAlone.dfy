// The transactions on checklists with nobody else about: the steps of the protocol, taken one
// after another, leave what the operations leave.

module ChecklistAlone {
  import opened Results
  import opened Sequences
  import opened Checklists
  import opened ChecklistEffects
  import opened ChecklistProtocol

  // ----- Edits ---------------------------------------------------------------------------

  // A change touches its item only, and of the item only the mark or the photos.
  lemma {:induction false} ChangeTouchesItsItem(items: seq<Item>, change: Change)
    ensures var after := Changed(items, change);
      && (forall l :: 0 <= l < |items| && l != change.k ==> after[l] == items[l])
      && (change.k < |items| ==>
            match change
            case SetDone(k, done) => after[k] == items[k].(done := done)
            case AddPhoto(k, photo) => after[k] == items[k].(photos := items[k].photos + [photo])
            case RemovePhoto(k, j) => if j < |items[k].photos| then IsTaken(items[k], after[k], j)
                else after[k] == items[k])
  {}

  // The instance that an edit alone leaves.
  function AfterEdit(b: Board, i: InstanceId, change: Change, now: int): Instance
    requires i in b.instances
  {
    var inst := b.instances[i];
    Recompute(inst.(items := Changed(inst.items, change)), inst.status, now)
  }

  // An edit alone writes its instance and nothing else.
  lemma {:induction false} LoneEdit(b: Board, w: WorkerId, i: InstanceId, change: Change, now: int)
    requires i in b.instances && WindowOpen(b, now)
    ensures After(State(b, map[]), [Load(w, i, now)] + RestOfEdit(w, change, now))
         == Some(State(b.(instances := b.instances[i := AfterEdit(b, i, change, now)]), map[w := Rest]))
  {
    var s := State(b, map[]);
    var loaded := Do(s, Load(w, i, now));
    assert loaded == State(b, map[w := Loaded(i, b.instances[i].status)]);
    AfterStep(s, Load(w, i, now), RestOfEdit(w, change, now));
    EditGoesThrough(loaded, w, change, now);
    assert loaded.workers[w := Rest] == map[w := Rest];
  }

  // It settles the status as the operation of the service does.
  lemma {:induction false} LoneUpdateSettles(b: Board, i: InstanceId, k: nat, done: bool, comment: Option<string>,
      now: int)
    requires UpdateItem(b, i, k, done, comment, now).1.Ok?
    ensures SameStatus(UpdateItem(b, i, k, done, comment, now).0.instances[i], AfterEdit(b, i, SetDone(k, done), now))
  {
    var inst := b.instances[i];
    var marked := MarkedItem(inst.items[k], done, comment, now);
    SameBlocks(inst.items[k := marked], Changed(inst.items, SetDone(k, done)));
    assert UpdateItem(b, i, k, done, comment, now).0.instances[i]
        == Recompute(WithItem(inst, k, marked), inst.status, now);
  }

  lemma {:induction false} LoneAttachSettles(b: Board, i: InstanceId, k: nat, f: FileId, photo: Photo, maxPhotos: nat,
      now: int)
    requires AttachPhoto(b, i, k, f, photo.id, maxPhotos, now).1.Ok?
    ensures SameStatus(AttachPhoto(b, i, k, f, photo.id, maxPhotos, now).0.instances[i],
                       AfterEdit(b, i, AddPhoto(k, photo), now))
  {
    var inst := b.instances[i];
    var item := inst.items[k];
    var added := item.(photos := item.photos + [Photo(photo.id, f, LastPosition(item.photos) + 1)]);
    SameBlocks(inst.items[k := added], Changed(inst.items, AddPhoto(k, photo)));
    assert AttachPhoto(b, i, k, f, photo.id, maxPhotos, now).0.instances[i]
        == Recompute(WithItem(inst, k, added), inst.status, now);
  }

  lemma {:induction false} LoneDetachSettles(b: Board, i: InstanceId, k: nat, j: nat, now: int)
    requires DetachPhoto(b, i, k, Some(j), now).1.Ok?
    ensures DetachPhoto(b, i, k, Some(j), now).0.instances[i] == AfterEdit(b, i, RemovePhoto(k, j), now)
  {
    var inst := b.instances[i];
    var left := inst.items[k].(photos := Drop(inst.items[k].photos, j));
    assert WithItem(inst, k, left).items == Changed(inst.items, RemovePhoto(k, j));
    assert DetachPhoto(b, i, k, Some(j), now).0.instances[i] == Recompute(WithItem(inst, k, left), inst.status, now);
  }

  predicate SameStatus(a: Instance, b: Instance) {
    a.status == b.status && a.completedAt == b.completedAt && a.required == b.required
  }

  lemma {:induction false} SameBlocks(a: seq<Item>, b: seq<Item>)
    requires |a| == |b|
    requires forall l :: 0 <= l < |a| ==> a[l].required == b[l].required && (Satisfied(a[l]) <==> Satisfied(b[l]))
    ensures Blocked(a) <==> Blocked(b)
  {}

  // ----- Closings ------------------------------------------------------------------------

  function Visits(w: WorkerId, rows: seq<InstanceId>): seq<Step> {
    if rows == [] then [] else [Visit(w, rows[0])] + Visits(w, rows[1..])
  }

  // Alone, the closing locks every row that it visits, as all of them are still pending.
  lemma {:induction false} VisitsGoThrough(b: Board, w: WorkerId, rows: seq<InstanceId>, locked: set<InstanceId>,
      finish: Option<int>)
    requires Distinct(rows) && Members(rows) <= PendingRows(b.instances) - locked
    ensures var todo := Members(rows);
      After(State(b, map[w := Closing(todo, locked, finish)]), Visits(w, rows))
        == Some(State(b, map[w := Closing({}, locked + todo, finish)]))
    decreases |rows|
  {
    var todo := Members(rows);
    var s := State(b, map[w := Closing(todo, locked, finish)]);
    if rows != [] {
      var first, rest := rows[0], rows[1..];
      var left := Members(rest);
      assert rows == [first] + rest;
      assert todo - {first} == left;
      assert Free(s.workers, first);
      var s1 := Do(s, Visit(w, first));
      assert s1 == State(b, map[w := Closing(left, locked + {first}, finish)]);
      AfterStep(s, Visit(w, first), Visits(w, rest));
      VisitsGoThrough(b, w, rest, locked + {first}, finish);
      assert locked + {first} + left == locked + todo;
    } else {
      assert todo == {} && locked + todo == locked;
    }
  }

  function Closings(w: WorkerId, rows: seq<InstanceId>): seq<Step> {
    [Scan(w)] + (Visits(w, rows) + ([CommitClose(w)] + []))
  }

  // What a closing alone leaves.
  function AfterClosing(b: Board, finish: Option<int>): Board {
    b.(instances := FinalizeAll(b.instances),
       shift := if finish == None then b.shift else ShiftRow(true, finish, b.shift.flagged))
  }

  lemma {:induction false} LastStepCloses(b: Board, w: WorkerId, finish: Option<int>)
    ensures After(State(b, map[w := Closing({}, PendingRows(b.instances), finish)]), [CommitClose(w)] + [])
         == Some(State(AfterClosing(b, finish), map[w := Rest]))
  {
    var rows := PendingRows(b.instances);
    var s := State(b, map[w := Closing({}, rows, finish)]);
    AfterStep(s, CommitClose(w), []);
    assert CloseRows(b.instances, rows) == FinalizeAll(b.instances);
    assert s.workers[w := Rest] == map[w := Rest];
  }

  // In whatever order it visits them, it closes what the operation closes.
  lemma {:induction false} ClosingGoesThrough(b: Board, w: WorkerId, rows: seq<InstanceId>, finish: Option<int>)
    requires Distinct(rows) && Members(rows) == PendingRows(b.instances)
    ensures After(State(b, map[w := Deciding(finish)]), Closings(w, rows))
         == Some(State(AfterClosing(b, finish), map[w := Rest]))
  {
    var s0 := State(b, map[w := Deciding(finish)]);
    var s1 := State(b, map[w := Closing(Members(rows), {}, finish)]);
    assert Do(s0, Scan(w)) == s1;
    AfterStep(s0, Scan(w), Visits(w, rows) + ([CommitClose(w)] + []));
    VisitsGoThrough(b, w, rows, {}, finish);
    assert {} + Members(rows) == Members(rows);
    AfterConcat(s1, Visits(w, rows), [CommitClose(w)] + []);
    LastStepCloses(b, w, finish);
  }

  // The job alone does what the operation does, the flag of the shift aside.
  lemma {:induction false} LoneJobFinalizes(b: Board, w: WorkerId, rows: seq<InstanceId>, now: int)
    requires Distinct(rows) && Members(rows) == PendingRows(b.instances)
    requires b.shift.finished && b.shift.finishedAt != None && 60 * b.grace <= now - b.shift.finishedAt.value
    ensures After(State(b, map[]), [Decide(w, now)] + Closings(w, rows))
         == Some(State(FinalizeExpired(b, now).(shift := b.shift), map[w := Rest]))
  {
    var s := State(b, map[]);
    assert Do(s, Decide(w, now)) == State(b, map[w := Deciding(None)]);
    AfterStep(s, Decide(w, now), Closings(w, rows));
    ClosingGoesThrough(b, w, rows, None);
    if !exists i :: i in b.instances && PendingRequired(b.instances[i]) {
      assert FinalizeAll(b.instances) == b.instances;
    }
  }

  // And so does the finish of a shift, with grace and without.
  lemma {:induction false} LoneFinish(b: Board, w: WorkerId, rows: seq<InstanceId>, at: int)
    requires Distinct(rows) && Members(rows) == PendingRows(b.instances)
    requires !b.shift.finished
    ensures var steps := if b.grace <= 0 then [DecideFinish(w, at)] + Closings(w, rows) else [FinishWithGrace(at)] + [];
      var end := After(State(b, map[]), steps);
      && end != None
      && end.value.board == Finish(b, at).(shift := Finish(b, at).shift.(flagged := b.shift.flagged))
  {
    var s := State(b, map[]);
    if b.grace <= 0 {
      assert Do(s, DecideFinish(w, at)) == State(b, map[w := Deciding(Some(at))]);
      AfterStep(s, DecideFinish(w, at), Closings(w, rows));
      ClosingGoesThrough(b, w, rows, Some(at));
    } else {
      AfterStep(s, FinishWithGrace(at), []);
    }
  }

  // Settings and corrections change one field of the board.
  lemma {:induction false} SettingsChangeOneField(s: State, minutes: int, at: int)
    requires WellFormed(s)
    ensures After(s, [ChangeGrace(minutes)] + []) == Some(s.(board := s.board.(grace := minutes)))
    ensures s.board.shift.finished ==>
      After(s, [CorrectFinish(at)] + []) == Some(s.(board := s.board.(shift := s.board.shift.(finishedAt := Some(at)))))
  {
    AfterStep(s, ChangeGrace(minutes), []);
    if s.board.shift.finished {
      AfterStep(s, CorrectFinish(at), []);
    }
  }
}
