// Edits of checklists as transactions with row locks, interleaved in every way with each
// other, with the job that closes what is left open, with finishes and changes of settings.

module ChecklistProtocol {
  import opened Results
  import opened Checklists

  type WorkerId = nat

  // What an edit does to the items.
  datatype Change = SetDone(k: nat, done: bool) | AddPhoto(k: nat, photo: Photo) | RemovePhoto(k: nat, j: nat)

  function Changed(items: seq<Item>, change: Change): (r: seq<Item>)
    ensures |r| == |items|
  {
    if change.k >= |items| then items
    else
      var item := items[change.k];
      match change
      case SetDone(k, done) => items[k := item.(done := done)]
      case AddPhoto(k, photo) => items[k := item.(photos := item.photos + [photo])]
      case RemovePhoto(k, j) => if j < |item.photos| then items[k := item.(photos := Drop(item.photos, j))] else items
  }

  datatype Worker =
    | Rest
    // An edit: the instance loaded with its status; the item written; and, with the lock of
    // the instance's row, the status settled. Nothing of it is committed.
    | Loaded(i: InstanceId, loaded: Status)
    | Edited(i: InstanceId, loaded: Status, change: Change)
    | Settled(i: InstanceId, loaded: Status, result: Instance)
    // Closing: decided upon; rows still to visit, and rows locked and marked incomplete. An
    // inline closing finishes the shift with its commit.
    | Deciding(finish: Option<int>)
    | Closing(todo: set<InstanceId>, locked: set<InstanceId>, finish: Option<int>)

  type Workers = map<WorkerId, Worker>

  // `board` is what is committed.
  datatype State = State(board: Board, workers: Workers)

  function At(workers: Workers, w: WorkerId): Worker {
    if w in workers then workers[w] else Rest
  }

  predicate Locks(k: Worker, i: InstanceId) {
    (k.Settled? && k.i == i) || (k.Closing? && i in k.locked)
  }

  predicate Edits(k: Worker, i: InstanceId) {
    (k.Loaded? || k.Edited? || k.Settled?) && k.i == i
  }

  predicate Free(workers: Workers, i: InstanceId) {
    forall v :: v in workers ==> !Locks(workers[v], i)
  }

  // ----- Steps ---------------------------------------------------------------------------

  datatype Step =
    | Load(w: WorkerId, i: InstanceId, now: int)
    | Edit(w: WorkerId, change: Change, now: int)
    | Settle(w: WorkerId, now: int)
    | Commit(w: WorkerId)
    | Abort(w: WorkerId)
    | Decide(w: WorkerId, now: int)
    | DecideFinish(w: WorkerId, at: int)
    | Scan(w: WorkerId)
    | Visit(w: WorkerId, i: InstanceId)
    | CommitClose(w: WorkerId)
    | FinishWithGrace(at: int)
    | ChangeGrace(minutes: int)
    | CorrectFinish(at: int)

  predicate Enabled(s: State, step: Step) {
    match step
    case Load(w, i, now) => At(s.workers, w).Rest? && i in s.board.instances && WindowOpen(s.board, now)
    case Edit(w, _, now) => At(s.workers, w).Loaded? && WindowOpen(s.board, now)
    case Settle(w, _) => At(s.workers, w).Edited? && Free(s.workers, At(s.workers, w).i)
    case Commit(w) => At(s.workers, w).Settled?
    case Abort(w) => true
    case Decide(w, now) => At(s.workers, w).Rest? && GraceExpired(s.board.shift, s.board.grace, now)
    case DecideFinish(w, _) => At(s.workers, w).Rest? && !s.board.shift.finished && s.board.grace <= 0
    case Scan(w) => At(s.workers, w).Deciding?
    case Visit(w, i) => At(s.workers, w).Closing? && i in At(s.workers, w).todo && Free(s.workers, i)
    case CommitClose(w) => At(s.workers, w).Closing? && At(s.workers, w).todo == {}
    case FinishWithGrace(_) => !s.board.shift.finished && s.board.grace > 0
    case ChangeGrace(_) => true
    case CorrectFinish(_) => s.board.shift.finished
  }

  function PendingRows(instances: map<InstanceId, Instance>): set<InstanceId> {
    set i | i in instances && PendingRequired(instances[i])
  }

  function CloseRows(instances: map<InstanceId, Instance>, rows: set<InstanceId>): map<InstanceId, Instance> {
    map i | i in instances :: if i in rows then instances[i].(status := Incomplete) else instances[i]
  }

  // Every worker points at a row that exists.
  predicate WellFormed(s: State) {
    forall w :: w in s.workers && (s.workers[w].Loaded? || s.workers[w].Edited? || s.workers[w].Settled?) ==>
      s.workers[w].i in s.board.instances
  }

  function Do(s: State, step: Step): State
    requires WellFormed(s) && Enabled(s, step)
  {
    var b := s.board;
    match step
    case Load(w, i, _) => s.(workers := s.workers[w := Loaded(i, b.instances[i].status)])
    case Edit(w, change, _) => s.(workers :=
        s.workers[w := Edited(At(s.workers, w).i, At(s.workers, w).loaded, change)])
    case Settle(w, now) =>
      var k := At(s.workers, w);
      var inst := b.instances[k.i];
      s.(workers := s.workers[w := Settled(k.i, k.loaded,
          Recompute(inst.(items := Changed(inst.items, k.change)), k.loaded, now))])
    case Commit(w) =>
      var k := At(s.workers, w);
      State(b.(instances := b.instances[k.i := k.result]), s.workers[w := Rest])
    case Abort(w) => s.(workers := s.workers[w := Rest])
    case Decide(w, _) => s.(workers := s.workers[w := Deciding(None)])
    case DecideFinish(w, at) => s.(workers := s.workers[w := Deciding(Some(at))])
    case Scan(w) => s.(workers := s.workers[w := Closing(PendingRows(b.instances), {}, At(s.workers, w).finish)])
    case Visit(w, i) =>
      var k := At(s.workers, w);
      var locked := if i in b.instances && PendingRequired(b.instances[i]) then k.locked + {i} else k.locked;
      s.(workers := s.workers[w := Closing(k.todo - {i}, locked, k.finish)])
    case CommitClose(w) =>
      var k := At(s.workers, w);
      var shift := if k.finish.Some? then ShiftRow(true, k.finish, b.shift.flagged) else b.shift;
      State(b.(instances := CloseRows(b.instances, k.locked), shift := shift), s.workers[w := Rest])
    case FinishWithGrace(at) => s.(board := b.(shift := ShiftRow(true, Some(at), b.shift.flagged)))
    case ChangeGrace(minutes) => s.(board := b.(grace := minutes))
    case CorrectFinish(at) => s.(board := b.(shift := b.shift.(finishedAt := Some(at))))
  }

  // ----- What holds under every interleaving ---------------------------------------------

  // A row has one lock holder.
  ghost predicate Exclusive(workers: Workers) {
    forall v, w, i :: Locks(At(workers, v), i) && Locks(At(workers, w), i) ==> v == w
  }

  predicate KeepsClosure(committed: Instance, result: Instance) {
    result.required == committed.required && (result.status.Incomplete? <==> committed.status.Incomplete?)
  }

  // What a lock holder is about to write fits the committed row.
  ghost predicate Fits(b: Board, k: Worker) {
    && (k.Settled? ==> k.i in b.instances && KeepsClosure(b.instances[k.i], k.result))
    && (k.Closing? ==> forall i :: i in k.locked ==> i in b.instances && PendingRequired(b.instances[i]))
    && ((k.Deciding? || k.Closing?) && k.finish.None? ==> b.shift.finished)
  }

  ghost predicate AllFit(b: Board, workers: Workers) {
    forall w :: Fits(b, At(workers, w))
  }

  // Only required checklists are closed, and only those of finished shifts.
  ghost predicate ClosedOnlyFinished(b: Board) {
    forall i :: i in b.instances && b.instances[i].status.Incomplete? ==> b.instances[i].required && b.shift.finished
  }

  ghost predicate Inv(s: State) {
    WellFormed(s) && Exclusive(s.workers) && AllFit(s.board, s.workers) && ClosedOnlyFinished(s.board)
  }

  // One worker moves without committing.
  lemma {:induction false} MoveKeeps(s: State, w: WorkerId, k: Worker)
    requires Inv(s) && Fits(s.board, k)
    requires k.Loaded? || k.Edited? ==> k.i in s.board.instances
    requires forall i, v :: Locks(k, i) && v != w ==> !Locks(At(s.workers, v), i)
    ensures Inv(s.(workers := s.workers[w := k]))
  {
    var workers := s.workers[w := k];
    forall v ensures At(workers, v) == if v == w then k else At(s.workers, v) {}
  }

  lemma {:induction false} FreeForOthers(workers: Workers, i: InstanceId, v: WorkerId)
    requires Free(workers, i)
    ensures !Locks(At(workers, v), i)
  {}

  lemma {:induction false} SettleKeepsInv(s: State, w: WorkerId, now: int)
    requires Inv(s) && Enabled(s, Settle(w, now))
    ensures Inv(Do(s, Settle(w, now)))
  {
    var i := At(s.workers, w).i;
    forall v ensures !Locks(At(s.workers, v), i) {
      FreeForOthers(s.workers, i, v);
    }
    LoadedIsLive(s, w);
    MoveKeeps(s, w, At(Do(s, Settle(w, now)).workers, w));
  }

  // Recomputing never makes an instance incomplete that was not.
  lemma {:induction false} LoadedIsLive(s: State, w: WorkerId)
    requires Inv(s) && At(s.workers, w).Edited?
    ensures forall inst: Instance, now: int ::
      Recompute(inst, At(s.workers, w).loaded, now).status.Incomplete? <==> inst.status.Incomplete?
    ensures forall inst: Instance, now: int :: Recompute(inst, At(s.workers, w).loaded, now).required == inst.required
  {}

  lemma {:induction false} VisitKeepsInv(s: State, w: WorkerId, i: InstanceId)
    requires Inv(s) && Enabled(s, Visit(w, i))
    ensures Inv(Do(s, Visit(w, i)))
  {
    var k := At(Do(s, Visit(w, i)).workers, w);
    forall j, v | Locks(k, j) && v != w ensures !Locks(At(s.workers, v), j) {
      FreeForOthers(s.workers, i, v);
      assert j != i ==> Locks(At(s.workers, w), j);
    }
    assert Fits(s.board, At(s.workers, w));
    MoveKeeps(s, w, k);
  }

  // Rows change only under their holder's lock, so the other holders are not affected.
  lemma {:induction false} OthersStillFit(s: State, w: WorkerId, after: Board, v: WorkerId)
    requires Inv(s) && v != w && after.instances.Keys == s.board.instances.Keys
    requires s.board.shift.finished ==> after.shift.finished
    requires forall i :: i in after.instances && !Locks(At(s.workers, w), i) ==>
        after.instances[i] == s.board.instances[i]
    ensures Fits(after, At(s.workers, v))
  {
    var k := At(s.workers, v);
    assert Fits(s.board, k);
    if k.Settled? {
      assert Locks(k, k.i);
      assert !Locks(At(s.workers, w), k.i);
    }
    if k.Closing? {
      forall i | i in k.locked ensures i in after.instances && PendingRequired(after.instances[i]) {
        assert Locks(k, i);
        assert !Locks(At(s.workers, w), i);
      }
    }
  }

  lemma {:induction false} CommitKeepsInv(s: State, w: WorkerId)
    requires Inv(s) && Enabled(s, Commit(w))
    ensures Inv(Do(s, Commit(w)))
  {
    var after := Do(s, Commit(w));
    assert Fits(s.board, At(s.workers, w));
    forall v ensures At(after.workers, v) == if v == w then Rest else At(s.workers, v) {}
    forall v ensures Fits(after.board, At(after.workers, v)) {
      if v != w {
        OthersStillFit(s, w, after.board, v);
      }
    }
  }

  lemma {:induction false} CommitCloseKeepsInv(s: State, w: WorkerId)
    requires Inv(s) && Enabled(s, CommitClose(w))
    ensures Inv(Do(s, CommitClose(w)))
  {
    var after := Do(s, CommitClose(w));
    assert Fits(s.board, At(s.workers, w));
    forall v ensures At(after.workers, v) == if v == w then Rest else At(s.workers, v) {}
    forall v ensures Fits(after.board, At(after.workers, v)) {
      if v != w {
        OthersStillFit(s, w, after.board, v);
      }
    }
  }

  lemma {:induction false} ShiftStepKeepsInv(s: State, shift: ShiftRow, grace: int)
    requires Inv(s) && (s.board.shift.finished ==> shift.finished)
    ensures Inv(s.(board := s.board.(shift := shift, grace := grace)))
  {
    var after := s.board.(shift := shift, grace := grace);
    forall v ensures Fits(after, At(s.workers, v)) {
      assert Fits(s.board, At(s.workers, v));
    }
  }

  lemma {:induction false} StepKeepsInv(s: State, step: Step)
    requires Inv(s) && Enabled(s, step)
    ensures Inv(Do(s, step))
  {
    match step
    case Load(w, i, _) => MoveKeeps(s, w, Loaded(i, s.board.instances[i].status));
    case Edit(w, change, _) => MoveKeeps(s, w, At(Do(s, step).workers, w));
    case Settle(w, now) => SettleKeepsInv(s, w, now);
    case Commit(w) => CommitKeepsInv(s, w);
    case Abort(w) => MoveKeeps(s, w, Rest);
    case Decide(w, _) => MoveKeeps(s, w, Deciding(None));
    case DecideFinish(w, at) => MoveKeeps(s, w, Deciding(Some(at)));
    case Scan(w) =>
      assert Fits(s.board, At(s.workers, w));
      MoveKeeps(s, w, At(Do(s, step).workers, w));
    case Visit(w, i) => VisitKeepsInv(s, w, i);
    case CommitClose(w) => CommitCloseKeepsInv(s, w);
    case FinishWithGrace(at) => ShiftStepKeepsInv(s, Do(s, step).board.shift, s.board.grace);
    case ChangeGrace(minutes) => ShiftStepKeepsInv(s, s.board.shift, minutes);
    case CorrectFinish(at) => ShiftStepKeepsInv(s, Do(s, step).board.shift, s.board.grace);
  }

  // A shift that has started, with nobody at work yet.
  ghost predicate Initial(s: State) {
    && s.workers == map[] && !s.board.shift.finished
    && forall i :: i in s.board.instances ==> Agrees(s.board.instances[i]) && !s.board.instances[i].status.Incomplete?
  }

  ghost predicate IsRun(states: seq<State>, steps: seq<Step>) {
    && |states| == |steps| + 1 && Initial(states[0])
    && forall i :: 0 <= i < |steps| ==>
         WellFormed(states[i]) && Enabled(states[i], steps[i]) && states[i + 1] == Do(states[i], steps[i])
  }

  lemma {:induction false} RunKeepsInv(states: seq<State>, steps: seq<Step>, n: nat)
    requires IsRun(states, steps) && n < |states|
    ensures Inv(states[n])
  {
    if n > 0 {
      RunKeepsInv(states, steps, n - 1);
      StepKeepsInv(states[n - 1], steps[n - 1]);
    }
  }

  // ----- Incomplete is final -------------------------------------------------------------

  lemma {:induction false} StepKeepsClosed(s: State, step: Step, i: InstanceId)
    requires Inv(s) && Enabled(s, step) && i in s.board.instances && s.board.instances[i].status.Incomplete?
    ensures i in Do(s, step).board.instances && Do(s, step).board.instances[i].status.Incomplete?
  {
    match step
    case Commit(w) => assert Fits(s.board, At(s.workers, w));
    case _ =>
  }

  // Under every interleaving of any number of edits, jobs and finishes: an instance found
  // incomplete stays so, and the window for filling in is closed from then on, whatever the
  // grace setting and the finish time become.
  lemma {:induction false} IncompleteIsFinal(states: seq<State>, steps: seq<Step>, m: nat, n: nat, i: InstanceId)
    requires IsRun(states, steps) && m <= n < |states|
    requires i in states[m].board.instances && states[m].board.instances[i].status.Incomplete?
    ensures i in states[n].board.instances && states[n].board.instances[i].status.Incomplete?
    ensures forall now, grace, finishedAt ::
      !WindowOpen(states[n].board.(grace := grace, shift := states[n].board.shift.(finishedAt := finishedAt)), now)
    decreases n
  {
    RunKeepsInv(states, steps, n);
    if m < n {
      IncompleteIsFinal(states, steps, m, n - 1, i);
      RunKeepsInv(states, steps, n - 1);
      StepKeepsClosed(states[n - 1], steps[n - 1], i);
    }
    assert Finalized(states[n].board.instances);
  }

  // ----- With one edit at a time on an instance ------------------------------------------

  // Edits of one instance come one after another; everything else interleaves freely.
  ghost predicate Serialized(s: State, step: Step) {
    step.Load? ==> forall v :: !Edits(At(s.workers, v), step.i)
  }

  // An edit has the status it loaded, unless the instance has been closed meanwhile; what it
  // is about to write agrees with its items.
  ghost predicate Fresh(b: Board, k: Worker) {
    && (k.Loaded? || k.Edited? || k.Settled? ==>
          k.i in b.instances && !k.loaded.Incomplete?
              && (b.instances[k.i].status == k.loaded || b.instances[k.i].status.Incomplete?))
    && (k.Settled? ==> Agrees(k.result))
  }

  ghost predicate SerialInv(s: State) {
    && Inv(s)
    && (forall i :: i in s.board.instances ==> Agrees(s.board.instances[i]))
    && (forall w :: Fresh(s.board, At(s.workers, w)))
    && (forall v, w, i :: Edits(At(s.workers, v), i) && Edits(At(s.workers, w), i) ==> v == w)
  }

  lemma {:induction false} SerialMove(s: State, w: WorkerId, k: Worker)
    requires SerialInv(s) && Inv(s.(workers := s.workers[w := k])) && Fresh(s.board, k)
    requires forall i, v :: Edits(k, i) && v != w ==> !Edits(At(s.workers, v), i)
    ensures SerialInv(s.(workers := s.workers[w := k]))
  {
    var workers := s.workers[w := k];
    forall v ensures At(workers, v) == if v == w then k else At(s.workers, v) {}
  }

  lemma {:induction false} OpenWindowIsLive(s: State, i: InstanceId, now: int)
    requires Inv(s) && i in s.board.instances && WindowOpen(s.board, now)
    ensures !s.board.instances[i].status.Incomplete?
  {
    if s.board.instances[i].status.Incomplete? {
      assert Finalized(s.board.instances);
    }
  }

  lemma {:induction false} SerialSettle(s: State, w: WorkerId, now: int)
    requires SerialInv(s) && Enabled(s, Settle(w, now))
    ensures SerialInv(Do(s, Settle(w, now)))
  {
    var k := At(s.workers, w);
    var inst := s.board.instances[k.i];
    assert Fresh(s.board, k) && Edits(k, k.i);
    SettleKeepsInv(s, w, now);
    RecomputeAgreesExactly(inst, Changed(inst.items, k.change), k.loaded, now);
    SerialMove(s, w, At(Do(s, Settle(w, now)).workers, w));
  }

  lemma {:induction false} SerialCommit(s: State, w: WorkerId)
    requires SerialInv(s) && Enabled(s, Commit(w))
    ensures SerialInv(Do(s, Commit(w)))
  {
    var after, k := Do(s, Commit(w)), At(s.workers, w);
    CommitKeepsInv(s, w);
    assert Fresh(s.board, k);
    forall v ensures At(after.workers, v) == if v == w then Rest else At(s.workers, v) {}
    forall v ensures Fresh(after.board, At(after.workers, v)) {
      assert Fresh(s.board, At(s.workers, v));
      assert Edits(k, k.i);
      assert v != w ==> !Edits(At(s.workers, v), k.i);
    }
  }

  lemma {:induction false} SerialClose(s: State, w: WorkerId)
    requires SerialInv(s) && Enabled(s, CommitClose(w))
    ensures SerialInv(Do(s, CommitClose(w)))
  {
    var after := Do(s, CommitClose(w));
    CommitCloseKeepsInv(s, w);
    assert Fits(s.board, At(s.workers, w));
    forall v ensures At(after.workers, v) == if v == w then Rest else At(s.workers, v) {}
    forall v ensures Fresh(after.board, At(after.workers, v)) {
      assert Fresh(s.board, At(s.workers, v));
    }
    forall i | i in after.board.instances ensures Agrees(after.board.instances[i]) {
      assert Agrees(s.board.instances[i]);
    }
  }

  lemma {:induction false} SerialStep(s: State, step: Step)
    requires SerialInv(s) && Enabled(s, step) && Serialized(s, step)
    ensures SerialInv(Do(s, step))
  {
    StepKeepsInv(s, step);
    match step
    case Load(w, i, now) =>
      OpenWindowIsLive(s, i, now);
      SerialMove(s, w, Loaded(i, s.board.instances[i].status));
    case Edit(w, change, _) =>
      assert Fresh(s.board, At(s.workers, w)) && Edits(At(s.workers, w), At(s.workers, w).i);
      SerialMove(s, w, At(Do(s, step).workers, w));
    case Settle(w, now) => SerialSettle(s, w, now);
    case Commit(w) => SerialCommit(s, w);
    case CommitClose(w) => SerialClose(s, w);
    case FinishWithGrace(_) =>
    case ChangeGrace(_) =>
    case CorrectFinish(_) =>
    case _ => SerialMove(s, step.w, At(Do(s, step).workers, step.w));
  }

  // With the closing job, finishes and changes of settings anywhere inside the edits, every
  // status agrees with the items: an instance that is not closed is completed exactly if no
  // required item is unsatisfied, and has a time of completion exactly if it is completed.
  lemma {:induction false} StatusAgreesWithItems(states: seq<State>, steps: seq<Step>, n: nat)
    requires IsRun(states, steps) && n < |states|
    requires forall i :: 0 <= i < |steps| ==> Serialized(states[i], steps[i])
    ensures SerialInv(states[n])
    ensures forall i :: i in states[n].board.instances ==> StatusFitsFields(states[n].board.instances[i])
  {
    if n > 0 {
      StatusAgreesWithItems(states, steps, n - 1);
      SerialStep(states[n - 1], steps[n - 1]);
    }
    forall i | i in states[n].board.instances ensures StatusFitsFields(states[n].board.instances[i]) {
      AgreesInFields(states[n].board.instances[i]);
    }
  }

  // ----- Two edits of one instance at once -----------------------------------------------

  function After(s: State, steps: seq<Step>): Option<State>
    decreases |steps|
  {
    if steps == [] then Some(s)
    else if WellFormed(s) && Enabled(s, steps[0]) then After(Do(s, steps[0]), steps[1..])
    else None
  }

  lemma {:induction false} AfterStep(s: State, first: Step, rest: seq<Step>)
    requires WellFormed(s) && Enabled(s, first)
    ensures After(s, [first] + rest) == After(Do(s, first), rest)
  {
    assert ([first] + rest)[1..] == rest;
  }

  lemma {:induction false} AfterConcat(s: State, a: seq<Step>, b: seq<Step>)
    requires After(s, a).Some?
    ensures After(s, a + b) == After(After(s, a).value, b)
    decreases |a|
  {
    if a == [] {
      assert a + b == b;
    } else {
      AfterConcat(Do(s, a[0]), a[1..], b);
      assert (a + b)[1..] == a[1..] + b;
    }
  }

  // The rest of an edit, with nobody holding a lock.
  function RestOfEdit(w: WorkerId, change: Change, now: int): seq<Step> {
    [Edit(w, change, now)] + ([Settle(w, now)] + ([Commit(w)] + []))
  }

  lemma {:induction false} EditGoesThrough(s: State, w: WorkerId, change: Change, now: int)
    requires WellFormed(s) && At(s.workers, w).Loaded? && WindowOpen(s.board, now)
    requires forall v :: v in s.workers ==> s.workers[v].Loaded? || s.workers[v].Rest?
    ensures var k := At(s.workers, w);
      var inst := s.board.instances[k.i];
      After(s, RestOfEdit(w, change, now)) == Some(State(
        s.board.(instances := s.board.instances[k.i :=
            Recompute(inst.(items := Changed(inst.items, change)), k.loaded, now)]),
        s.workers[w := Rest]))
  {
    var k := At(s.workers, w);
    var inst := s.board.instances[k.i];
    var s1 := Do(s, Edit(w, change, now));
    assert At(s1.workers, w) == Edited(k.i, k.loaded, change);
    var s2 := Do(s1, Settle(w, now));
    var result := Recompute(inst.(items := Changed(inst.items, change)), k.loaded, now);
    assert s2.workers == s.workers[w := Settled(k.i, k.loaded, result)];
    var s3 := Do(s2, Commit(w));
    assert s3.workers == s.workers[w := Rest];
    AfterStep(s2, Commit(w), []);
    AfterStep(s1, Settle(w, now), [Commit(w)] + []);
    AfterStep(s, Edit(w, change, now), [Settle(w, now)] + ([Commit(w)] + []));
  }

  const DONE := Item(true, NoPhotos, true, None, None, 0, [])
  const UNDONE := Item(true, NoPhotos, false, None, None, 0, [])

  function Sheet(inst: Instance): Board {
    Board(ShiftRow(false, None, false), 0, map[0 := inst], map[])
  }

  lemma {:induction false} FirstCompletes()
    ensures var inst, good := Instance(true, Pending, None, [DONE, UNDONE]),
        Instance(true, Completed, Some(0), [DONE, DONE]);
      After(State(Sheet(inst), map[1 := Loaded(0, Pending), 2 := Loaded(0, Pending)]),
          RestOfEdit(1, SetDone(1, true), 0))
        == Some(State(Sheet(good), map[1 := Rest, 2 := Loaded(0, Pending)]))
  {
    var inst := Instance(true, Pending, None, [DONE, UNDONE]);
    var s := State(Sheet(inst), map[1 := Loaded(0, Pending), 2 := Loaded(0, Pending)]);
    EditGoesThrough(s, 1, SetDone(1, true), 0);
    assert Changed(inst.items, SetDone(1, true)) == [DONE, DONE];
    assert !Blocked([DONE, DONE]);
    assert s.workers[1 := Rest] == map[1 := Rest, 2 := Loaded(0, Pending)];
    assert forall next: Instance :: s.board.instances[0 := next] == map[0 := next];
  }

  lemma {:induction false} SecondWritesNoStatus()
    ensures var good, bad := Instance(true, Completed, Some(0), [DONE, DONE]),
        Instance(true, Completed, Some(0), [UNDONE, DONE]);
      After(State(Sheet(good), map[1 := Rest, 2 := Loaded(0, Pending)]), RestOfEdit(2, SetDone(0, false), 0))
        == Some(State(Sheet(bad), map[1 := Rest, 2 := Rest]))
  {
    var good := Instance(true, Completed, Some(0), [DONE, DONE]);
    var s := State(Sheet(good), map[1 := Rest, 2 := Loaded(0, Pending)]);
    EditGoesThrough(s, 2, SetDone(0, false), 0);
    assert Changed(good.items, SetDone(0, false)) == [UNDONE, DONE];
    assert !Satisfied([UNDONE, DONE][0]);
    assert s.workers[2 := Rest] == map[1 := Rest, 2 := Rest];
    assert forall next: Instance :: s.board.instances[0 := next] == map[0 := next];
  }

  lemma {:induction false} TwoEditsAtOnce() returns (steps: seq<Step>)
    ensures After(State(Sheet(Instance(true, Pending, None, [DONE, UNDONE])), map[]), steps)
         == Some(State(Sheet(Instance(true, Completed, Some(0), [UNDONE, DONE])), map[1 := Rest, 2 := Rest]))
  {
    var s := State(Sheet(Instance(true, Pending, None, [DONE, UNDONE])), map[]);
    var load := [Load(1, 0, 0)] + ([Load(2, 0, 0)] + []);
    var first, second := RestOfEdit(1, SetDone(1, true), 0), RestOfEdit(2, SetDone(0, false), 0);
    BothLoad(s);
    FirstCompletes();
    SecondWritesNoStatus();
    AfterConcat(s, load, first);
    AfterConcat(s, load + first, second);
    steps := load + first + second;
  }

  // The assumption is needed. Two edits load a pending instance; the first satisfies its last
  // item and completes it; the second undoes the other item, compares with the status it
  // loaded, and writes none: the instance stays completed with a required item undone.
  lemma {:induction false} ConcurrentEditsDisagree() returns (s: State, steps: seq<Step>)
    ensures Initial(s) && After(s, steps).Some?
    ensures exists i ::
      i in After(s, steps).value.board.instances && !StatusFitsFields(After(s, steps).value.board.instances[i])
  {
    var inst, bad := Instance(true, Pending, None, [DONE, UNDONE]), Instance(true, Completed, Some(0), [UNDONE, DONE]);
    s := State(Sheet(inst), map[]);
    steps := TwoEditsAtOnce();
    assert !Satisfied(bad.items[0]) && !Satisfied(inst.items[1]);
    AgreesInFields(bad);
    AgreesInFields(inst);
    assert After(s, steps).value.board.instances[0] == bad;
  }

  lemma {:induction false} BothLoad(s: State)
    requires s.workers == map[] && 0 in s.board.instances && !s.board.shift.finished
    ensures var loaded := Loaded(0, s.board.instances[0].status);
      After(s, [Load(1, 0, 0)] + ([Load(2, 0, 0)] + [])) == Some(s.(workers := map[1 := loaded, 2 := loaded]))
  {
    var s1 := Do(s, Load(1, 0, 0));
    AfterStep(s1, Load(2, 0, 0), []);
    AfterStep(s, Load(1, 0, 0), [Load(2, 0, 0)] + []);
    assert Do(s1, Load(2, 0, 0)).workers
        == map[1 := Loaded(0, s.board.instances[0].status), 2 := Loaded(0, s.board.instances[0].status)];
  }
}
