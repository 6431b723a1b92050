// What every run of shift operations keeps: the status and pause state machine, one live open
// shift per context, and live shifts of one context that never overlap.

module ShiftRuns {
  import opened Results
  import opened WorkedTime
  import opened ShiftModel

  // ----- Runs ----------------------------------------------------------------------------

  datatype Op =
    | OpStart(id: ShiftId, user: UserId, org: Option<OrgId>, settings: map<OrgId, bool>,
              admission: Result<Option<int>, ShiftError>)
    | OpPause(id: ShiftId, user: UserId, maxPauses: Option<nat>)
    | OpResume(id: ShiftId, user: UserId)
    | OpFinish(id: ShiftId, user: UserId)
    | OpAutoFinish(settings: map<OrgId, bool>)
    | OpEndLongPauses(maxMinutes: map<OrgId, nat>)
    | OpCreate(id: ShiftId, orgId: OrgId, user: UserId, isMember: bool, start: int, finish: int,
               pauses: seq<Interval>, locationOk: bool, scheduledEnd: Option<int>)
    | OpUpdate(orgId: OrgId, id: ShiftId, fields: Fields, locationOk: bool)
    | OpDelete(orgId: OrgId, id: ShiftId)
    | OpRestore(orgId: OrgId, id: ShiftId)

  function Outcome(s: Table, op: Op, now: int): Result<Table, ShiftError> {
    match op
    case OpStart(id, user, org, settings, admission) => Start(s, id, user, org, settings, admission, now)
    case OpPause(id, user, maxPauses) => PauseShift(s, id, user, maxPauses, now)
    case OpResume(id, user) => ResumeShift(s, id, user, now)
    case OpFinish(id, user) => FinishShift(s, id, user, now)
    case OpAutoFinish(settings) => Ok(AutoFinish(s, None, settings, now))
    case OpEndLongPauses(maxMinutes) => Ok(EndLongPauses(s, maxMinutes, now))
    case OpCreate(id, org, user, isMember, start, finish, pauses, locationOk, scheduledEnd) =>
      CreateManual(s, id, org, user, isMember, start, finish, pauses, locationOk, scheduledEnd, now)
    case OpUpdate(org, id, fields, locationOk) => UpdateManual(s, org, id, fields, locationOk, now)
    case OpDelete(org, id) => DeleteShift(s, org, id, now)
    case OpRestore(org, id) => RestoreShift(s, org, id, now)
  }

  // A refused operation rolls its transaction back.
  function Apply(s: Table, op: Op, now: int): Table {
    match Outcome(s, op, now)
    case Ok(s') => s'
    case Err(_) => s
  }

  // New rows get identifiers that no row has.
  predicate FreshId(s: Table, op: Op) {
    (op.OpStart? || op.OpCreate?) ==> op.id !in s
  }

  datatype Call = Call(op: Op, now: int)

  function Run(s: Table, calls: seq<Call>): Table
    decreases |calls|
  {
    if calls == [] then s else Run(Apply(s, calls[0].op, calls[0].now), calls[1..])
  }

  predicate FreshRun(s: Table, calls: seq<Call>)
    decreases |calls|
  {
    calls == [] || (FreshId(s, calls[0].op) && FreshRun(Apply(s, calls[0].op, calls[0].now), calls[1..]))
  }

  // ----- The state machine ---------------------------------------------------------------

  // Paused is exactly one open pause, active is none; finished has an end, a reason and no
  // open pause; only finished shifts are deleted.
  predicate ShiftOk(sh: Shift) {
    match sh.status
    case Active => OpenCount(sh.pauses) == 0 && sh.finish.None? && !sh.deleted
    case Paused => OpenCount(sh.pauses) == 1 && sh.finish.None? && !sh.deleted
    case Finished => OpenCount(sh.pauses) == 0 && sh.finish.Some? && sh.reason.Some?
  }

  predicate OneOpenPerContext(s: Table) {
    forall i, j :: i in s && j in s && i != j && SameContext(s[i], s[j]) && Open(s[i]) ==> !Open(s[j])
  }

  predicate Lawful(s: Table) {
    (forall id :: id in s ==> ShiftOk(s[id])) && OneOpenPerContext(s)
  }

  lemma {:induction false} OpenCountConcat(a: seq<Pause>, b: seq<Pause>)
    ensures OpenCount(a + b) == OpenCount(a) + OpenCount(b)
    decreases |b|
  {
    if b == [] {
      assert a + b == a;
    } else {
      OpenCountConcat(a, b[..|b| - 1]);
      assert (a + b)[..|a + b| - 1] == a + b[..|b| - 1];
    }
  }

  lemma {:induction false} NoneOpen(ps: seq<Pause>)
    ensures OpenCount(ps) == 0 <==> forall i :: 0 <= i < |ps| ==> ps[i].end.Some?
    decreases |ps|
  {
    if ps != [] {
      NoneOpen(ps[..|ps| - 1]);
    }
  }

  lemma {:induction false} CloseOrDropClosesAll(ps: seq<Pause>, at: int)
    ensures OpenCount(CloseOrDrop(ps, at)) == 0
    decreases |ps|
  {
    if ps != [] {
      CloseOrDropClosesAll(ps[..|ps| - 1], at);
      var p := ps[|ps| - 1];
      var tail := if p.end.Some? then [p] else if p.start < at then [p.(end := Some(at))] else [];
      OpenCountConcat(CloseOrDrop(ps[..|ps| - 1], at), tail);
    }
  }

  lemma {:induction false} CloseAtClosesOne(ps: seq<Pause>, k: nat, at: int)
    requires k < |ps| && ps[k].end.None?
    ensures OpenCount(CloseAt(ps, k, at)) == OpenCount(ps) - 1
  {
    var before, after, closed := ps[..k], ps[k + 1..], ps[k].(end := Some(at));
    assert ps == before + [ps[k]] + after;
    assert CloseAt(ps, k, at) == before + [closed] + after;
    OpenCountConcat(before + [ps[k]], after);
    OpenCountConcat(before, [ps[k]]);
    OpenCountConcat(before + [closed], after);
    OpenCountConcat(before, [closed]);
  }

  lemma {:induction false} FinishedIsOk(sh: Shift, at: int, reason: FinishReason)
    ensures ShiftOk(Finish(sh, at, reason))
  {
    NoneOpen(CloseOpen(sh.pauses, at));
  }

  lemma {:induction false} OpenPauseExists(ps: seq<Pause>)
    requires OpenCount(ps) == 1
    ensures FirstOpen(ps, None, 0) < |ps|
    ensures forall now :: FirstOpen(ps, None, now) == FirstOpen(ps, None, 0)
  {
    NoneOpen(ps);
    FirstOpenIgnoresClock(ps);
  }

  lemma {:induction false} FirstOpenIgnoresClock(ps: seq<Pause>)
    ensures forall now :: FirstOpen(ps, None, now) == FirstOpen(ps, None, 0)
  {
    if ps != [] {
      FirstOpenIgnoresClock(ps[1..]);
    }
  }

  // Every row keeps its context, becomes lawful, and no finished row reopens.
  predicate Progress(s: Table, s': Table) {
    && s.Keys == s'.Keys
    && forall id :: id in s ==>
         && SameContext(s[id], s'[id])
         && (ShiftOk(s[id]) ==> ShiftOk(s'[id]))
         && (Open(s'[id]) ==> Open(s[id]))
  }

  lemma {:induction false} ProgressKeepsLawful(s: Table, s': Table)
    requires Lawful(s) && Progress(s, s')
    ensures Lawful(s')
  {
    forall i, j | i in s' && j in s' && i != j && SameContext(s'[i], s'[j]) && Open(s'[i]) ensures !Open(s'[j]) {
      assert SameContext(s[i], s[j]);
    }
  }

  lemma {:induction false} AutoFinishProgress(s: Table, user: Option<UserId>, settings: map<OrgId, bool>, now: int)
    ensures Progress(s, AutoFinish(s, user, settings, now))
  {
    forall id | id in s && Stale(s[id], settings, now) ensures ShiftOk(AutoFinished(s[id])) {
      FinishedIsOk(s[id], s[id].scheduledEnd.value, AutoSchedule);
    }
  }

  lemma {:induction false} LongPauseOk(sh: Shift, maxMinutes: map<OrgId, nat>, now: int)
    requires ShiftOk(sh)
    ensures ShiftOk(EndLongPause(sh, maxMinutes, now))
  {
    if sh.status == Paused && sh.org.Some? && sh.org.value in maxMinutes {
      var limit := maxMinutes[sh.org.value] * 60;
      var k := FirstOpen(sh.pauses, Some(limit), now);
      if k < |sh.pauses| {
        CloseAtClosesOne(sh.pauses, k, sh.pauses[k].start + limit);
      }
    }
  }

  lemma {:induction false} EndLongPausesProgress(s: Table, maxMinutes: map<OrgId, nat>, now: int)
    ensures Progress(s, EndLongPauses(s, maxMinutes, now))
  {
    forall id | id in s && ShiftOk(s[id]) ensures ShiftOk(EndLongPause(s[id], maxMinutes, now)) {
      LongPauseOk(s[id], maxMinutes, now);
    }
  }

  lemma {:induction false} PauseResumeProgress(s: Table, op: Op, now: int)
    requires Lawful(s) && (op.OpPause? || op.OpResume?)
    ensures Progress(s, Apply(s, op, now))
  {
    if Outcome(s, op, now).Ok? {
      var ps := s[op.id].pauses;
      if op.OpPause? {
        OpenCountConcat(ps, [Pause(now, None)]);
        assert OpenCount([Pause(now, None)]) == 1;
      } else {
        OpenPauseExists(ps);
        CloseAtClosesOne(ps, FirstOpen(ps, None, now), now);
      }
    }
  }

  lemma {:induction false} NewPausesClosed(sh: Shift, f: Fields, changed: bool, now: int)
    requires ShiftOk(sh) && NewPauses(sh, f, changed, now).Ok?
    ensures NewFinish(sh, f).Some? ==> OpenCount(NewPauses(sh, f, changed, now).value) == 0
    ensures NewFinish(sh, f).None? ==> NewPauses(sh, f, changed, now).value == sh.pauses
  {
    if f.pauses.Some? {
      NoneOpen(ToPauses(f.pauses.value));
    } else if NewFinish(sh, f).Some? {
      CloseOrDropClosesAll(sh.pauses, NewFinish(sh, f).value);
    }
  }

  lemma {:induction false} UpdateProgress(s: Table, op: Op, now: int)
    requires Lawful(s) && op.OpUpdate?
    ensures Progress(s, Apply(s, op, now))
  {
    if Outcome(s, op, now).Ok? {
      var sh := s[op.id];
      var start, finish := NewStart(sh, op.fields), NewFinish(sh, op.fields);
      assert ShiftOk(sh);
      NewPausesClosed(sh, op.fields, start != sh.start || finish != sh.finish, now);
      assert ShiftOk(Apply(s, op, now)[op.id]);
    }
  }

  lemma {:induction false} ManualProgress(s: Table, op: Op, now: int)
    requires Lawful(s) && (op.OpDelete? || op.OpRestore? || op.OpFinish?)
    ensures Progress(s, Apply(s, op, now))
  {
    if Outcome(s, op, now).Ok? {
      FinishedIsOk(s[op.id], now, Manual);
    }
  }

  lemma {:induction false} ApplyProgress(s: Table, op: Op, now: int)
    requires Lawful(s) && !op.OpStart? && !op.OpCreate?
    ensures Progress(s, Apply(s, op, now))
  {
    match op {
      case OpAutoFinish(settings) => AutoFinishProgress(s, None, settings, now);
      case OpEndLongPauses(maxMinutes) => EndLongPausesProgress(s, maxMinutes, now);
      case OpPause(_, _, _) => PauseResumeProgress(s, op, now);
      case OpResume(_, _) => PauseResumeProgress(s, op, now);
      case OpUpdate(_, _, _, _) => UpdateProgress(s, op, now);
      case _ => ManualProgress(s, op, now);
    }
  }

  lemma {:induction false} InsertKeepsLawful(s: Table, id: ShiftId, sh: Shift)
    requires Lawful(s) && id !in s && ShiftOk(sh)
    requires Open(sh) ==> !HasOpen(s, sh.user, sh.org)
    ensures Lawful(s[id := sh])
  {
    forall i | i in s && SameContext(s[i], sh) && Open(sh) ensures !Open(s[i]) {
      assert ShiftOk(s[i]);
    }
  }

  lemma {:induction false} ApplyLawful(s: Table, op: Op, now: int)
    requires Lawful(s) && FreshId(s, op)
    ensures Lawful(Apply(s, op, now))
  {
    if op.OpStart? {
      var s1 := AutoFinish(s, Some(op.user), op.settings, now);
      AutoFinishProgress(s, Some(op.user), op.settings, now);
      ProgressKeepsLawful(s, s1);
      if Outcome(s, op, now).Ok? {
        InsertKeepsLawful(s1, op.id, Shift(op.user, op.org, Active, now, None, op.admission.value, None, false, []));
      }
    } else if op.OpCreate? {
      if Outcome(s, op, now).Ok? {
        NoneOpen(ToPauses(op.pauses));
        InsertKeepsLawful(s, op.id, Shift(op.user, Some(op.orgId), Finished, op.start, Some(op.finish),
          op.scheduledEnd, Some(Manual), false, ToPauses(op.pauses)));
      }
    } else {
      ApplyProgress(s, op, now);
      ProgressKeepsLawful(s, Apply(s, op, now));
    }
  }

  // The state machine holds after every run from a lawful table, the empty one included.
  lemma {:induction false} RunsAreLawful(s: Table, calls: seq<Call>)
    requires Lawful(s) && FreshRun(s, calls)
    ensures Lawful(Run(s, calls))
    decreases |calls|
  {
    if calls != [] {
      ApplyLawful(s, calls[0].op, calls[0].now);
      RunsAreLawful(Apply(s, calls[0].op, calls[0].now), calls[1..]);
    }
  }

  // Rows are never lost, and a finished shift never reopens, over any run.
  lemma {:induction false} FinishedForGood(s: Table, calls: seq<Call>, id: ShiftId)
    requires Lawful(s) && FreshRun(s, calls) && id in s && s[id].status == Finished
    ensures id in Run(s, calls) && Run(s, calls)[id].status == Finished
    ensures SameContext(s[id], Run(s, calls)[id])
    decreases |calls|
  {
    if calls != [] {
      var op, now := calls[0].op, calls[0].now;
      ApplyLawful(s, op, now);
      if op.OpStart? {
        AutoFinishProgress(s, Some(op.user), op.settings, now);
      } else if !op.OpCreate? {
        ApplyProgress(s, op, now);
      }
      FinishedForGood(Apply(s, op, now), calls[1..], id);
    }
  }

  // ----- Live shifts do not overlap ------------------------------------------------------

  // A common second of the two shifts, an open shift read as lasting for ever.
  predicate CommonSecond(a: Shift, b: Shift, t: int) {
    && a.start <= t && (a.finish.Some? ==> t < a.finish.value)
    && b.start <= t && (b.finish.Some? ==> t < b.finish.value)
  }

  ghost predicate Overlap(a: Shift, b: Shift) {
    exists t :: CommonSecond(a, b, t)
  }

  ghost predicate NonOverlapping(s: Table) {
    forall i, j :: i in s && j in s && i != j && SameContext(s[i], s[j]) && !s[i].deleted && !s[j].deleted
      ==> !Overlap(s[i], s[j])
  }

  // Each row covers no more seconds than before, and none comes back to life.
  predicate Shrinks(s: Table, s': Table) {
    && s.Keys == s'.Keys
    && forall id :: id in s ==>
         && SameContext(s[id], s'[id])
         && (s[id].deleted ==> s'[id].deleted)
         && (s'[id].deleted || (s[id].start <= s'[id].start
              && (s[id].finish.Some? ==> s'[id].finish.Some? && s'[id].finish.value <= s[id].finish.value)))
  }

  lemma {:induction false} ShrinkingKeepsDisjoint(s: Table, s': Table)
    requires NonOverlapping(s) && Shrinks(s, s')
    ensures NonOverlapping(s')
  {
    forall i, j | i in s' && j in s' && i != j && SameContext(s'[i], s'[j]) && !s'[i].deleted && !s'[j].deleted
      ensures !Overlap(s'[i], s'[j])
    {
      forall t ensures !CommonSecond(s'[i], s'[j], t) {
        assert !CommonSecond(s[i], s[j], t);
      }
    }
  }

  // A closed interval that passes the overlap query shares no second with the other rows.
  lemma {:induction false} NoClashNoOverlap(other: Shift, user: UserId, org: OrgId, start: int, finish: int, sh: Shift)
    requires InContext(other, user, Some(org)) && !other.deleted && !Clashes(other, user, org, start, finish)
    requires sh.start == start && sh.finish == Some(finish)
    ensures !Overlap(other, sh) && !Overlap(sh, other)
  {}

  // Replacing or adding one live row keeps the table disjoint when the row meets no other.
  lemma {:induction false} PutKeepsDisjoint(s: Table, id: ShiftId, sh: Shift)
    requires NonOverlapping(s)
    requires forall j :: j in s && j != id && SameContext(s[j], sh) && !s[j].deleted ==> !Overlap(s[j], sh)
    ensures NonOverlapping(s[id := sh])
  {
    var s' := s[id := sh];
    forall i, j | i in s' && j in s' && i != j && SameContext(s'[i], s'[j]) && !s'[i].deleted && !s'[j].deleted
      ensures !Overlap(s'[i], s'[j])
    {
      if i == id {
        OverlapSymmetric(s[j], sh);
        assert SameContext(s[j], sh);
      }
    }
  }

  lemma {:induction false} OverlapSymmetric(a: Shift, b: Shift)
    ensures Overlap(a, b) <==> Overlap(b, a)
  {
    if Overlap(a, b) {
      var t :| CommonSecond(a, b, t);
      assert CommonSecond(b, a, t);
    }
    if Overlap(b, a) {
      var t :| CommonSecond(b, a, t);
      assert CommonSecond(a, b, t);
    }
  }

  lemma {:induction false} AutoFinishShrinks(s: Table, user: Option<UserId>, settings: map<OrgId, bool>, now: int)
    requires Lawful(s)
    ensures Shrinks(s, AutoFinish(s, user, settings, now))
  {
    forall id | id in s && Open(s[id]) ensures s[id].finish.None? {
      assert ShiftOk(s[id]);
    }
  }

  // A live shift of the context with some length that ends after `now`.
  predicate EndsAhead(sh: Shift, user: UserId, org: Option<OrgId>, now: int) {
    && InContext(sh, user, org) && !sh.deleted
    && sh.finish.Some? && sh.start < sh.finish.value && now < sh.finish.value
  }

  // A live shift of the context with some length that begins no earlier than `now`, which the
  // overlap query reads as the end of an open shift, and ends after `start`.
  predicate BeginsAhead(sh: Shift, user: UserId, org: Option<OrgId>, start: int, now: int) {
    && InContext(sh, user, org) && !sh.deleted
    && sh.finish.Some? && now <= sh.start < sh.finish.value && start < sh.finish.value
  }

  // The condition under which an accepted operation creates no overlap. A start must find no
  // shift of the context that ends ahead of it; an edit of a shift that stays open must find
  // none that begins ahead of the clock and ends after the new start. The rest always passes.
  predicate ClearAhead(s: Table, op: Op, now: int) {
    match op
    case OpStart(_, user, org, _, _) => forall id :: id in s ==> !EndsAhead(s[id], user, org, now)
    case OpUpdate(_, id, fields, _) =>
      id in s && NewFinish(s[id], fields).None? ==>
        forall j :: j in s && j != id ==> !BeginsAhead(s[j], s[id].user, s[id].org, NewStart(s[id], fields), now)
    case _ => true
  }

  lemma {:induction false} EndAheadOverlaps(s: Table, op: Op, now: int, id: ShiftId)
    requires op.OpStart? && Lawful(s) && FreshId(s, op) && Outcome(s, op, now).Ok?
    requires id in s && EndsAhead(s[id], op.user, op.org, now)
    ensures !NonOverlapping(Apply(s, op, now))
  {
    var s' := Apply(s, op, now);
    assert ShiftOk(s[id]);
    assert s'[id] == s[id];
    var t := if s[id].start < now then now else s[id].start;
    assert CommonSecond(s'[id], s'[op.id], t);
    assert SameContext(s'[id], s'[op.id]);
  }

  // A start keeps the live shifts disjoint exactly when no live shift of the context that
  // has any length ends after the moment of the start.
  lemma {:induction false} StartKeepsDisjointExactly(s: Table, op: Op, now: int)
    requires op.OpStart? && Lawful(s) && NonOverlapping(s) && FreshId(s, op) && Outcome(s, op, now).Ok?
    ensures NonOverlapping(Apply(s, op, now))
       <==> forall id :: id in s ==> !EndsAhead(s[id], op.user, op.org, now)
  {
    var s1, s' := AutoFinish(s, Some(op.user), op.settings, now), Apply(s, op, now);
    AutoFinishProgress(s, Some(op.user), op.settings, now);
    ProgressKeepsLawful(s, s1);
    AutoFinishShrinks(s, Some(op.user), op.settings, now);
    ShrinkingKeepsDisjoint(s, s1);
    var sh := s'[op.id];
    if id :| id in s && EndsAhead(s[id], op.user, op.org, now) {
      EndAheadOverlaps(s, op, now, id);
    } else {
      forall j | j in s1 && SameContext(s1[j], sh) && !s1[j].deleted ensures !Overlap(s1[j], sh) {
        assert ShiftOk(s1[j]) && !Open(s1[j]);
        assert ShiftOk(s[j]);
      }
      PutKeepsDisjoint(s1, op.id, sh);
    }
  }

  lemma {:induction false} BeginAheadOverlaps(s: Table, op: Op, now: int, j: ShiftId)
    requires op.OpUpdate? && Lawful(s) && Outcome(s, op, now).Ok? && NewFinish(s[op.id], op.fields).None?
    requires j in s && j != op.id
    requires BeginsAhead(s[j], s[op.id].user, s[op.id].org, NewStart(s[op.id], op.fields), now)
    ensures !NonOverlapping(Apply(s, op, now))
  {
    var s' := Apply(s, op, now);
    assert ShiftOk(s[op.id]) && s'[j] == s[j];
    var t := if s[j].start < s'[op.id].start then s'[op.id].start else s[j].start;
    assert CommonSecond(s'[j], s'[op.id], t);
    assert SameContext(s'[j], s'[op.id]);
  }

  // What an accepted edit leaves of the other live shifts of the context.
  lemma {:induction false} EditMeetsNoOther(s: Table, op: Op, now: int, j: ShiftId)
    requires op.OpUpdate? && Lawful(s) && NonOverlapping(s) && Outcome(s, op, now).Ok? && ClearAhead(s, op, now)
    requires j in s && j != op.id && SameContext(s[j], s[op.id]) && !s[j].deleted
    ensures !Overlap(s[j], Apply(s, op, now)[op.id])
  {
    var sh, sh' := s[op.id], Apply(s, op, now)[op.id];
    var start, finish := NewStart(sh, op.fields), NewFinish(sh, op.fields);
    assert ShiftOk(sh) && ShiftOk(s[j]);
    if start == sh.start && finish == sh.finish {
      forall t ensures !CommonSecond(s[j], sh', t) {
        assert !Overlap(s[j], sh);
        assert !CommonSecond(s[j], sh, t);
      }
    } else {
      assert !Clashes(s[j], sh.user, op.orgId, start, EndOf(finish, now));
      if finish.Some? {
        NoClashNoOverlap(s[j], sh.user, op.orgId, start, finish.value, sh');
      } else {
        assert !Open(s[j]) && !BeginsAhead(s[j], sh.user, sh.org, start, now);
      }
    }
  }

  // An accepted edit keeps the live shifts disjoint exactly when it closes the shift, or no
  // other live shift of the context that has any length begins no earlier than the clock and
  // ends after the new start.
  lemma {:induction false} UpdateKeepsDisjointExactly(s: Table, op: Op, now: int)
    requires op.OpUpdate? && Lawful(s) && NonOverlapping(s) && Outcome(s, op, now).Ok?
    ensures NonOverlapping(Apply(s, op, now))
       <==> (NewFinish(s[op.id], op.fields).None? ==>
               forall j :: j in s && j != op.id ==>
                 !BeginsAhead(s[j], s[op.id].user, s[op.id].org, NewStart(s[op.id], op.fields), now))
  {
    var sh' := Apply(s, op, now)[op.id];
    if ClearAhead(s, op, now) {
      forall j | j in s && j != op.id && SameContext(s[j], sh') && !s[j].deleted ensures !Overlap(s[j], sh') {
        EditMeetsNoOther(s, op, now, j);
      }
      PutKeepsDisjoint(s, op.id, sh');
    } else {
      var j :| j in s && j != op.id
          && BeginsAhead(s[j], s[op.id].user, s[op.id].org, NewStart(s[op.id], op.fields), now);
      BeginAheadOverlaps(s, op, now, j);
    }
  }

  lemma {:induction false} ManualDisjoint(s: Table, op: Op, now: int)
    requires (op.OpCreate? || op.OpRestore?) && Lawful(s) && NonOverlapping(s) && FreshId(s, op)
    ensures NonOverlapping(Apply(s, op, now))
  {
    if Outcome(s, op, now).Ok? {
      if op.OpRestore? && !s[op.id].deleted {
      } else {
        var sh := Apply(s, op, now)[op.id];
        if op.OpRestore? {
          assert ShiftOk(s[op.id]);
        }
        forall j | j in s && j != op.id && SameContext(s[j], sh) && !s[j].deleted ensures !Overlap(s[j], sh) {
          assert !Clashes(s[j], sh.user, op.orgId, sh.start, sh.finish.value);
          NoClashNoOverlap(s[j], sh.user, op.orgId, sh.start, sh.finish.value, sh);
        }
        PutKeepsDisjoint(s, op.id, sh);
      }
    }
  }

  // Accepted or not, an operation keeps the live shifts of a context disjoint exactly if it is
  // refused or its condition holds.
  lemma {:induction false} ApplyDisjointExactly(s: Table, op: Op, now: int)
    requires Lawful(s) && NonOverlapping(s) && FreshId(s, op)
    ensures NonOverlapping(Apply(s, op, now)) <==> Outcome(s, op, now).Err? || ClearAhead(s, op, now)
  {
    if Outcome(s, op, now).Err? {
    } else if op.OpStart? {
      StartKeepsDisjointExactly(s, op, now);
    } else if op.OpUpdate? {
      UpdateKeepsDisjointExactly(s, op, now);
    } else if op.OpCreate? || op.OpRestore? {
      ManualDisjoint(s, op, now);
    } else {
      if op.OpAutoFinish? {
        AutoFinishShrinks(s, None, op.settings, now);
      } else if !op.OpEndLongPauses? {
        assert ShiftOk(s[op.id]);
      }
      ShrinkingKeepsDisjoint(s, Apply(s, op, now));
    }
  }

  predicate ClearRun(s: Table, calls: seq<Call>)
    decreases |calls|
  {
    calls == []
    || ((Outcome(s, calls[0].op, calls[0].now).Err? || ClearAhead(s, calls[0].op, calls[0].now))
        && ClearRun(Apply(s, calls[0].op, calls[0].now), calls[1..]))
  }

  // The table is disjoint before every call and after the last.
  ghost predicate DisjointThroughout(s: Table, calls: seq<Call>)
    decreases |calls|
  {
    NonOverlapping(s) && (calls == [] || DisjointThroughout(Apply(s, calls[0].op, calls[0].now), calls[1..]))
  }

  // Live shifts of one context stay disjoint throughout a run exactly if every accepted call
  // meets its condition.
  lemma {:induction false} RunsAreDisjointExactly(s: Table, calls: seq<Call>)
    requires Lawful(s) && NonOverlapping(s) && FreshRun(s, calls)
    ensures DisjointThroughout(s, calls) <==> ClearRun(s, calls)
    decreases |calls|
  {
    if calls != [] {
      ApplyLawful(s, calls[0].op, calls[0].now);
      ApplyDisjointExactly(s, calls[0].op, calls[0].now);
      if NonOverlapping(Apply(s, calls[0].op, calls[0].now)) {
        RunsAreDisjointExactly(Apply(s, calls[0].op, calls[0].now), calls[1..]);
      }
    }
  }

  // ----- Where ends in the future come from ----------------------------------------------

  predicate EndsBy(s: Table, now: int) {
    forall id :: id in s && s[id].finish.Some? ==> s[id].finish.value <= now
  }

  // The end a manual entry or edit asks for is not after its own moment.
  predicate HonestEnd(op: Op, now: int) {
    && (op.OpCreate? ==> op.finish <= now)
    && (op.OpUpdate? && op.fields.finish.Some? ==> op.fields.finish.value <= now)
  }

  // A clock that never goes back, read no earlier than `now`, and honest manual ends.
  predicate HonestRun(calls: seq<Call>, now: int)
    decreases |calls|
  {
    calls == []
    || (now <= calls[0].now && HonestEnd(calls[0].op, calls[0].now) && HonestRun(calls[1..], calls[0].now))
  }

  lemma {:induction false} ApplyEndsBy(s: Table, op: Op, now: int)
    requires EndsBy(s, now) && HonestEnd(op, now)
    ensures EndsBy(Apply(s, op, now), now)
  {
    if op.OpStart? {
      var s1 := AutoFinish(s, Some(op.user), op.settings, now);
      assert EndsBy(s1, now);
    }
  }

  // Without manual ends inside the clock tolerance, nothing ever ends in the future, so the
  // disjointness of live shifts is an invariant of every run.
  lemma {:induction false} HonestRunsAreDisjoint(s: Table, calls: seq<Call>, now: int)
    requires Lawful(s) && NonOverlapping(s) && EndsBy(s, now)
    requires FreshRun(s, calls) && HonestRun(calls, now)
    ensures NonOverlapping(Run(s, calls)) && Lawful(Run(s, calls))
    decreases |calls|
  {
    if calls != [] {
      var op, at := calls[0].op, calls[0].now;
      ApplyLawful(s, op, at);
      ApplyDisjointExactly(s, op, at);
      ApplyEndsBy(s, op, at);
      HonestRunsAreDisjoint(Apply(s, op, at), calls[1..], at);
    }
  }

  // The tolerance of the manual entry is enough to break it: an end 60 seconds ahead is
  // accepted, and a start one second later overlaps it.
  lemma {:induction false} ToleranceAllowsOverlap()
    ensures var create := OpCreate(1, 7, 3, true, 0, 1060, [], true, None);
            var start := OpStart(2, 3, Some(7), map[], Ok(None));
            var s := Run(map[], [Call(create, 1000), Call(start, 1001)]);
            && FreshRun(map[], [Call(create, 1000), Call(start, 1001)])
            && 1 in s && 2 in s && SameContext(s[1], s[2]) && Overlap(s[1], s[2])
  {
    var create := OpCreate(1, 7, 3, true, 0, 1060, [], true, None);
    var start := OpStart(2, 3, Some(7), map[], Ok(None));
    var s1 := Apply(map[], create, 1000);
    var first := Shift(3, Some(7), Finished, 0, Some(1060), None, Some(Manual), false, []);
    assert s1 == map[1 := first];
    assert AutoFinish(s1, Some(3), map[], 1001) == s1;
    var s2 := Apply(s1, start, 1001);
    var calls := [Call(create, 1000), Call(start, 1001)];
    assert calls[1..] == [Call(start, 1001)];
    assert Run(s2, []) == s2;
    assert Run(s1, calls[1..]) == s2;
    assert CommonSecond(s2[1], s2[2], 1010);
  }

  // An edit can do the same: an open shift is read as ending now, so moving its start is
  // accepted although a manual shift begins a few seconds ahead.
  lemma {:induction false} EditAllowsOverlap()
    ensures var calls := OverlappingEdits();
            var s := Run(map[], calls);
            && FreshRun(map[], calls)
            && 1 in s && 2 in s && SameContext(s[1], s[2]) && Overlap(s[1], s[2])
  {
    var calls := OverlappingEdits();
    var open := Shift(3, Some(7), Active, 900, None, None, None, false, []);
    var later := Shift(3, Some(7), Finished, 1005, Some(1050), None, Some(Manual), false, []);
    var s1, s2 := map[1 := open], map[1 := open.(start := 1050)];
    var s3 := s2[2 := later];
    var s4 := s3[1 := open.(start := 1020)];
    assert AutoFinish(map[], Some(3), map[], 900) == map[];
    assert Apply(map[], calls[0].op, 900) == s1;
    assert Apply(s1, calls[1].op, 1000) == s2;
    assert !HasClash(s2, 3, 7, 1005, 1050, None);
    assert ToPauses([]) == [];
    assert Apply(s2, calls[2].op, 1000) == s3;
    assert Apply(s3, calls[3].op, 1000) == s4;
    RunStep(s3, calls[3..]);
    RunStep(s2, calls[2..]);
    RunStep(s1, calls[1..]);
    RunStep(map[], calls);
    assert CommonSecond(s4[1], s4[2], 1030);
  }

  function OverlappingEdits(): seq<Call> {
    [Call(OpStart(1, 3, Some(7), map[], Ok(None)), 900),
     Call(OpUpdate(7, 1, Fields(Some(1050), None, None), true), 1000),
     Call(OpCreate(2, 7, 3, true, 1005, 1050, [], true, None), 1000),
     Call(OpUpdate(7, 1, Fields(Some(1020), None, None), true), 1000)]
  }

  lemma {:induction false} RunStep(s: Table, calls: seq<Call>)
    requires calls != []
    ensures Run(s, calls) == Run(Apply(s, calls[0].op, calls[0].now), calls[1..])
    ensures FreshRun(s, calls) <==>
      FreshId(s, calls[0].op) && FreshRun(Apply(s, calls[0].op, calls[0].now), calls[1..])
  {}
}
