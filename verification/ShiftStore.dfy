// The shift services in place: one method per service function, over a table of shifts.
// A refused call rolls back, so it leaves the table as it was.

module ShiftStore {
  import opened Results
  import opened WorkedTime
  import opened ShiftModel
  import opened ShiftRuns
  import opened ShiftEffects

  // Live shifts of one context, disjoint before the operation, are so after it exactly if it
  // is refused or meets its condition.
  ghost predicate DisjointExactly(before: Table, after: Table, op: Op, now: int) {
    NonOverlapping(before) ==>
      (NonOverlapping(after) <==> Outcome(before, op, now).Err? || ClearAhead(before, op, now))
  }

  lemma {:induction false} OperationKeeps(s: Table, op: Op, now: int)
    requires Lawful(s) && FreshId(s, op)
    ensures Lawful(Apply(s, op, now)) && DisjointExactly(s, Apply(s, op, now), op, now)
  {
    ApplyLawful(s, op, now);
    if NonOverlapping(s) {
      ApplyDisjointExactly(s, op, now);
    }
  }

  lemma {:induction false} AutoFinishKeeps(s: Table, user: Option<UserId>, settings: map<OrgId, bool>, now: int)
    requires Lawful(s)
    ensures Lawful(AutoFinish(s, user, settings, now))
    ensures NonOverlapping(s) ==> NonOverlapping(AutoFinish(s, user, settings, now))
  {
    AutoFinishProgress(s, user, settings, now);
    ProgressKeepsLawful(s, AutoFinish(s, user, settings, now));
    AutoFinishShrinks(s, user, settings, now);
    if NonOverlapping(s) {
      ShrinkingKeepsDisjoint(s, AutoFinish(s, user, settings, now));
    }
  }

  class Shifts {
    var shifts: Table

    // The state machine of every shift, and one open shift in a context at most.
    ghost predicate Valid()
      reads this
    {
      Lawful(shifts)
    }

    constructor ()
      ensures Valid() && NonOverlapping(shifts) && shifts == map[]
    {
      shifts := map[];
    }

    // The loop that ends every open pause of a shift.
    static method EndOpenPauses(pauses: seq<Pause>, at: int) returns (r: seq<Pause>)
      ensures r == CloseOpen(pauses, at)
    {
      r := pauses;
      for i := 0 to |pauses|
        invariant |r| == |pauses|
        invariant forall j :: 0 <= j < i ==> r[j] == CloseOpen(pauses, at)[j]
        invariant forall j :: i <= j < |pauses| ==> r[j] == pauses[j]
      {
        if r[i].end.None? {
          r := r[i := r[i].(end := Some(at))];
        }
      }
    }

    // The loop that ends the first open pause that is long enough, if there is one.
    static method EndFirstOpen(pauses: seq<Pause>, limit: Option<int>, now: int) returns (k: nat)
      ensures k == FirstOpen(pauses, limit, now)
    {
      k := 0;
      while k < |pauses|
        invariant k <= |pauses|
        invariant FirstOpen(pauses, limit, now) == k + FirstOpen(pauses[k..], limit, now)
      {
        if pauses[k].end.None? && (limit.None? || now - pauses[k].start > limit.value) {
          return;
        }
        assert pauses[k..][1..] == pauses[k + 1..];
        k := k + 1;
      }
    }

    method AutoFinishStale(user: Option<UserId>, settings: map<OrgId, bool>, now: int)
      requires Valid()
      modifies this
      ensures shifts.Keys == old(shifts).Keys
      ensures forall id :: id in shifts ==> AutoEnded(old(shifts)[id], shifts[id], user, settings, now)
      ensures Valid() && (NonOverlapping(old(shifts)) ==> NonOverlapping(shifts))
      ensures shifts == AutoFinish(old(shifts), user, settings, now)
    {
      AutoFinishWrites(shifts, user, settings, now);
      AutoFinishKeeps(shifts, user, settings, now);
      EndStale(user, settings, now);
    }

    // The loop over the stale shifts.
    method EndStale(user: Option<UserId>, settings: map<OrgId, bool>, now: int)
      modifies this
      ensures shifts == AutoFinish(old(shifts), user, settings, now)
    {
      var rows := shifts;
      var todo := set id | id in rows && (user.None? || rows[id].user == user.value) && Stale(rows[id], settings, now);
      ghost var all := todo;
      while todo != {}
        invariant todo <= all
        invariant shifts == map id | id in rows :: if id in all - todo then AutoFinished(rows[id]) else rows[id]
        decreases todo
      {
        var id :| id in todo;
        var sh := shifts[id];
        var pauses := EndOpenPauses(sh.pauses, sh.scheduledEnd.value);
        shifts := shifts[id := sh.(status := Finished, finish := sh.scheduledEnd, reason := Some(AutoSchedule),
            pauses := pauses)];
        todo := todo - {id};
      }
    }

    method StartShift(id: ShiftId, user: UserId, org: Option<OrgId>, settings: map<OrgId, bool>,
        admission: Result<Option<int>, ShiftError>, now: int) returns (r: Result<(), ShiftError>)
      requires Valid() && id !in shifts
      modifies this
      ensures Valid() && DisjointExactly(old(shifts), shifts, OpStart(id, user, org, settings, admission), now)
      ensures match Start(old(shifts), id, user, org, settings, admission, now)
              case Ok(s) => r == Ok(()) && shifts == s
              case Err(e) => r == Err(e) && shifts == old(shifts)
    {
      OperationKeeps(shifts, OpStart(id, user, org, settings, admission), now);
      var before := shifts;
      AutoFinishStale(Some(user), settings, now);
      if HasOpen(shifts, user, org) {
        shifts := before;
        return Err(ShiftAlreadyActive);
      }
      match admission
      case Err(e) =>
        shifts := before;
        return Err(e);
      case Ok(scheduledEnd) =>
        shifts := shifts[id := Shift(user, org, Active, now, None, scheduledEnd, None, false, [])];
        return Ok(());
    }

    method Pause(id: ShiftId, user: UserId, maxPauses: Option<nat>, now: int) returns (r: Result<(), ShiftError>)
      requires Valid()
      modifies this
      ensures r.Ok? ==> OnlyRow(old(shifts), shifts, id) && IsPaused(old(shifts)[id], shifts[id], now)
      ensures Valid() && DisjointExactly(old(shifts), shifts, OpPause(id, user, maxPauses), now)
      ensures match PauseShift(old(shifts), id, user, maxPauses, now)
              case Ok(s) => r == Ok(()) && shifts == s
              case Err(e) => r == Err(e) && shifts == old(shifts)
    {
      PauseWrites(shifts, id, user, maxPauses, now);
      OperationKeeps(shifts, OpPause(id, user, maxPauses), now);
      if !Owned(shifts, id, user) {
        return Err(ShiftNotFound);
      }
      var sh := shifts[id];
      if sh.status != Active {
        return Err(ShiftNotActive);
      }
      if sh.org.Some? && maxPauses.Some? && |sh.pauses| >= maxPauses.value {
        return Err(MaxPausesReached);
      }
      shifts := shifts[id := sh.(pauses := sh.pauses + [WorkedTime.Pause(now, None)], status := Paused)];
      return Ok(());
    }

    method Resume(id: ShiftId, user: UserId, now: int) returns (r: Result<(), ShiftError>)
      requires Valid()
      modifies this
      ensures r.Ok? ==> OnlyRow(old(shifts), shifts, id) && IsResumed(old(shifts)[id], shifts[id], now)
      ensures Valid() && DisjointExactly(old(shifts), shifts, OpResume(id, user), now)
      ensures match ResumeShift(old(shifts), id, user, now)
              case Ok(s) => r == Ok(()) && shifts == s
              case Err(e) => r == Err(e) && shifts == old(shifts)
    {
      ResumeWrites(shifts, id, user, now);
      OperationKeeps(shifts, OpResume(id, user), now);
      if !Owned(shifts, id, user) {
        return Err(ShiftNotFound);
      }
      var sh := shifts[id];
      if sh.status != Paused {
        return Err(ShiftNotPaused);
      }
      var k := EndFirstOpen(sh.pauses, None, now);
      shifts := shifts[id := sh.(pauses := CloseAt(sh.pauses, k, now), status := Active)];
      return Ok(());
    }

    method FinishOwn(id: ShiftId, user: UserId, now: int) returns (r: Result<(), ShiftError>)
      requires Valid()
      modifies this
      ensures r.Ok? ==> OnlyRow(old(shifts), shifts, id) && FinishedAt(old(shifts)[id], shifts[id], now, Manual)
      ensures Valid() && DisjointExactly(old(shifts), shifts, OpFinish(id, user), now)
      ensures match FinishShift(old(shifts), id, user, now)
              case Ok(s) => r == Ok(()) && shifts == s
              case Err(e) => r == Err(e) && shifts == old(shifts)
    {
      FinishWrites(shifts, id, user, now);
      OperationKeeps(shifts, OpFinish(id, user), now);
      if !Owned(shifts, id, user) {
        return Err(ShiftNotFound);
      }
      var sh := shifts[id];
      if sh.status == Finished {
        return Err(ShiftAlreadyFinished);
      }
      var pauses := EndOpenPauses(sh.pauses, now);
      shifts := shifts[id := sh.(pauses := pauses, status := Finished, finish := Some(now), reason := Some(Manual))];
      return Ok(());
    }

    method AutoEndPauses(maxMinutes: map<OrgId, nat>, now: int)
      requires Valid()
      modifies this
      ensures Valid() && DisjointExactly(old(shifts), shifts, OpEndLongPauses(maxMinutes), now)
      ensures shifts == EndLongPauses(old(shifts), maxMinutes, now)
    {
      OperationKeeps(shifts, OpEndLongPauses(maxMinutes), now);
      EndOverlong(maxMinutes, now);
    }

    // The loop over the paused shifts.
    method EndOverlong(maxMinutes: map<OrgId, nat>, now: int)
      modifies this
      ensures shifts == EndLongPauses(old(shifts), maxMinutes, now)
    {
      var rows := shifts;
      var todo := set id | id in rows && rows[id].status == Paused && rows[id].org.Some? && !rows[id].deleted;
      ghost var all := todo;
      while todo != {}
        invariant todo <= all
        invariant shifts == map id | id in rows :: if id in todo then rows[id]
            else EndLongPause(rows[id], maxMinutes, now)
        decreases todo
      {
        var id :| id in todo;
        var sh := shifts[id];
        if sh.org.value in maxMinutes {
          var limit := maxMinutes[sh.org.value] * 60;
          var k := EndFirstOpen(sh.pauses, Some(limit), now);
          if k < |sh.pauses| {
            shifts := shifts[id := sh.(pauses := CloseAt(sh.pauses, k, sh.pauses[k].start + limit), status := Active)];
          }
        }
        todo := todo - {id};
      }
    }

    method CreateManualShift(id: ShiftId, org: OrgId, user: UserId, isMember: bool, start: int, finish: int,
        pauses: seq<Interval>, locationOk: bool, scheduledEnd: Option<int>, now: int)
        returns (r: Result<(), ShiftError>)
      requires Valid() && id !in shifts
      modifies this
      ensures Valid()
      ensures DisjointExactly(old(shifts), shifts,
          OpCreate(id, org, user, isMember, start, finish, pauses, locationOk, scheduledEnd), now)
      ensures match CreateManual(old(shifts), id, org, user, isMember, start, finish, pauses, locationOk, scheduledEnd,
          now)
              case Ok(s) => r == Ok(()) && shifts == s
              case Err(e) => r == Err(e) && shifts == old(shifts)
    {
      OperationKeeps(shifts, OpCreate(id, org, user, isMember, start, finish, pauses, locationOk, scheduledEnd), now);
      if !isMember {
        return Err(MemberNotFound);
      }
      if !ValidInterval(start, finish, now) {
        return Err(ValidationError);
      }
      var verdict := ValidatePauses(pauses, start, finish);
      if verdict.Err? {
        return Err(ValidationError);
      }
      if !locationOk {
        return Err(LocationNotFound);
      }
      if HasClash(shifts, user, org, start, finish, None) {
        return Err(ShiftOverlap);
      }
      shifts := shifts[id := Shift(user, Some(org), Finished, start, Some(finish), scheduledEnd, Some(Manual), false,
          ToPauses(pauses))];
      return Ok(());
    }

    // The loop that ends the open pauses begun before the end and removes the others.
    static method EndOrRemoveOpen(pauses: seq<Pause>, at: int) returns (r: seq<Pause>)
      ensures r == CloseOrDrop(pauses, at)
    {
      r := [];
      for i := 0 to |pauses|
        invariant r == CloseOrDrop(pauses[..i], at)
      {
        assert pauses[..i + 1][..i] == pauses[..i];
        if pauses[i].end.Some? {
          r := r + [pauses[i]];
        } else if pauses[i].start < at {
          r := r + [pauses[i].(end := Some(at))];
        }
      }
      assert pauses[..|pauses|] == pauses;
    }

    // The pause rules of an edit: replace, end, check again, or check the left border only.
    static method EditPauses(sh: Shift, f: Fields, start: int, finish: Option<int>, changed: bool, now: int)
        returns (r: Result<seq<WorkedTime.Pause>, ShiftError>)
      requires start == NewStart(sh, f) && finish == NewFinish(sh, f)
      ensures r == NewPauses(sh, f, changed, now)
    {
      if f.pauses.Some? {
        if finish.None? {
          return Err(ValidationError);
        }
        var verdict := ValidatePauses(f.pauses.value, start, finish.value);
        return if verdict.Err? then Err(ValidationError) else Ok(ToPauses(f.pauses.value));
      }
      if finish.Some? {
        if Open(sh) {
          var ended := EndOrRemoveOpen(sh.pauses, finish.value);
          return Ok(ended);
        }
        if changed {
          var verdict := ValidatePauses(ClosedAll(sh.pauses, now), start, finish.value);
          return if verdict.Err? then Err(ValidationError) else Ok(sh.pauses);
        }
        return Ok(sh.pauses);
      }
      if changed {
        for i := 0 to |sh.pauses|
          invariant forall j :: 0 <= j < i ==> start <= sh.pauses[j].start
        {
          if sh.pauses[i].start < start {
            return Err(ValidationError);
          }
        }
      }
      return Ok(sh.pauses);
    }

    // The checks and assignments of an edit, in the order of the service.
    method EditShift(org: OrgId, id: ShiftId, f: Fields, locationOk: bool, now: int) returns (r: Result<(), ShiftError>)
      modifies this
      ensures match UpdateManual(old(shifts), org, id, f, locationOk, now)
              case Ok(s) => r == Ok(()) && shifts == s
              case Err(e) => r == Err(e) && shifts == old(shifts)
    {
      if !InOrganization(shifts, id, org) || shifts[id].deleted {
        return Err(ShiftNotFound);
      }
      var sh := shifts[id];
      var wasOpen := sh.status != Finished;
      var finishingNow := wasOpen && f.finish.Some?;
      var start := if f.start.Some? then f.start.value else sh.start;
      var finish: Option<int>;
      if finishingNow {
        finish := f.finish;
      } else if !wasOpen {
        finish := if f.finish.Some? then f.finish else sh.finish;
      } else {
        finish := None;
      }
      var changed := start != sh.start || finish != sh.finish;
      if changed {
        if !IntervalAllowed(start, finish, now) {
          return Err(ValidationError);
        }
        if HasClash(shifts, sh.user, org, start, EndOf(finish, now), Some(id)) {
          return Err(ShiftOverlap);
        }
      }
      if !locationOk {
        return Err(LocationNotFound);
      }
      var edit := EditPauses(sh, f, start, finish, changed, now);
      match edit
      case Err(e) => return Err(e);
      case Ok(pauses) =>
        sh := sh.(start := start, finish := finish, pauses := pauses);
        if finishingNow {
          sh := sh.(status := Finished, reason := Some(Manual));
        }
        shifts := shifts[id := sh];
        return Ok(());
    }

    method UpdateManualShift(org: OrgId, id: ShiftId, f: Fields, locationOk: bool, now: int)
        returns (r: Result<(), ShiftError>)
      requires Valid()
      modifies this
      ensures Valid() && DisjointExactly(old(shifts), shifts, OpUpdate(org, id, f, locationOk), now)
      ensures match UpdateManual(old(shifts), org, id, f, locationOk, now)
              case Ok(s) => r == Ok(()) && shifts == s
              case Err(e) => r == Err(e) && shifts == old(shifts)
    {
      OperationKeeps(shifts, OpUpdate(org, id, f, locationOk), now);
      r := EditShift(org, id, f, locationOk, now);
    }

    method Delete(org: OrgId, id: ShiftId, now: int) returns (r: Result<(), ShiftError>)
      requires Valid()
      modifies this
      ensures Valid() && DisjointExactly(old(shifts), shifts, OpDelete(org, id), now)
      ensures match DeleteShift(old(shifts), org, id, now)
              case Ok(s) => r == Ok(()) && shifts == s
              case Err(e) => r == Err(e) && shifts == old(shifts)
    {
      OperationKeeps(shifts, OpDelete(org, id), now);
      if !InOrganization(shifts, id, org) || shifts[id].deleted {
        return Err(ShiftNotFound);
      }
      var sh := shifts[id];
      if sh.status != Finished {
        var pauses := EndOpenPauses(sh.pauses, now);
        sh := sh.(pauses := pauses, status := Finished, finish := Some(now), reason := Some(Manual));
      }
      shifts := shifts[id := sh.(deleted := true)];
      return Ok(());
    }

    method Restore(org: OrgId, id: ShiftId, now: int) returns (r: Result<(), ShiftError>)
      requires Valid()
      modifies this
      ensures Valid() && DisjointExactly(old(shifts), shifts, OpRestore(org, id), now)
      ensures match RestoreShift(old(shifts), org, id, now)
              case Ok(s) => r == Ok(()) && shifts == s
              case Err(e) => r == Err(e) && shifts == old(shifts)
    {
      OperationKeeps(shifts, OpRestore(org, id), now);
      if !InOrganization(shifts, id, org) {
        return Err(ShiftNotFound);
      }
      var sh := shifts[id];
      if !sh.deleted {
        return Ok(());
      }
      if HasClash(shifts, sh.user, org, sh.start, EndOf(sh.finish, now), Some(id)) {
        return Err(ShiftOverlap);
      }
      shifts := shifts[id := sh.(deleted := false)];
      return Ok(());
    }
  }
}
