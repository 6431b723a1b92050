// What the shift operations write, in the fields of the rows: which row changes, to what, and
// what a pause takes off the time worked.

module ShiftEffects {
  import opened Results
  import opened WorkedTime
  import opened ShiftModel
  import opened ShiftRuns

  // Only the row of `id` is different.
  predicate OnlyRow(s: Table, s': Table, id: ShiftId) {
    id in s && s'.Keys == s.Keys && forall j :: j in s && j != id ==> s'[j] == s[j]
  }

  // The same pause, ended at the given moment if it was open.
  predicate EndedAt(before: Pause, after: Pause, at: int) {
    after.start == before.start && after.end == if before.end.Some? then before.end else Some(at)
  }

  predicate AllEndedAt(before: seq<Pause>, after: seq<Pause>, at: int) {
    |after| == |before| && forall i :: 0 <= i < |before| ==> EndedAt(before[i], after[i], at)
  }

  // ----- Pausing and resuming ------------------------------------------------------------

  // A pause adds one open pause that starts now, to an active shift of the caller that has
  // fewer pauses than allowed, personal shifts without a limit.
  lemma {:induction false} PauseWrites(s: Table, id: ShiftId, user: UserId, maxPauses: Option<nat>, now: int)
    ensures PauseShift(s, id, user, maxPauses, now).Ok? <==>
      id in s && s[id].user == user && !s[id].deleted && s[id].status == Active
      && (s[id].org == None || maxPauses == None || |s[id].pauses| < maxPauses.value)
    ensures PauseShift(s, id, user, maxPauses, now).Ok? ==>
      var s' := PauseShift(s, id, user, maxPauses, now).value;
      OnlyRow(s, s', id) && IsPaused(s[id], s'[id], now)
  {}

  // Paused: one more pause, which starts now and is open.
  predicate IsPaused(before: Shift, after: Shift, now: int) {
    after == before.(status := Paused, pauses := before.pauses + [Pause(now, None)])
  }

  // Resumed: active, and the pause that was open ends now.
  predicate IsResumed(before: Shift, after: Shift, now: int) {
    && after == before.(status := Active, pauses := after.pauses)
    && AllEndedAt(before.pauses, after.pauses, now)
    && exists k :: 0 <= k < |before.pauses| && before.pauses[k].end == None
  }

  // Where the one open pause of a paused shift is.
  lemma {:induction false} OpenPause(ps: seq<Pause>) returns (k: nat)
    requires OpenCount(ps) == 1
    ensures k < |ps| && ps[k].end == None && forall i :: 0 <= i < |ps| && i != k ==> ps[i].end != None
    decreases |ps|
  {
    var n := |ps| - 1;
    if ps[n].end.None? {
      k := n;
      NoneOpen(ps[..n]);
      forall i | 0 <= i < n ensures ps[i].end != None {
        assert ps[..n][i] == ps[i];
      }
    } else {
      k := OpenPause(ps[..n]);
      forall i | 0 <= i < |ps| && i != k ensures ps[i].end != None {
        assert i < n ==> ps[..n][i] == ps[i];
      }
    }
  }

  // A resume ends the pause that was open, now; it keeps its start, and the rest stays.
  lemma {:induction false} ResumeWrites(s: Table, id: ShiftId, user: UserId, now: int)
    requires Lawful(s)
    ensures ResumeShift(s, id, user, now).Ok? <==>
      id in s && s[id].user == user && !s[id].deleted && s[id].status == Paused
    ensures ResumeShift(s, id, user, now).Ok? ==>
      var s' := ResumeShift(s, id, user, now).value;
      OnlyRow(s, s', id) && IsResumed(s[id], s'[id], now)
  {
    if ResumeShift(s, id, user, now).Ok? {
      assert ShiftOk(s[id]);
      var k := OpenPause(s[id].pauses);
      FirstIsOpen(s[id].pauses, k, now);
    }
  }

  lemma {:induction false} FirstIsOpen(ps: seq<Pause>, k: nat, now: int)
    requires k < |ps| && ps[k].end == None && forall i :: 0 <= i < |ps| && i != k ==> ps[i].end != None
    ensures FirstOpen(ps, None, now) == k
  {
    var j := FirstOpen(ps, None, now);
    assert j <= k;
  }

  // The pauses of an active shift are all closed, so a pause and a resume add exactly [a, b).
  lemma {:induction false} BreakIsAdded(before: Shift, paused: Shift, after: Shift, a: int, b: int)
    requires ShiftOk(before) && before.status == Active && IsPaused(before, paused, a) && IsResumed(paused, after, b)
    ensures after == before.(pauses := before.pauses + [Pause(a, Some(b))])
    ensures forall i :: 0 <= i < |before.pauses| ==> before.pauses[i].end != None
  {
    NoneOpen(before.pauses);
    var n := |before.pauses|;
    forall i | 0 <= i < n ensures after.pauses[i] == before.pauses[i] {
      assert EndedAt(paused.pauses[i], after.pauses[i], b);
    }
    assert EndedAt(paused.pauses[n], after.pauses[n], b);
    assert after.pauses == before.pauses + [Pause(a, Some(b))];
  }

  lemma {:induction false} OneMorePause(ps: seq<Pause>, p: Pause, t: int)
    ensures TotalLength(ClosedAll(ps + [p], t)) == TotalLength(ClosedAll(ps, t)) + EndOf(p.end, t) - p.start
  {
    ClosedNext(ps + [p], |ps|, t);
    assert (ps + [p])[..|ps|] == ps && (ps + [p])[..|ps| + 1] == ps + [p];
  }

  // A pause at `a` and the resume at `b` take b - a off the time worked, at every later moment.
  lemma {:induction false} BreakIsNotWorked(s: Table, id: ShiftId, user: UserId, maxPauses: Option<nat>, a: int,
      b: int, t: int)
    requires Lawful(s) && PauseShift(s, id, user, maxPauses, a).Ok?
    ensures var s1 := PauseShift(s, id, user, maxPauses, a).value;
      && ResumeShift(s1, id, user, b).Ok?
      && var sh := ResumeShift(s1, id, user, b).value[id];
      && sh == s[id].(pauses := s[id].pauses + [Pause(a, Some(b))]) && sh.finish == None
      && WorkedSeconds(sh.start, sh.finish, sh.pauses, t)
           == AtLeastZero(t - s[id].start - TotalLength(ClosedAll(s[id].pauses, t)) - (b - a))
  {
    BreakIsOnePause(s, id, user, maxPauses, a, b);
    OneMorePause(s[id].pauses, Pause(a, Some(b)), t);
    assert ShiftOk(s[id]);
  }

  lemma {:induction false} BreakIsOnePause(s: Table, id: ShiftId, user: UserId, maxPauses: Option<nat>, a: int, b: int)
    requires Lawful(s) && PauseShift(s, id, user, maxPauses, a).Ok?
    ensures var s1 := PauseShift(s, id, user, maxPauses, a).value;
      && ResumeShift(s1, id, user, b).Ok?
      && ResumeShift(s1, id, user, b).value[id] == s[id].(pauses := s[id].pauses + [Pause(a, Some(b))])
  {
    var s1 := PauseShift(s, id, user, maxPauses, a).value;
    PauseWrites(s, id, user, maxPauses, a);
    PauseKeepsLawful(s, id, user, maxPauses, a);
    ResumeWrites(s1, id, user, b);
    assert ShiftOk(s[id]);
    BreakIsAdded(s[id], s1[id], ResumeShift(s1, id, user, b).value[id], a, b);
  }

  lemma {:induction false} PauseKeepsLawful(s: Table, id: ShiftId, user: UserId, maxPauses: Option<nat>, now: int)
    requires Lawful(s) && PauseShift(s, id, user, maxPauses, now).Ok?
    ensures Lawful(PauseShift(s, id, user, maxPauses, now).value)
  {
    ApplyLawful(s, OpPause(id, user, maxPauses), now);
  }

  function AtLeastZero(n: int): int {
    if n < 0 then 0 else n
  }

  // ----- Finishing -----------------------------------------------------------------------

  // What finishing a shift at a moment leaves: its end and that of its open pauses.
  predicate FinishedAt(before: Shift, after: Shift, at: int, reason: FinishReason) {
    && after == before.(status := Finished, finish := Some(at), reason := Some(reason), pauses := after.pauses)
    && AllEndedAt(before.pauses, after.pauses, at)
  }

  // The own finish ends the shift and its open pauses now.
  lemma {:induction false} FinishWrites(s: Table, id: ShiftId, user: UserId, now: int)
    ensures FinishShift(s, id, user, now).Ok? <==>
      id in s && s[id].user == user && !s[id].deleted && s[id].status != Finished
    ensures FinishShift(s, id, user, now).Ok? ==>
      var s' := FinishShift(s, id, user, now).value;
      OnlyRow(s, s', id) && FinishedAt(s[id], s'[id], now, Manual)
  {}

  // A shift is finished automatically exactly if it is live and open, belongs to an
  // organisation that has not switched this off, and its planned end has come; then at that
  // planned end, however late the job runs.
  predicate AutoEnded(before: Shift, after: Shift, user: Option<UserId>, settings: map<OrgId, bool>, now: int) {
    if before.status != Finished && !before.deleted && (user == None || user == Some(before.user))
       && before.org != None && !(before.org.value in settings && !settings[before.org.value])
       && before.scheduledEnd != None && before.scheduledEnd.value <= now
    then FinishedAt(before, after, before.scheduledEnd.value, AutoSchedule)
    else after == before
  }

  lemma {:induction false} AutoFinishWrites(s: Table, user: Option<UserId>, settings: map<OrgId, bool>, now: int)
    ensures var s' := AutoFinish(s, user, settings, now);
      s'.Keys == s.Keys && forall id :: id in s ==> AutoEnded(s[id], s'[id], user, settings, now)
  {}

  // A pause that has lasted longer than its organisation allows ends exactly that many minutes
  // after its start, and the shift is active again; no other shift changes.
  predicate LongPauseEnded(before: Shift, after: Shift, maxMinutes: map<OrgId, nat>, now: int) {
    if before.status == Paused && before.org != None && before.org.value in maxMinutes
       && exists k :: 0 <= k < |before.pauses| && before.pauses[k].end == None
            && 60 * maxMinutes[before.org.value] < now - before.pauses[k].start
    then
      && after == before.(status := Active, pauses := after.pauses) && |after.pauses| == |before.pauses|
      && forall i :: 0 <= i < |before.pauses| ==>
           EndedAt(before.pauses[i], after.pauses[i], before.pauses[i].start + 60 * maxMinutes[before.org.value])
    else after == before
  }

  lemma {:induction false} LongPauseOfShift(sh: Shift, maxMinutes: map<OrgId, nat>, now: int)
    requires ShiftOk(sh)
    ensures LongPauseEnded(sh, EndLongPause(sh, maxMinutes, now), maxMinutes, now)
  {
    if sh.status == Paused && sh.org.Some? && sh.org.value in maxMinutes {
      var limit := maxMinutes[sh.org.value] * 60;
      var k := OpenPause(sh.pauses);
      LongIsOpen(sh.pauses, k, limit, now);
    }
  }

  lemma {:induction false} LongPauseWrites(s: Table, maxMinutes: map<OrgId, nat>, now: int)
    requires Lawful(s)
    ensures var s' := EndLongPauses(s, maxMinutes, now);
      s'.Keys == s.Keys && forall id :: id in s ==> LongPauseEnded(s[id], s'[id], maxMinutes, now)
  {
    forall id | id in s ensures LongPauseEnded(s[id], EndLongPause(s[id], maxMinutes, now), maxMinutes, now) {
      LongPauseOfShift(s[id], maxMinutes, now);
    }
  }

  lemma {:induction false} LongIsOpen(ps: seq<Pause>, k: nat, limit: int, now: int)
    requires k < |ps| && ps[k].end == None && forall i :: 0 <= i < |ps| && i != k ==> ps[i].end != None
    ensures FirstOpen(ps, Some(limit), now) == if limit < now - ps[k].start then k else |ps|
  {
    var j := FirstOpen(ps, Some(limit), now);
    if limit < now - ps[k].start {
      assert j <= k;
    }
  }

  // ----- Starting ------------------------------------------------------------------------

  // Still open after the planned ends that have come are taken as ends.
  predicate StillOpen(sh: Shift, settings: map<OrgId, bool>, now: int) {
    && sh.status != Finished && !sh.deleted
    && !(sh.org != None && (sh.org.value in settings ==> settings[sh.org.value])
         && sh.scheduledEnd != None && sh.scheduledEnd.value <= now)
  }

  // A start is accepted exactly if admission is granted and the user has no shift of that
  // context still open; the new shift starts now, without an end or a pause.
  lemma {:induction false} StartWrites(s: Table, id: ShiftId, user: UserId, org: Option<OrgId>,
      settings: map<OrgId, bool>, admission: Result<Option<int>, ShiftError>, now: int)
    requires id !in s
    ensures Start(s, id, user, org, settings, admission, now).Ok? <==>
      admission.Ok? && forall j :: j in s && s[j].user == user && s[j].org == org ==> !StillOpen(s[j], settings, now)
    ensures Start(s, id, user, org, settings, admission, now).Ok? ==>
      var s' := Start(s, id, user, org, settings, admission, now).value;
      && s'.Keys == s.Keys + {id}
      && s'[id] == Shift(user, org, Active, now, None, admission.value, None, false, [])
      && forall j :: j in s ==> s'[j] == AutoFinish(s, Some(user), settings, now)[j]
  {
    var s1 := AutoFinish(s, Some(user), settings, now);
    forall j | j in s && s[j].user == user && s[j].org == org
      ensures Open(s1[j]) && !s1[j].deleted <==> StillOpen(s[j], settings, now)
    {}
    if HasOpen(s1, user, org) {
      var j :| j in s1 && InContext(s1[j], user, org) && Open(s1[j]) && !s1[j].deleted;
      assert StillOpen(s[j], settings, now);
    }
    if j :| j in s && s[j].user == user && s[j].org == org && StillOpen(s[j], settings, now) {
      assert InContext(s1[j], user, org);
    }
  }

  // ----- Manual entries ------------------------------------------------------------------

  // The live shift of the member in the organisation has a second in [start, finish); an open
  // one has no end.
  predicate MeetsRow(sh: Shift, user: UserId, org: OrgId, start: int, finish: int) {
    && sh.user == user && sh.org == Some(org) && !sh.deleted
    && sh.start < finish && (sh.finish != None ==> start < sh.finish.value)
  }

  predicate Meets(s: Table, user: UserId, org: OrgId, start: int, finish: int, except: Option<ShiftId>) {
    exists j :: j in s && except != Some(j) && MeetsRow(s[j], user, org, start, finish)
  }

  lemma {:induction false} ClashIsMeeting(s: Table, user: UserId, org: OrgId, start: int, finish: int,
      except: Option<ShiftId>)
    ensures HasClash(s, user, org, start, finish, except) <==> Meets(s, user, org, start, finish, except)
  {
    forall j | j in s ensures Clashes(s[j], user, org, start, finish) <==> MeetsRow(s[j], user, org, start, finish) {}
  }

  // At most 48 hours, and no bound more than a minute ahead of the clock.
  predicate InBounds(start: int, finish: int, now: int) {
    0 < finish - start <= 172800 && start - now <= 60 && finish - now <= 60
  }

  // The pauses lie inside, apart from each other, and leave time to work.
  predicate LeavesWork(ps: seq<Interval>, start: int, finish: int) {
    && (forall i :: 0 <= i < |ps| ==> start <= ps[i].start < ps[i].end <= finish)
    && (forall i, j :: 0 <= i < |ps| && 0 <= j < |ps| && i != j ==>
        ps[i].end <= ps[j].start || ps[j].end <= ps[i].start)
    && TotalLength(ps) < finish - start
  }

  lemma {:induction false} FitIsLeavingWork(ps: seq<Interval>, start: int, finish: int)
    ensures PausesFit(ps, start, finish) <==> LeavesWork(ps, start, finish)
  {
    if PausesFit(ps, start, finish) {
      forall i | 0 <= i < |ps| ensures start <= ps[i].start < ps[i].end <= finish {
        assert Inside(ps[i], start, finish);
      }
      forall i, j | 0 <= i < |ps| && 0 <= j < |ps| && i != j
        ensures ps[i].end <= ps[j].start || ps[j].end <= ps[i].start
      {
        assert i < j ==> Disjoint(ps[i], ps[j]);
        assert j < i ==> Disjoint(ps[j], ps[i]);
      }
    }
  }

  // A pause of the list, as the row holds it.
  predicate ArePauses(ps: seq<Interval>, pauses: seq<Pause>) {
    |pauses| == |ps| && forall i :: 0 <= i < |ps| ==> pauses[i].start == ps[i].start && pauses[i].end == Some(ps[i].end)
  }

  lemma {:induction false} CreateWrites(s: Table, id: ShiftId, org: OrgId, user: UserId, isMember: bool, start: int,
      finish: int, pauses: seq<Interval>, locationOk: bool, scheduledEnd: Option<int>, now: int)
    requires id !in s
    ensures var r := CreateManual(s, id, org, user, isMember, start, finish, pauses, locationOk, scheduledEnd, now);
      && (r.Ok? <==> isMember && InBounds(start, finish, now) && LeavesWork(pauses, start, finish) && locationOk
                     && !Meets(s, user, org, start, finish, None))
      && (r.Ok? ==>
            && r.value == s[id := r.value[id]] && ArePauses(pauses, r.value[id].pauses)
            && r.value[id] == Shift(user, Some(org), Finished, start, Some(finish), scheduledEnd, Some(Manual), false,
                                    r.value[id].pauses))
  {
    ClashIsMeeting(s, user, org, start, finish, None);
    FitIsLeavingWork(pauses, start, finish);
  }

  // A deletion marks the row; an open shift is finished first, now.
  lemma {:induction false} DeleteWrites(s: Table, org: OrgId, id: ShiftId, now: int)
    ensures DeleteShift(s, org, id, now).Ok? <==> id in s && s[id].org == Some(org) && !s[id].deleted
    ensures DeleteShift(s, org, id, now).Ok? ==>
      var s' := DeleteShift(s, org, id, now).value;
      && OnlyRow(s, s', id) && s'[id].deleted
      && if s[id].status == Finished then s'[id] == s[id].(deleted := true)
         else FinishedAt(s[id], s'[id].(deleted := false), now, Manual)
  {}

  // A restored shift is as it was before its deletion, unless it would meet another one.
  lemma {:induction false} RestoreWrites(s: Table, org: OrgId, id: ShiftId, now: int)
    requires Lawful(s)
    ensures RestoreShift(s, org, id, now).Ok? <==>
      id in s && s[id].org == Some(org)
      && (s[id].deleted ==> s[id].finish != None && !Meets(s, s[id].user, org, s[id].start, s[id].finish.value,
          Some(id)))
    ensures RestoreShift(s, org, id, now).Ok? ==>
      var s' := RestoreShift(s, org, id, now).value;
      OnlyRow(s, s', id) && s'[id] == s[id].(deleted := false)
  {
    if id in s {
      assert ShiftOk(s[id]);
      ClashIsMeeting(s, s[id].user, org, s[id].start, EndOf(s[id].finish, now), Some(id));
    }
  }

  // ----- Manual corrections --------------------------------------------------------------

  // The pauses of an open shift that a correction finishes: one that was open ends with the
  // shift, and is gone if it had not begun by then; the others stay.
  lemma {:induction false} CloseOrDropKeeps(ps: seq<Pause>, at: int)
    ensures forall p :: p in CloseOrDrop(ps, at) <==>
      exists q :: q in ps && (if q.end != None then p == q else q.start < at && p == Pause(q.start, Some(at)))
    decreases |ps|
  {
    if ps != [] {
      var front, last := ps[..|ps| - 1], ps[|ps| - 1];
      CloseOrDropKeeps(front, at);
      assert ps == front + [last];
      forall p ensures p in CloseOrDrop(ps, at) <==>
        exists q :: q in ps && (if q.end != None then p == q else q.start < at && p == Pause(q.start, Some(at)))
      {
        if p in CloseOrDrop(front, at) {
          var q :| q in front && (if q.end != None then p == q else q.start < at && p == Pause(q.start, Some(at)));
          assert q in ps;
        } else if p in CloseOrDrop(ps, at) {
          assert last in ps;
        }
      }
    }
  }

  // The pauses after an accepted correction.
  ghost predicate CorrectedPauses(before: seq<Pause>, given: Option<seq<Interval>>, wasOpen: bool, finish: Option<int>,
      after: seq<Pause>)
  {
    if given != None then finish != None && ArePauses(given.value, after)
    else if wasOpen && finish != None then
      forall p :: p in after <==>
        exists q :: q in before
          && if q.end != None then p == q else q.start < finish.value && p == Pause(q.start, Some(finish.value))
    else after == before
  }

  // What a correction must respect, in the bounds that it leaves the shift with.
  predicate Acceptable(s: Table, id: ShiftId, start: int, finish: Option<int>, now: int)
    requires id in s && s[id].org != None
  {
    && (if finish != None then InBounds(start, finish.value, now) else start - now <= 60)
    && !Meets(s, s[id].user, s[id].org.value, start, if finish != None then finish.value else now, Some(id))
  }

  // An accepted correction changes exactly the bounds given and the pauses; an open shift is
  // finished exactly if an end is given. The bounds are checked exactly if one of them moves.
  lemma {:induction false} UpdateWrites(s: Table, org: OrgId, id: ShiftId, f: Fields, locationOk: bool, now: int)
    requires UpdateManual(s, org, id, f, locationOk, now).Ok?
    ensures id in s && s[id].org == Some(org) && !s[id].deleted && locationOk
    ensures var s' := UpdateManual(s, org, id, f, locationOk, now).value;
      var before, after := s[id], s'[id];
      && OnlyRow(s, s', id)
      && after == before.(start := after.start, finish := after.finish, pauses := after.pauses,
                          status := after.status, reason := after.reason)
      && after.start == (if f.start != None then f.start.value else before.start)
      && after.finish == (if f.finish != None then f.finish else if before.status == Finished then before.finish
          else None)
      && (after.status != before.status <==> before.status != Finished && f.finish != None)
      && (after.status != before.status ==> after.status == Finished && after.reason == Some(Manual))
      && (after.status == before.status ==> after.reason == before.reason)
      && CorrectedPauses(before.pauses, f.pauses, before.status != Finished, after.finish, after.pauses)
      && (after.start != before.start || after.finish != before.finish ==>
            Acceptable(s, id, after.start, after.finish, now))
  {
    var sh := s[id];
    var start, finish := NewStart(sh, f), NewFinish(sh, f);
    ClashIsMeeting(s, sh.user, org, start, EndOf(finish, now), Some(id));
    if finish.Some? {
      CloseOrDropKeeps(sh.pauses, finish.value);
    }
  }

  // And it is refused exactly for one of these reasons: the row, the bounds, another shift, the
  // location, or pauses that do not fit.
  lemma {:induction false} UpdateRefusesExactly(s: Table, org: OrgId, id: ShiftId, f: Fields, locationOk: bool,
      now: int)
    requires id in s && s[id].org == Some(org) && !s[id].deleted
    ensures UpdateManual(s, org, id, f, locationOk, now).Err? <==>
      var start := if f.start != None then f.start.value else s[id].start;
      var finish := if f.finish != None then f.finish else if s[id].status == Finished then s[id].finish else None;
      var moved := start != s[id].start || finish != s[id].finish;
      || (moved && !Acceptable(s, id, start, finish, now))
      || !locationOk
      || (f.pauses != None && (finish == None || !LeavesWork(f.pauses.value, start, finish.value)))
      || (f.pauses == None && moved && finish != None && s[id].status == Finished
          && !LeavesWork(ClosedAll(s[id].pauses, now), start, finish.value))
      || (f.pauses == None && moved && finish == None
          && exists i :: 0 <= i < |s[id].pauses| && s[id].pauses[i].start < start)
  {
    var sh := s[id];
    var start, finish := NewStart(sh, f), NewFinish(sh, f);
    ClashIsMeeting(s, sh.user, org, start, EndOf(finish, now), Some(id));
    if finish.Some? {
      FitIsLeavingWork(ClosedAll(sh.pauses, now), start, finish.value);
      if f.pauses.Some? {
        FitIsLeavingWork(f.pauses.value, start, finish.value);
      }
    }
  }
}
