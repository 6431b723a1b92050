// Shifts as values: what each service operation does to the table of shifts. The class that
// performs the operations in place is in ShiftStore.dfy, the properties are in ShiftRuns.dfy.

module ShiftModel {
  import opened Results
  import opened WorkedTime

  type ShiftId = nat
  type UserId = nat
  type OrgId = nat

  datatype Status = Active | Paused | Finished

  datatype FinishReason = Manual | AutoSchedule

  datatype Shift = Shift(
    user: UserId,
    org: Option<OrgId>,
    status: Status,
    start: int,
    finish: Option<int>,
    scheduledEnd: Option<int>,
    reason: Option<FinishReason>,
    deleted: bool,
    pauses: seq<Pause>)

  type Table = map<ShiftId, Shift>

  datatype ShiftError =
    | ShiftNotFound | ShiftNotActive | ShiftNotPaused | ShiftAlreadyActive | ShiftAlreadyFinished
    | MaxPausesReached | MemberNotFound | LocationNotFound | ValidationError | ShiftOverlap
    | AdmissionRefused

  const MAX_SHIFT_SECONDS := 48 * 3600
  const CLOCK_SKEW := 60

  // ----- Pauses --------------------------------------------------------------------------

  function OpenCount(ps: seq<Pause>): nat {
    if ps == [] then 0 else OpenCount(ps[..|ps| - 1]) + if ps[|ps| - 1].end.None? then 1 else 0
  }

  function CloseOpen(ps: seq<Pause>, at: int): (r: seq<Pause>)
    ensures |r| == |ps|
    ensures forall i :: 0 <= i < |ps| ==> r[i] == if ps[i].end.None? then ps[i].(end := Some(at)) else ps[i]
  {
    if ps == [] then []
    else
      var p := ps[|ps| - 1];
      CloseOpen(ps[..|ps| - 1], at) + [if p.end.None? then p.(end := Some(at)) else p]
  }

  // Close the open pauses that began before `at`, drop the open pauses that did not.
  function CloseOrDrop(ps: seq<Pause>, at: int): seq<Pause> {
    if ps == [] then []
    else
      var p := ps[|ps| - 1];
      CloseOrDrop(ps[..|ps| - 1], at)
      + (if p.end.Some? then [p] else if p.start < at then [p.(end := Some(at))] else [])
  }

  // The first pause that is open and began more than `limit` seconds before `now`; with no
  // limit the first open pause. The length of the list when there is none.
  function FirstOpen(ps: seq<Pause>, limit: Option<int>, now: int): (k: nat)
    ensures k <= |ps|
    ensures k < |ps| ==> ps[k].end.None? && (limit.Some? ==> now - ps[k].start > limit.value)
    ensures forall i :: 0 <= i < k ==> ps[i].end.Some? || (limit.Some? && now - ps[i].start <= limit.value)
  {
    if ps == [] || (ps[0].end.None? && (limit.None? || now - ps[0].start > limit.value)) then 0
    else 1 + FirstOpen(ps[1..], limit, now)
  }

  function CloseAt(ps: seq<Pause>, k: nat, at: int): seq<Pause> {
    if k < |ps| then ps[k := ps[k].(end := Some(at))] else ps
  }

  function ToPauses(ps: seq<Interval>): (r: seq<Pause>)
    ensures |r| == |ps| && forall i :: 0 <= i < |ps| ==> r[i] == Pause(ps[i].start, Some(ps[i].end))
  {
    if ps == [] then [] else ToPauses(ps[..|ps| - 1]) + [Pause(ps[|ps| - 1].start, Some(ps[|ps| - 1].end))]
  }

  // ----- Own operations of an employee ---------------------------------------------------

  predicate Open(sh: Shift) {
    sh.status != Finished
  }

  predicate InContext(sh: Shift, user: UserId, org: Option<OrgId>) {
    sh.user == user && sh.org == org
  }

  predicate SameContext(a: Shift, b: Shift) {
    a.user == b.user && a.org == b.org
  }

  predicate HasOpen(s: Table, user: UserId, org: Option<OrgId>) {
    exists id :: id in s && InContext(s[id], user, org) && Open(s[id]) && !s[id].deleted
  }

  // An organisation without a settings row auto-finishes.
  predicate AutoFinishEnabled(settings: map<OrgId, bool>, org: OrgId) {
    org in settings ==> settings[org]
  }

  predicate Stale(sh: Shift, settings: map<OrgId, bool>, now: int) {
    && Open(sh) && !sh.deleted
    && sh.org.Some? && sh.scheduledEnd.Some? && sh.scheduledEnd.value <= now
    && AutoFinishEnabled(settings, sh.org.value)
  }

  function Finish(sh: Shift, at: int, reason: FinishReason): Shift {
    sh.(status := Finished, finish := Some(at), reason := Some(reason), pauses := CloseOpen(sh.pauses, at))
  }

  function AutoFinished(sh: Shift): Shift
    requires sh.scheduledEnd.Some?
  {
    Finish(sh, sh.scheduledEnd.value, AutoSchedule)
  }

  // The stale shifts of one user, or of everyone for the background job.
  function AutoFinish(s: Table, user: Option<UserId>, settings: map<OrgId, bool>, now: int): Table {
    map id | id in s ::
      if (user.None? || s[id].user == user.value) && Stale(s[id], settings, now) then AutoFinished(s[id]) else s[id]
  }

  // `admission` is the outcome of the location and schedule checks: the scheduled end, if any.
  function Start(s: Table, id: ShiftId, user: UserId, org: Option<OrgId>, settings: map<OrgId, bool>,
      admission: Result<Option<int>, ShiftError>, now: int): Result<Table, ShiftError>
  {
    var s1 := AutoFinish(s, Some(user), settings, now);
    if HasOpen(s1, user, org) then Err(ShiftAlreadyActive)
    else
      match admission
      case Err(e) => Err(e)
      case Ok(scheduledEnd) => Ok(s1[id := Shift(user, org, Active, now, None, scheduledEnd, None, false, [])])
  }

  predicate Owned(s: Table, id: ShiftId, user: UserId) {
    id in s && s[id].user == user && !s[id].deleted
  }

  function PauseShift(s: Table, id: ShiftId, user: UserId, maxPauses: Option<nat>,
      now: int): Result<Table, ShiftError>
  {
    if !Owned(s, id, user) then Err(ShiftNotFound)
    else if s[id].status != Active then Err(ShiftNotActive)
    else if s[id].org.Some? && maxPauses.Some? && |s[id].pauses| >= maxPauses.value then Err(MaxPausesReached)
    else Ok(s[id := s[id].(status := Paused, pauses := s[id].pauses + [Pause(now, None)])])
  }

  function ResumeShift(s: Table, id: ShiftId, user: UserId, now: int): Result<Table, ShiftError> {
    if !Owned(s, id, user) then Err(ShiftNotFound)
    else if s[id].status != Paused then Err(ShiftNotPaused)
    else
      var ps := s[id].pauses;
      Ok(s[id := s[id].(status := Active, pauses := CloseAt(ps, FirstOpen(ps, None, now), now))])
  }

  function FinishShift(s: Table, id: ShiftId, user: UserId, now: int): Result<Table, ShiftError> {
    if !Owned(s, id, user) then Err(ShiftNotFound)
    else if s[id].status == Finished then Err(ShiftAlreadyFinished)
    else Ok(s[id := Finish(s[id], now, Manual)])
  }

  // The background job that ends pauses longer than the organisation allows.
  function EndLongPause(sh: Shift, maxMinutes: map<OrgId, nat>, now: int): Shift {
    if sh.status == Paused && sh.org.Some? && !sh.deleted && sh.org.value in maxMinutes then
      var limit := maxMinutes[sh.org.value] * 60;
      var k := FirstOpen(sh.pauses, Some(limit), now);
      if k < |sh.pauses| then sh.(status := Active, pauses := CloseAt(sh.pauses, k, sh.pauses[k].start + limit)) else sh
    else sh
  }

  function EndLongPauses(s: Table, maxMinutes: map<OrgId, nat>, now: int): Table {
    map id | id in s :: EndLongPause(s[id], maxMinutes, now)
  }

  // ----- Manual edits by an administrator ------------------------------------------------

  predicate ValidInterval(start: int, finish: int, now: int) {
    && start < finish
    && finish - start <= MAX_SHIFT_SECONDS
    && start <= now + CLOCK_SKEW
    && finish <= now + CLOCK_SKEW
  }

  // The overlap query: a live shift of the member in the organisation that starts before the
  // end and is open or ends after the start.
  predicate Clashes(sh: Shift, user: UserId, org: OrgId, start: int, finish: int) {
    && InContext(sh, user, Some(org)) && !sh.deleted
    && sh.start < finish
    && (sh.finish.None? || sh.finish.value > start)
  }

  predicate HasClash(s: Table, user: UserId, org: OrgId, start: int, finish: int, exclude: Option<ShiftId>) {
    exists id :: id in s && exclude != Some(id) && Clashes(s[id], user, org, start, finish)
  }

  function CreateManual(s: Table, id: ShiftId, org: OrgId, user: UserId, isMember: bool, start: int, finish: int,
      pauses: seq<Interval>, locationOk: bool, scheduledEnd: Option<int>, now: int): Result<Table, ShiftError>
  {
    if !isMember then Err(MemberNotFound)
    else if !ValidInterval(start, finish, now) then Err(ValidationError)
    else if !PausesFit(pauses, start, finish) then Err(ValidationError)
    else if !locationOk then Err(LocationNotFound)
    else if HasClash(s, user, org, start, finish, None) then Err(ShiftOverlap)
    else Ok(s[id := Shift(user, Some(org), Finished, start, Some(finish), scheduledEnd, Some(Manual), false,
        ToPauses(pauses))])
  }

  predicate InOrganization(s: Table, id: ShiftId, org: OrgId) {
    id in s && s[id].org == Some(org)
  }

  // The fields of the edit request that the shift itself depends on; None is "not given".
  datatype Fields = Fields(start: Option<int>, finish: Option<int>, pauses: Option<seq<Interval>>)

  function NewStart(sh: Shift, f: Fields): int {
    match f.start case Some(v) => v case None => sh.start
  }

  // An open shift stays open unless the request gives an end.
  function NewFinish(sh: Shift, f: Fields): Option<int> {
    if f.finish.Some? then f.finish else if Open(sh) then None else sh.finish
  }

  // The edit's pause rules, in the order of cases of update_manual_shift.
  function NewPauses(sh: Shift, f: Fields, changed: bool, now: int): Result<seq<Pause>, ShiftError> {
    var start, finish := NewStart(sh, f), NewFinish(sh, f);
    if f.pauses.Some? then
      if finish.None? || !PausesFit(f.pauses.value, start, finish.value) then Err(ValidationError)
      else Ok(ToPauses(f.pauses.value))
    else if finish.Some? then
      if Open(sh) then Ok(CloseOrDrop(sh.pauses, finish.value))
      else if changed && !PausesFit(ClosedAll(sh.pauses, now), start, finish.value) then Err(ValidationError)
      else Ok(sh.pauses)
    else if changed && exists i :: 0 <= i < |sh.pauses| && sh.pauses[i].start < start then Err(ValidationError)
    else Ok(sh.pauses)
  }

  predicate IntervalAllowed(start: int, finish: Option<int>, now: int) {
    match finish
    case Some(f) => ValidInterval(start, f, now)
    case None => start <= now + CLOCK_SKEW
  }

  function UpdateManual(s: Table, org: OrgId, id: ShiftId, f: Fields, locationOk: bool,
      now: int): Result<Table, ShiftError>
  {
    if !InOrganization(s, id, org) || s[id].deleted then Err(ShiftNotFound)
    else
      var sh := s[id];
      var start, finish := NewStart(sh, f), NewFinish(sh, f);
      var changed := start != sh.start || finish != sh.finish;
      if changed && !IntervalAllowed(start, finish, now) then Err(ValidationError)
      else if changed && HasClash(s, sh.user, org, start, EndOf(finish, now), Some(id)) then Err(ShiftOverlap)
      else if !locationOk then Err(LocationNotFound)
      else
        match NewPauses(sh, f, changed, now)
        case Err(e) => Err(e)
        case Ok(ps) =>
          var edited := sh.(start := start, finish := finish, pauses := ps);
          Ok(s[id := if Open(sh) && finish.Some? then edited.(status := Finished, reason := Some(Manual)) else edited])
  }

  function DeleteShift(s: Table, org: OrgId, id: ShiftId, now: int): Result<Table, ShiftError> {
    if !InOrganization(s, id, org) || s[id].deleted then Err(ShiftNotFound)
    else
      var sh := if Open(s[id]) then Finish(s[id], now, Manual) else s[id];
      Ok(s[id := sh.(deleted := true)])
  }

  function RestoreShift(s: Table, org: OrgId, id: ShiftId, now: int): Result<Table, ShiftError> {
    if !InOrganization(s, id, org) then Err(ShiftNotFound)
    else if !s[id].deleted then Ok(s)
    else if HasClash(s, s[id].user, org, s[id].start, EndOf(s[id].finish, now), Some(id)) then Err(ShiftOverlap)
    else Ok(s[id := s[id].(deleted := false)])
  }
}
