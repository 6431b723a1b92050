// Rate history of organisation members: look-up by bisection, and writes to the history with
// the exact set of moments whose rate they change.

module Rates {
  import opened Results
  import opened Sorting

  type MemberId = nat
  type RateId = nat

  datatype RateType = Hourly | PerShift

  datatype Rate = Rate(effectiveFrom: int, rateType: RateType, amount: int)

  datatype RateRow = RateRow(member: MemberId, rate: Rate)

  type RateTable = map<RateId, RateRow>

  // ----- Look-up -------------------------------------------------------------------------

  predicate Ascending(rates: seq<Rate>) {
    forall i, j :: 0 <= i < j < |rates| ==> rates[i].effectiveFrom < rates[j].effectiveFrom
  }

  // bisect_right on the starts of the rates, by halving.
  function BisectRight(rates: seq<Rate>, moment: int, lo: nat, hi: nat): (k: nat)
    requires Ascending(rates) && lo <= hi <= |rates|
    requires forall i :: 0 <= i < lo ==> rates[i].effectiveFrom <= moment
    requires forall i :: hi <= i < |rates| ==> moment < rates[i].effectiveFrom
    ensures k <= |rates|
    ensures forall i :: 0 <= i < k ==> rates[i].effectiveFrom <= moment
    ensures forall i :: k <= i < |rates| ==> moment < rates[i].effectiveFrom
    decreases hi - lo
  {
    if lo == hi then lo
    else
      var mid := (lo + hi) / 2;
      if moment < rates[mid].effectiveFrom then BisectRight(rates, moment, lo, mid)
      else BisectRight(rates, moment, mid + 1, hi)
  }

  // _rate_for_moment: the rate with the greatest start not after the moment, if any.
  function RateForMoment(rates: seq<Rate>, moment: int): (r: Option<Rate>)
    requires Ascending(rates)
    ensures r.None? <==> forall q :: q in rates ==> moment < q.effectiveFrom
    ensures r.Some? ==> r.value in rates && r.value.effectiveFrom <= moment
    ensures r.Some? ==> forall q :: q in rates && q.effectiveFrom <= moment ==> q.effectiveFrom <= r.value.effectiveFrom
  {
    var k := BisectRight(rates, moment, 0, |rates|);
    if k == 0 then None
    else
      assert rates[k - 1] in rates;
      Some(rates[k - 1])
  }

  // At most one rate per start, so the answer is determined by the set of rates.
  lemma {:induction false} RateIsDetermined(rates: seq<Rate>, moment: int, q: Rate)
    requires Ascending(rates) && q in rates && q.effectiveFrom <= moment
    requires forall p :: p in rates && p.effectiveFrom <= moment ==> p.effectiveFrom <= q.effectiveFrom
    ensures RateForMoment(rates, moment) == Some(q)
  {
    var r := RateForMoment(rates, moment).value;
    assert r.effectiveFrom == q.effectiveFrom;
    SameStartSameRate(rates, r, q);
  }

  lemma {:induction false} SameStartSameRate(rates: seq<Rate>, p: Rate, q: Rate)
    requires Ascending(rates) && p in rates && q in rates && p.effectiveFrom == q.effectiveFrom
    ensures p == q
  {
    var i :| 0 <= i < |rates| && rates[i] == p;
    var j :| 0 <= j < |rates| && rates[j] == q;
    if i < j {
      assert rates[i].effectiveFrom < rates[j].effectiveFrom;
    } else if j < i {
      assert rates[j].effectiveFrom < rates[i].effectiveFrom;
    }
  }

  // ----- The history of one member -------------------------------------------------------

  // At most one rate of a member starts at a moment.
  predicate UniqueStarts(t: RateTable) {
    forall i, j :: i in t && j in t && i != j && t[i].member == t[j].member
      ==> t[i].rate.effectiveFrom != t[j].rate.effectiveFrom
  }

  predicate HasRate(t: RateTable, member: MemberId, r: Rate) {
    exists id :: id in t && t[id] == RateRow(member, r)
  }

  // `rates` is the member's history in the order of its starts.
  ghost predicate IsHistory(t: RateTable, member: MemberId, rates: seq<Rate>) {
    Ascending(rates) && forall r :: r in rates <==> HasRate(t, member, r)
  }

  predicate StartsEarlier(a: Rate, b: Rate) {
    a.effectiveFrom < b.effectiveFrom
  }

  function InsertRate(rates: seq<Rate>, r: Rate): seq<Rate> {
    Insert(rates, r, StartsEarlier)
  }

  lemma {:induction false} InsertAscending(rates: seq<Rate>, r: Rate)
    requires Ascending(rates) && forall q :: q in rates ==> q.effectiveFrom != r.effectiveFrom
    ensures Ascending(InsertRate(rates, r))
    ensures forall q :: q in InsertRate(rates, r) <==> q in rates || q == r
  {
    assert Sorted(rates, StartsEarlier);
    forall i | 0 <= i < |rates| ensures StartsEarlier(rates[i], r) || StartsEarlier(r, rates[i]) {
      assert rates[i] in rates;
    }
    InsertedIsSorted(rates, r, StartsEarlier);
    forall i, j | 0 <= i < j < |InsertRate(rates, r)|
      ensures InsertRate(rates, r)[i].effectiveFrom < InsertRate(rates, r)[j].effectiveFrom
    {
      assert StartsEarlier(InsertRate(rates, r)[i], InsertRate(rates, r)[j]);
    }
    forall q ensures q in InsertRate(rates, r) <==> q in rates || q == r {
      InsertMembers(rates, r, StartsEarlier, q);
    }
  }

  // _load_rates_asc: the member's rows in the order of their starts.
  method LoadRatesAsc(t: RateTable, member: MemberId) returns (rates: seq<Rate>)
    requires UniqueStarts(t)
    ensures IsHistory(t, member, rates)
  {
    rates := [];
    var todo := set id | id in t && t[id].member == member;
    ghost var all := todo;
    while todo != {}
      invariant todo <= all
      invariant Ascending(rates)
      invariant forall r :: r in rates <==> exists id :: id in all - todo && t[id].rate == r
      decreases todo
    {
      var id :| id in todo;
      var r := t[id].rate;
      forall q | q in rates ensures q.effectiveFrom != r.effectiveFrom {
        var j :| j in all - todo && t[j].rate == q;
      }
      InsertAscending(rates, r);
      ghost var before := rates;
      rates := InsertRate(rates, r);
      ghost var left := todo - {id};
      forall q ensures q in rates <==> exists j :: j in all - left && t[j].rate == q {
        if q in rates && q != r {
          assert q in before;
          var j :| j in all - todo && t[j].rate == q;
          assert j in all - left;
        }
        if q == r {
          assert id in all - left;
        }
        if j :| j in all - left && t[j].rate == q && j != id {
          assert j in all - todo;
        }
      }
      todo := todo - {id};
    }
    forall r ensures r in rates <==> HasRate(t, member, r) {
      if r in rates {
        var id :| id in all && t[id].rate == r;
        assert t[id] == RateRow(member, r);
      }
      if HasRate(t, member, r) {
        var id :| id in t && t[id] == RateRow(member, r);
        assert id in all;
      }
    }
  }

  // ----- Writes --------------------------------------------------------------------------

  datatype RateError = RateEffectiveFromTaken | RateNotFound

  predicate Taken(t: RateTable, member: MemberId, start: int, exclude: Option<RateId>) {
    exists id :: id in t && exclude != Some(id) && t[id].member == member && t[id].rate.effectiveFrom == start
  }

  function CreateRate(t: RateTable, id: RateId, member: MemberId, rate: Rate): Result<RateTable, RateError> {
    if Taken(t, member, rate.effectiveFrom, None) then Err(RateEffectiveFromTaken)
    else Ok(t[id := RateRow(member, rate)])
  }

  // The given fields of the correction; None is "leave as it is".
  datatype RateFields = RateFields(effectiveFrom: Option<int>, rateType: Option<RateType>, amount: Option<int>)

  function Corrected(r: Rate, f: RateFields): Rate {
    Rate(
      match f.effectiveFrom { case None => r.effectiveFrom case Some(v) => v },
      match f.rateType { case None => r.rateType case Some(v) => v },
      match f.amount { case None => r.amount case Some(v) => v })
  }

  function UpdateRate(t: RateTable, member: MemberId, id: RateId, f: RateFields): Result<RateTable, RateError> {
    if id !in t || t[id].member != member then Err(RateNotFound)
    else
      var r := Corrected(t[id].rate, f);
      if r.effectiveFrom != t[id].rate.effectiveFrom
          && Taken(t, member, r.effectiveFrom, Some(id)) then Err(RateEffectiveFromTaken)
      else Ok(t[id := RateRow(member, r)])
  }

  function DeleteRate(t: RateTable, member: MemberId, id: RateId): Result<RateTable, RateError> {
    if id !in t || t[id].member != member then Err(RateNotFound) else Ok(t - {id})
  }

  // A new rate is refused exactly if the member has a rate with the same start.
  lemma {:induction false} CreateWrites(t: RateTable, id: RateId, member: MemberId, rate: Rate)
    ensures CreateRate(t, id, member, rate).Err? <==>
      exists i :: i in t && t[i].member == member && t[i].rate.effectiveFrom == rate.effectiveFrom
    ensures CreateRate(t, id, member, rate).Ok? ==>
        CreateRate(t, id, member, rate).value == t[id := RateRow(member, rate)]
  {}

  // A correction needs the member's own rate, and no other rate of the member with the new
  // start. It changes exactly the fields given.
  lemma {:induction false} UpdateWrites(t: RateTable, member: MemberId, id: RateId, f: RateFields)
    requires UniqueStarts(t)
    ensures UpdateRate(t, member, id, f).Ok? <==>
      && id in t && t[id].member == member
      && (f.effectiveFrom != None ==>
            forall i :: i in t && i != id && t[i].member == member ==> t[i].rate.effectiveFrom != f.effectiveFrom.value)
    ensures UpdateRate(t, member, id, f).Ok? ==>
      var t' := UpdateRate(t, member, id, f).value;
      && t'.Keys == t.Keys && (forall i :: i in t && i != id ==> t'[i] == t[i]) && t'[id].member == member
      && t'[id].rate.effectiveFrom == (if f.effectiveFrom != None then f.effectiveFrom.value
          else t[id].rate.effectiveFrom)
      && t'[id].rate.rateType == (if f.rateType != None then f.rateType.value else t[id].rate.rateType)
      && t'[id].rate.amount == (if f.amount != None then f.amount.value else t[id].rate.amount)
    ensures UpdateRate(t, member, id, f).Err? ==>
      (UpdateRate(t, member, id, f).error == RateNotFound <==> id !in t || t[id].member != member)
  {}

  datatype Write =
    | WriteCreate(id: RateId, member: MemberId, rate: Rate)
    | WriteUpdate(member: MemberId, id: RateId, fields: RateFields)
    | WriteDelete(member: MemberId, id: RateId)

  function Written(t: RateTable, w: Write): Result<RateTable, RateError> {
    match w
    case WriteCreate(id, member, rate) => CreateRate(t, id, member, rate)
    case WriteUpdate(member, id, fields) => UpdateRate(t, member, id, fields)
    case WriteDelete(member, id) => DeleteRate(t, member, id)
  }

  function WrittenAll(t: RateTable, writes: seq<Write>): RateTable
    decreases |writes|
  {
    if writes == [] then t
    else
      match Written(t, writes[0])
      case Ok(t') => WrittenAll(t', writes[1..])
      case Err(_) => WrittenAll(t, writes[1..])
  }

  // A run takes its writes one after another, and goes on after a refusal.
  lemma {:induction false} RunTakesEach(t: RateTable, writes: seq<Write>, w: Write)
    ensures WrittenAll(t, []) == t
    ensures var before := WrittenAll(t, writes);
      WrittenAll(t, writes + [w]) == if Written(before, w).Ok? then Written(before, w).value else before
    decreases |writes|
  {
    var run := writes + [w];
    if writes == [] {
      assert run[1..] == [];
    } else {
      assert run[1..] == writes[1..] + [w];
      match Written(t, writes[0])
      case Ok(t') => RunTakesEach(t', writes[1..], w);
      case Err(_) => RunTakesEach(t, writes[1..], w);
    }
  }

  predicate FreshRows(t: RateTable, writes: seq<Write>)
    decreases |writes|
  {
    writes == []
    || ((writes[0].WriteCreate? ==> writes[0].id !in t)
        && match Written(t, writes[0])
           case Ok(t') => FreshRows(t', writes[1..])
           case Err(_) => FreshRows(t, writes[1..]))
  }

  // Over every run of writes a member never has two rates with one start.
  lemma {:induction false} WritesKeepUniqueStarts(t: RateTable, writes: seq<Write>)
    requires UniqueStarts(t) && FreshRows(t, writes)
    ensures UniqueStarts(WrittenAll(t, writes))
    decreases |writes|
  {
    if writes != [] {
      match Written(t, writes[0])
      case Ok(t') =>
        WriteKeepsUniqueStarts(t, writes[0]);
        WritesKeepUniqueStarts(t', writes[1..]);
      case Err(_) =>
        WritesKeepUniqueStarts(t, writes[1..]);
    }
  }

  lemma {:induction false} WriteKeepsUniqueStarts(t: RateTable, w: Write)
    requires UniqueStarts(t) && (w.WriteCreate? ==> w.id !in t) && Written(t, w).Ok?
    ensures UniqueStarts(Written(t, w).value)
  {}

  // The moments a rate starting at `start` answers for: from it to the next start.
  predicate InForce(rates: seq<Rate>, start: int, moment: int) {
    start <= moment && forall q :: q in rates && start < q.effectiveFrom ==> moment < q.effectiveFrom
  }

  // Adding a rate changes the answer at exactly the moments from its start to the next start
  // of the history, where it becomes the answer; every other moment keeps its rate.
  lemma {:induction false} CreateChangesOnlyItsSpan(t: RateTable, id: RateId, member: MemberId, rate: Rate,
      before: seq<Rate>, after: seq<Rate>, moment: int)
    requires id !in t && CreateRate(t, id, member, rate).Ok?
    requires IsHistory(t, member, before) && IsHistory(CreateRate(t, id, member, rate).value, member, after)
    ensures RateForMoment(after, moment)
         == if InForce(before, rate.effectiveFrom, moment) then Some(rate) else RateForMoment(before, moment)
  {
    var t' := CreateRate(t, id, member, rate).value;
    forall r ensures r in after <==> r in before || r == rate {
      HasRateAfterPut(t, id, member, rate, r);
    }
    AddedRateSpan(before, after, rate, moment);
  }

  lemma {:induction false} HasRateAfterPut(t: RateTable, id: RateId, member: MemberId, rate: Rate, r: Rate)
    requires id !in t
    ensures HasRate(t[id := RateRow(member, rate)], member, r) <==> HasRate(t, member, r) || r == rate
  {
    var t' := t[id := RateRow(member, rate)];
    if HasRate(t, member, r) {
      var j :| j in t && t[j] == RateRow(member, r);
      assert t'[j] == RateRow(member, r);
    }
    if r == rate {
      assert t'[id] == RateRow(member, r);
    }
  }

  lemma {:induction false} AddedRateSpan(before: seq<Rate>, after: seq<Rate>, rate: Rate, moment: int)
    requires Ascending(before) && Ascending(after)
    requires forall r :: r in after <==> r in before || r == rate
    ensures RateForMoment(after, moment)
         == if InForce(before, rate.effectiveFrom, moment) then Some(rate) else RateForMoment(before, moment)
  {
    if InForce(before, rate.effectiveFrom, moment) {
      RateIsDetermined(after, moment, rate);
    } else {
      match RateForMoment(before, moment)
      case Some(q) =>
        if rate.effectiveFrom <= moment {
          var n :| n in before && rate.effectiveFrom < n.effectiveFrom && n.effectiveFrom <= moment;
        }
        RateIsDetermined(after, moment, q);
      case None =>
    }
  }

  // Deleting a rate is the reverse: only the moments it answered for fall back to the rate
  // before it.
  lemma {:induction false} DeleteChangesOnlyItsSpan(t: RateTable, member: MemberId, id: RateId, before: seq<Rate>,
      after: seq<Rate>, moment: int)
    requires UniqueStarts(t) && DeleteRate(t, member, id).Ok?
    requires IsHistory(t, member, before) && IsHistory(DeleteRate(t, member, id).value, member, after)
    ensures RateForMoment(before, moment)
         == if InForce(after, t[id].rate.effectiveFrom, moment) then Some(t[id].rate) else RateForMoment(after, moment)
  {
    var t', rate := t - {id}, t[id].rate;
    assert t == t'[id := RateRow(member, rate)];
    forall r ensures r in before <==> r in after || r == rate {
      HasRateAfterPut(t', id, member, rate, r);
    }
    AddedRateSpan(after, before, rate, moment);
  }

  // Correcting a rate is its deletion followed by the addition of the corrected one: outside
  // the two spans the rate of a moment stays.
  lemma {:induction false} UpdateChangesOnlyTwoSpans(t: RateTable, member: MemberId, id: RateId, f: RateFields,
      before: seq<Rate>, rest: seq<Rate>, after: seq<Rate>, moment: int)
    requires UniqueStarts(t) && UpdateRate(t, member, id, f).Ok?
    requires IsHistory(t, member, before) && IsHistory(t - {id}, member, rest)
    requires IsHistory(UpdateRate(t, member, id, f).value, member, after)
    ensures var was, now := t[id].rate, Corrected(t[id].rate, f);
            && (!InForce(rest, was.effectiveFrom, moment) && !InForce(rest, now.effectiveFrom, moment)
                ==> RateForMoment(after, moment) == RateForMoment(before, moment))
            && (InForce(rest, now.effectiveFrom, moment) ==> RateForMoment(after, moment) == Some(now))
  {
    DeleteChangesOnlyItsSpan(t, member, id, before, rest, moment);
    var now := Corrected(t[id].rate, f);
    var t' := t - {id};
    assert UpdateRate(t, member, id, f).value == t'[id := RateRow(member, now)];
    forall r ensures r in after <==> r in rest || r == now {
      HasRateAfterPut(t', id, member, now, r);
    }
    AddedRateSpan(rest, after, now, moment);
  }

  // Writes to one member's history leave every other member's history alone.
  lemma {:induction false} WritesAreLocal(t: RateTable, w: Write, other: MemberId, rates: seq<Rate>)
    requires (w.WriteCreate? ==> w.id !in t) && Written(t, w).Ok? && other != w.member
    ensures IsHistory(t, other, rates) <==> IsHistory(Written(t, w).value, other, rates)
  {
    var t' := Written(t, w).value;
    forall r ensures HasRate(t, other, r) <==> HasRate(t', other, r) {
      if HasRate(t, other, r) {
        var j :| j in t && t[j] == RateRow(other, r);
        assert j in t' && t'[j] == RateRow(other, r);
      }
      if HasRate(t', other, r) {
        var j :| j in t' && t'[j] == RateRow(other, r);
        assert j in t && t[j] == RateRow(other, r);
      }
    }
  }

  // ----- The services in place -----------------------------------------------------------

  class RateHistory {
    var rows: RateTable

    // A member never has two rates with one start.
    ghost predicate Valid()
      reads this
    {
      UniqueStarts(rows)
    }

    constructor ()
      ensures Valid() && rows == map[]
    {
      rows := map[];
    }

    method Create(id: RateId, member: MemberId, rate: Rate) returns (r: Result<(), RateError>)
      requires Valid() && id !in rows
      modifies this
      ensures Valid()
      ensures match CreateRate(old(rows), id, member, rate)
              case Ok(t) => r == Ok(()) && rows == t
              case Err(e) => r == Err(e) && rows == old(rows)
    {
      if Taken(rows, member, rate.effectiveFrom, None) {
        return Err(RateEffectiveFromTaken);
      }
      rows := rows[id := RateRow(member, rate)];
      return Ok(());
    }

    method Update(member: MemberId, id: RateId, f: RateFields) returns (r: Result<(), RateError>)
      requires Valid()
      modifies this
      ensures Valid()
      ensures match UpdateRate(old(rows), member, id, f)
              case Ok(t) => r == Ok(()) && rows == t
              case Err(e) => r == Err(e) && rows == old(rows)
    {
      if id !in rows || rows[id].member != member {
        return Err(RateNotFound);
      }
      var rate := rows[id].rate;
      if f.effectiveFrom.Some? && f.effectiveFrom.value != rate.effectiveFrom
         && Taken(rows, member, f.effectiveFrom.value, Some(id)) {
        return Err(RateEffectiveFromTaken);
      }
      if f.effectiveFrom.Some? {
        rate := rate.(effectiveFrom := f.effectiveFrom.value);
      }
      if f.rateType.Some? {
        rate := rate.(rateType := f.rateType.value);
      }
      if f.amount.Some? {
        rate := rate.(amount := f.amount.value);
      }
      rows := rows[id := RateRow(member, rate)];
      return Ok(());
    }

    method Delete(member: MemberId, id: RateId) returns (r: Result<(), RateError>)
      requires Valid()
      modifies this
      ensures Valid()
      ensures match DeleteRate(old(rows), member, id)
              case Ok(t) => r == Ok(()) && rows == t
              case Err(e) => r == Err(e) && rows == old(rows)
    {
      if id !in rows || rows[id].member != member {
        return Err(RateNotFound);
      }
      rows := rows - {id};
      return Ok(());
    }
  }
}
