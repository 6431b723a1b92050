// Amounts on the shift history page, one block a shift, and their agreement with the report;
// the effect of a rate write on a member's earnings.

module ShiftHistory {
  import opened Results
  import opened Rates
  import opened ShiftSums
  import opened Earnings

  type OrgId = nat
  type UserId = nat

  // A row of the history page: personal and unfinished shifts have no amounts.
  datatype Listed = Listed(org: Option<OrgId>, user: UserId, finished: bool, shift: WorkShift)

  datatype Total = Total(amount: int, count: nat)

  datatype Block = Block(gross: int, penalty: Total, adjustment: Total, net: int, overtimeSeconds: int, hasRate: bool)

  // What the page's batch queries returned; totals of shifts without operations are absent.
  datatype Page = Page(
    members: map<(OrgId, UserId), MemberId>,
    rates: map<MemberId, seq<Rate>>,
    overtime: map<nat, nat>,
    penalties: map<nat, Total>,
    adjustments: map<nat, Total>)

  predicate ValidPage(p: Page) {
    forall m :: m in p.rates ==> Ascending(p.rates[m])
  }

  // A user without a membership, or a member without rates, has an empty history.
  function MemberRates(p: Page, org: OrgId, user: UserId): (r: seq<Rate>)
    requires ValidPage(p)
    ensures Ascending(r)
  {
    if (org, user) in p.members && p.members[(org, user)] in p.rates then p.rates[p.members[(org, user)]] else []
  }

  function TotalOf(m: map<nat, Total>, id: nat): Total {
    if id in m then m[id] else Total(0, 0)
  }

  predicate Eligible(l: Listed) {
    l.org.Some? && l.finished
  }

  // The terms the report computes the listed shift with, the lateness tolerance aside.
  function ListedTerms(p: Page, l: Listed): Terms
    requires ValidPage(p) && Eligible(l)
  {
    MemberTerms(MemberRates(p, l.org.value, l.user), p.overtime, 0)
  }

  // An eligible shift's block carries what the flat computation adds for that shift, and nets
  // it with the operations attached to the shift; the other shifts have no block.
  ghost predicate IsBlockOf(p: Page, l: Listed, block: Option<Block>)
    requires ValidPage(p)
  {
    if !Eligible(l) then block.None?
    else
      var paid := PayOf(ListedTerms(p, l))(l.shift);
      block == Some(Block(
        paid.gross, TotalOf(p.penalties, l.shift.id), TotalOf(p.adjustments, l.shift.id),
        paid.gross - TotalOf(p.penalties, l.shift.id).amount + TotalOf(p.adjustments, l.shift.id).amount,
        paid.overtimeSeconds, paid.unpaidShifts == 0))
  }

  // The same in the fields: the rate of the member's history at the start of the shift, 60
  // seconds for each approved minute, and the operations attached to the shift.
  ghost predicate BlockFits(p: Page, l: Listed, block: Option<Block>)
    requires ValidPage(p)
  {
    if l.org == None || !l.finished then block == None
    else
      var id, member := l.shift.id, (l.org.value, l.user);
      var history := if member in p.members && p.members[member] in p.rates then p.rates[p.members[member]] else [];
      var penalty := if id in p.penalties then p.penalties[id] else Total(0, 0);
      var adjustment := if id in p.adjustments then p.adjustments[id] else Total(0, 0);
      && block != None && block.value.penalty == penalty && block.value.adjustment == adjustment
      && block.value.net == block.value.gross - penalty.amount + adjustment.amount
      && block.value.overtimeSeconds == 60 * (if id in p.overtime then p.overtime[id] else 0)
      && exists rate, seconds :: IsRateAt(history, l.shift.start, rate) && IsNet(l.shift, seconds)
           && (block.value.hasRate <==> rate != None)
           && if rate == None then block.value.gross == 0
              else PaidFor(rate.value, seconds + block.value.overtimeSeconds, block.value.gross)
  }

  lemma {:induction false} BlockInFields(p: Page, l: Listed, block: Option<Block>)
    requires ValidPage(p) && IsBlockOf(p, l, block)
    ensures BlockFits(p, l, block)
  {
    if Eligible(l) {
      var t := ListedTerms(p, l);
      var rates := MemberRates(p, l.org.value, l.user);
      TermsFollowHistory(rates, p.overtime, 0, l.shift.start);
      ContributionIsEarned(l.shift, t);
      assert IsRateAt(rates, l.shift.start, t.rateAt(l.shift.start)) && IsNet(l.shift, Contribution(l.shift, t).worked);
    }
  }

  method ShiftBlock(page: Page, l: Listed) returns (block: Block)
    requires ValidPage(page) && Eligible(l)
    ensures IsBlockOf(page, l, Some(block))
  {
    var rates := MemberRates(page, l.org.value, l.user);
    var rate := RateForMoment(rates, l.shift.start);
    var overtimeSeconds := if l.shift.id in page.overtime then page.overtime[l.shift.id] * 60 else 0;
    var gross := 0;
    if rate.Some? {
      gross := ShiftAmount(rate.value, Worked(l.shift) + overtimeSeconds);
    }
    var penalty, adjustment := TotalOf(page.penalties, l.shift.id), TotalOf(page.adjustments, l.shift.id);
    block := Block(gross, penalty, adjustment, gross - penalty.amount + adjustment.amount, overtimeSeconds, rate.Some?);
  }

  // get_shift_earnings_map: one entry for every listed shift.
  method ShiftEarningsMap(page: Page, listed: seq<Listed>) returns (blocks: map<nat, Option<Block>>)
    requires ValidPage(page)
    requires forall i, j :: 0 <= i < j < |listed| ==> listed[i].shift.id != listed[j].shift.id
    ensures blocks.Keys == set i | 0 <= i < |listed| :: listed[i].shift.id
    ensures forall i :: 0 <= i < |listed| ==> IsBlockOf(page, listed[i], blocks[listed[i].shift.id])
    ensures forall i :: 0 <= i < |listed| ==> BlockFits(page, listed[i], blocks[listed[i].shift.id])
  {
    blocks := map[];
    for i := 0 to |listed|
      invariant blocks.Keys == set j | 0 <= j < i :: listed[j].shift.id
      invariant forall j :: 0 <= j < i ==> IsBlockOf(page, listed[j], blocks[listed[j].shift.id])
    {
      var l := listed[i];
      var entry: Option<Block> := None;
      if Eligible(l) {
        var block := ShiftBlock(page, l);
        entry := Some(block);
      }
      blocks := blocks[l.shift.id := entry];
    }
    forall i | 0 <= i < |listed| ensures BlockFits(page, listed[i], blocks[listed[i].shift.id]) {
      BlockInFields(page, listed[i], blocks[listed[i].shift.id]);
    }
  }

  function GrossOfBlocks(listed: seq<Listed>, blocks: map<nat, Option<Block>>): int {
    if listed == [] then 0
    else
      var id := listed[|listed| - 1].shift.id;
      GrossOfBlocks(listed[..|listed| - 1], blocks) + if id in blocks && blocks[id].Some? then blocks[id].value.gross
          else 0
  }

  function ShiftsOf(listed: seq<Listed>): seq<WorkShift> {
    if listed == [] then [] else ShiftsOf(listed[..|listed| - 1]) + [listed[|listed| - 1].shift]
  }

  lemma {:induction false} ToleranceOnlyForLateness(sh: WorkShift, rates: seq<Rate>, overtime: map<nat, nat>,
      tolerance: int)
    requires Ascending(rates)
    ensures Contribution(sh, MemberTerms(rates, overtime, tolerance)).gross
        == Contribution(sh, MemberTerms(rates, overtime, 0)).gross
  {}

  // For one member's finished shifts, the blocks of the history add up to the gross of the
  // report, whatever lateness tolerance the report uses.
  lemma {:induction false} BlocksAddUpToGross(page: Page, listed: seq<Listed>, blocks: map<nat, Option<Block>>,
      org: OrgId, user: UserId, tolerance: int)
    requires ValidPage(page)
    requires forall i :: 0 <= i < |listed| ==>
        Eligible(listed[i]) && listed[i].org == Some(org) && listed[i].user == user
    requires forall i :: 0 <= i < |listed| ==>
        listed[i].shift.id in blocks && IsBlockOf(page, listed[i], blocks[listed[i].shift.id])
    ensures GrossOfBlocks(listed, blocks)
         == EarningsOf(ShiftsOf(listed), MemberTerms(MemberRates(page, org, user), page.overtime, tolerance)).gross
    decreases |listed|
  {
    if listed != [] {
      var front, last := listed[..|listed| - 1], listed[|listed| - 1];
      BlocksAddUpToGross(page, front, blocks, org, user, tolerance);
      var terms := MemberTerms(MemberRates(page, org, user), page.overtime, tolerance);
      SumOfAppend(ShiftsOf(front), last.shift, PayOf(terms));
      assert IsBlockOf(page, last, blocks[last.shift.id]);
      ToleranceOnlyForLateness(last.shift, MemberRates(page, org, user), page.overtime, tolerance);
    }
  }

  // ----- Effect of a rate write on earnings ----------------------------------------------

  // Whether a shift starts while a rate starting at `start` is in force.
  function InSpan(rates: seq<Rate>, start: int): WorkShift -> bool {
    (sh: WorkShift) => InForce(rates, start, sh.start)
  }

  function InEitherSpan(rates: seq<Rate>, a: int, b: int): WorkShift -> bool {
    (sh: WorkShift) => InForce(rates, a, sh.start) || InForce(rates, b, sh.start)
  }

  function Among(shifts: seq<WorkShift>, touched: WorkShift -> bool): (r: seq<WorkShift>)
    ensures forall sh :: sh in r <==> sh in shifts && touched(sh)
  {
    if shifts == [] then []
    else
      var sh := shifts[|shifts| - 1];
      assert shifts == shifts[..|shifts| - 1] + [sh];
      Among(shifts[..|shifts| - 1], touched) + if touched(sh) then [sh] else []
  }

  // The sums before and after differ, in every field, only by the touched shifts.
  ghost predicate DifferOnlyBy(shifts: seq<WorkShift>, touched: WorkShift -> bool, was: WorkShift -> Sums,
      now: WorkShift -> Sums)
  {
    Add(SumOf(shifts, now), SumOf(Among(shifts, touched), was))
        == Add(SumOf(shifts, was), SumOf(Among(shifts, touched), now))
  }

  // Two ways of valuing shifts that agree on the others differ only by the touched shifts.
  lemma {:induction false} DifferOnlyWhereTouched(shifts: seq<WorkShift>, touched: WorkShift -> bool,
      was: WorkShift -> Sums, now: WorkShift -> Sums)
    requires forall sh: WorkShift :: !touched(sh) ==> was(sh) == now(sh)
    ensures DifferOnlyBy(shifts, touched, was, now)
    decreases |shifts|
  {
    if shifts != [] {
      var front, sh := shifts[..|shifts| - 1], shifts[|shifts| - 1];
      DifferOnlyWhereTouched(front, touched, was, now);
      var span := Among(front, touched);
      if touched(sh) {
        SumOfAppend(span, sh, was);
        SumOfAppend(span, sh, now);
        AddFour(SumOf(front, now), SumOf(span, was), SumOf(front, was), SumOf(span, now), now(sh), was(sh));
      } else {
        assert span + [] == span;
        AddLaws(SumOf(front, now), SumOf(span, was), now(sh));
        AddLaws(SumOf(front, was), SumOf(span, now), now(sh));
      }
    }
  }

  lemma {:induction false} AddFour(a: Sums, b: Sums, c: Sums, d: Sums, x: Sums, y: Sums)
    requires Add(a, b) == Add(c, d)
    ensures Add(Add(a, x), Add(b, y)) == Add(Add(c, y), Add(d, x))
  {}

  // Adding a rate starting at a moment changes a member's earnings, in every field, only by
  // the shifts that start from that moment up to the next start of the history.
  lemma {:induction false} NewRateChangesOnlyItsSpan(table: RateTable, id: RateId, member: MemberId, rate: Rate,
      before: seq<Rate>, after: seq<Rate>, shifts: seq<WorkShift>, overtime: map<nat, nat>, tolerance: int)
    requires id !in table && CreateRate(table, id, member, rate).Ok?
    requires IsHistory(table, member, before) && IsHistory(CreateRate(table, id, member, rate).value, member, after)
    ensures DifferOnlyBy(shifts, InSpan(before, rate.effectiveFrom),
              PayOf(MemberTerms(before, overtime, tolerance)), PayOf(MemberTerms(after, overtime, tolerance)))
  {
    var was, now := MemberTerms(before, overtime, tolerance), MemberTerms(after, overtime, tolerance);
    forall sh: WorkShift | !InForce(before, rate.effectiveFrom, sh.start) ensures PayOf(was)(sh) == PayOf(now)(sh) {
      CreateChangesOnlyItsSpan(table, id, member, rate, before, after, sh.start);
      SameRateSamePay(sh, was, now);
    }
    DifferOnlyWhereTouched(shifts, InSpan(before, rate.effectiveFrom), PayOf(was), PayOf(now));
  }

  // Deleting a rate changes them only by the shifts that it answered for.
  lemma {:induction false} DeletedRateChangesOnlyItsSpan(table: RateTable, id: RateId, member: MemberId,
      before: seq<Rate>, after: seq<Rate>, shifts: seq<WorkShift>, overtime: map<nat, nat>, tolerance: int)
    requires UniqueStarts(table) && DeleteRate(table, member, id).Ok?
    requires IsHistory(table, member, before) && IsHistory(DeleteRate(table, member, id).value, member, after)
    ensures DifferOnlyBy(shifts, InSpan(after, table[id].rate.effectiveFrom),
              PayOf(MemberTerms(before, overtime, tolerance)), PayOf(MemberTerms(after, overtime, tolerance)))
  {
    var was, now := MemberTerms(before, overtime, tolerance), MemberTerms(after, overtime, tolerance);
    var start := table[id].rate.effectiveFrom;
    forall sh: WorkShift | !InForce(after, start, sh.start) ensures PayOf(was)(sh) == PayOf(now)(sh) {
      DeleteChangesOnlyItsSpan(table, member, id, before, after, sh.start);
      SameRateSamePay(sh, was, now);
    }
    DifferOnlyWhereTouched(shifts, InSpan(after, start), PayOf(was), PayOf(now));
  }

  // Correcting a rate changes them only by the shifts of its old and of its new span.
  lemma {:induction false} CorrectedRateChangesOnlyItsSpans(table: RateTable, id: RateId, member: MemberId,
      f: RateFields, before: seq<Rate>, rest: seq<Rate>, after: seq<Rate>, shifts: seq<WorkShift>,
      overtime: map<nat, nat>, tolerance: int)
    requires UniqueStarts(table) && UpdateRate(table, member, id, f).Ok?
    requires IsHistory(table, member, before) && IsHistory(table - {id}, member, rest)
    requires IsHistory(UpdateRate(table, member, id, f).value, member, after)
    ensures var start, corrected := table[id].rate.effectiveFrom, Corrected(table[id].rate, f).effectiveFrom;
      DifferOnlyBy(shifts, InEitherSpan(rest, start, corrected),
        PayOf(MemberTerms(before, overtime, tolerance)), PayOf(MemberTerms(after, overtime, tolerance)))
  {
    var was, now := MemberTerms(before, overtime, tolerance), MemberTerms(after, overtime, tolerance);
    var a, b := table[id].rate.effectiveFrom, Corrected(table[id].rate, f).effectiveFrom;
    forall sh: WorkShift | !InForce(rest, a, sh.start) && !InForce(rest, b, sh.start)
      ensures PayOf(was)(sh) == PayOf(now)(sh)
    {
      UpdateChangesOnlyTwoSpans(table, member, id, f, before, rest, after, sh.start);
      SameRateSamePay(sh, was, now);
    }
    DifferOnlyWhereTouched(shifts, InEitherSpan(rest, a, b), PayOf(was), PayOf(now));
  }

  lemma {:induction false} SameRateSamePay(sh: WorkShift, a: Terms, b: Terms)
    requires a.rateAt(sh.start) == b.rateAt(sh.start) && a.overtime == b.overtime && a.tolerance == b.tolerance
    ensures Contribution(sh, a) == Contribution(sh, b)
  {}
}
