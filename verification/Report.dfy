// The payroll report of an organisation: a row for each employee, the filter for missing
// rates, the totals, and the operation rows returned with the report.

module Report {
  import opened Results
  import opened Calendar
  import opened Sorting
  import opened Grouping
  import opened Sequences
  import opened Rates
  import opened ShiftSums
  import opened Earnings
  import opened Breakdown
  import opened Adjustments

  // What the queries of the period return. A removed employee has no rates left.
  datatype Data = Data(
    shifts: seq<Owned<WorkShift>>,
    penalties: seq<Owned<int>>,
    adjustments: seq<Owned<AdjustmentRow>>,
    table: Categories,
    names: map<UserId, string>,
    rates: map<UserId, seq<Rate>>,
    overtime: map<nat, nat>,
    tolerance: int)

  // Histories come ordered by start.
  ghost predicate ValidData(d: Data) {
    forall u :: u in d.rates ==> Ascending(d.rates[u])
  }

  function RatesOf(d: Data, u: UserId): seq<Rate> {
    if u in d.rates then d.rates[u] else []
  }

  function TermsOf(d: Data, u: UserId): Terms
    requires ValidData(d)
  {
    MemberTerms(RatesOf(d, u), d.overtime, d.tolerance)
  }

  function NameOf(d: Data, u: UserId): string {
    if u in d.names then d.names[u] else "Unknown"
  }

  function Everyone(d: Data): set<UserId> {
    Owners(d.shifts) + Owners(d.penalties) + Owners(d.adjustments)
  }

  const INTS: Sum<int> := Sum(0, (a: int, b: int) => a + b)
  const SUMS: Sum<Sums> := Sum(ZERO, Add)

  function Same(x: int): int {
    x
  }

  lemma {:induction false} IntsAreLawful()
    ensures Lawful(INTS)
  {}

  lemma {:induction false} SumsAreLawful()
    ensures Lawful(SUMS)
  {
    forall a, b, c ensures Laws(SUMS, a, b, c) {
      ShiftSums.AddLaws(a, b, c);
    }
  }

  // ----- Rows of the report --------------------------------------------------------------

  // With a granularity, every row carries a breakdown in the given zone.
  datatype View = Flat | Detailed(zone: Zone, granularity: Granularity)

  datatype Item = Item(
    user: UserId,
    name: string,
    row: Row,
    breakdown: Option<seq<BucketRow>>,
    penaltyAmount: int,
    penaltyCount: nat,
    adjustments: Fields,
    net: int)

  ghost predicate IsItem(item: Item, d: Data, view: View)
    requires ValidData(d)
  {
    var u := item.user;
    var shifts, penalties, adjustments := Of(d.shifts, u), Of(d.penalties, u), Of(d.adjustments, u);
    && item.name == NameOf(d, u)
    && item.row == RowOf(EarningsOf(shifts, TermsOf(d, u)))
    && (item.breakdown.Some? <==> view.Detailed?)
    && (view.Detailed? ==> IsBreakdown(shifts, PayOf(TermsOf(d, u)), view.zone, BucketsBy(view.granularity),
        item.breakdown.value))
    && item.penaltyAmount == Fold(penalties, Same, INTS)
    && item.penaltyCount == |penalties|
    && item.adjustments.total == FiguresOf(adjustments)
    && IsCategoryList(item.adjustments.byCategory, adjustments, d.table)
    && item.net == item.row.sums.gross - item.penaltyAmount + item.adjustments.total.amount
  }

  method MakeItem(d: Data, u: UserId, shifts: seq<WorkShift>, penalties: seq<int>, adjustments: seq<AdjustmentRow>,
      view: View) returns (item: Item)
    requires ValidData(d)
    requires shifts == Of(d.shifts, u) && penalties == Of(d.penalties, u) && adjustments == Of(d.adjustments, u)
    ensures item.user == u && IsItem(item, d, view)
  {
    var row, breakdown := RowOf(ZERO), None;
    match view {
      case Flat =>
        row := CalcEarnings(shifts, TermsOf(d, u));
      case Detailed(zone, granularity) =>
        var buckets;
        buckets, row := BuildBreakdown(shifts, TermsOf(d, u), zone, BucketsBy(granularity));
        breakdown := Some(buckets);
    }
    var amount := Fold(penalties, Same, INTS);
    var fields := AdjustmentFields(adjustments, d.table);
    item := Item(u, NameOf(d, u), row, breakdown, amount, |penalties|, fields,
                 row.sums.gross - amount + fields.total.amount);
  }

  function UsersOf(items: seq<Item>): (r: seq<UserId>)
    ensures |r| == |items| && forall i :: 0 <= i < |r| ==> r[i] == items[i].user
  {
    if items == [] then [] else UsersOf(items[..|items| - 1]) + [items[|items| - 1].user]
  }

  ghost predicate AllItems(items: seq<Item>, d: Data, view: View)
    requires ValidData(d)
  {
    forall i {:trigger IsItem(items[i], d, view)} :: 0 <= i < |items| ==> IsItem(items[i], d, view)
  }

  ghost predicate AreItemsOf(items: seq<Item>, us: seq<UserId>, d: Data, view: View)
    requires ValidData(d)
  {
    UsersOf(items) == us && AllItems(items, d, view)
  }

  // What an item says apart from its breakdown.
  lemma {:induction false} ItemFacts(items: seq<Item>, d: Data, view: View, i: nat)
    requires ValidData(d) && AllItems(items, d, view) && i < |items|
    ensures items[i].name == NameOf(d, items[i].user)
    ensures items[i].row == RowOf(EarningsOf(Of(d.shifts, items[i].user), TermsOf(d, items[i].user)))
    ensures HoldsOperations(items[i], d)
    ensures IsCategoryList(items[i].adjustments.byCategory, Of(d.adjustments, items[i].user), d.table)
    ensures items[i].net == items[i].row.sums.gross - items[i].penaltyAmount + items[i].adjustments.total.amount
  {
    assert IsItem(items[i], d, view);
  }

  lemma {:induction false} OneItemMore(items: seq<Item>, us: seq<UserId>, item: Item, d: Data, view: View)
    requires ValidData(d) && AreItemsOf(items, us, d, view) && IsItem(item, d, view)
    ensures AreItemsOf(items + [item], us + [item.user], d, view)
  {
    var more := items + [item];
    assert more[..|items|] == items;
    forall i | 0 <= i < |more| ensures IsItem(more[i], d, view) {
      if i < |items| {
        assert more[i] == items[i] && IsItem(items[i], d, view);
      }
    }
  }

  method AppendItem(d: Data, ghost done: seq<UserId>, u: UserId, shifts: seq<WorkShift>, penalties: seq<int>,
      adjustments: seq<AdjustmentRow>, view: View, items: seq<Item>) returns (more: seq<Item>)
    requires ValidData(d) && AreItemsOf(items, done, d, view)
    requires shifts == Of(d.shifts, u) && penalties == Of(d.penalties, u) && adjustments == Of(d.adjustments, u)
    ensures AreItemsOf(more, done + [u], d, view)
  {
    var item := MakeItem(d, u, shifts, penalties, adjustments, view);
    OneItemMore(items, done, item, d, view);
    more := items + [item];
  }

  method MakeItems(d: Data, us: seq<UserId>, view: View) returns (items: seq<Item>)
    requires ValidData(d)
    ensures UsersOf(items) == us
    ensures AllItems(items, d, view)
  {
    var shiftsByUser := GroupByUser(d.shifts);
    var penaltiesByUser := GroupByUser(d.penalties);
    var adjustmentsByUser := GroupByUser(d.adjustments);
    items := [];
    for i := 0 to |us|
      invariant AreItemsOf(items, us[..i], d, view)
    {
      assert us[..i + 1] == us[..i] + [us[i]];
      items := AppendItem(d, us[..i], us[i], Get(shiftsByUser, us[i]), Get(penaltiesByUser, us[i]),
          Get(adjustmentsByUser, us[i]), view, items);
    }
    assert us[..|us|] == us;
  }

  // ----- Filter and order ----------------------------------------------------------------

  // The filter for missing rates keeps everybody with a penalty or an adjustment.
  predicate Kept(item: Item, onlyMissing: bool) {
    onlyMissing ==> item.row.missingRate || item.penaltyCount > 0 || item.adjustments.total.count > 0
  }

  function Keep(items: seq<Item>, onlyMissing: bool): (r: seq<Item>)
    ensures forall x :: x in r <==> x in items && Kept(x, onlyMissing)
  {
    if items == [] then []
    else
      var front, last := items[..|items| - 1], items[|items| - 1];
      assert items == front + [last];
      Keep(front, onlyMissing) + if Kept(last, onlyMissing) then [last] else []
  }

  lemma {:induction false} KeepDistinct(items: seq<Item>, onlyMissing: bool)
    requires Distinct(UsersOf(items))
    ensures Distinct(UsersOf(Keep(items, onlyMissing)))
    decreases |items|
  {
    if items != [] {
      var front, last := items[..|items| - 1], items[|items| - 1];
      var kept := Keep(front, onlyMissing);
      assert UsersOf(items)[..|front|] == UsersOf(front);
      KeepDistinct(front, onlyMissing);
      forall i | 0 <= i < |kept| ensures kept[i].user != last.user {
        assert kept[i] in front;
        var k :| 0 <= k < |front| && front[k] == kept[i];
        assert UsersOf(items)[k] != UsersOf(items)[|front|];
      }
    }
  }

  predicate ItemLess(a: Item, b: Item) {
    if a.name != b.name then TextLess(a.name, b.name) else a.user < b.user
  }

  lemma {:induction false} ItemOrder(a: Item, b: Item, c: Item)
    ensures a.user != b.user ==> ItemLess(a, b) || ItemLess(b, a)
    ensures !ItemLess(a, a) && (ItemLess(a, b) && ItemLess(b, c) ==> ItemLess(a, c))
  {
    TextLessTotal(a.name, b.name);
    TextLessTotal(b.name, c.name);
    TextLessTotal(a.name, c.name);
    if TextLess(a.name, b.name) && TextLess(b.name, c.name) {
      TextLessTransitive(a.name, b.name, c.name);
    }
  }

  lemma {:induction false} ItemsInOrder(items: seq<Item>)
    requires Distinct(UsersOf(items))
    ensures Sorted(Sort(items, ItemLess), ItemLess)
  {
    forall a, b, c ensures !ItemLess(a, a) && (ItemLess(a, b) && ItemLess(b, c) ==> ItemLess(a, c)) {
      ItemOrder(a, b, c);
    }
    assert StrictOrder(ItemLess);
    forall i, j | 0 <= i < j < |items| ensures ItemLess(items[i], items[j]) || ItemLess(items[j], items[i]) {
      assert UsersOf(items)[i] != UsersOf(items)[j];
      ItemOrder(items[i], items[j], items[i]);
    }
    SortSorts(items, ItemLess);
  }

  // Items sorted by name and user belong to different users.
  lemma {:induction false} SortedUsersDiffer(items: seq<Item>, d: Data, view: View)
    requires ValidData(d) && Sorted(items, ItemLess)
    requires AllItems(items, d, view)
    ensures Distinct(UsersOf(items))
  {
    forall i, j | 0 <= i < j < |items| ensures items[i].user != items[j].user {
      assert ItemLess(items[i], items[j]);
      ItemFacts(items, d, view, i);
      ItemFacts(items, d, view, j);
      TextLessTotal(items[i].name, items[j].name);
    }
  }

  // ----- Totals --------------------------------------------------------------------------

  datatype Totals = Totals(
    worked: int, overtimeSeconds: int, shifts: int,
    gross: int, base: int, overtime: int,
    penaltyAmount: int, penaltyCount: int,
    adjustments: Fields,
    net: int,
    plannedSeconds: int, planned: int, delta: int,
    lateCount: int, lateSeconds: int)

  datatype PayrollReport = PayrollReport(
    items: seq<Item>,
    totals: Totals,
    penaltyRows: seq<Owned<int>>,
    adjustmentRows: seq<Owned<AdjustmentRow>>)

  function SumsOf(item: Item): Sums {
    item.row.sums
  }

  function FiguresOfItem(item: Item): Figures {
    item.adjustments.total
  }

  function PenaltiesOf(item: Item): int {
    item.penaltyAmount
  }

  function PenaltyCountOf(item: Item): int {
    item.penaltyCount
  }

  function NetOf(item: Item): int {
    item.net
  }

  function DeltaOf(item: Item): int {
    item.row.delta
  }

  // Every total is the sum of that field over the items.
  ghost predicate AreTotals(t: Totals, items: seq<Item>) {
    var s := Fold(items, SumsOf, SUMS);
    && t.worked == s.worked && t.overtimeSeconds == s.overtimeSeconds && t.shifts == s.shifts
    && t.gross == s.gross && t.base == s.base && t.overtime == s.overtime
    && t.plannedSeconds == s.plannedSeconds && t.planned == s.planned
    && t.lateCount == s.lateCount && t.lateSeconds == s.lateSeconds
    && t.penaltyAmount == Fold(items, PenaltiesOf, INTS)
    && t.penaltyCount == Fold(items, PenaltyCountOf, INTS)
    && t.adjustments.total == Fold(items, FiguresOfItem, FIGURES)
    && t.net == Fold(items, NetOf, INTS)
    && t.delta == Fold(items, DeltaOf, INTS)
  }

  function RowsOfUsers<T>(rows: seq<Owned<T>>, users: set<UserId>): seq<Owned<T>> {
    if rows == [] then []
    else
      var last := rows[|rows| - 1];
      RowsOfUsers(rows[..|rows| - 1], users) + if last.user in users then [last] else []
  }

  lemma {:induction false} AllRowsOfUsers<T>(rows: seq<Owned<T>>, users: set<UserId>)
    requires forall i :: 0 <= i < |rows| ==> rows[i].user in users
    ensures RowsOfUsers(rows, users) == rows
    decreases |rows|
  {
    if rows != [] {
      AllRowsOfUsers(rows[..|rows| - 1], users);
    }
  }

  function Lists(items: seq<Item>): (r: seq<seq<Entry>>)
    ensures |r| == |items| && forall i :: 0 <= i < |r| ==> r[i] == items[i].adjustments.byCategory
  {
    if items == [] then [] else Lists(items[..|items| - 1]) + [items[|items| - 1].adjustments.byCategory]
  }

  // The adjustments of the items' users, item by item.
  ghost function Parts(d: Data, items: seq<Item>): (r: seq<seq<AdjustmentRow>>)
    ensures PartsOf(r, d.adjustments, UsersOf(items))
  {
    seq(|items|, i requires 0 <= i < |items| => Of(d.adjustments, items[i].user))
  }

  lemma {:induction false} FoldNext<T, M>(xs: seq<T>, i: nat, weight: T -> M, s: Sum<M>)
    requires i < |xs|
    ensures Fold(xs[..i + 1], weight, s) == s.add(Fold(xs[..i], weight, s), weight(xs[i]))
  {
    assert xs[..i + 1][..i] == xs[..i];
  }

  method SumItems(items: seq<Item>)
      returns (sums: Sums, figures: Figures, penaltyAmount: int, penaltyCount: int, net: int, delta: int)
    ensures sums == Fold(items, SumsOf, SUMS) && figures == Fold(items, FiguresOfItem, FIGURES)
    ensures penaltyAmount == Fold(items, PenaltiesOf, INTS) && penaltyCount == Fold(items, PenaltyCountOf, INTS)
    ensures net == Fold(items, NetOf, INTS) && delta == Fold(items, DeltaOf, INTS)
  {
    sums, figures, penaltyAmount, penaltyCount, net, delta := ZERO, NOTHING, 0, 0, 0, 0;
    for i := 0 to |items|
      invariant sums == Fold(items[..i], SumsOf, SUMS) && figures == Fold(items[..i], FiguresOfItem, FIGURES)
      invariant penaltyAmount == Fold(items[..i], PenaltiesOf, INTS)
      invariant penaltyCount == Fold(items[..i], PenaltyCountOf, INTS)
      invariant net == Fold(items[..i], NetOf, INTS) && delta == Fold(items[..i], DeltaOf, INTS)
    {
      FoldNext(items, i, SumsOf, SUMS);
      FoldNext(items, i, FiguresOfItem, FIGURES);
      FoldNext(items, i, PenaltiesOf, INTS);
      FoldNext(items, i, PenaltyCountOf, INTS);
      FoldNext(items, i, NetOf, INTS);
      FoldNext(items, i, DeltaOf, INTS);
      sums := Add(sums, items[i].row.sums);
      figures := AddFigures(figures, items[i].adjustments.total);
      penaltyAmount := penaltyAmount + items[i].penaltyAmount;
      penaltyCount := penaltyCount + items[i].penaltyCount;
      net := net + items[i].net;
      delta := delta + items[i].row.delta;
    }
    assert items[..|items|] == items;
  }

  method ComputeTotals(d: Data, items: seq<Item>, view: View) returns (t: Totals)
    requires ValidData(d) && AllItems(items, d, view)
    ensures AreTotals(t, items)
    ensures IsCategoryList(t.adjustments.byCategory, Flatten(Parts(d, items)), d.table)
  {
    var s, figures, penaltyAmount, penaltyCount, net, delta := SumItems(items);
    forall i | 0 <= i < |items| ensures IsCategoryList(Lists(items)[i], Parts(d, items)[i], d.table) {
      ItemFacts(items, d, view, i);
    }
    var byCategory := MergeCategoryAmounts(Lists(items), Parts(d, items), d.table);
    t := Totals(s.worked, s.overtimeSeconds, s.shifts, s.gross, s.base, s.overtime, penaltyAmount, penaltyCount,
                Fields(figures, byCategory), net, s.plannedSeconds, s.planned, delta, s.lateCount, s.lateSeconds);
  }

  // ----- _compute_org_payroll ------------------------------------------------------------

  // Who has a row in the report.
  predicate Shown(d: Data, u: UserId, onlyMissing: bool)
    requires ValidData(d)
  {
    && u in Everyone(d)
    && (onlyMissing ==>
      EarningsOf(Of(d.shifts, u), TermsOf(d, u)).unpaidShifts > 0 || Of(d.penalties, u) != []
          || Of(d.adjustments, u) != [])
  }

  ghost predicate IsReport(r: PayrollReport, d: Data, view: View, onlyMissing: bool)
    requires ValidData(d)
  {
    && Sorted(r.items, ItemLess)
    && (forall u :: u in UsersOf(r.items) <==> Shown(d, u, onlyMissing))
    && AllItems(r.items, d, view)
    && AreTotals(r.totals, r.items)
    && IsCategoryList(r.totals.adjustments.byCategory, Flatten(Parts(d, r.items)), d.table)
    && r.penaltyRows == RowsOfUsers(d.penalties, UserSet(r.items))
    && r.adjustmentRows == RowsOfUsers(d.adjustments, UserSet(r.items))
  }

  function UserSet(items: seq<Item>): set<UserId> {
    set item | item in items :: item.user
  }

  // The filter on the item reads as the filter on the user's rows.
  lemma {:induction false} KeptByRows(item: Item, d: Data, onlyMissing: bool)
    requires HoldsOperations(item, d)
    ensures Kept(item, onlyMissing) <==>
      (onlyMissing ==> item.row.missingRate || Of(d.penalties, item.user) != [] || Of(d.adjustments, item.user) != [])
  {
    AccrualMinusDeduction(Of(d.adjustments, item.user), None);
  }

  // `us` lists the set of all users in whatever order.
  method ComputeOrgPayroll(d: Data, us: seq<UserId>, view: View, onlyMissing: bool) returns (r: PayrollReport)
    requires ValidData(d) && Distinct(us) && forall u :: u in us <==> u in Everyone(d)
    ensures IsReport(r, d, view, onlyMissing)
  {
    var all := MakeItems(d, us, view);
    var kept := Keep(all, onlyMissing);
    var items := Sort(kept, ItemLess);
    KeepDistinct(all, onlyMissing);
    ItemsInOrder(kept);
    forall i | 0 <= i < |items| ensures IsItem(items[i], d, view) {
      assert items[i] in kept && items[i] in all;
    }
    ShownUsers(d, view, onlyMissing, all, items);
    var totals := ComputeTotals(d, items, view);
    r := PayrollReport(items, totals, RowsOfUsers(d.penalties, UserSet(items)),
        RowsOfUsers(d.adjustments, UserSet(items)));
  }

  // The rows come by name, and those of one name by user; who has no profile is "Unknown".
  lemma {:induction false} RowsComeByName(r: PayrollReport, d: Data, view: View, onlyMissing: bool, i: nat, j: nat)
    requires ValidData(d) && IsReport(r, d, view, onlyMissing) && i < j < |r.items|
    ensures var a, b := r.items[i], r.items[j];
      && a.name == (if a.user in d.names then d.names[a.user] else "Unknown")
      && b.name == (if b.user in d.names then d.names[b.user] else "Unknown")
      && (a.name == b.name ==> a.user < b.user)
      && (a.name != b.name ==> exists n: nat :: FirstDifference(a.name, b.name, n))
  {
    assert ItemLess(r.items[i], r.items[j]);
    TextOrderIsLexicographic(r.items[i].name, r.items[j].name);
    ItemFacts(r.items, d, view, i);
    ItemFacts(r.items, d, view, j);
  }

  lemma {:induction false} ShownUsers(d: Data, view: View, onlyMissing: bool, all: seq<Item>, items: seq<Item>)
    requires ValidData(d) && AllItems(all, d, view)
    requires forall u :: u in UsersOf(all) <==> u in Everyone(d)
    requires forall x :: x in items <==> x in all && Kept(x, onlyMissing)
    ensures forall u :: u in UsersOf(items) <==> Shown(d, u, onlyMissing)
  {
    forall u ensures u in UsersOf(items) <==> Shown(d, u, onlyMissing) {
      if u in UsersOf(items) {
        var i :| 0 <= i < |items| && UsersOf(items)[i] == u;
        assert items[i] in items;
        var k :| 0 <= k < |all| && all[k] == items[i];
        assert UsersOf(all)[k] == u;
        ItemFacts(all, d, view, k);
        KeptByRows(all[k], d, onlyMissing);
      }
      if Shown(d, u, onlyMissing) {
        var k :| 0 <= k < |all| && UsersOf(all)[k] == u;
        assert all[k] in all;
        ItemFacts(all, d, view, k);
        KeptByRows(all[k], d, onlyMissing);
        var i :| 0 <= i < |items| && items[i] == all[k];
        assert UsersOf(items)[i] == u;
      }
    }
  }

  // Whether a finished shift of the user starts before any rate of the user.
  predicate StartsWithoutRate(d: Data, u: UserId) {
    exists i :: 0 <= i < |d.shifts| && d.shifts[i].user == u && StartsBeforeRates(d, u, i)
  }

  predicate StartsBeforeRates(d: Data, u: UserId, i: nat)
    requires i < |d.shifts|
  {
    u in d.rates ==> forall q :: q in d.rates[u] ==> d.shifts[i].value.start < q.effectiveFrom
  }

  lemma {:induction false} UnpaidShiftsExist(shifts: seq<WorkShift>, t: Terms)
    ensures EarningsOf(shifts, t).unpaidShifts > 0 <==>
      exists i :: 0 <= i < |shifts| && t.rateAt(shifts[i].start).None?
    ensures 0 <= EarningsOf(shifts, t).unpaidShifts
    decreases |shifts|
  {
    if shifts != [] {
      var n := |shifts| - 1;
      UnpaidShiftsExist(shifts[..n], t);
      if i :| 0 <= i < n && t.rateAt(shifts[..n][i].start).None? {
        assert t.rateAt(shifts[i].start).None?;
      }
      if i :| 0 <= i < |shifts| && t.rateAt(shifts[i].start).None? && i < n {
        assert t.rateAt(shifts[..n][i].start).None?;
      }
    }
  }

  lemma {:induction false} OwnedBy<T(!new)>(rows: seq<Owned<T>>, u: UserId, x: T)
    ensures x in Of(rows, u) <==> exists i :: 0 <= i < |rows| && rows[i] == Owned(u, x)
    decreases |rows|
  {
    if rows != [] {
      var n := |rows| - 1;
      OwnedBy(rows[..n], u, x);
      if i :| 0 <= i < |rows| && rows[i] == Owned(u, x) && i < n {
        assert rows[..n][i] == rows[i];
      }
    }
  }

  lemma {:induction false} UnpaidByRows(d: Data, u: UserId)
    requires ValidData(d)
    ensures EarningsOf(Of(d.shifts, u), TermsOf(d, u)).unpaidShifts > 0 <==> StartsWithoutRate(d, u)
  {
    var t, own := TermsOf(d, u), Of(d.shifts, u);
    UnpaidShiftsExist(own, t);
    if i :| 0 <= i < |own| && t.rateAt(own[i].start).None? {
      OwnedBy(d.shifts, u, own[i]);
      var j :| 0 <= j < |d.shifts| && d.shifts[j] == Owned(u, own[i]);
      assert StartsBeforeRates(d, u, j);
    }
    if j :| 0 <= j < |d.shifts| && d.shifts[j].user == u && StartsBeforeRates(d, u, j) {
      OwnedBy(d.shifts, u, d.shifts[j].value);
      assert d.shifts[j] == Owned(u, d.shifts[j].value);
      var i :| 0 <= i < |own| && own[i] == d.shifts[j].value;
      assert t.rateAt(own[i].start).None?;
    }
  }

  // Who is shown: everyone with a finished shift or an operation; under the filter, only who
  // has a shift without a rate, or an operation.
  lemma {:induction false} ShownByRows(d: Data, u: UserId)
    requires ValidData(d)
    ensures Shown(d, u, true) <==>
      StartsWithoutRate(d, u)
      || (exists i :: 0 <= i < |d.penalties| && d.penalties[i].user == u)
      || (exists i :: 0 <= i < |d.adjustments| && d.adjustments[i].user == u)
    ensures Shown(d, u, false) <==>
      (exists i :: 0 <= i < |d.shifts| && d.shifts[i].user == u)
      || (exists i :: 0 <= i < |d.penalties| && d.penalties[i].user == u)
      || (exists i :: 0 <= i < |d.adjustments| && d.adjustments[i].user == u)
  {
    UnpaidByRows(d, u);
    OwnersHaveRows(d.shifts, u);
    OwnersHaveRows(d.penalties, u);
    OwnersHaveRows(d.adjustments, u);
  }

  lemma {:induction false} OwnersHaveRows<T(!new)>(rows: seq<Owned<T>>, u: UserId)
    ensures Of(rows, u) != [] <==> exists i :: 0 <= i < |rows| && rows[i].user == u
    ensures u in Owners(rows) <==> exists i :: 0 <= i < |rows| && rows[i].user == u
  {
    if Of(rows, u) != [] {
      OwnedBy(rows, u, Of(rows, u)[0]);
      var i :| 0 <= i < |rows| && rows[i] == Owned(u, Of(rows, u)[0]);
    }
    if i :| 0 <= i < |rows| && rows[i].user == u {
      OfNonEmpty(rows, i);
    }
  }

  // ----- What the report conserves -------------------------------------------------------

  lemma {:induction false} OfNonEmpty<T>(rows: seq<Owned<T>>, i: nat)
    requires i < |rows|
    ensures Of(rows, rows[i].user) != []
    decreases |rows|
  {
    if i < |rows| - 1 {
      OfNonEmpty(rows[..|rows| - 1], i);
    }
  }

  // Nobody with an operation row is ever filtered out: every operation row is returned.
  lemma {:induction false} NoOperationIsDropped(r: PayrollReport, d: Data, view: View, onlyMissing: bool)
    requires ValidData(d) && IsReport(r, d, view, onlyMissing)
    ensures r.penaltyRows == d.penalties && r.adjustmentRows == d.adjustments
    ensures forall i :: 0 <= i < |d.penalties| ==> d.penalties[i].user in UsersOf(r.items)
    ensures forall i :: 0 <= i < |d.adjustments| ==> d.adjustments[i].user in UsersOf(r.items)
  {
    forall i | 0 <= i < |d.penalties|
      ensures d.penalties[i].user in UsersOf(r.items) && d.penalties[i].user in UserSet(r.items)
    {
      OfNonEmpty(d.penalties, i);
      assert Shown(d, d.penalties[i].user, onlyMissing);
      UserHasItem(r.items, d.penalties[i].user);
    }
    forall i | 0 <= i < |d.adjustments|
      ensures d.adjustments[i].user in UsersOf(r.items) && d.adjustments[i].user in UserSet(r.items)
    {
      OfNonEmpty(d.adjustments, i);
      assert Shown(d, d.adjustments[i].user, onlyMissing);
      UserHasItem(r.items, d.adjustments[i].user);
    }
    AllRowsOfUsers(d.penalties, UserSet(r.items));
    AllRowsOfUsers(d.adjustments, UserSet(r.items));
  }

  lemma {:induction false} UserHasItem(items: seq<Item>, u: UserId)
    requires u in UsersOf(items)
    ensures u in UserSet(items)
  {
    var i :| 0 <= i < |items| && UsersOf(items)[i] == u;
    assert items[i] in items;
  }

  // The totals of operations are the sums over the returned operation rows, and the totals'
  // category list is what the same computation gives on all those rows at once.
  lemma {:induction false} OperationTotals(r: PayrollReport, d: Data, view: View, onlyMissing: bool)
    requires ValidData(d) && IsReport(r, d, view, onlyMissing)
    ensures r.totals.penaltyAmount == Fold(Plain(r.penaltyRows), Same, INTS)
    ensures r.totals.penaltyCount == |r.penaltyRows|
    ensures r.totals.adjustments.total == FiguresOf(Plain(r.adjustmentRows))
    ensures IsCategoryList(r.totals.adjustments.byCategory, Plain(r.adjustmentRows), d.table)
  {
    NoOperationIsDropped(r, d, view, onlyMissing);
    SortedUsersDiffer(r.items, d, view);
    forall i | 0 <= i < |r.items| ensures HoldsOperations(r.items[i], d) {
      ItemFacts(r.items, d, view, i);
    }
    PenaltyTotals(r.items, d);
    PenaltyCounts(r.items, d);
    AdjustmentTotals(r.items, d);
    SameCategoryList(r.totals.adjustments.byCategory, r.items, d);
  }

  ghost function PenaltyParts(d: Data, items: seq<Item>): (r: seq<seq<int>>)
    ensures PartsOf(r, d.penalties, UsersOf(items))
  {
    seq(|items|, i requires 0 <= i < |items| => Of(d.penalties, items[i].user))
  }

  function One(x: int): int {
    1
  }

  lemma {:induction false} FoldOnes(xs: seq<int>)
    ensures Fold(xs, One, INTS) == |xs|
    decreases |xs|
  {
    if xs != [] {
      FoldOnes(xs[..|xs| - 1]);
    }
  }

  predicate HoldsOperations(item: Item, d: Data) {
    && PenaltiesOf(item) == Fold(Of(d.penalties, item.user), Same, INTS)
    && PenaltyCountOf(item) == |Of(d.penalties, item.user)|
    && FiguresOfItem(item) == FiguresOf(Of(d.adjustments, item.user))
  }

  lemma {:induction false} PenaltyTotals(items: seq<Item>, d: Data)
    requires Distinct(UsersOf(items)) && forall i :: 0 <= i < |items| ==> HoldsOperations(items[i], d)
    requires forall i :: 0 <= i < |d.penalties| ==> d.penalties[i].user in UsersOf(items)
    ensures Fold(items, PenaltiesOf, INTS) == Fold(Plain(d.penalties), Same, INTS)
  {
    var parts := PenaltyParts(d, items);
    IntsAreLawful();
    SumByUser(parts, d.penalties, UsersOf(items), Same, INTS);
    var sum := Each(Same, INTS);
    forall i | 0 <= i < |items| ensures PenaltiesOf(items[i]) == sum(parts[i]) {
      assert HoldsOperations(items[i], d);
    }
    FoldMatch(items, PenaltiesOf, parts, sum, INTS);
  }

  lemma {:induction false} PenaltyCounts(items: seq<Item>, d: Data)
    requires Distinct(UsersOf(items)) && forall i :: 0 <= i < |items| ==> HoldsOperations(items[i], d)
    requires forall i :: 0 <= i < |d.penalties| ==> d.penalties[i].user in UsersOf(items)
    ensures Fold(items, PenaltyCountOf, INTS) == |d.penalties|
  {
    var parts := PenaltyParts(d, items);
    IntsAreLawful();
    SumByUser(parts, d.penalties, UsersOf(items), One, INTS);
    var sum := Each(One, INTS);
    forall i | 0 <= i < |items| ensures PenaltyCountOf(items[i]) == sum(parts[i]) {
      FoldOnes(parts[i]);
      assert HoldsOperations(items[i], d);
    }
    FoldMatch(items, PenaltyCountOf, parts, sum, INTS);
    FoldOnes(Plain(d.penalties));
  }

  lemma {:induction false} AdjustmentTotals(items: seq<Item>, d: Data)
    requires Distinct(UsersOf(items)) && forall i :: 0 <= i < |items| ==> HoldsOperations(items[i], d)
    requires forall i :: 0 <= i < |d.adjustments| ==> d.adjustments[i].user in UsersOf(items)
    ensures Fold(items, FiguresOfItem, FIGURES) == FiguresOf(Plain(d.adjustments))
  {
    var parts := Parts(d, items);
    FiguresAreLawful();
    SumByUser(parts, d.adjustments, UsersOf(items), RowFigures, FIGURES);
    var sum := Each(RowFigures, FIGURES);
    forall i | 0 <= i < |items| ensures FiguresOfItem(items[i]) == sum(parts[i]) {
      assert HoldsOperations(items[i], d);
    }
    FoldMatch(items, FiguresOfItem, parts, sum, FIGURES);
  }

  // A category list depends only on which rows there are, not on how they are grouped.
  lemma {:induction false} SameCategoryList(es: seq<Entry>, items: seq<Item>, d: Data)
    requires Distinct(UsersOf(items))
    requires forall i :: 0 <= i < |d.adjustments| ==> d.adjustments[i].user in UsersOf(items)
    requires IsCategoryList(es, Flatten(Parts(d, items)), d.table)
    ensures IsCategoryList(es, Plain(d.adjustments), d.table)
  {
    var parts := Parts(d, items);
    forall e ensures IsEntryOf(e, Flatten(parts), d.table) <==> IsEntryOf(e, Plain(d.adjustments), d.table) {
      SameFiguresIn(parts, items, d, e.category);
      SameCategories(parts, items, d);
    }
  }

  lemma {:induction false} SameFiguresIn(parts: seq<seq<AdjustmentRow>>, items: seq<Item>, d: Data,
      c: Option<CategoryId>)
    requires Distinct(UsersOf(items))
    requires forall i :: 0 <= i < |d.adjustments| ==> d.adjustments[i].user in UsersOf(items)
    requires PartsOf(parts, d.adjustments, UsersOf(items))
    ensures FiguresIn(Flatten(parts), c) == FiguresIn(Plain(d.adjustments), c)
  {
    FiguresAreLawful();
    SumByUser(parts, d.adjustments, UsersOf(items), Keyed(CategoryOf, RowFigures, FIGURES, c), FIGURES);
  }

  lemma {:induction false} SameCategories(parts: seq<seq<AdjustmentRow>>, items: seq<Item>, d: Data)
    requires forall i :: 0 <= i < |d.adjustments| ==> d.adjustments[i].user in UsersOf(items)
    requires PartsOf(parts, d.adjustments, UsersOf(items))
    ensures CategoriesOf(Flatten(parts)) == CategoriesOf(Plain(d.adjustments))
  {
    forall x ensures x in Flatten(parts) <==> x in Plain(d.adjustments) {
      FlattenKeepsMembers(parts, d.adjustments, UsersOf(items), x);
    }
  }

  // At the level of the totals: base and overtime make up gross, the delta is gross less the
  // plan, and net is gross less penalties plus adjustments.
  lemma {:induction false} TotalsBalance(r: PayrollReport, d: Data, view: View, onlyMissing: bool)
    requires ValidData(d) && IsReport(r, d, view, onlyMissing)
    ensures r.totals.base + r.totals.overtime == r.totals.gross
    ensures r.totals.delta == r.totals.gross - r.totals.planned
    ensures r.totals.net == r.totals.gross - r.totals.penaltyAmount + r.totals.adjustments.total.amount
    ensures r.totals.adjustments.total.accrual - r.totals.adjustments.total.deduction
        == r.totals.adjustments.total.amount
    ensures EntrySum(r.totals.adjustments.byCategory) == r.totals.adjustments.total
  {
    forall i | 0 <= i < |r.items| ensures Balanced(r.items[i]) {
      ItemBalances(r.items, d, view, i);
    }
    ItemsBalance(r.items);
    OperationTotals(r, d, view, onlyMissing);
    AccrualMinusDeduction(Plain(r.adjustmentRows), None);
    CategoriesAddUp(r.totals.adjustments.byCategory, Plain(r.adjustmentRows), d.table);
  }

  predicate Balanced(item: Item) {
    var s := item.row.sums;
    && s.base + s.overtime == s.gross
    && item.row.delta == s.gross - s.planned
    && item.net == s.gross - item.penaltyAmount + item.adjustments.total.amount
  }

  lemma {:induction false} ItemBalances(items: seq<Item>, d: Data, view: View, i: nat)
    requires ValidData(d) && AllItems(items, d, view) && i < |items|
    ensures Balanced(items[i])
  {
    ItemFacts(items, d, view, i);
    BaseAndOvertime(Of(d.shifts, items[i].user), TermsOf(d, items[i].user));
  }

  lemma {:induction false} ItemsBalance(items: seq<Item>)
    requires forall i :: 0 <= i < |items| ==> Balanced(items[i])
    ensures var s := Fold(items, SumsOf, SUMS);
      && s.base + s.overtime == s.gross
      && Fold(items, DeltaOf, INTS) == s.gross - s.planned
      && Fold(items, NetOf, INTS) == s.gross - Fold(items, PenaltiesOf, INTS)
          + Fold(items, FiguresOfItem, FIGURES).amount
    decreases |items|
  {
    if items != [] {
      var front, last := items[..|items| - 1], items[|items| - 1];
      ItemsBalance(front);
      assert Balanced(last);
    }
  }

  // ----- Totals over the shifts ----------------------------------------------------------

  // What a shift adds under the rates of the user who worked it.
  ghost function OwnedPay(d: Data): Owned<WorkShift> -> Sums
    requires ValidData(d)
  {
    (o: Owned<WorkShift>) => Contribution(o.value, TermsOf(d, o.user))
  }

  lemma {:induction false} SumOfIsFold(shifts: seq<WorkShift>, pay: WorkShift -> Sums)
    ensures SumOf(shifts, pay) == Fold(shifts, pay, SUMS)
    decreases |shifts|
  {
    if shifts != [] {
      SumOfIsFold(shifts[..|shifts| - 1], pay);
    }
  }

  lemma {:induction false} OfShownRows<T>(rows: seq<Owned<T>>, users: set<UserId>, u: UserId)
    requires u in users
    ensures Of(RowsOfUsers(rows, users), u) == Of(rows, u)
    decreases |rows|
  {
    if rows != [] {
      var front, last := rows[..|rows| - 1], rows[|rows| - 1];
      OfShownRows(front, users, u);
      if last.user in users {
        assert RowsOfUsers(rows, users)[..|RowsOfUsers(front, users)|] == RowsOfUsers(front, users);
      } else {
        assert RowsOfUsers(rows, users) == RowsOfUsers(front, users);
      }
    }
  }

  lemma {:induction false} RowsOfUsersOwned<T>(rows: seq<Owned<T>>, users: set<UserId>)
    ensures forall i :: 0 <= i < |RowsOfUsers(rows, users)| ==> RowsOfUsers(rows, users)[i].user in users
    decreases |rows|
  {
    if rows != [] {
      RowsOfUsersOwned(rows[..|rows| - 1], users);
    }
  }

  predicate HoldsEarnings(item: Item, d: Data)
    requires ValidData(d)
  {
    SumsOf(item) == EarningsOf(Of(d.shifts, item.user), TermsOf(d, item.user))
  }

  lemma {:induction false} ItemSums(item: Item, d: Data, users: set<UserId>)
    requires ValidData(d) && HoldsEarnings(item, d) && item.user in users
    ensures SumsOf(item) == PerUser(RowsOfUsers(d.shifts, users), OwnedPay(d), SUMS)(item.user)
  {
    var u, own := item.user, Of(d.shifts, item.user);
    OfShownRows(d.shifts, users, u);
    SumOfIsFold(own, PayOf(TermsOf(d, u)));
    var owned := Held(OwnedPay(d), u);
    forall i | 0 <= i < |own| ensures PayOf(TermsOf(d, u))(own[i]) == owned(own[i]) {
      assert OwnedPay(d)(Owned(u, own[i])) == Contribution(own[i], TermsOf(d, u));
    }
    FoldMatch(own, PayOf(TermsOf(d, u)), own, owned, SUMS);
  }

  lemma {:induction false} ItemOfUser(items: seq<Item>, u: UserId)
    requires u in UserSet(items)
    ensures u in UsersOf(items)
  {
    var i :| 0 <= i < |items| && items[i].user == u;
    assert UsersOf(items)[i] == u;
  }

  lemma {:induction false} EarningsOfItems(items: seq<Item>, d: Data)
    requires ValidData(d) && Distinct(UsersOf(items)) && forall i :: 0 <= i < |items| ==> HoldsEarnings(items[i], d)
    ensures Fold(items, SumsOf, SUMS) == Fold(RowsOfUsers(d.shifts, UserSet(items)), OwnedPay(d), SUMS)
  {
    var users, members, shown := UsersOf(items), UserSet(items), RowsOfUsers(d.shifts, UserSet(items));
    SumsAreLawful();
    RowsOfUsersOwned(d.shifts, members);
    forall i | 0 <= i < |shown| ensures shown[i].user in users {
      ItemOfUser(items, shown[i].user);
    }
    SumOverUsers(shown, users, OwnedPay(d), SUMS);
    var perUser := PerUser(shown, OwnedPay(d), SUMS);
    forall i | 0 <= i < |users| ensures SumsOf(items[i]) == perUser(users[i]) {
      assert items[i] in items;
      ItemSums(items[i], d, members);
    }
    FoldMatch(items, SumsOf, users, perUser, SUMS);
  }

  // The earnings totals are the computation over the shifts of the users shown, each shift
  // under its own user's rates; without the filter that is all shifts of the period.
  lemma {:induction false} EarningsTotals(r: PayrollReport, d: Data, view: View, onlyMissing: bool)
    requires ValidData(d) && IsReport(r, d, view, onlyMissing)
    ensures Fold(r.items, SumsOf, SUMS) == Fold(RowsOfUsers(d.shifts, UserSet(r.items)), OwnedPay(d), SUMS)
    ensures !onlyMissing ==> RowsOfUsers(d.shifts, UserSet(r.items)) == d.shifts
  {
    SortedUsersDiffer(r.items, d, view);
    forall i | 0 <= i < |r.items| ensures HoldsEarnings(r.items[i], d) {
      ItemFacts(r.items, d, view, i);
    }
    EarningsOfItems(r.items, d);
    if !onlyMissing {
      forall i | 0 <= i < |d.shifts| ensures d.shifts[i].user in UserSet(r.items) {
        assert Shown(d, d.shifts[i].user, onlyMissing);
        UserHasItem(r.items, d.shifts[i].user);
      }
      AllRowsOfUsers(d.shifts, UserSet(r.items));
    }
  }
}
