// Manual accruals and deductions of a payroll report: figures by category, the deterministic
// order of categories, and the merge of employees' lists into the totals list.

module Adjustments {
  import opened Results
  import opened Sorting
  import opened Grouping
  import opened Sequences

  type CategoryId = nat

  // A category as the report's join sees it. `lowered` is its name in lower case; `created`
  // is counted from the least representable moment.
  datatype Category = Category(name: string, lowered: string, deleted: bool, created: nat)

  type Categories = map<CategoryId, Category>

  datatype AdjustmentRow = AdjustmentRow(amount: int, category: Option<CategoryId>)

  datatype Figures = Figures(amount: int, accrual: int, deduction: int, count: int)

  const NOTHING := Figures(0, 0, 0, 0)

  function AddFigures(a: Figures, b: Figures): Figures {
    Figures(a.amount + b.amount, a.accrual + b.accrual, a.deduction + b.deduction, a.count + b.count)
  }

  const FIGURES: Sum<Figures> := Sum(NOTHING, AddFigures)

  // One list element of `adjustments_by_category`.
  datatype Entry = Entry(category: Option<CategoryId>, name: Option<string>, deleted: bool, figures: Figures)

  datatype Fields = Fields(total: Figures, byCategory: seq<Entry>)

  // A missing category reads as nameless, live and created first.
  function Lookup(id: CategoryId, table: Categories): Category {
    if id in table then table[id] else Category("", "", false, 0)
  }

  function EmptyEntry(c: Option<CategoryId>, table: Categories): Entry {
    match c
    case None => Entry(None, None, false, NOTHING)
    case Some(id) => Entry(c, Some(Lookup(id, table).name), Lookup(id, table).deleted, NOTHING)
  }

  lemma {:induction false} FiguresAreLawful()
    ensures Lawful(FIGURES)
  {}

  // ----- Order of categories -------------------------------------------------------------

  // Order of texts by their characters.
  predicate TextLess(a: string, b: string) {
    b != "" && (a == "" || a[0] < b[0] || (a[0] == b[0] && TextLess(a[1..], b[1..])))
  }

  // Lower-case name, live before deleted, creation, identifier; no category comes last.
  predicate CategoryLess(a: Option<CategoryId>, b: Option<CategoryId>, table: Categories) {
    if a.None? then false
    else if b.None? then true
    else
      var x, y := Lookup(a.value, table), Lookup(b.value, table);
      if x.lowered != y.lowered then TextLess(x.lowered, y.lowered)
      else if x.deleted != y.deleted then !x.deleted
      else if x.created != y.created then x.created < y.created
      else a.value < b.value
  }

  function EntryLess(table: Categories): (Entry, Entry) -> bool {
    (a: Entry, b: Entry) => CategoryLess(a.category, b.category, table)
  }

  lemma {:induction false} TextLessTotal(a: string, b: string)
    ensures TextLess(a, b) || a == b || TextLess(b, a)
    ensures !(TextLess(a, b) && TextLess(b, a)) && !TextLess(a, a)
    decreases |a|
  {
    if a != "" && b != "" {
      TextLessTotal(a[1..], b[1..]);
      if a[0] == b[0] && a[1..] == b[1..] {
        assert a == [a[0]] + a[1..] && b == [b[0]] + b[1..];
      }
    }
    if a != "" {
      TextLessTotal(a[1..], a[1..]);
    }
  }

  lemma {:induction false} TextLessTransitive(a: string, b: string, c: string)
    requires TextLess(a, b) && TextLess(b, c)
    ensures TextLess(a, c)
    decreases |a|
  {
    if a != "" && a[0] == b[0] == c[0] {
      TextLessTransitive(a[1..], b[1..], c[1..]);
    }
  }

  // The order is a strict total order on categories: no two of them tie.
  lemma {:induction false} CategoryOrder(a: Option<CategoryId>, b: Option<CategoryId>, c: Option<CategoryId>,
      table: Categories)
    ensures CategoryLess(a, b, table) || a == b || CategoryLess(b, a, table)
    ensures !CategoryLess(a, a, table)
    ensures CategoryLess(a, b, table) && CategoryLess(b, c, table) ==> CategoryLess(a, c, table)
  {
    if a.Some? && b.Some? {
      TextLessTotal(Lookup(a.value, table).lowered, Lookup(b.value, table).lowered);
      if c.Some? {
        var x, y, z := Lookup(a.value, table).lowered, Lookup(b.value, table).lowered, Lookup(c.value, table).lowered;
        TextLessTotal(y, z);
        TextLessTotal(x, z);
        if TextLess(x, y) && TextLess(y, z) {
          TextLessTransitive(x, y, z);
        }
      }
    }
  }

  // Texts differ at the first place where they differ, or in length.
  lemma {:induction false} TextOrderIsLexicographic(a: string, b: string)
    ensures TextLess(a, b) <==> exists n: nat :: FirstDifference(a, b, n)
    decreases |a|
  {
    if b != "" {
      if a == "" {
        assert FirstDifference(a, b, 0);
      } else if a[0] < b[0] {
        assert FirstDifference(a, b, 0);
      } else {
        TextOrderIsLexicographic(a[1..], b[1..]);
        if n: nat :| FirstDifference(a[1..], b[1..], n) && a[0] == b[0] {
          assert a == [a[0]] + a[1..] && b == [b[0]] + b[1..];
          assert FirstDifference(a, b, n + 1);
        }
        if n: nat :| FirstDifference(a, b, n) {
          LaterDifference(a, b, n);
        }
      }
    }
  }

  predicate FirstDifference(a: string, b: string, n: nat) {
    n <= |a| && n < |b| && a[..n] == b[..n] && (n == |a| || a[n] < b[n])
  }

  lemma {:induction false} LaterDifference(a: string, b: string, n: nat)
    requires FirstDifference(a, b, n) && a != "" && !(a[0] < b[0])
    ensures a[0] == b[0] && 0 < n && FirstDifference(a[1..], b[1..], n - 1)
  {
    if n > 0 {
      assert a[0] == a[..n][0] && b[0] == b[..n][0];
      assert a[1..][..n - 1] == a[..n][1..] && b[1..][..n - 1] == b[..n][1..];
    }
  }

  // What the key compares: the name in lower case first, then live before deleted, then the
  // time of creation, then the identifier; what has no category comes last.
  lemma {:induction false} OrderOfCategories(a: CategoryId, b: CategoryId, table: Categories)
    ensures CategoryLess(Some(a), None, table) && !CategoryLess(None, Some(a), table)
    ensures a in table && b in table ==>
      var x, y := table[a], table[b];
      && (TextLess(x.lowered, y.lowered) ==> CategoryLess(Some(a), Some(b), table))
      && (x.lowered == y.lowered && !x.deleted && y.deleted ==> CategoryLess(Some(a), Some(b), table))
      && (x.lowered == y.lowered && x.deleted == y.deleted && x.created < y.created ==>
            CategoryLess(Some(a), Some(b), table))
      && (x.lowered == y.lowered && x.deleted == y.deleted && x.created == y.created && a < b ==>
            CategoryLess(Some(a), Some(b), table))
  {
    if a in table && b in table {
      TextLessTotal(table[a].lowered, table[b].lowered);
    }
  }

  // A category that is not in the table ranks as a live one without a name, created first.
  lemma {:induction false} OrderOfUnknown(a: CategoryId, b: CategoryId, table: Categories)
    requires a !in table && b in table
    ensures table[b].lowered != "" || table[b].deleted || 0 < table[b].created ==> CategoryLess(Some(a), Some(b), table)
  {}

  lemma {:induction false} EntryOrder(table: Categories)
    ensures StrictOrder(EntryLess(table))
  {
    forall a: Entry, b: Entry, c: Entry
      ensures !EntryLess(table)(a, a)
      ensures EntryLess(table)(a, b) && EntryLess(table)(b, c) ==> EntryLess(table)(a, c)
    {
      CategoryOrder(a.category, b.category, c.category, table);
    }
  }

  predicate DistinctCategories(es: seq<Entry>) {
    forall i, j :: 0 <= i < j < |es| ==> es[i].category != es[j].category
  }

  lemma {:induction false} DistinctIsComparable(es: seq<Entry>, table: Categories)
    requires DistinctCategories(es)
    ensures Comparable(es, EntryLess(table))
  {
    forall i, j | 0 <= i < j < |es| ensures EntryLess(table)(es[i], es[j]) || EntryLess(table)(es[j], es[i]) {
      CategoryOrder(es[i].category, es[j].category, es[i].category, table);
    }
  }

  lemma {:induction false} SortedIsDistinct(es: seq<Entry>, table: Categories)
    requires Sorted(es, EntryLess(table))
    ensures DistinctCategories(es)
  {
    forall i, j | 0 <= i < j < |es| ensures es[i].category != es[j].category {
      assert EntryLess(table)(es[i], es[j]);
      CategoryOrder(es[i].category, es[j].category, es[i].category, table);
    }
  }

  // ----- Figures -------------------------------------------------------------------------

  function RowFigures(r: AdjustmentRow): Figures {
    if r.amount > 0 then Figures(r.amount, r.amount, 0, 1) else Figures(r.amount, 0, -r.amount, 1)
  }

  function FiguresOf(rows: seq<AdjustmentRow>): Figures {
    Fold(rows, RowFigures, FIGURES)
  }

  // The amounts above zero, and those below with their sign turned.
  function Accruals(rows: seq<AdjustmentRow>): int {
    if rows == [] then 0
    else Accruals(rows[..|rows| - 1]) + if rows[|rows| - 1].amount > 0 then rows[|rows| - 1].amount else 0
  }

  function Deductions(rows: seq<AdjustmentRow>): int {
    if rows == [] then 0
    else Deductions(rows[..|rows| - 1]) + if rows[|rows| - 1].amount < 0 then 0 - rows[|rows| - 1].amount else 0
  }

  // Accrual and deduction are the sums of the amounts of either sign, and every row counts.
  lemma {:induction false} FiguresBySign(rows: seq<AdjustmentRow>)
    ensures FiguresOf(rows) == Figures(Accruals(rows) - Deductions(rows), Accruals(rows), Deductions(rows), |rows|)
    decreases |rows|
  {
    if rows != [] {
      FiguresBySign(rows[..|rows| - 1]);
    }
  }

  function CategoryOf(r: AdjustmentRow): Option<CategoryId> {
    r.category
  }

  // The figures of the rows of one category.
  function FiguresIn(rows: seq<AdjustmentRow>, c: Option<CategoryId>): Figures {
    PerKey(rows, CategoryOf, RowFigures, FIGURES)(c)
  }

  function CategoriesOf(rows: seq<AdjustmentRow>): set<Option<CategoryId>> {
    set r | r in rows :: r.category
  }

  function EntryOf(rows: seq<AdjustmentRow>, c: Option<CategoryId>, table: Categories): Entry {
    EmptyEntry(c, table).(figures := FiguresIn(rows, c))
  }

  predicate IsEntryOf(e: Entry, rows: seq<AdjustmentRow>, table: Categories) {
    e.category in CategoriesOf(rows) && e == EntryOf(rows, e.category, table)
  }

  // What the category list of some rows is: ordered, with one entry for each category that
  // occurs, carrying the figures of exactly that category's rows.
  ghost predicate IsCategoryList(es: seq<Entry>, rows: seq<AdjustmentRow>, table: Categories) {
    && Sorted(es, EntryLess(table))
    && forall e :: e in es <==> IsEntryOf(e, rows, table)
  }

  lemma {:induction false} CategoryListIsUnique(a: seq<Entry>, b: seq<Entry>, rows: seq<AdjustmentRow>,
      table: Categories)
    requires IsCategoryList(a, rows, table) && IsCategoryList(b, rows, table)
    ensures a == b
  {
    EntryOrder(table);
    SortedIsUnique(a, b, EntryLess(table));
  }

  lemma {:induction false} FiguresInAppend(rows: seq<AdjustmentRow>, r: AdjustmentRow, c: Option<CategoryId>)
    ensures r.category == c ==> FiguresIn(rows + [r], c) == AddFigures(FiguresIn(rows, c), RowFigures(r))
    ensures r.category != c ==> FiguresIn(rows + [r], c) == FiguresIn(rows, c)
  {
    FiguresAreLawful();
    PerKeyAppend(rows, r, CategoryOf, RowFigures, FIGURES, c);
  }

  lemma {:induction false} FiguresInConcat(a: seq<AdjustmentRow>, b: seq<AdjustmentRow>, c: Option<CategoryId>)
    ensures FiguresIn(a + b, c) == AddFigures(FiguresIn(a, c), FiguresIn(b, c))
  {
    FiguresAreLawful();
    FoldConcat(a, b, Keyed(CategoryOf, RowFigures, FIGURES, c), FIGURES);
  }

  lemma {:induction false} RowHasCategory(rows: seq<AdjustmentRow>, r: AdjustmentRow)
    requires r in rows
    ensures CategoryOf(r) in CategoriesOf(rows)
  {}

  lemma {:induction false} AbsentCategory(rows: seq<AdjustmentRow>, c: Option<CategoryId>)
    requires c !in CategoriesOf(rows)
    ensures FiguresIn(rows, c) == NOTHING
  {
    FiguresAreLawful();
    assert Laws(FIGURES, NOTHING, NOTHING, NOTHING);
    forall r | r in rows ensures CategoryOf(r) != c {
      RowHasCategory(rows, r);
    }
    PerKeyAbsent(rows, CategoryOf, RowFigures, FIGURES, c);
  }

  // Accruals minus deductions are the amount, in total and in every category.
  lemma {:induction false} AccrualMinusDeduction(rows: seq<AdjustmentRow>, c: Option<CategoryId>)
    ensures FiguresOf(rows).accrual - FiguresOf(rows).deduction == FiguresOf(rows).amount
    ensures FiguresIn(rows, c).accrual - FiguresIn(rows, c).deduction == FiguresIn(rows, c).amount
    ensures 0 <= FiguresOf(rows).accrual && 0 <= FiguresOf(rows).deduction && FiguresOf(rows).count == |rows|
    decreases |rows|
  {
    if rows != [] {
      AccrualMinusDeduction(rows[..|rows| - 1], c);
    }
  }

  // ----- Accumulating in a dictionary ----------------------------------------------------

  // The dictionary with its keys in the order of insertion.
  datatype Groups = Groups(order: seq<Option<CategoryId>>, entries: map<Option<CategoryId>, Entry>)

  ghost predicate ValidGroups(g: Groups) {
    && (forall c :: c in g.order <==> c in g.entries)
    && Distinct(g.order)
    && (forall c :: c in g.entries ==> g.entries[c].category == c)
  }

  // The groups hold exactly the entries of the rows.
  ghost predicate GroupsOf(g: Groups, rows: seq<AdjustmentRow>, table: Categories) {
    && ValidGroups(g)
    && g.entries.Keys == CategoriesOf(rows)
    && forall c :: c in g.entries ==> g.entries[c] == EntryOf(rows, c, table)
  }

  function Slot(g: Groups, c: Option<CategoryId>, table: Categories): Entry {
    if c in g.entries then g.entries[c] else EmptyEntry(c, table)
  }

  // setdefault, then addition to the entry's figures.
  function AddTo(g: Groups, c: Option<CategoryId>, f: Figures, table: Categories): Groups {
    var e := Slot(g, c, table);
    Groups(if c in g.entries then g.order else g.order + [c], g.entries[c := e.(figures := AddFigures(e.figures, f))])
  }

  lemma {:induction false} AddToValid(g: Groups, c: Option<CategoryId>, f: Figures, table: Categories)
    requires ValidGroups(g)
    ensures ValidGroups(AddTo(g, c, f, table))
  {}

  lemma {:induction false} SlotHoldsFigures(g: Groups, rows: seq<AdjustmentRow>, c: Option<CategoryId>,
      table: Categories)
    requires GroupsOf(g, rows, table)
    ensures Slot(g, c, table) == EntryOf(rows, c, table)
  {
    if c !in g.entries {
      AbsentCategory(rows, c);
    }
  }

  lemma {:induction false} AddRowEntry(g: Groups, rows: seq<AdjustmentRow>, r: AdjustmentRow, c: Option<CategoryId>,
      table: Categories)
    requires GroupsOf(g, rows, table)
    requires c in AddTo(g, r.category, RowFigures(r), table).entries
    ensures AddTo(g, r.category, RowFigures(r), table).entries[c] == EntryOf(rows + [r], c, table)
  {
    FiguresInAppend(rows, r, c);
    SlotHoldsFigures(g, rows, r.category, table);
  }

  lemma {:induction false} AddRowStep(g: Groups, rows: seq<AdjustmentRow>, r: AdjustmentRow, table: Categories)
    requires GroupsOf(g, rows, table)
    ensures GroupsOf(AddTo(g, r.category, RowFigures(r), table), rows + [r], table)
  {
    var h := AddTo(g, r.category, RowFigures(r), table);
    AddToValid(g, r.category, RowFigures(r), table);
    assert CategoriesOf(rows + [r]) == CategoriesOf(rows) + {r.category};
    assert h.entries.Keys == g.entries.Keys + {r.category};
    forall c | c in h.entries ensures h.entries[c] == EntryOf(rows + [r], c, table) {
      AddRowEntry(g, rows, r, c, table);
    }
  }

  // The dictionary's values in the order of insertion.
  function Values(g: Groups, k: nat): (r: seq<Entry>)
    requires ValidGroups(g) && k <= |g.order|
    ensures |r| == k && forall i :: 0 <= i < k ==> g.order[i] in g.entries && r[i] == g.entries[g.order[i]]
  {
    if k == 0 then []
    else
      assert g.order[k - 1] in g.order;
      Values(g, k - 1) + [g.entries[g.order[k - 1]]]
  }

  function SortedValues(g: Groups, table: Categories): seq<Entry>
    requires ValidGroups(g)
  {
    Sort(Values(g, |g.order|), EntryLess(table))
  }

  lemma {:induction false} ValuesAreEntries(g: Groups, rows: seq<AdjustmentRow>, table: Categories, e: Entry)
    requires GroupsOf(g, rows, table)
    ensures e in Values(g, |g.order|) <==> IsEntryOf(e, rows, table)
  {
    var vs := Values(g, |g.order|);
    if e in vs {
      var i :| 0 <= i < |vs| && vs[i] == e;
      assert g.order[i] in g.entries;
    }
    if IsEntryOf(e, rows, table) {
      assert e.category in g.entries && e.category in g.order;
      var i :| 0 <= i < |g.order| && g.order[i] == e.category;
      assert vs[i] == e;
    }
  }

  lemma {:induction false} ValuesAreDistinct(g: Groups)
    requires ValidGroups(g)
    ensures DistinctCategories(Values(g, |g.order|))
  {
    var vs := Values(g, |g.order|);
    forall i, j | 0 <= i < j < |vs| ensures vs[i].category != vs[j].category {
      assert g.order[i] != g.order[j];
    }
  }

  lemma {:induction false} SortedValuesAreList(g: Groups, rows: seq<AdjustmentRow>, table: Categories)
    requires GroupsOf(g, rows, table)
    ensures IsCategoryList(SortedValues(g, table), rows, table)
  {
    var vs := Values(g, |g.order|);
    ValuesAreDistinct(g);
    DistinctIsComparable(vs, table);
    EntryOrder(table);
    SortSorts(vs, EntryLess(table));
    forall e ensures e in SortedValues(g, table) <==> IsEntryOf(e, rows, table) {
      ValuesAreEntries(g, rows, table, e);
    }
  }

  // ----- _adjustment_fields and _merge_category_amounts ----------------------------------

  method AdjustmentFields(rows: seq<AdjustmentRow>, table: Categories) returns (r: Fields)
    ensures r.total == FiguresOf(rows)
    ensures IsCategoryList(r.byCategory, rows, table)
  {
    var groups := Groups([], map[]);
    var total := NOTHING;
    for i := 0 to |rows|
      invariant GroupsOf(groups, rows[..i], table)
      invariant total == FiguresOf(rows[..i])
    {
      assert rows[..i + 1] == rows[..i] + [rows[i]];
      FoldAppend(rows[..i], rows[i], RowFigures, FIGURES);
      AddRowStep(groups, rows[..i], rows[i], table);
      groups := AddTo(groups, rows[i].category, RowFigures(rows[i]), table);
      total := AddFigures(total, RowFigures(rows[i]));
    }
    assert rows[..|rows|] == rows;
    SortedValuesAreList(groups, rows, table);
    r := Fields(total, SortedValues(groups, table));
  }

  predicate Occurs(list: seq<Entry>, k: nat, c: Option<CategoryId>)
    requires k <= |list|
  {
    exists i :: 0 <= i < k && list[i].category == c
  }

  function MergedEntry(before: Groups, e: Entry, table: Categories): Entry {
    var s := Slot(before, e.category, table);
    s.(figures := AddFigures(s.figures, e.figures))
  }

  // `g` is `before` after the first `k` entries of one employee's list have been merged.
  ghost predicate PartlyMerged(g: Groups, before: Groups, list: seq<Entry>, k: nat, table: Categories)
    requires k <= |list|
  {
    && ValidGroups(g)
    && (forall c :: c in g.entries <==> c in before.entries || Occurs(list, k, c))
    && (forall i :: 0 <= i < k ==>
      list[i].category in g.entries && g.entries[list[i].category] == MergedEntry(before, list[i], table))
    && (forall c :: c in before.entries && !Occurs(list, k, c) ==> c in g.entries && g.entries[c] == before.entries[c])
  }

  lemma {:induction false} OccursNext(list: seq<Entry>, k: nat, d: Option<CategoryId>)
    requires k < |list|
    ensures Occurs(list, k + 1, d) <==> Occurs(list, k, d) || d == list[k].category
  {
    if Occurs(list, k, d) {
      var i :| 0 <= i < k && list[i].category == d;
      assert 0 <= i < k + 1;
    }
    assert list[k].category == d ==> Occurs(list, k + 1, d);
  }

  lemma {:induction false} MergeStepEntry(g: Groups, before: Groups, list: seq<Entry>, k: nat, i: nat,
      table: Categories)
    requires DistinctCategories(list) && k < |list|
    requires PartlyMerged(g, before, list, k, table) && i <= k
    ensures var h := AddTo(g, list[k].category, list[k].figures, table);
      list[i].category in h.entries && h.entries[list[i].category] == MergedEntry(before, list[i], table)
  {
    if i < k {
      assert list[i].category != list[k].category;
    } else {
      assert !Occurs(list, k, list[k].category);
      assert Slot(g, list[k].category, table) == Slot(before, list[k].category, table);
    }
  }

  lemma {:induction false} MergeStep(g: Groups, before: Groups, list: seq<Entry>, k: nat, table: Categories)
    requires DistinctCategories(list) && k < |list|
    requires PartlyMerged(g, before, list, k, table)
    ensures PartlyMerged(AddTo(g, list[k].category, list[k].figures, table), before, list, k + 1, table)
  {
    var h := AddTo(g, list[k].category, list[k].figures, table);
    AddToValid(g, list[k].category, list[k].figures, table);
    forall d ensures Occurs(list, k + 1, d) <==> Occurs(list, k, d) || d == list[k].category {
      OccursNext(list, k, d);
    }
    forall i | 0 <= i < k + 1
      ensures list[i].category in h.entries && h.entries[list[i].category] == MergedEntry(before, list[i], table)
    {
      MergeStepEntry(g, before, list, k, i, table);
    }
  }

  method MergeList(before: Groups, list: seq<Entry>, table: Categories) returns (g: Groups)
    requires ValidGroups(before) && DistinctCategories(list)
    ensures PartlyMerged(g, before, list, |list|, table)
  {
    g := before;
    for i := 0 to |list|
      invariant PartlyMerged(g, before, list, i, table)
    {
      var h := AddTo(g, list[i].category, list[i].figures, table);
      MergeStep(g, before, list, i, table);
      g := h;
    }
  }

  lemma {:induction false} ListedCategories(list: seq<Entry>, part: seq<AdjustmentRow>, c: Option<CategoryId>,
      table: Categories)
    requires IsCategoryList(list, part, table)
    ensures Occurs(list, |list|, c) <==> c in CategoriesOf(part)
  {
    if i :| 0 <= i < |list| && list[i].category == c {
      assert list[i] in list;
    }
    if c in CategoriesOf(part) {
      assert IsEntryOf(EntryOf(part, c, table), part, table);
      assert EntryOf(part, c, table) in list;
      var i :| 0 <= i < |list| && list[i] == EntryOf(part, c, table);
      assert list[i].category == c;
    }
  }

  lemma {:induction false} MergedListed(g: Groups, before: Groups, rows: seq<AdjustmentRow>, part: seq<AdjustmentRow>,
      list: seq<Entry>, i: nat, table: Categories)
    requires IsCategoryList(list, part, table) && i < |list|
    requires GroupsOf(before, rows, table) && PartlyMerged(g, before, list, |list|, table)
    ensures list[i].category in g.entries
    ensures g.entries[list[i].category] == EntryOf(rows + part, list[i].category, table)
  {
    var c := list[i].category;
    assert list[i] in list && IsEntryOf(list[i], part, table);
    SlotHoldsFigures(before, rows, c, table);
    FiguresInConcat(rows, part, c);
    assert g.entries[c] == MergedEntry(before, list[i], table);
  }

  lemma {:induction false} MergedUnlisted(g: Groups, before: Groups, rows: seq<AdjustmentRow>, part: seq<AdjustmentRow>,
      list: seq<Entry>, c: Option<CategoryId>, table: Categories)
    requires IsCategoryList(list, part, table)
    requires GroupsOf(before, rows, table) && PartlyMerged(g, before, list, |list|, table)
    requires c in before.entries && !Occurs(list, |list|, c)
    ensures c in g.entries && g.entries[c] == EntryOf(rows + part, c, table)
  {
    ListedCategories(list, part, c, table);
    AbsentCategory(part, c);
    FiguresInConcat(rows, part, c);
  }

  lemma {:induction false} MergedIsGroupsOf(g: Groups, before: Groups, rows: seq<AdjustmentRow>,
      part: seq<AdjustmentRow>, list: seq<Entry>, table: Categories)
    requires IsCategoryList(list, part, table)
    requires GroupsOf(before, rows, table) && PartlyMerged(g, before, list, |list|, table)
    ensures GroupsOf(g, rows + part, table)
  {
    forall c ensures c in g.entries <==> c in CategoriesOf(rows + part) {
      ListedCategories(list, part, c, table);
      assert CategoriesOf(rows + part) == CategoriesOf(rows) + CategoriesOf(part);
    }
    forall c | c in g.entries ensures g.entries[c] == EntryOf(rows + part, c, table) {
      if Occurs(list, |list|, c) {
        var i :| 0 <= i < |list| && list[i].category == c;
        MergedListed(g, before, rows, part, list, i, table);
      } else {
        MergedUnlisted(g, before, rows, part, list, c, table);
      }
    }
  }

  // The merged totals list of lists that are each the category list of some rows is the
  // category list of all those rows together.
  method MergeCategoryAmounts(lists: seq<seq<Entry>>, ghost parts: seq<seq<AdjustmentRow>>, table: Categories)
      returns (r: seq<Entry>)
    requires |parts| == |lists|
    requires forall i :: 0 <= i < |lists| ==> IsCategoryList(lists[i], parts[i], table)
    ensures IsCategoryList(r, Flatten(parts), table)
  {
    var merged := Groups([], map[]);
    for i := 0 to |lists|
      invariant GroupsOf(merged, Flatten(parts[..i]), table)
    {
      assert parts[..i + 1][..i] == parts[..i];
      SortedIsDistinct(lists[i], table);
      var before := merged;
      merged := MergeList(before, lists[i], table);
      MergedIsGroupsOf(merged, before, Flatten(parts[..i]), parts[i], lists[i], table);
    }
    assert parts[..|lists|] == parts;
    SortedValuesAreList(merged, Flatten(parts), table);
    r := SortedValues(merged, table);
  }

  // ----- Conservation --------------------------------------------------------------------

  function EntrySum(es: seq<Entry>): Figures {
    Fold(es, (e: Entry) => e.figures, FIGURES)
  }

  function CategoriesIn(es: seq<Entry>): (r: seq<Option<CategoryId>>)
    ensures |r| == |es| && forall i :: 0 <= i < |r| ==> r[i] == es[i].category
  {
    if es == [] then [] else CategoriesIn(es[..|es| - 1]) + [es[|es| - 1].category]
  }

  lemma {:induction false} EntrySumByCategory(es: seq<Entry>, figures: Option<CategoryId> -> Figures)
    requires forall i :: 0 <= i < |es| ==> es[i].figures == figures(es[i].category)
    ensures EntrySum(es) == Fold(CategoriesIn(es), figures, FIGURES)
    decreases |es|
  {
    if es != [] {
      EntrySumByCategory(es[..|es| - 1], figures);
      assert CategoriesIn(es)[..|es| - 1] == CategoriesIn(es[..|es| - 1]);
    }
  }

  lemma {:induction false} SumOverCategories(rows: seq<AdjustmentRow>, cs: seq<Option<CategoryId>>)
    requires Distinct(cs) && forall r :: r in rows ==> CategoryOf(r) in cs
    ensures Fold(cs, PerKey(rows, CategoryOf, RowFigures, FIGURES), FIGURES) == FiguresOf(rows)
  {
    FiguresAreLawful();
    SumOverKeys(rows, cs, CategoryOf, RowFigures, FIGURES);
  }

  lemma {:induction false} RowCategoryListed(es: seq<Entry>, rows: seq<AdjustmentRow>, r: AdjustmentRow,
      table: Categories)
    requires IsCategoryList(es, rows, table) && r in rows
    ensures CategoryOf(r) in CategoriesIn(es)
  {
    RowHasCategory(rows, r);
    ListedCategories(es, rows, CategoryOf(r), table);
    var i :| 0 <= i < |es| && es[i].category == CategoryOf(r);
    assert CategoriesIn(es)[i] == CategoryOf(r);
  }

  // The entries of a category list add up to the total, in all four figures.
  lemma {:induction false} CategoriesAddUp(es: seq<Entry>, rows: seq<AdjustmentRow>, table: Categories)
    requires IsCategoryList(es, rows, table)
    ensures EntrySum(es) == FiguresOf(rows)
  {
    SortedIsDistinct(es, table);
    var figures := PerKey(rows, CategoryOf, RowFigures, FIGURES);
    forall i | 0 <= i < |es| ensures es[i].figures == figures(es[i].category) {
      assert es[i] in es;
    }
    EntrySumByCategory(es, figures);
    forall r | r in rows ensures CategoryOf(r) in CategoriesIn(es) {
      RowCategoryListed(es, rows, r, table);
    }
    SumOverCategories(rows, CategoriesIn(es));
  }
}
