/** The standalone transaction table: five optional filters applied in a row to the fetched
    transactions, the sort toggle of the column headers, and the signed amount cell. */
module TransactionTable {
  import opened Wrappers
  import opened Strings
  import Lists
  import Sorting
  import Decimal

  /** A row of the table. `date` is the time value of `new Date(t.date)`, absent when the text is
      not a date (NaN). Amounts are whole numbers. */
  datatype TableRow = TableRow(id: string, description: string, amount: int, date: Option<int>)

  /** A numeric filter field: empty (the filter is off), text that reads as NaN, or a value. */
  datatype Bound = Empty | NotANumber | Value(v: int)

  datatype Filters = Filters(
    description: string, minAmount: Bound, maxAmount: Bound, startDate: Bound, endDate: Bound)

  const NoFilters := Filters("", Empty, Empty, Empty, Empty)

  /** The five filters, in the order the effect applies them. */
  datatype Step = DescriptionStep | MinAmountStep | MaxAmountStep | StartDateStep | EndDateStep

  /** `x >= bound`, where any NaN operand makes the comparison false. */
  predicate AtLeast(x: Option<int>, b: Bound) {
    x.Some? && b.Value? && x.value >= b.v
  }

  /** `x <= bound`, where any NaN operand makes the comparison false. */
  predicate AtMost(x: Option<int>, b: Bound) {
    x.Some? && b.Value? && x.value <= b.v
  }

  /** A filter is applied only when its field is not empty. */
  predicate Active(f: Filters, s: Step) {
    match s
    case DescriptionStep => f.description != ""
    case MinAmountStep => f.minAmount != Empty
    case MaxAmountStep => f.maxAmount != Empty
    case StartDateStep => f.startDate != Empty
    case EndDateStep => f.endDate != Empty
  }

  /** The test of one filter: a case-insensitive substring test for the description, inclusive
      bounds for the amount and the date. */
  predicate Test(t: TableRow, f: Filters, s: Step) {
    match s
    case DescriptionStep => Contains(ToLower(t.description), ToLower(f.description))
    case MinAmountStep => AtLeast(Some(t.amount), f.minAmount)
    case MaxAmountStep => AtMost(Some(t.amount), f.maxAmount)
    case StartDateStep => AtLeast(t.date, f.startDate)
    case EndDateStep => AtMost(t.date, f.endDate)
  }

  /** `rows.filter(t => test)` for one step. */
  function KeepStep(rows: seq<TableRow>, f: Filters, s: Step): (r: seq<TableRow>)
    ensures |r| <= |rows|
  {
    if |rows| == 0 then []
    else (if Test(rows[0], f, s) then [rows[0]] else []) + KeepStep(rows[1..], f, s)
  }

  function ApplyStep(rows: seq<TableRow>, f: Filters, s: Step): seq<TableRow> {
    if Active(f, s) then KeepStep(rows, f, s) else rows
  }

  /** The filter effect: description, minimum and maximum amount, start and end date. */
  function Pipeline(rows: seq<TableRow>, f: Filters): (r: seq<TableRow>)
    ensures |r| <= |rows|
  {
    var r1 := ApplyStep(rows, f, DescriptionStep);
    var r2 := ApplyStep(r1, f, MinAmountStep);
    var r3 := ApplyStep(r2, f, MaxAmountStep);
    var r4 := ApplyStep(r3, f, StartDateStep);
    ApplyStep(r4, f, EndDateStep)
  }

  /** A row passes one step when the step is off or its test holds. */
  predicate StepPasses(t: TableRow, f: Filters, s: Step) {
    Active(f, s) ==> Test(t, f, s)
  }

  /** The conjunction of every active filter. */
  predicate Passes(t: TableRow, f: Filters) {
    && StepPasses(t, f, DescriptionStep)
    && StepPasses(t, f, MinAmountStep)
    && StepPasses(t, f, MaxAmountStep)
    && StepPasses(t, f, StartDateStep)
    && StepPasses(t, f, EndDateStep)
  }

  /** The reference selection: the rows that pass every active filter, in order. */
  function Selected(rows: seq<TableRow>, f: Filters): (r: seq<TableRow>)
    ensures forall x :: x in r <==> x in rows && Passes(x, f)
  {
    if |rows| == 0 then []
    else
      assert forall x :: x in rows <==> x == rows[0] || x in rows[1..];
      (if Passes(rows[0], f) then [rows[0]] else []) + Selected(rows[1..], f)
  }

  lemma {:induction false} KeepStepAppend(a: seq<TableRow>, b: seq<TableRow>, f: Filters, s: Step)
    ensures KeepStep(a + b, f, s) == KeepStep(a, f, s) + KeepStep(b, f, s)
  {
    if |a| == 0 {
      assert a + b == b;
    } else {
      assert (a + b)[1..] == a[1..] + b;
      KeepStepAppend(a[1..], b, f, s);
    }
  }

  lemma ApplyStepAppend(a: seq<TableRow>, b: seq<TableRow>, f: Filters, s: Step)
    ensures ApplyStep(a + b, f, s) == ApplyStep(a, f, s) + ApplyStep(b, f, s)
  {
    if Active(f, s) {
      KeepStepAppend(a, b, f, s);
    }
  }

  lemma PipelineAppend(a: seq<TableRow>, b: seq<TableRow>, f: Filters)
    ensures Pipeline(a + b, f) == Pipeline(a, f) + Pipeline(b, f)
  {
    ApplyStepAppend(a, b, f, DescriptionStep);
    var a1, b1 := ApplyStep(a, f, DescriptionStep), ApplyStep(b, f, DescriptionStep);
    ApplyStepAppend(a1, b1, f, MinAmountStep);
    var a2, b2 := ApplyStep(a1, f, MinAmountStep), ApplyStep(b1, f, MinAmountStep);
    ApplyStepAppend(a2, b2, f, MaxAmountStep);
    var a3, b3 := ApplyStep(a2, f, MaxAmountStep), ApplyStep(b2, f, MaxAmountStep);
    ApplyStepAppend(a3, b3, f, StartDateStep);
    var a4, b4 := ApplyStep(a3, f, StartDateStep), ApplyStep(b3, f, StartDateStep);
    ApplyStepAppend(a4, b4, f, EndDateStep);
  }

  lemma ApplyStepSingle(rows: seq<TableRow>, t: TableRow, f: Filters, s: Step)
    requires rows == [] || rows == [t]
    ensures ApplyStep(rows, f, s) == if rows == [t] && StepPasses(t, f, s) then [t] else []
  {
    if rows == [t] && Active(f, s) {
      assert KeepStep(rows, f, s) == (if Test(t, f, s) then [t] else []) + KeepStep([], f, s);
    }
  }

  lemma PipelineSingle(t: TableRow, f: Filters)
    ensures Pipeline([t], f) == if Passes(t, f) then [t] else []
  {
    ApplyStepSingle([t], t, f, DescriptionStep);
    var r1 := ApplyStep([t], f, DescriptionStep);
    ApplyStepSingle(r1, t, f, MinAmountStep);
    var r2 := ApplyStep(r1, f, MinAmountStep);
    ApplyStepSingle(r2, t, f, MaxAmountStep);
    var r3 := ApplyStep(r2, f, MaxAmountStep);
    ApplyStepSingle(r3, t, f, StartDateStep);
    var r4 := ApplyStep(r3, f, StartDateStep);
    ApplyStepSingle(r4, t, f, EndDateStep);
  }

  /** The five filters in a row keep exactly the rows that satisfy the conjunction of the active
      ones, in their original order. */
  lemma {:induction false} PipelineIsSelection(rows: seq<TableRow>, f: Filters)
    ensures Pipeline(rows, f) == Selected(rows, f)
  {
    if |rows| == 0 {
      assert Pipeline(rows, f) == [];
    } else {
      assert rows == [rows[0]] + rows[1..];
      PipelineAppend([rows[0]], rows[1..], f);
      PipelineSingle(rows[0], f);
      PipelineIsSelection(rows[1..], f);
    }
  }

  lemma {:induction false} SelectedIsSubsequence(rows: seq<TableRow>, f: Filters)
    ensures Lists.IsSubsequence(Selected(rows, f), rows)
  {
    if |rows| > 0 {
      SelectedIsSubsequence(rows[1..], f);
      var r := Selected(rows, f);
      if Passes(rows[0], f) {
        assert r[0] == rows[0] && r[1..] == Selected(rows[1..], f);
      } else {
        assert r == Selected(rows[1..], f);
      }
    }
  }

  /** The filtered table is a subsequence of the fetched transactions. */
  lemma PipelineIsSubsequence(rows: seq<TableRow>, f: Filters)
    ensures Lists.IsSubsequence(Pipeline(rows, f), rows)
  {
    PipelineIsSelection(rows, f);
    SelectedIsSubsequence(rows, f);
  }

  /** With every field empty the table shows every fetched row. */
  lemma NoFiltersKeepAll(rows: seq<TableRow>)
    ensures Pipeline(rows, NoFilters) == rows
  {
  }

  /** An amount field, minimum or maximum, that does not read as a number hides every row: each
      comparison with NaN is false. */
  lemma {:induction false} NaNBoundHidesAll(rows: seq<TableRow>, f: Filters)
    requires f.minAmount == NotANumber || f.maxAmount == NotANumber
    ensures Pipeline(rows, f) == []
  {
    PipelineIsSelection(rows, f);
    if |rows| > 0 {
      NaNBoundHidesAll(rows[1..], f);
      PipelineIsSelection(rows[1..], f);
    }
  }

  // ---------------------------------------------------------------- sorting

  datatype SortKey = ByDescription | ByDate

  function KeyName(k: SortKey): string {
    match k
    case ByDescription => "description"
    case ByDate => "date"
  }

  /** The last sort clicked; the table starts with no key, ascending. */
  datatype SortOrder = SortOrder(key: string, ascending: bool)

  const InitialOrder := SortOrder("", true)

  /** The header toggle: the same key flips the direction, any other key starts ascending. */
  function Toggle(order: SortOrder, k: SortKey): (r: SortOrder)
    ensures r.key == KeyName(k)
    ensures order.key == KeyName(k) ==> r.ascending == !order.ascending
    ensures order.key != KeyName(k) ==> r.ascending
  {
    SortOrder(KeyName(k), if order.key == KeyName(k) then !order.ascending else true)
  }

  /** Clicking the same header twice gives back the direction it started with; the first click
      on a header always sorts ascending. */
  lemma ToggleTwice(order: SortOrder, k: SortKey)
    ensures Toggle(Toggle(order, k), k).ascending == !Toggle(order, k).ascending
    ensures Toggle(InitialOrder, k).ascending
    ensures Toggle(Toggle(Toggle(order, k), k), k) == Toggle(order, k)
  {
  }

  /** `new Date(a).getTime() - new Date(b).getTime() <= 0`; a NaN difference counts as equal. */
  predicate DateNotAfter(x: Option<int>, y: Option<int>) {
    !(x.Some? && y.Some? && x.value > y.value)
  }

  predicate DescriptionUp(a: TableRow, b: TableRow) {
    LexLe(a.description, b.description)
  }

  predicate DescriptionDown(a: TableRow, b: TableRow) {
    LexLe(b.description, a.description)
  }

  predicate DateUp(a: TableRow, b: TableRow) {
    DateNotAfter(a.date, b.date)
  }

  predicate DateDown(a: TableRow, b: TableRow) {
    DateNotAfter(b.date, a.date)
  }

  /** "`a` may stay before `b`" for the comparator of `handleSort`. */
  function Comparator(k: SortKey, ascending: bool): (TableRow, TableRow) -> bool {
    match k
    case ByDescription => if ascending then DescriptionUp else DescriptionDown
    case ByDate => if ascending then DateUp else DateDown
  }

  /** `handleSort(key)`: the new sort order and the filtered rows sorted by it. */
  function HandleSort(order: SortOrder, k: SortKey, rows: seq<TableRow>): (r: (SortOrder, seq<TableRow>))
    ensures r.0 == Toggle(order, k)
    ensures multiset(r.1) == multiset(rows)
  {
    var next := Toggle(order, k);
    (next, Sorting.Sort(rows, Comparator(k, next.ascending)))
  }

  lemma DescriptionOrders()
    ensures Sorting.Total(DescriptionUp) && Sorting.Transitive(DescriptionUp)
    ensures Sorting.Total(DescriptionDown) && Sorting.Transitive(DescriptionDown)
  {
    forall a: TableRow, b: TableRow
      ensures DescriptionUp(a, b) || DescriptionUp(b, a)
    {
      LexLeTotal(a.description, b.description);
    }
    forall a: TableRow, b: TableRow
      ensures DescriptionDown(a, b) || DescriptionDown(b, a)
    {
      LexLeTotal(a.description, b.description);
    }
    forall a: TableRow, b: TableRow, c: TableRow | DescriptionUp(a, b) && DescriptionUp(b, c)
      ensures DescriptionUp(a, c)
    {
      LexLeTransitive(a.description, b.description, c.description);
    }
    forall a: TableRow, b: TableRow, c: TableRow | DescriptionDown(a, b) && DescriptionDown(b, c)
      ensures DescriptionDown(a, c)
    {
      LexLeTransitive(c.description, b.description, a.description);
    }
  }

  /** A total order on rows that agrees with the date comparators whenever both dates are
      valid. */
  predicate DatedUp(a: TableRow, b: TableRow) {
    a.date.GetOr(0) <= b.date.GetOr(0)
  }

  predicate DatedDown(a: TableRow, b: TableRow) {
    b.date.GetOr(0) <= a.date.GetOr(0)
  }

  predicate AllDated(rows: seq<TableRow>) {
    forall i :: 0 <= i < |rows| ==> rows[i].date.Some?
  }

  /** Sorting by description orders the rows by code points in the chosen direction. */
  lemma SortByDescriptionOrders(order: SortOrder, rows: seq<TableRow>)
    ensures var r := HandleSort(order, ByDescription, rows);
            Sorting.Sorted(r.1, if r.0.ascending then DescriptionUp else DescriptionDown)
  {
    DescriptionOrders();
    Sorting.SortSorted(rows, DescriptionUp);
    Sorting.SortSorted(rows, DescriptionDown);
  }

  /** Sorting by date orders the rows by time in the chosen direction, when every date is
      valid. */
  lemma SortByDateOrders(order: SortOrder, rows: seq<TableRow>)
    requires AllDated(rows)
    ensures var r := HandleSort(order, ByDate, rows);
            Sorting.Sorted(r.1, if r.0.ascending then DateUp else DateDown)
  {
    var r := HandleSort(order, ByDate, rows);
    var dated := if r.0.ascending then DatedUp else DatedDown;
    var le := Comparator(ByDate, r.0.ascending);
    Sorting.SortCongruent(rows, le, dated);
    Sorting.SortSorted(rows, dated);
    forall i, j | 0 <= i < j < |r.1|
      ensures le(r.1[i], r.1[j])
    {
      assert r.1[i] in multiset(rows) && r.1[j] in multiset(rows);
      assert r.1[i].date.Some? && r.1[j].date.Some?;
    }
  }

  // ---------------------------------------------------------------- amount cell

  /** The amount cell: a '+' before positive amounts, the plain number otherwise. */
  function AmountText(amount: int): (s: string)
    ensures |s| >= 1
    ensures s[0] == '+' <==> amount > 0
    ensures s[0] == '-' <==> amount < 0
  {
    if amount > 0 then "+" + Decimal.IntToString(amount) else Decimal.IntToString(amount)
  }

  /** The cell reads back as the amount it shows. */
  lemma AmountTextReadsBack(amount: int)
    ensures Decimal.ParseInt(AmountText(amount)) == Some(amount)
  {
    if amount > 0 {
      PlusReadsBack(amount);
    } else {
      Decimal.ParseIntToString(amount);
    }
  }

  lemma PlusReadsBack(amount: nat)
    ensures Decimal.ParseInt("+" + Decimal.NatToString(amount)) == Some(amount)
  {
    var digits := Decimal.NatToString(amount);
    var s := "+" + digits;
    assert !IsWhitespace(s[0]);
    assert TrimStart(s) == s;
    assert s[1..] == digits;
    Decimal.LeadingDigitsAll(digits);
    Decimal.ParseNatToString(amount);
  }
}
