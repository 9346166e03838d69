/** The monthly transaction list: month navigation, the account and type filters applied to
    the fetched rows, and the rows and totals of the CSV and PDF exports. */
module DetailsList {
  import opened Wrappers
  import opened Strings
  import Decimal
  import Lists

  /** A transaction as the list receives it. `date` is the text of the date column (date
      formatting is outside the model); `institution` is the linked account's institution. */
  datatype Row = Row(
    id: string,
    title: string,
    description: Option<string>,
    amount: int,
    txType: string,
    category: string,
    date: string,
    bankAccountId: Option<string>,
    institution: Option<string>)

  // ---------------------------------------------------------------- month navigation

  /** The displayed month: `month` is a 0-based month index, as `Date.getMonth` returns. */
  datatype Cursor = Cursor(month: int, year: int)

  predicate ValidCursor(c: Cursor) {
    0 <= c.month <= 11
  }

  /** Months since year zero: the position of the cursor on a single time line. */
  function Ordinal(c: Cursor): int {
    12 * c.year + c.month
  }

  /** `handleNextMonth`. */
  function NextMonth(c: Cursor): (r: Cursor)
    ensures ValidCursor(c) ==> ValidCursor(r) && Ordinal(r) == Ordinal(c) + 1
  {
    if c.month == 11 then Cursor(0, c.year + 1) else Cursor(c.month + 1, c.year)
  }

  /** `handlePreviousMonth`. */
  function PreviousMonth(c: Cursor): (r: Cursor)
    ensures ValidCursor(c) ==> ValidCursor(r) && Ordinal(r) == Ordinal(c) - 1
  {
    if c.month == 0 then Cursor(11, c.year - 1) else Cursor(c.month - 1, c.year)
  }

  /** A valid cursor is determined by its ordinal. */
  lemma OrdinalInjective(a: Cursor, b: Cursor)
    requires ValidCursor(a) && ValidCursor(b) && Ordinal(a) == Ordinal(b)
    ensures a == b
  {
  }

  /** Previous undoes next and next undoes previous. */
  lemma NavigationInverse(c: Cursor)
    requires ValidCursor(c)
    ensures PreviousMonth(NextMonth(c)) == c
    ensures NextMonth(PreviousMonth(c)) == c
  {
    OrdinalInjective(PreviousMonth(NextMonth(c)), c);
    OrdinalInjective(NextMonth(PreviousMonth(c)), c);
  }

  // ---------------------------------------------------------------- filters

  datatype ListFilter = AllTransactions | IncomeOnly | ExpenseOnly

  /** The row passes the account filter: a selected account keeps exactly its own rows. */
  predicate AccountOk(t: Row, selected: Option<string>) {
    selected.Some? && selected.value != "" ==> t.bankAccountId == selected
  }

  predicate TypeOk(t: Row, f: ListFilter) {
    match f
    case AllTransactions => true
    case IncomeOnly => t.txType == "INCOME"
    case ExpenseOnly => t.txType == "EXPENSE"
  }

  /** The filtering in `fetchTransactions`: the account filter, then the type filter. */
  function ApplyFilters(data: seq<Row>, selected: Option<string>, f: ListFilter): (r: seq<Row>)
    ensures Lists.IsSubsequence(r, data)
    ensures r == Lists.Keep(data, (t: Row) => AccountOk(t, selected) && TypeOk(t, f))
  {
    var byAccount := if selected.Some? && selected.value != "" then
                       Lists.Keep(data, (t: Row) => AccountOk(t, selected))
                     else data;
    var byType := if f.AllTransactions? then byAccount else Lists.Keep(byAccount, (t: Row) => TypeOk(t, f));
    FiltersAsOne(data, selected, f);
    Lists.KeepIsSubsequence(data, (t: Row) => AccountOk(t, selected) && TypeOk(t, f));
    byType
  }

  lemma FiltersAsOne(data: seq<Row>, selected: Option<string>, f: ListFilter)
    ensures var byAccount := if selected.Some? && selected.value != "" then
                               Lists.Keep(data, (t: Row) => AccountOk(t, selected))
                             else data;
            var byType := if f.AllTransactions? then byAccount
                          else Lists.Keep(byAccount, (t: Row) => TypeOk(t, f));
            byType == Lists.Keep(data, (t: Row) => AccountOk(t, selected) && TypeOk(t, f))
  {
    var p := (t: Row) => AccountOk(t, selected);
    var q := (t: Row) => TypeOk(t, f);
    var byAccount := if selected.Some? && selected.value != "" then Lists.Keep(data, p) else data;
    if !(selected.Some? && selected.value != "") {
      Lists.KeepAll(data, p);
    }
    if f.AllTransactions? {
      Lists.KeepAll(byAccount, q);
    }
    Lists.KeepKeep(data, p, q, (t: Row) => AccountOk(t, selected) && TypeOk(t, f));
  }

  // ---------------------------------------------------------------- PDF totals

  predicate IsIncome(t: Row) {
    t.txType == "INCOME"
  }

  predicate IsExpense(t: Row) {
    t.txType == "EXPENSE"
  }

  function AmountOf(t: Row): int {
    t.amount
  }

  /** The totals block of the PDF export. */
  datatype Totals = Totals(income: int, expense: int, balance: int)

  function IncomePart(t: Row): int {
    if IsIncome(t) then AmountOf(t) else 0
  }

  function ExpensePart(t: Row): int {
    if IsExpense(t) then AmountOf(t) else 0
  }

  /** The contribution of one row to the PDF balance. */
  function SignedAmount(t: Row): int {
    if IsIncome(t) then t.amount else if IsExpense(t) then -t.amount else 0
  }

  /** The totals block: income over the INCOME rows, expense over the EXPENSE rows, and a
      balance that is the signed sum over the whole list, so rows of any other type count in
      none of the three. */
  function PdfTotals(txs: seq<Row>): (r: Totals)
    ensures r.income == Lists.Sum(txs, IncomePart)
    ensures r.expense == Lists.Sum(txs, ExpensePart)
    ensures r.balance == Lists.Sum(txs, SignedAmount)
  {
    var income := Lists.Sum(Lists.Keep(txs, IsIncome), AmountOf);
    var expense := Lists.Sum(Lists.Keep(txs, IsExpense), AmountOf);
    Lists.SumKeep(txs, IsIncome, AmountOf, IncomePart);
    Lists.SumKeep(txs, IsExpense, AmountOf, ExpensePart);
    Lists.SumDifference(txs, IncomePart, ExpensePart, SignedAmount);
    Totals(income, expense, income - expense)
  }

  // ---------------------------------------------------------------- CSV export

  const CsvHeader: seq<string> := ["Date", "Title", "Category", "Type", "Amount", "Account", "Description"]

  /** The amount column: a leading '-' exactly for EXPENSE rows. */
  function AmountCell(t: Row): (cell: string)
    ensures t.txType == "EXPENSE" ==> cell == "-" + Decimal.IntToString(t.amount)
    ensures t.txType != "EXPENSE" ==> cell == Decimal.IntToString(t.amount)
    ensures t.amount >= 0 ==> (cell[0] == '-' <==> t.txType == "EXPENSE")
  {
    if t.txType == "EXPENSE" then "-" + Decimal.IntToString(t.amount) else Decimal.IntToString(t.amount)
  }

  /** One CSV row, column by column under `CsvHeader`: an absent or empty account falls back to
      "N/A" and an absent or empty description to the empty cell. */
  function CsvCells(t: Row): (cells: seq<string>)
    ensures |cells| == |CsvHeader|
    ensures cells[0] == t.date && cells[1] == t.title && cells[2] == t.category && cells[3] == t.txType
    ensures cells[4] == AmountCell(t)
    ensures t.institution.Some? && t.institution.value != "" ==> cells[5] == t.institution.value
    ensures t.institution.None? || t.institution.value == "" ==> cells[5] == "N/A"
    ensures t.description.Some? ==> cells[6] == t.description.value
    ensures t.description.None? ==> cells[6] == ""
  {
    [t.date, t.title, t.category, t.txType, AmountCell(t), OrElse(t.institution, "N/A"),
     OrElse(t.description, "")]
  }

  /** `handleDownload`: the header line, then one comma-joined line per row. */
  function Csv(txs: seq<Row>): (r: string)
    ensures StartsWith(r, Join(CsvHeader, ','))
    ensures |txs| == 0 ==> r == Join(CsvHeader, ',')
    ensures |txs| > 0 ==> |r| > |Join(CsvHeader, ',')| && r[|Join(CsvHeader, ',')|] == '\n'
  {
    var header := Join(CsvHeader, ',');
    var lines := [header] + Lists.Map(txs, CsvLine);
    assert lines[0] == header && lines[1..] == Lists.Map(txs, CsvLine);
    var r := Join(lines, '\n');
    assert |txs| > 0 ==> r == header + ['\n'] + Join(lines[1..], '\n');
    assert |txs| > 0 ==> r[..|header|] == header;
    r
  }

  predicate NoSeparators(cells: seq<string>, sep: char) {
    forall i :: 0 <= i < |cells| ==> sep !in cells[i]
  }

  lemma {:induction false} JoinAvoids(parts: seq<string>, sep: char, other: char)
    requires sep != other
    requires NoSeparators(parts, other)
    ensures other !in Join(parts, sep)
  {
    if |parts| > 1 {
      JoinAvoids(parts[1..], sep, other);
    }
  }

  function CsvLine(t: Row): string {
    Join(CsvCells(t), ',')
  }

  /** The header line holds no line break and splits back into the seven column names. */
  lemma HeaderLine()
    ensures '\n' !in Join(CsvHeader, ',')
    ensures Split(Join(CsvHeader, ','), ',') == CsvHeader
  {
    HeaderCells();
    JoinAvoids(CsvHeader, ',', '\n');
    SplitJoin(CsvHeader, ',');
  }

  /** No column name holds a comma or a line break. */
  lemma HeaderCells()
    ensures NoSeparators(CsvHeader, ',') && NoSeparators(CsvHeader, '\n')
  {
    forall i | 0 <= i < |CsvHeader|
      ensures ',' !in CsvHeader[i] && '\n' !in CsvHeader[i]
    {
      var name := CsvHeader[i];
      assert forall k :: 0 <= k < |name| ==> 'A' <= name[k] <= 'z';
    }
  }

  /** A row's line holds no line break when none of its cells does. */
  lemma RowLine(t: Row)
    requires NoSeparators(CsvCells(t), '\n')
    ensures '\n' !in CsvLine(t)
  {
    JoinAvoids(CsvCells(t), ',', '\n');
  }

  /** The CSV text splits at line breaks into the header line and one line per row, when no
      cell holds a line break. */
  lemma CsvLines(txs: seq<Row>)
    requires forall i :: 0 <= i < |txs| ==> NoSeparators(CsvCells(txs[i]), '\n')
    ensures Split(Csv(txs), '\n') == [Join(CsvHeader, ',')] + Lists.Map(txs, CsvLine)
  {
    var body := Lists.Map(txs, CsvLine);
    var lines := [Join(CsvHeader, ',')] + body;
    HeaderLine();
    forall i | 0 <= i < |txs|
      ensures '\n' !in body[i]
    {
      RowLine(txs[i]);
    }
    assert forall i :: 0 <= i < |lines| ==> '\n' !in lines[i] by {
      forall i | 0 <= i < |lines|
        ensures '\n' !in lines[i]
      {
        if i > 0 {
          assert lines[i] == body[i - 1];
        }
      }
    }
    SplitJoin(lines, '\n');
  }

  /** When no cell holds a line break or a comma, the CSV text splits back into the header and
      one line per transaction, and each line into exactly that row's seven cells. */
  lemma CsvRoundTrip(txs: seq<Row>)
    requires forall i :: 0 <= i < |txs| ==>
               NoSeparators(CsvCells(txs[i]), '\n') && NoSeparators(CsvCells(txs[i]), ',')
    ensures var lines := Split(Csv(txs), '\n');
            && |lines| == |txs| + 1
            && Split(lines[0], ',') == CsvHeader
            && forall i :: 0 <= i < |txs| ==> Split(lines[i + 1], ',') == CsvCells(txs[i])
  {
    CsvLines(txs);
    HeaderLine();
    forall i | 0 <= i < |txs|
      ensures Split(CsvLine(txs[i]), ',') == CsvCells(txs[i])
    {
      SplitJoin(CsvCells(txs[i]), ',');
    }
  }

  // ---------------------------------------------------------------- PDF rows

  /** `s.length > n ? s.substring(0, n) + '...' : s`. */
  function Truncate(s: string, n: nat): (r: string)
    ensures |r| <= n + 3
    ensures |s| <= n ==> r == s
    ensures |s| > n ==> |r| == n + 3 && r[..n] == s[..n] && r[n..] == "..."
  {
    if |s| > n then s[..n] + "..." else s
  }

  /** The title, category and account columns of a PDF row. */
  datatype PdfCells = PdfCells(title: string, category: string, account: string)

  function PdfRow(t: Row): (r: PdfCells)
    ensures |r.title| <= 23 && |r.category| <= 18 && |r.account| <= 18
    ensures |t.title| <= 20 ==> r.title == t.title
    ensures |t.category| <= 15 ==> r.category == t.category
    ensures t.institution.None? ==> r.account == "N/A"
    ensures t.institution.Some? && 0 < |t.institution.value| <= 15 ==> r.account == t.institution.value
    ensures t.institution == Some("") ==> r.account == "N/A"
    ensures |t.title| > 20 ==> r.title == t.title[..20] + "..."
    ensures |t.category| > 15 ==> r.category == t.category[..15] + "..."
    ensures |OrElse(t.institution, "N/A")| > 15 ==> r.account == OrElse(t.institution, "N/A")[..15] + "..."
  {
    PdfCells(Truncate(t.title, 20), Truncate(t.category, 15), Truncate(OrElse(t.institution, "N/A"), 15))
  }
}
