/** The dashboard of the standalone client: income and expenses derived from the signs of the
    amounts, the balance verdict, and the rows of the PDF report. */
module Dashboard {
  import opened Wrappers
  import Lists

  /** A transaction of the standalone client: positive amounts are income, negative ones are
      expenses. Amounts are whole numbers. */
  datatype Entry = Entry(
    id: string, userId: string, amount: int, category: string, date: string,
    description: Option<string>)

  predicate IsGain(e: Entry) {
    e.amount > 0
  }

  predicate IsLoss(e: Entry) {
    e.amount < 0
  }

  function Amount(e: Entry): int {
    e.amount
  }

  /** `Math.abs(amount)`. */
  function Magnitude(e: Entry): int {
    if e.amount < 0 then -e.amount else e.amount
  }

  function GainPart(e: Entry): int {
    if IsGain(e) then e.amount else 0
  }

  function LossPart(e: Entry): int {
    if IsLoss(e) then Magnitude(e) else 0
  }

  /** The sum of the strictly positive amounts. */
  function Income(entries: seq<Entry>): (r: int)
    ensures r == Lists.Sum(entries, GainPart)
  {
    Lists.SumKeep(entries, IsGain, Amount, GainPart);
    Lists.Sum(Lists.Keep(entries, IsGain), Amount)
  }

  /** The sum of the magnitudes of the strictly negative amounts. */
  function Expenses(entries: seq<Entry>): (r: int)
    ensures r == Lists.Sum(entries, LossPart)
  {
    Lists.SumKeep(entries, IsLoss, Magnitude, LossPart);
    Lists.Sum(Lists.Keep(entries, IsLoss), Magnitude)
  }

  /** Both totals are never negative. */
  lemma TotalsNonNegative(entries: seq<Entry>)
    ensures Income(entries) >= 0 && Expenses(entries) >= 0
  {
    Lists.SumNonNegative(Lists.Keep(entries, IsGain), Amount);
    Lists.SumNonNegative(Lists.Keep(entries, IsLoss), Magnitude);
  }

  /** Income minus expenses is the plain sum of every amount. */
  lemma NetIsSum(entries: seq<Entry>)
    ensures Income(entries) - Expenses(entries) == Lists.Sum(entries, Amount)
  {
    Lists.SumKeep(entries, IsGain, Amount, GainPart);
    Lists.SumKeep(entries, IsLoss, Magnitude, LossPart);
    Lists.SumDifference(entries, GainPart, LossPart, Amount);
  }

  /** A transaction of amount zero counts in neither total. */
  lemma ZeroCountsNowhere(entries: seq<Entry>, e: Entry)
    requires e.amount == 0
    ensures Income(entries + [e]) == Income(entries)
    ensures Expenses(entries + [e]) == Expenses(entries)
  {
    Lists.KeepAppend(entries, [e], IsGain);
    Lists.KeepAppend(entries, [e], IsLoss);
    assert Lists.Keep([e], IsGain) == [];
    assert Lists.Keep([e], IsLoss) == [];
    assert Lists.Keep(entries, IsGain) + [] == Lists.Keep(entries, IsGain);
    assert Lists.Keep(entries, IsLoss) + [] == Lists.Keep(entries, IsLoss);
  }

  /** Appending a transaction adds its amount to income when positive, and its magnitude to
      expenses when negative. */
  lemma AppendEntry(entries: seq<Entry>, e: Entry)
    ensures Income(entries + [e]) == Income(entries) + GainPart(e)
    ensures Expenses(entries + [e]) == Expenses(entries) + LossPart(e)
  {
    Lists.KeepAppend(entries, [e], IsGain);
    Lists.KeepAppend(entries, [e], IsLoss);
    Lists.SumAppend(Lists.Keep(entries, IsGain), Lists.Keep([e], IsGain), Amount);
    Lists.SumAppend(Lists.Keep(entries, IsLoss), Lists.Keep([e], IsLoss), Magnitude);
  }

  datatype Verdict = Good | Bad

  function VerdictText(v: Verdict): string {
    match v
    case Good => "Your balance is good, keep it up!"
    case Bad => "Your balance is bad, control your expenses."
  }

  /** `balanceStatus`: good exactly when income covers the expenses. */
  function Status(entries: seq<Entry>): (v: Verdict)
    ensures v == Good <==> Income(entries) >= Expenses(entries)
  {
    if Income(entries) >= Expenses(entries) then Good else Bad
  }

  /** The verdict is good exactly when the amounts sum to zero or more. */
  lemma StatusBySum(entries: seq<Entry>)
    ensures Status(entries) == Good <==> Lists.Sum(entries, Amount) >= 0
  {
    NetIsSum(entries);
  }

  /** One entry of the PDF report. The date column is the transaction's date text: locale date
      formatting is outside the model. */
  datatype ReportRow = ReportRow(category: string, amount: int, date: string, description: string)

  /** `transactions.map(...)`: one report row per transaction, in order, with a missing
      description shown as "". */
  function Report(entries: seq<Entry>): (rows: seq<ReportRow>)
    ensures |rows| == |entries|
    ensures forall i :: 0 <= i < |entries| ==>
              && rows[i].category == entries[i].category
              && rows[i].amount == entries[i].amount
              && rows[i].date == entries[i].date
              && rows[i].description == entries[i].description.GetOr("")
  {
    if |entries| == 0 then []
    else
      var e := entries[0];
      [ReportRow(e.category, e.amount, e.date, e.description.GetOr(""))] + Report(entries[1..])
  }

  /** The report of two lists is the report of the first followed by that of the second. */
  lemma {:induction false} ReportAppend(a: seq<Entry>, b: seq<Entry>)
    ensures Report(a + b) == Report(a) + Report(b)
  {
    if |a| > 0 {
      assert (a + b)[1..] == a[1..] + b;
      ReportAppend(a[1..], b);
    } else {
      assert a + b == b;
    }
  }
}
