/** Local calendar instants and the month window that the transaction listing builds from
    `new Date(year, month - 1, 1)` and `new Date(year, month, 0)`. */
module Calendar {

  const MsPerDay := 86_400_000

  /** An instant in the server's local calendar: year, month 1..12, day, milliseconds into the day. */
  datatype Stamp = Stamp(year: int, month: int, day: int, ms: int)

  predicate IsLeap(y: int) {
    y % 4 == 0 && (y % 100 != 0 || y % 400 == 0)
  }

  function DaysIn(y: int, m: int): (d: int)
    requires 1 <= m <= 12
    ensures 28 <= d <= 31
  {
    if m == 2 then (if IsLeap(y) then 29 else 28)
    else if m == 4 || m == 6 || m == 9 || m == 11 then 30
    else 31
  }

  predicate Valid(s: Stamp) {
    1 <= s.month <= 12 && 1 <= s.day <= DaysIn(s.year, s.month) && 0 <= s.ms < MsPerDay
  }

  /** Chronological order on stamps: lexicographic on (year, month, day, ms). */
  predicate Le(a: Stamp, b: Stamp) {
    if a.year != b.year then a.year < b.year
    else if a.month != b.month then a.month < b.month
    else if a.day != b.day then a.day < b.day
    else a.ms <= b.ms
  }

  lemma LeTotal(a: Stamp, b: Stamp)
    ensures Le(a, b) || Le(b, a)
  {}

  lemma LeTransitive(a: Stamp, b: Stamp, c: Stamp)
    requires Le(a, b) && Le(b, c)
    ensures Le(a, c)
  {}

  lemma LeAntisymmetric(a: Stamp, b: Stamp)
    requires Le(a, b) && Le(b, a)
    ensures a == b
  {}

  /** The year a JavaScript `Date` constructor uses: 0..99 mean 1900..1999. */
  function JsYear(y: int): (r: int)
    ensures 0 <= y <= 99 ==> r == 1900 + y
    ensures !(0 <= y <= 99) ==> r == y
  {
    if 0 <= y <= 99 then 1900 + y else y
  }

  /** `new Date(year, monthIndex, 1)`: a month index outside 0..11 carries into the year. */
  function FirstOfMonth(year: int, monthIndex: int): (s: Stamp)
    ensures Valid(s) && s.day == 1 && s.ms == 0
    ensures 12 * s.year + (s.month - 1) == 12 * JsYear(year) + monthIndex
  {
    var y := JsYear(year);
    Stamp(y + monthIndex / 12, monthIndex % 12 + 1, 1, 0)
  }

  /** The midnight that starts the day before `s`. */
  function PreviousDay(s: Stamp): (r: Stamp)
    requires Valid(s)
    ensures Valid(r) && r.ms == 0
    ensures Le(r, s) && r != s
  {
    if s.day > 1 then Stamp(s.year, s.month, s.day - 1, 0)
    else if s.month > 1 then Stamp(s.year, s.month - 1, DaysIn(s.year, s.month - 1), 0)
    else Stamp(s.year - 1, 12, 31, 0)
  }

  /** `new Date(year, monthIndex, 0)`: day zero is the last day of the month before `monthIndex`. */
  function DayZero(year: int, monthIndex: int): Stamp {
    PreviousDay(FirstOfMonth(year, monthIndex))
  }

  /** Day zero of the next month is the midnight starting the last day of this month. */
  lemma DayZeroIsLastDay(year: int, month: int)
    ensures var first := FirstOfMonth(year, month - 1);
            DayZero(year, month) == Stamp(first.year, first.month, DaysIn(first.year, first.month), 0)
  {
    var first := FirstOfMonth(year, month - 1);
    var next := FirstOfMonth(year, month);
    assert 12 * next.year + next.month == 12 * first.year + first.month + 1;
    if first.month == 12 {
      assert next.year == first.year + 1 && next.month == 1;
    } else {
      assert next.year == first.year && next.month == first.month + 1;
    }
  }

  /** The window the listing filters with, for 1-based `month`: from the midnight starting the
      month to the midnight starting its last day, both inclusive. */
  predicate InMonthWindow(d: Stamp, year: int, month: int) {
    Le(FirstOfMonth(year, month - 1), d) && Le(d, DayZero(year, month))
  }

  /** Which instants the window admits: those of the (normalised) month, except instants on its
      last day after midnight. */
  lemma InMonthWindowIff(d: Stamp, year: int, month: int)
    requires Valid(d)
    ensures var first := FirstOfMonth(year, month - 1);
            InMonthWindow(d, year, month) <==>
              d.year == first.year && d.month == first.month
              && (d.day < DaysIn(first.year, first.month) || d.ms == 0)
  {
    DayZeroIsLastDay(year, month);
  }

  /** The window the listing evidently intends: the whole month, through its last millisecond. */
  predicate InWholeMonth(d: Stamp, year: int, month: int) {
    var first := FirstOfMonth(year, month - 1);
    Le(first, d) && Le(d, Stamp(first.year, first.month, DaysIn(first.year, first.month), MsPerDay - 1))
  }

  /** The intended window admits exactly the valid instants of the normalised month. */
  lemma InWholeMonthIff(d: Stamp, year: int, month: int)
    requires Valid(d)
    ensures var first := FirstOfMonth(year, month - 1);
            InWholeMonth(d, year, month) <==> d.year == first.year && d.month == first.month
  {}

  /** A transaction recorded at 10:00 on 31 January 2024 falls outside the January 2024 window. */
  lemma LastDayExcluded()
    ensures Valid(Stamp(2024, 1, 31, 36_000_000))
    ensures !InMonthWindow(Stamp(2024, 1, 31, 36_000_000), 2024, 1)
    ensures InWholeMonth(Stamp(2024, 1, 31, 36_000_000), 2024, 1)
  {
    InMonthWindowIff(Stamp(2024, 1, 31, 36_000_000), 2024, 1);
  }
}
