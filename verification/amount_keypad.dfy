/** The cents keypad of the new-income dialog. The amount is shown as "<units>,<cents>"; typing a
    digit shifts it in as the new last cent digit and Backspace shifts the last digit out. */
module AmountKeypad {
  import opened Strings
  import Lists
  import Decimal

  const Initial := "0,00"

  /** A key event: a one-character key, or a named key such as "Backspace" or "ArrowLeft".
      Named key values begin with a letter, so only one-character keys can pass the
      `key >= "0" && key <= "9"` comparison, and exactly the digit characters do. */
  datatype Key = Char(c: char) | Named(name: string)

  predicate IsDigitKey(k: Key) {
    k.Char? && IsDigit(k.c)
  }

  /** `(n / 100).toFixed(2).replace(".", ",")` for a whole number of cents `n`. */
  function Display(n: nat): (s: string)
    ensures |s| >= 4 && s[|s| - 3] == ','
    ensures IsDigit(s[|s| - 2]) && IsDigit(s[|s| - 1])
    ensures '.' !in s
    ensures Decimal.AllDigits(s[..|s| - 3])
    ensures |s| > 4 ==> s[0] != '0'
  {
    Decimal.NatToString(n / 100) + "," + [Decimal.DigitChar(n % 100 / 10), Decimal.DigitChar(n % 10)]
  }

  /** The cents value held by a display text: its digits read as one number. */
  function Cents(amount: string): nat {
    Decimal.ParseDigits(Decimal.DigitsOf(amount))
  }

  /** `handleAmountChange(digit)`: the digits of the display with `digit` appended, read as
      cents and shown again. */
  function TypeDigit(amount: string, digit: char): (r: string)
    requires IsDigit(digit)
    ensures r == Display(10 * Cents(amount) + Decimal.DigitValue(digit))
    ensures Cents(r) == 10 * Cents(amount) + Decimal.DigitValue(digit)
  {
    var n := Decimal.ParseDigits(Decimal.DigitsOf(amount) + [digit]);
    ParseDigitsSnoc(Decimal.DigitsOf(amount), digit);
    DisplayCents(n);
    Display(n)
  }

  /** The Backspace handler: the digits of the display without the last one (or "0" when that
      leaves nothing), read as cents and shown again. */
  function Backspace(amount: string): (r: string)
    ensures r == Display(Cents(amount) / 10)
    ensures Cents(r) == Cents(amount) / 10
  {
    var digits := Decimal.DigitsOf(amount);
    var kept := if |digits| == 0 then "" else digits[..|digits| - 1];
    var n := Decimal.ParseDigits(if kept == "" then "0" else kept);
    DisplayCents(n);
    DropLast(digits);
    Display(n)
  }

  /** Dropping the last digit divides the value by ten; "0" stands in for nothing left. */
  lemma DropLast(digits: string)
    requires Decimal.AllDigits(digits)
    ensures var kept := if |digits| == 0 then "" else digits[..|digits| - 1];
            Decimal.ParseDigits(if kept == "" then "0" else kept) == Decimal.ParseDigits(digits) / 10
  {
    if |digits| > 0 {
      var kept := digits[..|digits| - 1];
      assert Decimal.ParseDigits(digits) == 10 * Decimal.ParseDigits(kept) + Decimal.DigitValue(digits[|digits| - 1]);
      if kept == "" {
        assert "0"[..0] == "";
      }
    } else {
      assert "0"[..0] == "";
    }
  }

  /** The key handler of the amount field. */
  function OnKey(amount: string, k: Key): (r: string)
    ensures !IsDigitKey(k) && k != Named("Backspace") ==> r == amount
  {
    if IsDigitKey(k) then TypeDigit(amount, k.c)
    else if k == Named("Backspace") then Backspace(amount)
    else amount
  }

  // ---------------------------------------------------------------- lemmas

  lemma {:induction false} ParseDigitsSnoc(s: string, c: char)
    requires Decimal.AllDigits(s) && IsDigit(c)
    ensures Decimal.ParseDigits(s + [c]) == 10 * Decimal.ParseDigits(s) + Decimal.DigitValue(c)
  {
    assert (s + [c])[..|s + [c]| - 1] == s;
  }

  lemma DigitsOfDigits(s: string)
    requires Decimal.AllDigits(s)
    ensures Decimal.DigitsOf(s) == s
  {
    Lists.KeepAll(s, IsDigit);
  }

  /** The digits of a display are the units followed by the two cent digits. */
  lemma DisplayDigits(n: nat)
    ensures Decimal.DigitsOf(Display(n))
            == Decimal.NatToString(n / 100) + [Decimal.DigitChar(n % 100 / 10), Decimal.DigitChar(n % 10)]
  {
    var units := Decimal.NatToString(n / 100);
    var cents := [Decimal.DigitChar(n % 100 / 10), Decimal.DigitChar(n % 10)];
    assert Display(n) == units + ("," + cents);
    Lists.KeepAppend(units, "," + cents, IsDigit);
    Lists.KeepAppend(",", cents, IsDigit);
    DigitsOfDigits(units);
    DigitsOfDigits(cents);
    assert Lists.Keep(",", IsDigit) == "";
  }

  lemma DigitRoundTrip(k: nat)
    requires k < 10
    ensures Decimal.DigitValue(Decimal.DigitChar(k)) == k
  {
  }

  lemma HundredsTensUnits(n: nat)
    ensures n == 100 * (n / 100) + 10 * (n % 100 / 10) + n % 10
  {
  }

  /** Reading the digits of the display gives back the cents it shows. */
  lemma {:induction false} DisplayCents(n: nat)
    ensures Cents(Display(n)) == n
  {
    var units := Decimal.NatToString(n / 100);
    var a := Decimal.DigitChar(n % 100 / 10);
    var b := Decimal.DigitChar(n % 10);
    DisplayDigits(n);
    assert units + [a, b] == (units + [a]) + [b];
    ParseDigitsSnoc(units + [a], b);
    ParseDigitsSnoc(units, a);
    Decimal.ParseNatToString(n / 100);
    DigitRoundTrip(n % 100 / 10);
    DigitRoundTrip(n % 10);
    var q, x, y := n / 100, n % 100 / 10, n % 10;
    calc {
      Cents(Display(n));
      10 * (10 * q + x) + y;
      { HundredsTensUnits(n); }
      n;
    }
  }

  /** Distinct amounts show distinct texts. */
  lemma DisplayInjective(m: nat, n: nat)
    requires Display(m) == Display(n)
    ensures m == n
  {
    DisplayCents(m);
    DisplayCents(n);
  }

  /** The dialog opens showing zero cents. */
  lemma InitialIsZero()
    ensures Display(0) == Initial
    ensures Cents(Initial) == 0
  {
    DisplayCents(0);
  }

  /** Typing digit `d` turns `c` cents into `10 * c + d` cents. */
  lemma {:induction false} TypeDigitShifts(c: nat, d: char)
    requires IsDigit(d)
    ensures TypeDigit(Display(c), d) == Display(10 * c + Decimal.DigitValue(d))
  {
    DisplayCents(c);
  }

  /** Backspace turns `c` cents into `c / 10` cents; in particular zero stays zero. */
  lemma {:induction false} BackspaceShifts(c: nat)
    ensures Backspace(Display(c)) == Display(c / 10)
  {
    DisplayCents(c);
  }

  /** Backspace right after typing a digit restores the previous display. */
  lemma BackspaceUndoesDigit(c: nat, d: char)
    requires IsDigit(d)
    ensures Backspace(TypeDigit(Display(c), d)) == Display(c)
  {
    var v := Decimal.DigitValue(d);
    var n := 10 * c + v;
    DropLastDigit(c, v);
    TypeDigitShifts(c, d);
    BackspaceTo(TypeDigit(Display(c), d), n, c);
  }

  lemma BackspaceTo(a: string, n: nat, c: nat)
    requires a == Display(n) && n / 10 == c
    ensures Backspace(a) == Display(c)
  {
    BackspaceShifts(n);
  }

  lemma DropLastDigit(c: nat, v: nat)
    requires v < 10
    ensures (10 * c + v) / 10 == c
  {
  }
}
