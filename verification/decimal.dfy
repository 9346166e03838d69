/** Decimal text of integers: the `toString` / `parseInt` pair on whole numbers. */
module Decimal {
  import opened Strings
  import opened Wrappers
  import Lists

  function DigitChar(d: nat): (c: char)
    requires d < 10
    ensures IsDigit(c)
  {
    ('0' as int + d) as char
  }

  function DigitValue(c: char): (d: nat)
    requires IsDigit(c)
    ensures d < 10 && DigitChar(d) == c
  {
    c as int - '0' as int
  }

  predicate AllDigits(s: string) {
    forall i :: 0 <= i < |s| ==> IsDigit(s[i])
  }

  /** Canonical decimal text of a natural number: no sign, no leading zero. */
  function NatToString(n: nat): (s: string)
    ensures |s| >= 1 && AllDigits(s)
    ensures |s| > 1 ==> s[0] != '0'
  {
    if n < 10 then [DigitChar(n)] else NatToString(n / 10) + [DigitChar(n % 10)]
  }

  /** The value of a string of decimal digits (leading zeros allowed; "" is 0). */
  function ParseDigits(s: string): nat
    requires AllDigits(s)
  {
    if |s| == 0 then 0 else 10 * ParseDigits(s[..|s| - 1]) + DigitValue(s[|s| - 1])
  }

  /** Parsing the text of a number gives the number back. */
  lemma {:induction false} ParseNatToString(n: nat)
    ensures ParseDigits(NatToString(n)) == n
  {
    if n >= 10 {
      var s := NatToString(n);
      assert s[..|s| - 1] == NatToString(n / 10);
      ParseNatToString(n / 10);
    }
  }

  /** Two numbers with the same text are equal. */
  lemma NatToStringInjective(a: nat, b: nat)
    requires NatToString(a) == NatToString(b)
    ensures a == b
  {
    ParseNatToString(a);
    ParseNatToString(b);
  }

  /** `String(i)` for an integer: a '-' sign exactly for negatives. */
  function IntToString(i: int): (s: string)
    ensures |s| >= 1
    ensures s[0] == '-' <==> i < 0
    ensures i < 0 ==> s[1..] == NatToString(-i)
    ensures i >= 0 ==> s == NatToString(i)
  {
    if i < 0 then "-" + NatToString(-i) else NatToString(i)
  }

  /** The digits of `s`, in order (`s.replace(/[^0-9]/g, "")`). */
  function DigitsOf(s: string): (r: string)
    ensures AllDigits(r)
  {
    Lists.Keep(s, IsDigit)
  }

  /** The longest prefix of `s` made of digits. */
  function LeadingDigits(s: string): (r: string)
    ensures AllDigits(r) && |r| <= |s| && r == s[..|r|]
    ensures |r| < |s| ==> !IsDigit(s[|r|])
  {
    if |s| > 0 && IsDigit(s[0]) then [s[0]] + LeadingDigits(s[1..]) else ""
  }

  /** `parseInt(s, 10)` on an integer: None stands for NaN. Leading whitespace and one sign
      are skipped, then the longest run of digits is read; no digits gives NaN. */
  function ParseInt(s: string): (r: Option<int>)
    ensures r.Some? <==> (
      var t := TrimStart(s);
      var u := if |t| > 0 && (t[0] == '+' || t[0] == '-') then t[1..] else t;
      |u| > 0 && IsDigit(u[0]))
  {
    var t := TrimStart(s);
    var negative := |t| > 0 && t[0] == '-';
    var u := if |t| > 0 && (t[0] == '+' || t[0] == '-') then t[1..] else t;
    var ds := LeadingDigits(u);
    if |ds| == 0 then None
    else if negative then Some(0 - ParseDigits(ds) as int)
    else Some(ParseDigits(ds) as int)
  }

  /** The leading digits of a run of digits followed by a non-digit are that run. */
  lemma {:induction false} LeadingDigitsThen(digits: string, rest: string)
    requires AllDigits(digits) && (|rest| == 0 || !IsDigit(rest[0]))
    ensures LeadingDigits(digits + rest) == digits
  {
    if |digits| > 0 {
      assert (digits + rest)[1..] == digits[1..] + rest;
      LeadingDigitsThen(digits[1..], rest);
      assert digits == [digits[0]] + digits[1..];
    } else {
      assert digits + rest == rest;
    }
  }

  /** `parseInt` of a run of digits followed by a non-digit reads the run. */
  lemma ParseIntDigitsThen(digits: string, rest: string)
    requires AllDigits(digits) && |digits| > 0 && (|rest| == 0 || !IsDigit(rest[0]))
    ensures ParseInt(digits + rest) == Some(ParseDigits(digits) as int)
  {
    var s := digits + rest;
    assert s[0] == digits[0];
    TrimStartUnchanged(s);
    LeadingDigitsThen(digits, rest);
    assert LeadingDigits(s) == digits;
    assert !(s[0] == '+' || s[0] == '-');
  }

  /** `parseInt` reads back the text `String(i)` of any integer. */
  lemma ParseIntToString(i: int)
    ensures ParseInt(IntToString(i)) == Some(i)
  {
    var s := IntToString(i);
    assert !IsWhitespace(s[0]) by {
      assert s[0] == '-' || IsDigit(s[0]);
    }
    assert TrimStart(s) == s;
    var digits := if i < 0 then s[1..] else s;
    assert digits == NatToString(if i < 0 then -i else i);
    LeadingDigitsAll(digits);
    ParseNatToString(if i < 0 then -i else i);
  }

  lemma {:induction false} LeadingDigitsAll(s: string)
    requires AllDigits(s)
    ensures LeadingDigits(s) == s
  {
    if |s| > 0 {
      LeadingDigitsAll(s[1..]);
    }
  }
  // ---------------------------------------------------------------- parseInt without a radix

  predicate IsHexDigit(c: char) {
    IsDigit(c) || 'a' <= c <= 'f' || 'A' <= c <= 'F'
  }

  function HexValue(c: char): (d: nat)
    requires IsHexDigit(c)
    ensures d < 16
    ensures IsDigit(c) ==> d == DigitValue(c)
  {
    if IsDigit(c) then DigitValue(c)
    else if 'a' <= c <= 'f' then c as int - 'a' as int + 10
    else c as int - 'A' as int + 10
  }

  predicate AllHexDigits(s: string) {
    forall i :: 0 <= i < |s| ==> IsHexDigit(s[i])
  }

  /** The longest prefix of `s` made of hexadecimal digits. */
  function LeadingHexDigits(s: string): (r: string)
    ensures AllHexDigits(r) && |r| <= |s| && r == s[..|r|]
    ensures |r| < |s| ==> !IsHexDigit(s[|r|])
  {
    if |s| > 0 && IsHexDigit(s[0]) then [s[0]] + LeadingHexDigits(s[1..]) else ""
  }

  /** The value of a string of hexadecimal digits ("" is 0). */
  function ParseHexDigits(s: string): nat
    requires AllHexDigits(s)
  {
    if |s| == 0 then 0 else 16 * ParseHexDigits(s[..|s| - 1]) + HexValue(s[|s| - 1])
  }

  /** The text `parseInt` reads digits from: leading whitespace and one sign skipped. */
  function Unsigned(s: string): (u: string)
    ensures |u| <= |s|
  {
    var t := TrimStart(s);
    if |t| > 0 && (t[0] == '+' || t[0] == '-') then t[1..] else t
  }

  /** A '-' sign after the leading whitespace. */
  predicate Negative(s: string) {
    var t := TrimStart(s);
    |t| > 0 && t[0] == '-'
  }

  predicate HexPrefixed(u: string) {
    |u| >= 2 && u[0] == '0' && (u[1] == 'x' || u[1] == 'X')
  }

  /** `parseInt(s)` with no radix, None standing for NaN: after the sign, a "0x" or "0X" prefix
      switches to base 16 and is dropped, and then the longest run of digits of the base is
      read. Without the prefix this is `parseInt(s, 10)`. */
  function ParseIntAuto(s: string): (r: Option<int>)
    ensures !HexPrefixed(Unsigned(s)) ==> r == ParseInt(s)
    ensures HexPrefixed(Unsigned(s)) ==> (r.Some? <==> |Unsigned(s)| > 2 && IsHexDigit(Unsigned(s)[2]))
    ensures HexPrefixed(Unsigned(s)) && r.Some? ==>
              var ds := LeadingHexDigits(Unsigned(s)[2..]);
              |ds| > 0 && r.value == (if Negative(s) then 0 - ParseHexDigits(ds) as int else ParseHexDigits(ds) as int)
  {
    var u := Unsigned(s);
    if HexPrefixed(u) then
      var ds := LeadingHexDigits(u[2..]);
      if |ds| == 0 then None
      else if Negative(s) then Some(0 - ParseHexDigits(ds) as int)
      else Some(ParseHexDigits(ds) as int)
    else ParseInt(s)
  }

  /** The decimal text of an integer never carries a hex prefix, so `parseInt` without a radix
      reads it back as well. */
  lemma ParseIntAutoToString(i: int)
    ensures ParseIntAuto(IntToString(i)) == Some(i)
  {
    var s := IntToString(i);
    ParseIntToString(i);
    assert !IsWhitespace(s[0]) by {
      assert s[0] == '-' || IsDigit(s[0]);
    }
    assert TrimStart(s) == s;
    var n := NatToString(if i < 0 then -i else i);
    assert Unsigned(s) == n;
    assert !HexPrefixed(n) by {
      if |n| >= 2 {
        assert n[0] != '0';
      }
    }
  }

  /** "0x" alone has no digit to read: NaN. */
  lemma HexPrefixAloneIsNaN()
    ensures ParseIntAuto("0x") == None
  {
    TrimStartUnchanged("0x");
    assert Unsigned("0x") == "0x";
    assert "0x"[2..] == "";
  }

  /** "0x1" is read in base 16, while `parseInt(s, 10)` stops at the 'x'. */
  lemma HexPrefixOne()
    ensures ParseIntAuto("0x1") == Some(1)
    ensures ParseInt("0x1") == Some(0)
  {
    TrimStartUnchanged("0x1");
    assert Unsigned("0x1") == "0x1";
    assert !Negative("0x1");
    assert "0x1"[2..] == "1";
    assert LeadingHexDigits("1") == "1";
    assert "1"[..0] == "";
    assert ParseHexDigits("1") == 1;
    assert "0x1" == "0" + "x1";
    ParseIntDigitsThen("0", "x1");
  }
}
