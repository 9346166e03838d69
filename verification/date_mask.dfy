/** The DD/MM/YYYY mask of the date field in the transaction editor: every change of the text is
    cleaned to digits and '/' and then given its slashes. */
module DateMask {
  import opened Strings
  import Lists
  import DateFormat

  function Min(a: int, b: int): int {
    if a <= b then a else b
  }

  predicate AllDigitOrSlash(s: string) {
    forall i :: 0 <= i < |s| ==> DateFormat.DigitOrSlash(s[i])
  }

  /** The first step of the mask: a slash after the day when the cleaned text has more than two
      characters and no slash yet. */
  function DaySlash(cleaned: string): (m: string)
    requires AllDigitOrSlash(cleaned)
    ensures AllDigitOrSlash(m)
    ensures |m| == if |cleaned| > 2 && '/' !in cleaned then |cleaned| + 1 else |cleaned|
    ensures |cleaned| > 2 && '/' !in cleaned ==> m[2] == '/' && m[..2] + m[3..] == cleaned
    ensures !(|cleaned| > 2 && '/' !in cleaned) ==> m == cleaned
  {
    if |cleaned| > 2 && '/' !in cleaned then cleaned[..2] + "/" + cleaned[2..] else cleaned
  }

  /** The mask as written: clean, add the day slash, then, whenever more than five characters
      remain, keep the first five, a '/', and the next four (`slice(5, 9)`). */
  function Mask(input: string): (r: string)
    ensures AllDigitOrSlash(r)
    ensures |r| <= 10
  {
    var cleaned := Lists.Keep(input, DateFormat.DigitOrSlash);
    var m := DaySlash(cleaned);
    if |m| > 5 then m[..5] + "/" + m[5..Min(9, |m|)] else m
  }

  /** `s` is a prefix of the shape DD/MM/YYYY: slashes at 2 and 5, digits elsewhere. */
  predicate PartialDate(s: string) {
    |s| <= 10
    && forall i :: 0 <= i < |s| ==> (if i == 2 || i == 5 then s[i] == '/' else IsDigit(s[i]))
  }

  lemma PartialDateClean(s: string)
    requires PartialDate(s)
    ensures Lists.Keep(s, DateFormat.DigitOrSlash) == s
  {
    Lists.KeepAll(s, DateFormat.DigitOrSlash);
  }

  /** A complete date is not left as it is: the mask inserts a second slash after the month and
      drops the last digit of the year, so the result is no longer a date. */
  lemma CompleteDateBroken(s: string)
    requires |s| == 10 && DateFormat.BrazilianPrefix(s)
    ensures Mask(s) == s[..5] + "/" + s[5..9]
    ensures Mask(s) != s && !DateFormat.BrazilianPrefix(Mask(s))
  {
    assert PartialDate(s);
    PartialDateClean(s);
    assert '/' in s by {
      assert s[2] == '/';
    }
    assert Mask(s)[6] == s[5] == '/';
  }

  /** Typing one digit after a partial date of seven or more characters (DD/MM/Y…) gives a text
      with two slashes in a row: typing a date digit by digit never completes it. */
  lemma TypingPastTheMonthBreaks(s: string, d: char)
    requires PartialDate(s) && 6 <= |s| < 10 && IsDigit(d)
    ensures !PartialDate(Mask(s + [d]))
    ensures |Mask(s + [d])| > 6 && Mask(s + [d])[5] == '/' && Mask(s + [d])[6] == '/'
  {
    var t := s + [d];
    AppendDigit(s, d);
    PartialDateClean(t);
    assert t[2] == '/';
    assert DaySlash(t) == t;
    assert Mask(t)[6] == t[5] == s[5];
  }

  /** The mask as evidently intended: the month slash is inserted only when the sixth character
      is not already a slash; otherwise the text is only cut to ten characters. */
  function MaskFixed(input: string): (r: string)
    ensures AllDigitOrSlash(r)
    ensures |r| <= 10
  {
    var cleaned := Lists.Keep(input, DateFormat.DigitOrSlash);
    var m := DaySlash(cleaned);
    if |m| > 5 && m[5] != '/' then m[..5] + "/" + m[5..Min(9, |m|)] else m[..Min(10, |m|)]
  }

  /** The corrected mask leaves a complete date as it is. */
  lemma FixedKeepsCompleteDate(s: string)
    requires |s| == 10 && DateFormat.BrazilianPrefix(s)
    ensures MaskFixed(s) == s
  {
    assert PartialDate(s);
    PartialDateClean(s);
    assert s[2] == '/';
  }

  /** The corrected mask leaves every partial date as it is. */
  lemma FixedKeepsPartialDate(t: string)
    requires PartialDate(t)
    ensures MaskFixed(t) == t
  {
    PartialDateClean(t);
    if |t| > 2 {
      assert t[2] == '/';
    }
    assert DaySlash(t) == t;
  }

  /** A digit typed where no slash belongs extends a partial date. */
  lemma AppendDigit(s: string, d: char)
    requires PartialDate(s) && |s| < 10 && |s| != 2 && |s| != 5 && IsDigit(d)
    ensures PartialDate(s + [d])
  {
    var t := s + [d];
    forall i | 0 <= i < |t|
      ensures if i == 2 || i == 5 then t[i] == '/' else IsDigit(t[i])
    {
      if i < |s| {
        assert t[i] == s[i];
      }
    }
  }

  /** A digit typed where a slash belongs gets the slash inserted before it. */
  lemma AppendDigitAtSlash(s: string, d: char)
    requires PartialDate(s) && (|s| == 2 || |s| == 5) && IsDigit(d)
    ensures MaskFixed(s + [d]) == s + "/" + [d]
  {
    var t := s + [d];
    assert AllDigitOrSlash(t) by {
      assert forall i :: 0 <= i < |s| ==> t[i] == s[i];
    }
    Lists.KeepAll(t, DateFormat.DigitOrSlash);
    if |s| == 2 {
      assert '/' !in t;
      assert DaySlash(t) == s + "/" + [d];
    } else {
      assert t[2] == '/';
      assert DaySlash(t) == t;
    }
  }

  /** A slash and a digit typed where a slash belongs extend a partial date. */
  lemma AppendSlashDigit(s: string, d: char)
    requires PartialDate(s) && (|s| == 2 || |s| == 5) && IsDigit(d)
    ensures PartialDate(s + "/" + [d])
  {
    var u := s + "/" + [d];
    forall i | 0 <= i < |u|
      ensures if i == 2 || i == 5 then u[i] == '/' else IsDigit(u[i])
    {
      if i < |s| {
        assert u[i] == s[i];
      }
    }
  }

  /** With the corrected mask, typing a digit after any partial date shorter than ten characters
      gives a longer partial date: eight digits typed one by one build DD/MM/YYYY. */
  lemma FixedTypingExtends(s: string, d: char)
    requires PartialDate(s) && |s| < 10 && IsDigit(d)
    ensures PartialDate(MaskFixed(s + [d]))
    ensures |MaskFixed(s + [d])| > |s|
    ensures MaskFixed(s + [d])[..|s|] == s
  {
    var t := s + [d];
    if |s| == 2 || |s| == 5 {
      AppendDigitAtSlash(s, d);
      AppendSlashDigit(s, d);
      assert (s + "/" + [d])[..|s|] == s;
    } else {
      AppendDigit(s, d);
      FixedKeepsPartialDate(t);
      assert t[..|s|] == s;
    }
  }
}
