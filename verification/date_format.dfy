/** Conversion between the ISO 8601 extended calendar-date form YYYY-MM-DD and the Brazilian
    form DD/MM/YYYY. Digit groups are only rearranged, never checked against the calendar. */
module DateFormat {
  import opened Strings
  import Lists

  /** `s` begins with `YYYY-MM-DD` (`/^(\d{4})-(\d{2})-(\d{2})/`). */
  predicate IsoPrefix(s: string) {
    |s| >= 10
    && IsDigit(s[0]) && IsDigit(s[1]) && IsDigit(s[2]) && IsDigit(s[3]) && s[4] == '-'
    && IsDigit(s[5]) && IsDigit(s[6]) && s[7] == '-' && IsDigit(s[8]) && IsDigit(s[9])
  }

  /** `s` begins with `DD/MM/YYYY` (`/^(\d{2})\/(\d{2})\/(\d{4})/`). */
  predicate BrazilianPrefix(s: string) {
    |s| >= 10
    && IsDigit(s[0]) && IsDigit(s[1]) && s[2] == '/' && IsDigit(s[3]) && IsDigit(s[4])
    && s[5] == '/' && IsDigit(s[6]) && IsDigit(s[7]) && IsDigit(s[8]) && IsDigit(s[9])
  }

  predicate DigitOrSlash(c: char) {
    IsDigit(c) || c == '/'
  }

  /** `isoToBrazilianFormat`. */
  function IsoToBrazilian(iso: string): (r: string)
    ensures iso == "" ==> r == ""
    ensures !IsoPrefix(iso) ==> r == iso
    ensures IsoPrefix(iso) ==> |r| == 10 && BrazilianPrefix(r)
    ensures IsoPrefix(iso) ==> r[0..2] == iso[8..10] && r[3..5] == iso[5..7] && r[6..10] == iso[0..4]
  {
    if iso == "" then ""
    else if IsoPrefix(iso) then [iso[8], iso[9], '/', iso[5], iso[6], '/', iso[0], iso[1], iso[2], iso[3]]
    else iso
  }

  /** `brazilianToIsoFormat`: characters other than digits and '/' are dropped before matching,
      but a failed match returns the original text. */
  function BrazilianToIso(text: string): (r: string)
    ensures text == "" ==> r == ""
    ensures var cleaned := Lists.Keep(text, DigitOrSlash);
            && (!BrazilianPrefix(cleaned) ==> r == text)
            && (BrazilianPrefix(cleaned) ==>
                  |r| == 10 && IsoPrefix(r)
                  && r[0..4] == cleaned[6..10] && r[5..7] == cleaned[3..5] && r[8..10] == cleaned[0..2])
  {
    if text == "" then ""
    else
      var cleaned := Lists.Keep(text, DigitOrSlash);
      if BrazilianPrefix(cleaned) then
        [cleaned[6], cleaned[7], cleaned[8], cleaned[9], '-', cleaned[3], cleaned[4], '-', cleaned[0], cleaned[1]]
      else text
  }

  /** ISO to Brazilian and back restores any ten-character `YYYY-MM-DD`. */
  lemma IsoRoundTrip(iso: string)
    requires |iso| == 10 && IsoPrefix(iso)
    ensures BrazilianToIso(IsoToBrazilian(iso)) == iso
  {
    var br := [iso[8], iso[9], '/', iso[5], iso[6], '/', iso[0], iso[1], iso[2], iso[3]];
    assert IsoToBrazilian(iso) == br;
    assert BrazilianPrefix(br);
    AllDigitOrSlash(br);
    var back := [br[6], br[7], br[8], br[9], '-', br[3], br[4], '-', br[0], br[1]];
    assert BrazilianToIso(br) == back by {
      assert br != "";
      assert Lists.Keep(br, DigitOrSlash) == br;
    }
    assert back == [iso[0], iso[1], iso[2], iso[3], '-', iso[5], iso[6], '-', iso[8], iso[9]];
    assert iso[4] == '-' && iso[7] == '-';
    TenElements(iso);
  }

  lemma TenElements(s: string)
    requires |s| == 10
    ensures s == [s[0], s[1], s[2], s[3], s[4], s[5], s[6], s[7], s[8], s[9]]
  {
    var d := [s[0], s[1], s[2], s[3], s[4], s[5], s[6], s[7], s[8], s[9]];
    assert forall i | 0 <= i < 10 :: d[i] == s[i];
  }

  lemma AllDigitOrSlash(br: string)
    requires |br| == 10 && BrazilianPrefix(br)
    ensures Lists.Keep(br, DigitOrSlash) == br
  {
    assert forall i :: 0 <= i < 10 ==> DigitOrSlash(br[i]);
    Lists.KeepAll(br, DigitOrSlash);
  }

  /** Brazilian to ISO and back restores any ten-character `DD/MM/YYYY`. */
  lemma BrazilianRoundTrip(br: string)
    requires |br| == 10 && BrazilianPrefix(br)
    ensures IsoToBrazilian(BrazilianToIso(br)) == br
  {
    AllDigitOrSlash(br);
    var back := IsoToBrazilian(BrazilianToIso(br));
    assert forall i :: 0 <= i < 10 ==> back[i] == br[i];
  }

  /** Only the first ten characters of an ISO value take part: a time part is dropped. */
  lemma IsoDropsSuffix(iso: string, rest: string)
    requires |iso| == 10 && IsoPrefix(iso)
    ensures IsoToBrazilian(iso + rest) == IsoToBrazilian(iso)
  {
    assert (iso + rest)[..10] == iso;
  }

  /** No calendar check: month 99 and day 99 pass through both directions. */
  lemma NoCalendarValidation()
    ensures IsoToBrazilian("2024-99-99") == "99/99/2024"
    ensures BrazilianToIso("99/99/2024") == "2024-99-99"
  {
    assert IsoPrefix("2024-99-99");
    assert BrazilianPrefix("99/99/2024");
    AllDigitOrSlash("99/99/2024");
  }

  /** Stray characters are cleaned away before a Brazilian date is recognised. */
  lemma BrazilianCleansInput()
    ensures BrazilianToIso(" 31/12/2024") == "2024-12-31"
  {
    assert " 31/12/2024"[1..] == "31/12/2024";
    assert !DigitOrSlash(' ');
    assert BrazilianPrefix("31/12/2024");
    AllDigitOrSlash("31/12/2024");
  }
}
