/** Character and string helpers that mirror the JavaScript string methods the source uses. */
module Strings {
  import opened Wrappers

  /** `s.startsWith(p)`. */
  predicate StartsWith(s: string, p: string) {
    |p| <= |s| && s[..|p|] == p
  }

  /** `s.includes(p)`: `p` occurs at some position of `s`. */
  predicate Contains(s: string, p: string)
    decreases |s|
  {
    StartsWith(s, p) || (|s| > 0 && Contains(s[1..], p))
  }

  /** The position of the first occurrence of `p` in `s` (`indexOf`), if any. */
  function IndexOf(s: string, p: string): (r: int)
    ensures -1 <= r <= |s|
    ensures 0 <= r ==> r + |p| <= |s| && s[r..r + |p|] == p
    ensures r == -1 <==> !Contains(s, p)
    decreases |s|
  {
    if StartsWith(s, p) then 0
    else if |s| == 0 then -1
    else
      var k := IndexOf(s[1..], p);
      if k == -1 then -1 else k + 1
  }

  /** The position of the first occurrence of character `c`, or -1. */
  function IndexOfChar(s: string, c: char): (r: int)
    ensures -1 <= r < |s|
    ensures 0 <= r ==> s[r] == c && c !in s[..r]
    ensures r == -1 <==> c !in s
  {
    if |s| == 0 then -1
    else if s[0] == c then 0
    else
      var k := IndexOfChar(s[1..], c);
      assert s[1..][..k + 1] == s[1..k + 2] by {}
      if k == -1 then -1 else k + 1
  }

  predicate IsDigit(c: char) {
    '0' <= c <= '9'
  }

  predicate IsAsciiUpper(c: char) {
    'A' <= c <= 'Z'
  }

  predicate IsAsciiLower(c: char) {
    'a' <= c <= 'z'
  }

  /** `toLowerCase` restricted to the ASCII letters. */
  function LowerChar(c: char): char {
    if IsAsciiUpper(c) then (c as int + 32) as char else c
  }

  /** `toUpperCase` restricted to the ASCII letters. */
  function UpperChar(c: char): char {
    if IsAsciiLower(c) then (c as int - 32) as char else c
  }

  function ToLower(s: string): (r: string)
    ensures |r| == |s|
    ensures forall i :: 0 <= i < |s| ==> r[i] == LowerChar(s[i])
  {
    seq(|s|, i requires 0 <= i < |s| => LowerChar(s[i]))
  }

  function ToUpper(s: string): (r: string)
    ensures |r| == |s|
    ensures forall i :: 0 <= i < |s| ==> r[i] == UpperChar(s[i])
  {
    seq(|s|, i requires 0 <= i < |s| => UpperChar(s[i]))
  }

  /** ECMAScript WhiteSpace and LineTerminator code points: what `trim` and `parseInt` skip. */
  predicate IsWhitespace(c: char) {
    || c == '\t' || c == '\n' || c == '\U{000B}' || c == '\U{000C}' || c == '\r' || c == ' '
    || c == '\U{00A0}' || c == '\U{1680}' || ('\U{2000}' <= c <= '\U{200A}')
    || c == '\U{2028}' || c == '\U{2029}' || c == '\U{202F}' || c == '\U{205F}'
    || c == '\U{3000}' || c == '\U{FEFF}'
  }

  /** `s.trim() === ""`. */
  predicate IsBlank(s: string) {
    forall i :: 0 <= i < |s| ==> IsWhitespace(s[i])
  }

  /** `trimStart`. */
  function TrimStart(s: string): (r: string)
    ensures |r| <= |s| && r == s[|s| - |r|..]
    ensures |r| > 0 ==> !IsWhitespace(r[0])
    ensures IsBlank(s[..|s| - |r|])
  {
    if |s| > 0 && IsWhitespace(s[0]) then TrimStart(s[1..]) else s
  }

  /** A text that does not start with whitespace is its own `trimStart`. */
  lemma TrimStartUnchanged(s: string)
    requires |s| > 0 && !IsWhitespace(s[0])
    ensures TrimStart(s) == s
  {
  }

  /** `parts.join(sep)` for a one-character separator. */
  function Join(parts: seq<string>, sep: char): string {
    if |parts| == 0 then ""
    else if |parts| == 1 then parts[0]
    else parts[0] + [sep] + Join(parts[1..], sep)
  }

  /** `s.split(sep)` for a one-character separator: always at least one part. */
  function Split(s: string, sep: char): (r: seq<string>)
    ensures |r| >= 1
    ensures forall i :: 0 <= i < |r| ==> sep !in r[i]
    decreases |s|
  {
    var k := IndexOfChar(s, sep);
    if k == -1 then [s] else [s[..k]] + Split(s[k + 1..], sep)
  }

  /** One step of `Split`: the text before the first separator, then the split of the rest. */
  lemma SplitStep(s: string, sep: char)
    requires sep in s
    ensures var k := IndexOfChar(s, sep);
            0 <= k < |s| && Split(s, sep) == [s[..k]] + Split(s[k + 1..], sep)
  {
  }

  function LastOf(parts: seq<string>): string
    requires |parts| >= 1
  {
    parts[|parts| - 1]
  }

  /** `last` ends `s` and, unless it is all of `s`, directly follows a separator. */
  predicate EndsAfterSeparator(s: string, last: string, sep: char) {
    && |last| <= |s| && s[|s| - |last|..] == last
    && (|last| < |s| ==> s[|s| - |last| - 1] == sep)
  }

  /** The last part of a split is the suffix after the last separator, or the whole text when
      there is none. */
  lemma {:induction false} SplitLast(s: string, sep: char)
    ensures EndsAfterSeparator(s, LastOf(Split(s, sep)), sep)
    ensures sep !in s ==> LastOf(Split(s, sep)) == s
    decreases |s|
  {
    var k := IndexOfChar(s, sep);
    if k != -1 {
      SplitLast(s[k + 1..], sep);
      SplitLastStep(s, sep);
    } else {
      assert Split(s, sep) == [s];
    }
  }

  lemma SplitLastStep(s: string, sep: char)
    requires IndexOfChar(s, sep) != -1
    requires var rest := s[IndexOfChar(s, sep) + 1..];
             EndsAfterSeparator(rest, LastOf(Split(rest, sep)), sep)
    ensures EndsAfterSeparator(s, LastOf(Split(s, sep)), sep)
  {
    var k := IndexOfChar(s, sep);
    LastOfSplitStep(s, sep);
    EndsAfterShift(s, k, LastOf(Split(s[k + 1..], sep)), sep);
  }

  lemma LastOfSplitStep(s: string, sep: char)
    requires IndexOfChar(s, sep) != -1
    ensures LastOf(Split(s, sep)) == LastOf(Split(s[IndexOfChar(s, sep) + 1..], sep))
  {
    var k := IndexOfChar(s, sep);
    SplitStep(s, sep);
    LastOfCons(s[..k], Split(s[k + 1..], sep));
  }

  lemma LastOfCons(x: string, tail: seq<string>)
    requires |tail| >= 1
    ensures LastOf([x] + tail) == LastOf(tail)
  {
  }

  lemma EndsAfterShift(s: string, k: nat, last: string, sep: char)
    requires k < |s| && s[k] == sep
    requires EndsAfterSeparator(s[k + 1..], last, sep)
    ensures EndsAfterSeparator(s, last, sep)
  {
    SuffixOfSuffix(s, k + 1, |last|);
    var rest := s[k + 1..];
    if |last| < |rest| {
      assert s[|s| - |last| - 1] == rest[|rest| - |last| - 1];
    }
  }

  /** The last character of a text lies in each of its non-empty suffixes. */
  lemma LastInSuffix(s: string, n: nat)
    requires 0 < |s| && n <= |s|
    ensures n > 0 ==> s[|s| - 1] in s[|s| - n..]
  {
    if n > 0 {
      assert s[|s| - n..][n - 1] == s[|s| - 1];
    }
  }

  lemma SuffixOfSuffix(s: string, j: nat, n: nat)
    requires j <= |s| && n <= |s| - j
    ensures s[j..][|s| - j - n..] == s[|s| - n..]
  {
  }

  /** Splitting a joined list gives back the list when no part holds the separator. */
  lemma {:induction false} SplitJoin(parts: seq<string>, sep: char)
    requires |parts| >= 1
    requires forall i :: 0 <= i < |parts| ==> sep !in parts[i]
    ensures Split(Join(parts, sep), sep) == parts
    decreases |parts|
  {
    if |parts| == 1 {
      assert Join(parts, sep) == parts[0];
    } else {
      var s := Join(parts, sep);
      var rest := Join(parts[1..], sep);
      assert s == parts[0] + [sep] + rest;
      var k := |parts[0]|;
      assert s[k] == sep;
      assert sep !in s[..k] by { assert s[..k] == parts[0]; }
      assert IndexOfChar(s, sep) == k;
      assert s[k + 1..] == rest;
      SplitJoin(parts[1..], sep);
    }
  }

  /** `x || fallback` on an optional string: an absent or empty value gives the fallback. */
  function OrElse(x: Option<string>, fallback: string): string {
    if x.Some? && x.value != "" then x.value else fallback
  }

  /** Lexicographic order on code points, standing in for `localeCompare`. */
  predicate LexLe(a: string, b: string) {
    if |a| == 0 then true
    else if |b| == 0 then false
    else if a[0] != b[0] then a[0] < b[0]
    else LexLe(a[1..], b[1..])
  }

  lemma {:induction false} LexLeTotal(a: string, b: string)
    ensures LexLe(a, b) || LexLe(b, a)
  {
    if |a| > 0 && |b| > 0 && a[0] == b[0] {
      LexLeTotal(a[1..], b[1..]);
    }
  }

  lemma {:induction false} LexLeTransitive(a: string, b: string, c: string)
    requires LexLe(a, b) && LexLe(b, c)
    ensures LexLe(a, c)
  {
    if |a| > 0 && |b| > 0 && |c| > 0 && a[0] == b[0] && b[0] == c[0] {
      LexLeTransitive(a[1..], b[1..], c[1..]);
    }
  }

  lemma {:induction false} LexLeAntisymmetric(a: string, b: string)
    requires LexLe(a, b) && LexLe(b, a)
    ensures a == b
  {
    if |a| > 0 && |b| > 0 {
      LexLeAntisymmetric(a[1..], b[1..]);
      assert a == [a[0]] + a[1..];
      assert b == [b[0]] + b[1..];
    }
  }
}
