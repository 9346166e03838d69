/** The avatar of the signed-in user on the dashboard: the initials derived from the user's
    display name. */
module UserInfo {
  import opened Wrappers
  import opened Strings

  datatype User = User(name: Option<string>, email: Option<string>)

  /** What the avatar shows: no initials (the name is absent), the initials, or the TypeError
      thrown when a name of several words starts or ends with a space, so that the first or last
      word is empty and has no first character. */
  datatype Initials = NoInitials | Shown(text: string) | TypeError

  /** The page: "User Not Found" without a user, the avatar otherwise. */
  datatype View = NotFound | Avatar(initials: Initials)

  /** `user?.name?.split(' ') || []`. */
  function NameParts(name: Option<string>): (r: seq<string>)
    ensures name.None? <==> |r| == 0
    ensures forall i :: 0 <= i < |r| ==> ' ' !in r[i]
  {
    if name.None? then [] else Split(name.value, ' ')
  }

  /** Two words or more: the upper-cased first letters of the first and last words; one word:
      its first two characters upper-cased. */
  function InitialsOf(name: Option<string>): (r: Initials)
    ensures r == NoInitials <==> name.None?
    ensures r.Shown? ==> |r.text| <= 2 && forall i :: 0 <= i < |r.text| ==> !IsAsciiLower(r.text[i])
    ensures r.Shown? && name.Some? && ' ' !in name.value ==>
              r.text == ToUpper(name.value[..if |name.value| < 2 then |name.value| else 2])
  {
    var parts := NameParts(name);
    if |parts| > 1 then
      var first := parts[0];
      var last := parts[|parts| - 1];
      if first == "" || last == "" then TypeError
      else Shown([UpperChar(first[0]), UpperChar(last[0])])
    else if |parts| == 0 then NoInitials
    else
      assert ' ' !in name.value ==> parts == [name.value];
      var w := parts[0];
      Shown(ToUpper(w[..if |w| < 2 then |w| else 2]))
  }

  function Render(user: Option<User>): (v: View)
    ensures user.None? <==> v == NotFound
    ensures user.Some? ==> v == Avatar(InitialsOf(user.value.name))
  {
    if user.None? then NotFound else Avatar(InitialsOf(user.value.name))
  }

  /** A name splits into more than one word exactly when it holds a space. */
  lemma {:induction false} SplitSeveral(s: string)
    ensures |Split(s, ' ')| > 1 <==> ' ' in s
  {
    var k := IndexOfChar(s, ' ');
    if k != -1 {
      assert Split(s, ' ') == [s[..k]] + Split(s[k + 1..], ' ');
    }
  }

  /** The first word is empty exactly when the name starts with a space (or is empty). */
  lemma SplitFirstEmpty(s: string)
    ensures Split(s, ' ')[0] == "" <==> |s| == 0 || s[0] == ' '
  {
    var k := IndexOfChar(s, ' ');
    if k != -1 {
      assert Split(s, ' ')[0] == s[..k];
    }
  }

  /** The last word is empty exactly when the name ends with a space (or is empty). */
  lemma SplitLastEmpty(s: string)
    ensures var p := Split(s, ' '); p[|p| - 1] == "" <==> |s| == 0 || s[|s| - 1] == ' '
  {
    SplitLast(s, ' ');
    if |s| > 0 {
      LastInSuffix(s, |LastOf(Split(s, ' '))|);
    }
  }

  /** The avatar throws exactly for a name with a space that starts or ends with a space. */
  lemma CrashIff(name: string)
    ensures InitialsOf(Some(name)) == TypeError <==>
              ' ' in name && (name[0] == ' ' || name[|name| - 1] == ' ')
  {
    SplitSeveral(name);
    SplitFirstEmpty(name);
    SplitLastEmpty(name);
  }

  /** Middle names never show: a first, middle and last name give the initials of the first and
      last alone. */
  lemma MiddleNamesIgnored(first: string, middle: seq<string>, last: string)
    requires first != "" && last != "" && ' ' !in first && ' ' !in last
    requires forall i :: 0 <= i < |middle| ==> ' ' !in middle[i]
    ensures InitialsOf(Some(Join([first] + middle + [last], ' '))) ==
              Shown([UpperChar(first[0]), UpperChar(last[0])])
  {
    var words := [first] + middle + [last];
    assert words[0] == first && words[|words| - 1] == last && |words| > 1;
    forall i | 0 <= i < |words|
      ensures ' ' !in words[i]
    {
      if 0 < i < |words| - 1 {
        assert words[i] == middle[i - 1];
      }
    }
    SplitJoin(words, ' ');
    assert NameParts(Some(Join(words, ' '))) == words;
  }
}
