/** Rewriting stored object-storage URLs into the document proxy path `/api/documents/<key>`. */
module DocumentUrl {
  import opened Wrappers
  import opened Strings

  const ProxyPrefix := "/api/documents/"
  const StorageHost := ".r2.cloudflarestorage.com/"
  const DevHost := ".r2.dev/"

  predicate IsR2Url(url: string) {
    Contains(url, StorageHost) || Contains(url, DevHost)
  }

  /** The pathname of an absolute URL, or None when it cannot be parsed: the scheme ends at
      the first "://", the host runs to the first '/', '?' or '#' and must not be empty, and
      the path runs from that '/' to the first '?' or '#' ("/" when there is none). */
  function Pathname(w: string): (r: Option<string>)
    ensures r.Some? ==> |r.value| >= 1 && r.value[0] == '/'
    ensures r.Some? ==> '?' !in r.value
  {
    var k := IndexOf(w, "://");
    if k <= 0 then None
    else
      var rest := w[k + 3..];
      var h := HostEnd(rest, 0);
      if h == 0 then None
      else if h < |rest| && rest[h] == '/' then
        var tail := rest[h..];
        Some(tail[..PathEnd(tail, 0)])
      else Some("/")
  }

  /** The index of the first '/', '?' or '#' at or after `i`, or the length. */
  function HostEnd(s: string, i: nat): (r: nat)
    requires i <= |s|
    ensures i <= r <= |s|
    ensures r < |s| ==> s[r] == '/' || s[r] == '?' || s[r] == '#'
    decreases |s| - i
  {
    if i == |s| || s[i] == '/' || s[i] == '?' || s[i] == '#' then i else HostEnd(s, i + 1)
  }

  /** The index of the first '?' or '#' at or after `i`, or the length. */
  function PathEnd(s: string, i: nat): (r: nat)
    requires i <= |s|
    ensures i <= r <= |s|
    ensures forall j :: i <= j < r ==> s[j] != '?' && s[j] != '#'
    decreases |s| - i
  {
    if i == |s| || s[i] == '?' || s[i] == '#' then i else PathEnd(s, i + 1)
  }

  /** The characters the regular-expression dot does not match. */
  predicate IsLineTerminator(c: char) {
    c == '\n' || c == '\r' || c == '\U{2028}' || c == '\U{2029}'
  }

  /** `(.+?)(?:\?|$)` starting at `j`: the shortest non-empty run without line terminators
      that is followed by '?' or the end. */
  function LazyCapture(s: string, j: nat): (r: Option<string>)
    requires j <= |s|
    ensures r.Some? ==> |r.value| >= 1 && j + |r.value| <= |s|
                        && r.value == s[j..j + |r.value|]
                        && (j + |r.value| == |s| || s[j + |r.value|] == '?')
                        && '?' !in r.value[1..]
  {
    if j == |s| || IsLineTerminator(s[j]) then None else CaptureEnd(s, j, j + 1)
  }

  function CaptureEnd(s: string, j: nat, q: nat): (r: Option<string>)
    requires j < q <= |s|
    requires '?' !in s[j + 1..q]
    ensures r.Some? ==> |r.value| >= 1 && j + |r.value| <= |s|
                        && r.value == s[j..j + |r.value|]
                        && (j + |r.value| == |s| || s[j + |r.value|] == '?')
                        && '?' !in r.value[1..]
    decreases |s| - q
  {
    if q == |s| || s[q] == '?' then Some(s[j..q])
    else if IsLineTerminator(s[q]) then None
    else
      assert s[j + 1..q + 1] == s[j + 1..q] + [s[q]];
      CaptureEnd(s, j, q + 1)
  }

  /** One attempt of the regular expression at position `k`: a host name, then the lazy
      capture right after its '/'. */
  function MatchAt(s: string, k: nat): (r: Option<string>)
    requires k <= |s|
    ensures r.Some? ==> (StartsWith(s[k..], "r2.cloudflarestorage.com/") && r == LazyCapture(s, k + 25))
                        || (StartsWith(s[k..], "r2.dev/") && r == LazyCapture(s, k + 7))
  {
    if StartsWith(s[k..], "r2.cloudflarestorage.com/") then LazyCapture(s, k + 25)
    else if StartsWith(s[k..], "r2.dev/") then LazyCapture(s, k + 7)
    else None
  }

  /** The regular-expression fallback `/(?:r2\.cloudflarestorage\.com|r2\.dev)\/(.+?)(?:\?|$)/`,
      searching leftmost-first from position `i`. */
  function RegexKey(s: string, i: nat): (r: Option<string>)
    requires i <= |s|
    ensures r.Some? ==> |r.value| >= 1
    decreases |s| - i
  {
    var here := MatchAt(s, i);
    if here.Some? then here
    else if i == |s| then None
    else RegexKey(s, i + 1)
  }

  /** The fallback finds the capture at the first position at or after `i` where the expression
      matches, and nothing exactly when it matches nowhere. */
  lemma {:induction false} RegexKeyLeftmost(s: string, i: nat)
    requires i <= |s|
    ensures RegexKey(s, i).None? <==> forall k :: i <= k <= |s| ==> MatchAt(s, k).None?
    ensures RegexKey(s, i).Some? ==>
              exists k :: i <= k <= |s| && MatchAt(s, k) == RegexKey(s, i)
                          && forall k' :: i <= k' < k ==> MatchAt(s, k').None?
    decreases |s| - i
  {
    if MatchAt(s, i).Some? {
      assert MatchAt(s, i) == RegexKey(s, i);
    } else if i < |s| {
      RegexKeyLeftmost(s, i + 1);
      assert RegexKey(s, i) == RegexKey(s, i + 1);
      if RegexKey(s, i).Some? {
        var k :| i + 1 <= k <= |s| && MatchAt(s, k) == RegexKey(s, i + 1)
                 && forall k' :: i + 1 <= k' < k ==> MatchAt(s, k').None?;
        assert forall k' :: i <= k' < k ==> MatchAt(s, k').None?;
      }
    }
  }

  /** `normalizeDocumentUrl`. */
  function Normalize(url: string): (r: string)
    ensures url == "" ==> r == ""
    ensures StartsWith(url, ProxyPrefix) ==> r == url
    ensures !IsR2Url(url) ==> r == url
    ensures r == url || (StartsWith(r, ProxyPrefix) && IsR2Url(url))
  {
    if url == "" then url
    else if StartsWith(url, ProxyPrefix) then url
    else if IsR2Url(url) then
      var withScheme := if StartsWith(url, "http") then url else "https://" + url;
      match Pathname(withScheme)
      case Some(path) => ProxyPrefix + FileKey(path)
      case None =>
        match RegexKey(url, 0)
        case Some(key) => ProxyPrefix + key
        case None => url
    else url
  }

  /** The leading '/' removed, and everything from the first '?' on. */
  function FileKey(path: string): (k: string)
    ensures '?' !in k
    ensures |path| > 0 && path[0] == '/' && '?' !in path ==> k == path[1..]
  {
    var key := if StartsWith(path, "/") then path[1..] else path;
    var q := IndexOfChar(key, '?');
    if q == -1 then key else key[..q]
  }

  /** When the URL cannot be parsed, the key comes from the regular-expression fallback, and
      with no match the URL is kept. */
  lemma NormalizeFallback(url: string)
    requires url != "" && !StartsWith(url, ProxyPrefix) && IsR2Url(url)
    requires Pathname(if StartsWith(url, "http") then url else "https://" + url).None?
    ensures RegexKey(url, 0).Some? ==> Normalize(url) == ProxyPrefix + RegexKey(url, 0).value
    ensures RegexKey(url, 0).None? ==> Normalize(url) == url
    ensures (forall k :: 0 <= k <= |url| ==> MatchAt(url, k).None?) ==> Normalize(url) == url
  {
    RegexKeyLeftmost(url, 0);
  }

  lemma PrefixedIsFixed(s: string)
    requires StartsWith(s, ProxyPrefix)
    ensures Normalize(s) == s
  {}

  /** Normalising twice is normalising once. */
  lemma NormalizeIdempotent(url: string)
    ensures Normalize(Normalize(url)) == Normalize(url)
  {
    var r := Normalize(url);
    if r != url {
      PrefixedIsFixed(r);
    }
  }

  /** A parseable R2 URL becomes the proxy path of its pathname, without the leading '/'
      and without any query. */
  lemma R2UrlToProxy(url: string)
    requires url != "" && !StartsWith(url, ProxyPrefix) && IsR2Url(url)
    requires Pathname(if StartsWith(url, "http") then url else "https://" + url).Some?
    ensures var path := Pathname(if StartsWith(url, "http") then url else "https://" + url).value;
            Normalize(url) == ProxyPrefix + path[1..]
  {}
}
