/** The inactivity middleware of the standalone client: a visit under "/home" more than an hour
    after the last recorded activity is sent back to the landing page; every other visit records
    the current time in the `lastActive` cookie. The clock is a parameter (`now`, milliseconds). */
module Inactivity {
  import opened Wrappers
  import opened Strings
  import Decimal

  const Limit := 3600000

  /** A redirect to the landing page, or a pass-through that sets the cookie to `lastActive`. */
  datatype Response = Redirect(to: string) | Next(lastActive: string)

  /** The matcher `/home/:path*`: "/home" itself or any path below it. */
  predicate Matched(pathname: string) {
    pathname == "/home" || StartsWith(pathname, "/home/")
  }

  /** Milliseconds since the recorded activity, when the cookie parses as a base-10 integer;
      None stands for the NaN of an unparsable cookie, which no comparison lets through. */
  function Elapsed(cookie: string, now: int): (r: Option<int>)
    ensures r.Some? <==> Decimal.ParseInt(cookie).Some?
    ensures r.Some? ==> r.value + Decimal.ParseInt(cookie).value == now
  {
    match Decimal.ParseInt(cookie)
    case None => None
    case Some(last) => Some(now - last)
  }

  /** The middleware. `cookie` is the `lastActive` cookie when present, even with an empty
      value. */
  function Middleware(pathname: string, cookie: Option<string>, now: int): (r: Response)
    ensures r.Redirect? <==>
              && StartsWith(pathname, "/home") && cookie.Some?
              && Decimal.ParseInt(cookie.value).Some?
              && now - Decimal.ParseInt(cookie.value).value > Limit
    ensures r.Redirect? ==> r.to == "/"
    ensures r.Next? ==> Decimal.ParseInt(r.lastActive) == Some(now)
  {
    var expired := StartsWith(pathname, "/home") && cookie.Some? &&
                   match Elapsed(cookie.value, now)
                   case None => false
                   case Some(ms) => ms > Limit;
    if expired then Redirect("/")
    else
      Decimal.ParseIntToString(now);
      Next(Decimal.IntToString(now))
  }

  /** Every path the matcher sends to the middleware passes its own prefix test. */
  lemma MatchedIsHome(pathname: string)
    requires Matched(pathname)
    ensures StartsWith(pathname, "/home")
  {
    if pathname != "/home" {
      assert pathname[..5] == pathname[..6][..5];
    }
  }

  /** The cookie a visit leaves behind keeps every visit within the next hour on the page, and
      one made more than an hour later is redirected. */
  lemma RefreshKeepsSession(pathname: string, cookie: Option<string>, now: int, p: string,
                            later: int)
    requires Middleware(pathname, cookie, now).Next?
    ensures var c := Some(Middleware(pathname, cookie, now).lastActive);
            && (later - now <= Limit ==> Middleware(p, c, later).Next?)
            && (later - now > Limit && StartsWith(p, "/home") ==> Middleware(p, c, later).Redirect?)
  {
  }

  /** A cookie that is not a number never causes a redirect, however old the session. */
  lemma UnparsableCookieNeverExpires(pathname: string, cookie: string, now: int)
    requires Decimal.ParseInt(cookie).None?
    ensures Middleware(pathname, Some(cookie), now) == Next(Decimal.IntToString(now))
  {
  }

  /** Exactly one hour of inactivity is still allowed; one millisecond more is not. */
  lemma LimitIsStrict(last: int)
    ensures Middleware("/home", Some(Decimal.IntToString(last)), last + Limit).Next?
    ensures Middleware("/home", Some(Decimal.IntToString(last)), last + Limit + 1).Redirect?
  {
    Decimal.ParseIntToString(last);
    assert StartsWith("/home", "/home");
  }
}
