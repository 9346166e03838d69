/** The authentication middleware of the app router: which paths it runs on, and the two
    redirects that keep signed-in users off the sign-in page and anonymous users off the
    dashboard. Redirect targets are paths; the absolute URL built around them is not modelled. */
module AuthMiddleware {
  import opened Strings

  datatype Outcome = Next | Redirect(to: string)

  const SignIn := "/auth"
  const Home := "/dashboard"

  /** The route handler, for a request that reached it. */
  function Handle(pathname: string, authenticated: bool): (r: Outcome)
    ensures StartsWith(pathname, "/api/auth") ==> r == Next
    ensures r == Redirect(Home) <==>
              !StartsWith(pathname, "/api/auth") && pathname == SignIn && authenticated
    ensures r == Redirect(SignIn) <==>
              !StartsWith(pathname, "/api/auth") && StartsWith(pathname, Home) && !authenticated
    ensures r.Redirect? ==> r == Redirect(Home) || r == Redirect(SignIn)
  {
    if StartsWith(pathname, "/api/auth") then Next
    else if pathname == SignIn && authenticated then Redirect(Home)
    else if StartsWith(pathname, Home) && !authenticated then Redirect(SignIn)
    else Next
  }

  /** The part of the path the matcher's negative lookahead rejects: after the leading '/', a
      path starting with "api", "_next/static", "_next/image", or "favicon", any one character
      and "ico" (the '.' of the pattern is a wildcard). */
  predicate Excluded(rest: string) {
    || StartsWith(rest, "api")
    || StartsWith(rest, "_next/static")
    || StartsWith(rest, "_next/image")
    || (|rest| >= 11 && rest[..7] == "favicon" && rest[8..11] == "ico")
  }

  /** The matcher `/((?!api|_next/static|_next/image|favicon.ico).*)`. */
  predicate Matched(pathname: string) {
    |pathname| >= 1 && pathname[0] == '/' && !Excluded(pathname[1..])
  }

  /** Every dashboard path is inside the matcher and outside the authentication routes. */
  lemma HomeMatched(pathname: string)
    ensures StartsWith(pathname, Home) ==> Matched(pathname) && !StartsWith(pathname, "/api/auth")
  {
    if StartsWith(pathname, Home) {
      assert pathname[..|Home|] == Home;
      assert pathname[1] == pathname[..|Home|][1] == Home[1] == 'd';
      var rest := pathname[1..];
      assert rest[0] == pathname[1];
      assert !StartsWith(rest, "api") by { assert |rest| >= 3 ==> rest[..3][0] == rest[0]; }
      assert !StartsWith(rest, "_next/static") by { assert |rest| >= 12 ==> rest[..12][0] == rest[0]; }
      assert !StartsWith(rest, "_next/image") by { assert |rest| >= 11 ==> rest[..11][0] == rest[0]; }
      assert |rest| >= 11 ==> rest[..7][0] == rest[0];
      assert |pathname| >= 9 ==> pathname[..9][1] == pathname[1];
    }
  }

  /** The sign-in page is inside the matcher and outside the authentication routes. */
  lemma SignInMatched()
    ensures Matched(SignIn) && !StartsWith(SignIn, "/api/auth")
  {
    var rest := SignIn[1..];
    assert rest == "auth";
    assert !StartsWith(rest, "api") by { assert rest[..3][1] != "api"[1]; }
    assert |SignIn| < |"/api/auth"|;
  }

  /** The middleware as deployed: exactly the anonymous requests for a dashboard path go to the
      sign-in page, exactly a signed-in request for the sign-in page goes to the dashboard, and
      everything else, including every path outside the matcher, passes. */
  function Middleware(pathname: string, authenticated: bool): (r: Outcome)
    ensures !Matched(pathname) ==> r == Next
    ensures r == Redirect(SignIn) <==> StartsWith(pathname, Home) && !authenticated
    ensures r == Redirect(Home) <==> pathname == SignIn && authenticated
    ensures r.Redirect? ==> r == Redirect(Home) || r == Redirect(SignIn)
  {
    HomeMatched(pathname);
    SignInMatched();
    if Matched(pathname) then Handle(pathname, authenticated) else Next
  }

  /** A signed-in user is never sent to the sign-in page, and an anonymous user is never sent to
      the dashboard. */
  lemma RedirectsMatchSession(pathname: string, authenticated: bool)
    ensures authenticated ==> Middleware(pathname, authenticated) != Redirect(SignIn)
    ensures !authenticated ==> Middleware(pathname, authenticated) != Redirect(Home)
  {
  }

  /** Following a redirect never redirects again. */
  lemma NoRedirectLoop(pathname: string, authenticated: bool)
    requires Middleware(pathname, authenticated).Redirect?
    ensures Middleware(Middleware(pathname, authenticated).to, authenticated) == Next
  {
    var to := Middleware(pathname, authenticated).to;
    if authenticated {
      assert to == Home;
      assert Home[1] == 'd' && |Home| != |SignIn|;
      assert Home[1..] == "dashboard";
    } else {
      assert to == SignIn;
      assert |SignIn| < |"/api/auth"| && |SignIn| < |Home|;
      assert SignIn[1..] == "auth";
    }
  }

  /** The matcher already keeps every API path, and so every authentication route, away from
      the handler: its first branch is a safety net the deployed middleware never reaches. */
  lemma ApiRoutesSkipped(pathname: string)
    requires StartsWith(pathname, "/api")
    ensures !Matched(pathname)
  {
    assert pathname[1..][..3] == pathname[1..4];
  }
}
