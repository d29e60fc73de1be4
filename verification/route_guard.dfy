/**
 * The request guard of middleware.ts: which paths need a session, and
 * whether a request is sent to the login page, to the dashboard, or let
 * through. Refreshing the session cookies is not modelled.
 */
module RouteGuard {
  import opened Strings

  /** The path prefixes that need a signed-in user. */
  const ProtectedRoutes: seq<string> := ["/dashboard", "/jobs", "/settings"]
  const LoginPath := "/login"
  const DashboardPath := "/dashboard"

  /** `routes.some((route) => path.startsWith(route))`, scanning the list in order. */
  function AnyPrefix(routes: seq<string>, path: string): (b: bool)
    ensures b <==> exists i | 0 <= i < |routes| :: IsPrefix(routes[i], path)
  {
    if |routes| == 0 then false
    else
      assert forall i | 1 <= i < |routes| :: routes[i] == routes[1..][i - 1];
      IsPrefix(routes[0], path) || AnyPrefix(routes[1..], path)
  }

  function IsProtected(path: string): (b: bool)
    ensures b <==> IsPrefix("/dashboard", path) || IsPrefix("/jobs", path) || IsPrefix("/settings", path)
  {
    assert ProtectedRoutes[0] == "/dashboard" && ProtectedRoutes[1] == "/jobs" && ProtectedRoutes[2] == "/settings";
    AnyPrefix(ProtectedRoutes, path)
  }

  datatype Decision = Pass | RedirectTo(target: string)

  /** An anonymous request on a protected path goes to the login page; a signed-in one on the login page goes to the dashboard. */
  function Decide(signedIn: bool, path: string): (d: Decision)
    ensures d == RedirectTo(LoginPath) <==> !signedIn && IsProtected(path)
    ensures d == RedirectTo(DashboardPath) <==> signedIn && path == LoginPath
    ensures d.Pass? <==> (signedIn && path != LoginPath) || (!signedIn && !IsProtected(path))
  {
    if !signedIn && IsProtected(path) then RedirectTo(LoginPath)
    else if signedIn && path == LoginPath then RedirectTo(DashboardPath)
    else Pass
  }

  lemma LoginIsNotProtected()
    ensures !IsProtected(LoginPath)
  {
    assert LoginPath[1] == 'l' && LoginPath[..|"/jobs"|][1] == 'l';
  }

  lemma DashboardIsProtected()
    ensures IsProtected(DashboardPath)
  {
    assert DashboardPath[..|"/dashboard"|] == "/dashboard";
  }

  /** Following a redirect with the same session is let through: there is no redirect loop. */
  lemma NoRedirectLoop(signedIn: bool, path: string)
    requires Decide(signedIn, path).RedirectTo?
    ensures Decide(signedIn, Decide(signedIn, path).target) == Pass
  {
    LoginIsNotProtected();
  }

  /** Anonymous visitors can always reach the login page. */
  lemma AnonymousLoginPasses()
    ensures Decide(false, LoginPath) == Pass
  {
    LoginIsNotProtected();
  }

  /** The session decides access to the dashboard: anonymous requests are sent to log in, signed-in ones pass. */
  lemma DashboardNeedsSession(signedIn: bool)
    ensures Decide(signedIn, DashboardPath) == if signedIn then Pass else RedirectTo(LoginPath)
  {
    DashboardIsProtected();
  }

  // ---------------------------------------------------------------------------
  // Where the guard runs

  /** `config.matcher`: each protected root with any sub-path, and the login page. */
  predicate InMatcher(path: string) {
    path == LoginPath
    || exists i | 0 <= i < |ProtectedRoutes| ::
         path == ProtectedRoutes[i] || IsPrefix(ProtectedRoutes[i] + "/", path)
  }

  /** The guard as deployed: paths outside the matcher never reach it. */
  function Guard(signedIn: bool, path: string): (d: Decision)
    ensures InMatcher(path) ==> d == Decide(signedIn, path)
    ensures !InMatcher(path) ==> d == Pass
  {
    if InMatcher(path) then Decide(signedIn, path) else Pass
  }

  /** Every path the matcher lets in under a protected root is protected by the prefix test. */
  lemma MatchedRootsAreProtected(path: string)
    requires InMatcher(path) && path != LoginPath
    ensures IsProtected(path)
  {
    var i :| 0 <= i < |ProtectedRoutes| && (path == ProtectedRoutes[i] || IsPrefix(ProtectedRoutes[i] + "/", path));
    var r := ProtectedRoutes[i];
    if path != r {
      assert (r + "/")[..|r|] == r;
      assert path[..|r|] == (r + "/")[..|r|];
    }
    assert IsPrefix(r, path);
  }

  /**
   * The prefix test is wider than the matcher: "/jobsearch" starts with
   * "/jobs" but the guard never runs on it, so it is reachable anonymously.
   */
  lemma PrefixWiderThanMatcher(p: string)
    requires p == "/jobsearch"
    ensures IsProtected(p) && !InMatcher(p) && Guard(false, p) == Pass
  {
    assert p[..|"/jobs"|] == "/jobs";
    assert p[..|"/jobs/"|][5] == 'e';
    assert p[..|"/settings/"|][1] == 'j';
  }
}
