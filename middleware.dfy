/**
 * The request middleware of the admin area. The session lookup and the `admin_users`
 * profile lookup are inputs; the response, whether the profile was looked up and whether
 * the user was signed out are the outputs.
 */
module Middleware {

  const LoginPath: string := "/admin/login"
  const DashboardPath: string := "/admin/dashboard"
  const AdminPrefix: string := "/admin"

  datatype Response = PassThrough | Redirect(to: string)

  /** What one request does: the response, and the side effects on the way. */
  datatype Outcome = Outcome(response: Response, profileLookedUp: bool, signedOut: bool)

  /** `pathname.startsWith(prefix)`. */
  predicate StartsWith(s: string, prefix: string) {
    |prefix| <= |s| && s[..|prefix|] == prefix
  }

  /**
   * `middleware(req)`: `hasProfile` is what the profile lookup would find, and is only
   * consulted when the lookup is made.
   */
  function Handle(pathname: string, hasSession: bool, hasProfile: bool): (r: Outcome)
    ensures r.signedOut ==> r.profileLookedUp && r.response == Redirect(LoginPath)
    ensures r.profileLookedUp <==> pathname != LoginPath && StartsWith(pathname, AdminPrefix) && hasSession
  {
    if pathname == LoginPath then
      if hasSession then Outcome(Redirect(DashboardPath), false, false)
      else Outcome(PassThrough, false, false)
    else if StartsWith(pathname, AdminPrefix) then
      if !hasSession then Outcome(Redirect(LoginPath), false, false)
      else if !hasProfile then Outcome(Redirect(LoginPath), true, true)
      else Outcome(PassThrough, true, false)
    else Outcome(PassThrough, false, false)
  }

  /**
   * The gate: a request under `/admin` goes through exactly when it is the login page
   * without a session, or another page with a session and an admin profile; every other
   * request under `/admin` is redirected, to the dashboard from the login page and to the
   * login page elsewhere.
   */
  lemma AdminGate(pathname: string, hasSession: bool, hasProfile: bool)
    requires StartsWith(pathname, AdminPrefix)
    ensures var r := Handle(pathname, hasSession, hasProfile);
      && (r.response == PassThrough <==>
            (pathname == LoginPath && !hasSession) || (pathname != LoginPath && hasSession && hasProfile))
      && (r.response == Redirect(DashboardPath) <==> pathname == LoginPath && hasSession)
      && (r.response == Redirect(LoginPath) <==> pathname != LoginPath && !(hasSession && hasProfile))
  {
  }

  /** The answer of the profile lookup matters only when the lookup is made. */
  lemma ProfileOnlyWhenLookedUp(pathname: string, hasSession: bool, p: bool, q: bool)
    requires !Handle(pathname, hasSession, p).profileLookedUp
    ensures Handle(pathname, hasSession, p) == Handle(pathname, hasSession, q)
  {
  }

  /** Paths outside `/admin` always pass, untouched. */
  lemma OutsideAdminPasses(pathname: string, hasSession: bool, hasProfile: bool)
    requires !StartsWith(pathname, AdminPrefix)
    ensures Handle(pathname, hasSession, hasProfile) == Outcome(PassThrough, false, false)
  {
  }

  /**
   * The login page is matched exactly: with a trailing slash it is a protected page, so
   * without a session it redirects to the login page instead of showing it.
   */
  lemma LoginMatchIsExact(pathname: string, hasProfile: bool)
    requires pathname == LoginPath + "/"
    ensures Handle(pathname, false, hasProfile) == Outcome(Redirect(LoginPath), false, false)
  {
    assert pathname[..|AdminPrefix|] == AdminPrefix;
    assert |pathname| != |LoginPath|;
  }
}
