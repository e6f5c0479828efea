/**
 * The layout of the admin screens: on every new pathname other than the login page it
 * checks for a session and an admin profile, and it shows a loading view until the first
 * check has finished. The lookups are inputs: `None` stands for a lookup that throws.
 */
module AdminLayout {
  import opened Wrappers

  const LoginPath: string := "/admin/login"

  /** What one `checkAuth` does: redirect to the login page, sign out, log an error. */
  datatype AuthCheck = AuthCheck(redirectToLogin: bool, signOutAttempted: bool, errorLogged: bool)

  /**
   * `checkAuth()`: `session` and `profile` are the results of the two lookups and
   * `signOutThrows` tells whether signing out fails; the profile is only consulted with a
   * session, and signing out is only attempted without a profile.
   */
  function CheckAuth(session: Option<bool>, profile: Option<bool>, signOutThrows: bool): (r: AuthCheck)
    ensures r.redirectToLogin <==> !(session == Some(true) && profile == Some(true))
    ensures r.signOutAttempted <==> session == Some(true) && profile == Some(false)
    ensures r.errorLogged <==>
      session.None? || (session == Some(true) && (profile.None? || (profile == Some(false) && signOutThrows)))
  {
    match session
    case None => AuthCheck(true, false, true)
    case Some(hasSession) =>
      if !hasSession then AuthCheck(true, false, false)
      else
        match profile
        case None => AuthCheck(true, false, true)
        case Some(hasProfile) =>
          if !hasProfile then AuthCheck(true, true, signOutThrows)
          else AuthCheck(false, false, false)
  }

  /** A failed sign-out changes only the logging: the user is sent to the login page either way. */
  lemma SignOutFailureStillRedirects(session: Option<bool>, profile: Option<bool>)
    ensures CheckAuth(session, profile, true).redirectToLogin == CheckAuth(session, profile, false).redirectToLogin
    ensures CheckAuth(session, profile, true).signOutAttempted == CheckAuth(session, profile, false).signOutAttempted
  {
  }

  /** What the layout renders. */
  datatype Screen = LoadingView | AdminStack

  class Layout {
    /** `isLoading`. */
    var isLoading: bool
    /** The pathname the effect last ran for: it reruns only when the pathname changes. */
    var lastPath: Option<string>
    /** Every `router.replace` target, in order. */
    var replaced: seq<string>
    /** How many times signing out was attempted. */
    var signOuts: nat

    /** Every redirect the layout makes goes to the login page. */
    predicate Valid()
      reads this
    {
      forall i :: 0 <= i < |replaced| ==> replaced[i] == LoginPath
    }

    function Rendered(): Screen
      reads this
    {
      if isLoading then LoadingView else AdminStack
    }

    constructor ()
      ensures Valid() && isLoading && lastPath.None? && replaced == [] && signOuts == 0
      ensures Rendered() == LoadingView
    {
      isLoading := true;
      lastPath := None;
      replaced := [];
      signOuts := 0;
    }

    /**
     * A render with `pathname`: when the pathname is new the effect runs, ending the
     * loading state on the login page at once and elsewhere after `checkAuth`.
     */
    method Render(pathname: string, session: Option<bool>, profile: Option<bool>, signOutThrows: bool)
      requires Valid()
      modifies this
      ensures Valid()
      ensures lastPath == Some(pathname)
      ensures old(lastPath) == Some(pathname) ==>
        isLoading == old(isLoading) && replaced == old(replaced) && signOuts == old(signOuts)
      ensures old(lastPath) != Some(pathname) ==> !isLoading && Rendered() == AdminStack
      ensures old(lastPath) != Some(pathname) && pathname == LoginPath ==>
        replaced == old(replaced) && signOuts == old(signOuts)
      ensures old(lastPath) != Some(pathname) && pathname != LoginPath ==>
        var c := CheckAuth(session, profile, signOutThrows);
        && replaced == old(replaced) + (if c.redirectToLogin then [LoginPath] else [])
        && signOuts == old(signOuts) + (if c.signOutAttempted then 1 else 0)
    {
      if lastPath != Some(pathname) {
        lastPath := Some(pathname);
        if pathname == LoginPath {
          isLoading := false;
        } else {
          var c := CheckAuth(session, profile, signOutThrows);
          if c.signOutAttempted {
            signOuts := signOuts + 1;
          }
          if c.redirectToLogin {
            replaced := replaced + [LoginPath];
          }
          isLoading := false;
        }
      }
    }
  }
}
