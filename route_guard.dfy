/** The global route middleware (middleware/auth.global.ts): a signed-in
    user is kept away from the sign-in pages, and a signed-out user is kept
    on them.  The decision is a redirect target or none. */
module RouteGuard {
  import opened Common

  const AuthRoutes := ["/auth/login", "/auth/register", "/auth/forgot-password"]
  const ResetPrefix := "/auth/reset-password"
  const HomePath := "/"
  const LoginPath := "/auth/login"

  /** The pages meant for signed-out users only. */
  predicate IsAuthPage(path: string)
  {
    path in AuthRoutes || StartsWith(path, ResetPrefix)
  }

  function Guard(loggedIn: bool, path: string): (r: Option<string>)
    ensures r == Some(HomePath) <==> loggedIn && IsAuthPage(path)
    ensures r == Some(LoginPath) <==> !loggedIn && !IsAuthPage(path)
    ensures r.None? <==> loggedIn != IsAuthPage(path)
  {
    if loggedIn then
      if path in AuthRoutes || StartsWith(path, ResetPrefix) then Some(HomePath) else None
    else
      if !(path in AuthRoutes) && !StartsWith(path, ResetPrefix) then Some(LoginPath) else None
  }

  /** Following a redirect, with the same sign-in state, leads to a page the
      guard lets through: there is no redirect loop. */
  lemma NoRedirectLoop(loggedIn: bool, path: string)
    ensures Guard(loggedIn, path).Some? ==> Guard(loggedIn, Guard(loggedIn, path).value).None?
  {
    assert !StartsWith(HomePath, ResetPrefix);
    assert LoginPath in AuthRoutes;
    assert HomePath !in AuthRoutes;
  }

  /** Each auth page of the list, and every page under the reset prefix, is
      open to signed-out users and closed to signed-in ones. */
  lemma AuthPages(suffix: string)
    ensures forall i :: 0 <= i < |AuthRoutes| ==>
      Guard(false, AuthRoutes[i]).None? && Guard(true, AuthRoutes[i]) == Some(HomePath)
    ensures Guard(false, ResetPrefix + suffix).None? && Guard(true, ResetPrefix + suffix) == Some(HomePath)
  {
    assert (ResetPrefix + suffix)[..|ResetPrefix|] == ResetPrefix;
  }
}
