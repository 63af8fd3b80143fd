/**
 * The guard in front of the admin panel: from the authentication context's
 * `loading` flag, whether there is a session and whether its user is an admin,
 * it decides to show a spinner, redirect, or render the guarded page.
 */
module AdminRoute {

  const AdminLoginPath := "/admin/login"
  const HomePath := "/"

  datatype Screen = Spinner | Redirect(path: string) | Render

  /** The if-cascade of the guard, checked in the order loading, session, admin flag. */
  function Guard(loading: bool, hasSession: bool, isAdmin: bool): (s: Screen)
    ensures loading ==> s == Spinner
    ensures !loading && !hasSession ==> s == Redirect(AdminLoginPath)
    ensures !loading && hasSession && !isAdmin ==> s == Redirect(HomePath)
    ensures s == Render <==> !loading && hasSession && isAdmin
  {
    if loading then Spinner
    else if !hasSession then Redirect(AdminLoginPath)
    else if !isAdmin then Redirect(HomePath)
    else Render
  }

  /** The states of a browser session's authentication. */
  datatype AuthState = Unauthenticated | Authenticating | Citizen | Admin

  /** What the authentication context exposes in each state. */
  datatype AuthView = AuthView(loading: bool, hasSession: bool, isAdmin: bool)

  function Observe(st: AuthState): AuthView {
    match st
    case Unauthenticated => AuthView(false, false, false)
    case Authenticating => AuthView(true, false, false)
    case Citizen => AuthView(false, true, false)
    case Admin => AuthView(false, true, true)
  }

  /**
   * The admin view is rendered only to an admin; an anonymous visitor is sent
   * to the admin login, a citizen to the public form, and nothing is decided
   * while the session is being resolved.
   */
  lemma RequireAdmin(st: AuthState)
    ensures var v := Observe(st);
            Guard(v.loading, v.hasSession, v.isAdmin) ==
              match st
              case Unauthenticated => Redirect(AdminLoginPath)
              case Authenticating => Spinner
              case Citizen => Redirect(HomePath)
              case Admin => Render
  {
  }

  /** Every redirect leaves for one of the two fixed paths, never back to the guarded page. */
  lemma RedirectTargets(loading: bool, hasSession: bool, isAdmin: bool)
    ensures var s := Guard(loading, hasSession, isAdmin);
            s.Redirect? ==> s.path in {AdminLoginPath, HomePath} && s.path != "/admin"
  {
  }
}
