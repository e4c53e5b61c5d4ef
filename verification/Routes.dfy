/**
 * The route guards of the single-page application. Each reads the two
 * browser-storage slots, `token` and `user`, and either renders the page it
 * wraps or redirects.
 */
module Routes {
  import opened Wrappers
  import opened JsString

  /**
   * The signed-in user as stored in the `user` slot: the application always
   * writes a JSON object there, of which only the role is consulted.
   */
  datatype StoredUser = StoredUser(fullName: Option<string>, role: Option<string>)

  /** The browser-storage slots the guards read. */
  datatype Storage = Storage(token: Option<string>, user: Option<StoredUser>)

  datatype Route = Render | Redirect(to: string)

  /** A stored user whose role is `admin`. */
  predicate IsAdmin(user: Option<StoredUser>) {
    user.Some? && user.value.role == Some("admin")
  }

  /** `ProtectedRoute`: to `/login` unless both a token and a user are stored. */
  function ProtectedRoute(st: Storage): (r: Route)
    ensures r == Redirect("/login") <==> !Truthy(st.token) || st.user.None?
    ensures r == Render <==> Truthy(st.token) && st.user.Some?
  {
    if !Truthy(st.token) || st.user.None? then Redirect("/login") else Render
  }

  /**
   * `AdminRoute`: to `/login` without a token; otherwise the user slot is
   * parsed, an empty slot reading as `{}`, and anyone but an admin goes to
   * `/dashboard`.
   */
  function AdminRoute(st: Storage): (r: Route)
    ensures r == Redirect("/login") <==> !Truthy(st.token)
    ensures r == Redirect("/dashboard") <==> Truthy(st.token) && !IsAdmin(st.user)
    ensures r == Render <==> Truthy(st.token) && IsAdmin(st.user)
  {
    var user := if st.user.Some? then st.user.value else StoredUser(None, None);
    if !Truthy(st.token) then Redirect("/login")
    else if user.role != Some("admin") then Redirect("/dashboard")
    else Render
  }

  /** `PublicRoute`: to `/` when both a token and a user are stored. */
  function PublicRoute(st: Storage): (r: Route)
    ensures r == Redirect("/") <==> Truthy(st.token) && st.user.Some?
    ensures r == Render <==> !Truthy(st.token) || st.user.None?
  {
    if Truthy(st.token) && st.user.Some? then Redirect("/") else Render
  }

  /** For every storage state exactly one of the protected and public guards renders. */
  lemma ProtectedAndPublicExclusive(st: Storage)
    ensures ProtectedRoute(st).Render? != PublicRoute(st).Render?
  {
  }

  /** With a token but no stored user, the admin guard sends the visitor to the dashboard, not to the login page. */
  lemma AdminWithoutUserGoesToDashboard(token: string)
    requires token != ""
    ensures AdminRoute(Storage(Some(token), None)) == Redirect("/dashboard")
    ensures ProtectedRoute(Storage(Some(token), None)) == Redirect("/login")
  {
  }

  /** Whatever the admin guard lets through, the protected guard lets through too. */
  lemma AdminImpliesProtected(st: Storage)
    ensures AdminRoute(st).Render? ==> ProtectedRoute(st).Render?
  {
  }
}
