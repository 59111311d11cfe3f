/** The `UserAuth` route guard of frontend/src/auth/UserAuth.jsx. */
module UserAuthGuard {
  import opened Wrappers
  import opened JsValues

  /** The router location the guard was rendered at (opaque here). */
  datatype Location = Location(path: string)

  /** What the guard renders. */
  datatype Render =
    | Loading                                            // the "Loading..." placeholder
    | Redirect(to: string, fromLocation: Location, replace: bool)   // <Navigate to=... state={{from}} replace />
    | Children

  /**
   * The guard over the stored token (`localStorage.getItem('token')`, `null` when absent) and the context
   * user: a token without a user waits, no user redirects to the login page, a user sees the page.
   */
  function Guard(storedToken: Option<string>, user: Option<Json>, location: Location): (r: Render)
    ensures r.Children? <==> Truthy(user)
    ensures r.Loading? <==> storedToken.Some? && storedToken.value != "" && !Truthy(user)
    ensures r.Redirect? ==> r == Redirect("/login", location, true)
  {
    if storedToken.Some? && storedToken.value != "" && !Truthy(user) then Loading
    else if !Truthy(user) then Redirect("/login", location, true)
    else Children
  }

  /** The outcome depends only on whether a token is stored and whether a user is present. */
  lemma GuardDependsOnPresenceOnly(t1: Option<string>, t2: Option<string>, u1: Option<Json>, u2: Option<Json>, location: Location)
    requires (t1.Some? && t1.value != "") == (t2.Some? && t2.value != "")
    requires Truthy(u1) == Truthy(u2)
    ensures Guard(t1, u1, location) == Guard(t2, u2, location)
  {
  }

  /** The four combinations of (token stored, user present) map onto the three outcomes. */
  lemma GuardCases(token: Option<string>, user: Option<Json>, location: Location)
    ensures var tokenStored := token.Some? && token.value != "";
            var r := Guard(token, user, location);
            && (tokenStored && !Truthy(user) ==> r == Loading)
            && (!tokenStored && !Truthy(user) ==> r == Redirect("/login", location, true))
            && (Truthy(user) ==> r == Children)
  {
  }
}
