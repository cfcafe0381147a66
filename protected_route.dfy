/** The route guard (ProtectedRoute.js) in front of the admin pages. */
module ProtectedRoute {
  import opened Api
  import opened AuthContext
  import opened Wrappers

  const LoginPath := "/login"

  /** What the guard renders: the spinner, a redirect carrying the requested location, or the children. */
  datatype Verdict = Spinner | Redirect(to: string, from: string) | Render

  /** The guard's decision from the session flags and the current location. */
  function Guard(loading: bool, isAuthenticated: bool, location: string): (v: Verdict)
    ensures v.Spinner? <==> loading
    ensures v.Redirect? <==> !loading && !isAuthenticated
    ensures v.Render? <==> !loading && isAuthenticated
    ensures v.Redirect? ==> v.to == LoginPath && v.from == location
  {
    if loading then Spinner
    else if !isAuthenticated then Redirect(LoginPath, location)
    else Render
  }

  /** While loading the spinner shows whatever the authenticated flag says. */
  lemma LoadingTakesPrecedence(location: string)
    ensures Guard(true, true, location) == Guard(true, false, location) == Spinner
  {
  }

  /** The children are rendered only behind a session with a user. */
  lemma RenderNeedsUser(p: AuthProvider, location: string)
    requires p.Valid()
    ensures Guard(p.loading, p.isAuthenticated, location).Render? ==> p.user.Some?
  {
  }

  /**
   * The guard once the initial check is over: never the spinner, and the
   * protected page exactly when the backend verified the session.
   */
  method GuardAfterCheck(p: AuthProvider, storedUserParses: bool, reply: VerifyReply, location: string)
    returns (v: Verdict)
    requires p.Valid()
    modifies p
    ensures p.Valid()
    ensures v == Guard(p.loading, p.isAuthenticated, location)
    ensures !v.Spinner?
    ensures v.Render? <==> (!Truthy(StoredUser(old(p.storage))) || storedUserParses) && reply.VerifyOk?
  {
    p.CheckAuthStatus(storedUserParses, reply);
    v := Guard(p.loading, p.isAuthenticated, location);
  }
}
