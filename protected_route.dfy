/** The route guard placed around every signed-in screen. */
module ProtectedRoute {
  import AuthContext
  import opened Types

  /** What the guard renders. */
  datatype Decision = RenderChildren | ShowSpinner | RedirectTo(path: string)

  /** The ordered `if` cascade: a user wins over loading, loading over the confirmation
      redirect, and everything else goes to the login page. */
  function Decide(hasUser: bool, loading: bool, needsEmailConfirmation: bool): (d: Decision)
    ensures d == RenderChildren <==> hasUser
    ensures d == ShowSpinner <==> !hasUser && loading
    ensures d == RedirectTo("/email-confirmation") <==> !hasUser && !loading && needsEmailConfirmation
    ensures d == RedirectTo("/login") <==> !hasUser && !loading && !needsEmailConfirmation
    ensures d.RedirectTo? ==> d.path == "/email-confirmation" || d.path == "/login"
  {
    if hasUser then RenderChildren
    else if loading then ShowSpinner
    else if needsEmailConfirmation then RedirectTo("/email-confirmation")
    else RedirectTo("/login")
  }

  /** With the flags the auth listener derives, a signed-out visitor always goes to the
      login page once loading is over: the confirmation redirect needs a user, and with a
      user the guard renders the screen instead. */
  lemma SignedOutGoesToLogin(u: Option<AuthContext.User>, loading: bool)
    requires u.None?
    requires !loading
    ensures Decide(u.Some?, loading, AuthContext.FlagsFor(u).needsEmailConfirmation) == RedirectTo("/login")
  {
  }
}
