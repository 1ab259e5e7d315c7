/**
  The two route guards of `src/App.jsx`. Each reads the authentication
  flag and the loading flag. While loading it shows a spinner. Otherwise it
  either renders the page it wraps or redirects: private pages send
  visitors to "/login", public pages send signed-in users to "/".
*/
module AppGuards {

  datatype Render = Spinner | Redirect(to: string) | Children

  /** `ProtectedRoute`. */
  function ProtectedRoute(isAuthenticated: bool, loading: bool): (r: Render)
    ensures loading ==> r == Spinner
    ensures !loading ==> (r == Redirect("/login") <==> !isAuthenticated)
    ensures !loading ==> (r == Children <==> isAuthenticated)
  {
    if loading then Spinner
    else if !isAuthenticated then Redirect("/login")
    else Children
  }

  /** `PublicRoute`. */
  function PublicRoute(isAuthenticated: bool, loading: bool): (r: Render)
    ensures loading ==> r == Spinner
    ensures !loading ==> (r == Redirect("/") <==> isAuthenticated)
    ensures !loading ==> (r == Children <==> !isAuthenticated)
  {
    if loading then Spinner
    else if isAuthenticated then Redirect("/")
    else Children
  }

  /**
    Once loading is over, exactly one of the two guards lets its page
    through, and the other redirects; while loading, neither does.
  */
  lemma ExactlyOneRendersChildren(isAuthenticated: bool, loading: bool)
    ensures !loading ==> (ProtectedRoute(isAuthenticated, loading) == Children) != (PublicRoute(isAuthenticated, loading) == Children)
    ensures !loading ==> ProtectedRoute(isAuthenticated, loading).Redirect? != PublicRoute(isAuthenticated, loading).Redirect?
    ensures loading ==> ProtectedRoute(isAuthenticated, loading) == PublicRoute(isAuthenticated, loading) == Spinner
  {
  }
}
