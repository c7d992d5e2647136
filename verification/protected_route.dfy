/** `ProtectedRoute` and `AdminRoute`: render the page or redirect. */
module Routes {
  import opened UseAuth

  datatype Decision = Render | Redirect(to: string)

  /** Anonymous visitors go to "/login"; everyone else sees the page. */
  function ProtectedRoute(v: View): (d: Decision)
    ensures d == Render <==> v.isAuthenticated
    ensures d != Render ==> d == Redirect("/login")
  {
    if !v.isAuthenticated then Redirect("/login") else Render
  }

  /** Anonymous visitors go to "/login" whatever the admin flag, signed-in
      non-admins go to "/", and only admins see the page. */
  function AdminRoute(v: View): (d: Decision)
    ensures !v.isAuthenticated ==> d == Redirect("/login")
    ensures v.isAuthenticated && !v.isAdmin ==> d == Redirect("/")
    ensures d == Render <==> v.isAuthenticated && v.isAdmin
  {
    if !v.isAuthenticated then Redirect("/login")
    else if !v.isAdmin then Redirect("/")
    else Render
  }

  /** Exactly one of the three outcomes, and an admin page is never shown
      where the plain protected page would not be. */
  lemma AdminRouteOutcomes(v: View)
    ensures var d := AdminRoute(v);
      d == Render || d == Redirect("/login") || d == Redirect("/")
    ensures AdminRoute(v) == Render ==> ProtectedRoute(v) == Render
  {
  }
}
