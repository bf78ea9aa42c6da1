/** The layout around every admin page: it renders its children for admins only. */
module AdminLayout {
  import opened Common

  datatype Outcome = Redirect(path: string) | Render

  /** Both denials, no session and a non-admin role, go to the home page. */
  function Guard(session: Session): (o: Outcome)
    ensures o.Render? <==> session.Some? && session.value.role == "admin"
    ensures o.Redirect? ==> o.path == "/"
  {
    if session.None? then Redirect("/")
    else if session.value.role != "admin" then Redirect("/")
    else Render
  }
}
