/**
 * The page a successful login lands on: it sends the user on to the
 * dashboard of their role, or back to the login page without a role.
 */
module SuccessHandler {
  import opened Common

  const LOGIN := "/login"
  const STUDENT_HOME := "/dashboard/student/dashboard"
  const SUPERVISOR_HOME := "/dashboard/supervisor/dashboard"
  const ADMIN_HOME := "/admin/dashboard"
  const FALLBACK_HOME := "/dashboard"

  /** The one redirect target for a session; an empty role counts as missing. */
  function RedirectPath(session: Session): (path: string)
    ensures path == LOGIN <==> session.None? || session.value.role == ""
    ensures path == STUDENT_HOME <==> session.Some? && session.value.role == "student"
    ensures path == SUPERVISOR_HOME <==> session.Some? && session.value.role == "supervisor"
    ensures path == ADMIN_HOME <==> session.Some? && session.value.role == "admin"
    ensures path == FALLBACK_HOME <==>
      session.Some? && session.value.role !in {"", "student", "supervisor", "admin"}
  {
    if session.None? || session.value.role == "" then LOGIN
    else
      var role := session.value.role;
      if role == "student" then STUDENT_HOME
      else if role == "supervisor" then SUPERVISOR_HOME
      else if role == "admin" then ADMIN_HOME
      else FALLBACK_HOME
  }

  /** A professional, a role the sign-up does not offer, lands on the generic dashboard. */
  lemma ProfessionalGoesToFallback(u: User)
    requires u.role == "professional"
    ensures RedirectPath(Some(u)) == FALLBACK_HOME
  {
  }
}
