/**
 * How the login redirect, the sidebars and the page guards fit together for
 * each role.
 */
module Navigation {
  import opened Common
  import SuccessHandler
  import AdminLayout
  import StudentChallengesPage
  import Sidebar

  /**
   * Whoever the login redirect sends to the admin dashboard passes the admin
   * layout, and nobody else does (apart from the sessions it has no role for).
   */
  lemma AdminRedirectPassesAdminLayout(session: Session)
    ensures SuccessHandler.RedirectPath(session) == SuccessHandler.ADMIN_HOME <==> AdminLayout.Guard(session).Render?
  {
  }

  /**
   * The first sidebar entry of a student or an admin is where the login
   * redirect sends them; a supervisor's first entry is the generic dashboard
   * instead of the supervisor dashboard the redirect picks.
   */
  lemma SidebarHomeMatchesRedirect(u: User)
    ensures u.role == "student" ==> Sidebar.NavigationItems(Some(u))[0].url == SuccessHandler.RedirectPath(Some(u))
    ensures u.role == "admin" ==> Sidebar.NavigationItems(Some(u))[0].url == SuccessHandler.RedirectPath(Some(u))
    ensures u.role == "supervisor" ==>
      && Sidebar.NavigationItems(Some(u))[0].url == SuccessHandler.FALLBACK_HOME
      && SuccessHandler.RedirectPath(Some(u)) == SuccessHandler.SUPERVISOR_HOME
  {
  }

  /**
   * The challenge list page under the student dashboard is open exactly to
   * the users the login redirect sends to the supervisor or admin dashboard.
   */
  lemma ChallengeListAudience(session: Session)
    ensures StudentChallengesPage.Guard(session).RenderChallengeList? <==>
      SuccessHandler.RedirectPath(session) in {SuccessHandler.SUPERVISOR_HOME, SuccessHandler.ADMIN_HOME}
  {
  }
}
