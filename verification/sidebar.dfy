/**
 * The dashboard sidebar: one constant list of navigation items per role, and
 * the two support items for everyone.
 */
module Sidebar {
  import opened Common

  datatype SubItem = SubItem(title: string, url: string)
  datatype NavItem = NavItem(title: string, url: string, items: seq<SubItem>)

  const STUDENT_ITEMS: seq<NavItem> := [
    NavItem("Dashboard", "/dashboard/student/dashboard", []),
    NavItem("My Videos", "/dashboard/student/videos", []),
    NavItem("Messages", "/dashboard/student/messages", [])]

  const SUPERVISOR_ITEMS: seq<NavItem> := [
    NavItem("Dashboard", "/dashboard", []),
    NavItem("Videos", "/dashboard/supervisor/videos", []),
    NavItem("Messages", "/dashboard/supervisor/messages", [])]

  const ANALYTICS_ITEMS: seq<SubItem> := [
    SubItem("Overview", "/admin/analytics/overview"),
    SubItem("Reports", "/admin/analytics/reports"),
    SubItem("Insights", "/admin/analytics/insights")]

  const ADMIN_ITEMS: seq<NavItem> := [
    NavItem("Dashboard", "/admin/dashboard", []),
    NavItem("Users", "/admin/users", []),
    NavItem("System Settings", "/admin/admin-settings", []),
    NavItem("Analytics", "/admin/analytics", ANALYTICS_ITEMS),
    NavItem("Documents", "/admin/documents", []),
    NavItem("Messages", "/admin/messages", [])]

  const SUPPORT_ITEMS: seq<NavItem> := [
    NavItem("Help Center", "/help", []),
    NavItem("Settings", "/settings", [])]

  /** The navigation list for the session's role; no session or any other role gets none. */
  function NavigationItems(session: Session): (r: seq<NavItem>)
    ensures |r| == 3 <==> session.Some? && session.value.role in {"student", "supervisor"}
    ensures |r| == 6 <==> session.Some? && session.value.role == "admin"
    ensures r == [] <==> session.None? || session.value.role !in {"student", "supervisor", "admin"}
    ensures session.Some? && session.value.role == "student" ==> r == STUDENT_ITEMS
    ensures session.Some? && session.value.role == "supervisor" ==> r == SUPERVISOR_ITEMS
    ensures session.Some? && session.value.role == "admin" ==> r == ADMIN_ITEMS
  {
    if session.None? then []
    else match session.value.role
      case "student" => STUDENT_ITEMS
      case "supervisor" => SUPERVISOR_ITEMS
      case "admin" => ADMIN_ITEMS
      case _ => []
  }

  /** The support list does not depend on the session. */
  function SupportItems(session: Session): (r: seq<NavItem>)
    ensures |r| == 2 && r[0].url == "/help" && r[1].url == "/settings"
  {
    SUPPORT_ITEMS
  }

  /** The only item with sub-items, for any session, is the admin's Analytics entry with its three pages. */
  lemma OnlyAnalyticsHasSubItems(session: Session)
    ensures forall item :: item in NavigationItems(session) + SupportItems(session) && item.items != [] ==>
      item.title == "Analytics" && |item.items| == 3 && session.Some? && session.value.role == "admin"
  {
    var all := NavigationItems(session) + SupportItems(session);
    forall item | item in all && item.items != []
      ensures item.title == "Analytics" && |item.items| == 3 && session.Some? && session.value.role == "admin"
    {
      if session.Some? && session.value.role == "admin" {
        assert all == ADMIN_ITEMS + SUPPORT_ITEMS;
      }
    }
  }
}
