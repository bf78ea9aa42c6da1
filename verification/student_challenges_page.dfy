/**
 * The challenge list page under the student dashboard. Despite its place, it
 * admits supervisors and admins only and sends students away.
 */
module StudentChallengesPage {
  import opened Common

  datatype Outcome = Redirect(path: string) | RenderChallengeList

  const ACCESS_DENIED := "/dashboard?error=access_denied"

  function Guard(session: Session): (o: Outcome)
    ensures session.None? <==> o == Redirect("/login")
    ensures o.RenderChallengeList? <==> session.Some? && session.value.role in {"supervisor", "admin"}
    ensures o == Redirect(ACCESS_DENIED) <==> session.Some? && session.value.role !in {"supervisor", "admin"}
  {
    if session.None? then Redirect("/login")
    else if session.value.role != "supervisor" && session.value.role != "admin" then Redirect(ACCESS_DENIED)
    else RenderChallengeList
  }

  /** A signed-in student is turned away from the page under their own dashboard. */
  lemma StudentsTurnedAway(u: User)
    requires u.role == "student"
    ensures Guard(Some(u)) == Redirect(ACCESS_DENIED)
  {
  }
}
