/**
 * Five tests decide whether a challenge is open, each in its own way:
 *   - the student route's GET lists `isActive && endDate > now`;
 *   - the student route's POST admits `isActive && !(endDate < now)`;
 *   - the student detail page opens the form for `isActive && startDate <= now <= endDate`;
 *   - the supervisor detail page shows OPEN for `isActive && endDate > now`;
 *   - the supervisor list shows Open for `!(endDate < now)`, ignoring `isActive`.
 * The lemmas below state exactly how these relate.
 */
module ChallengeOpenness {
  import opened Database
  import StudentChallengeRoute
  import ChallengeDetailClient
  import SupervisorChallengeDetail
  import SupervisorChallengeListClient
  import Seqs

  predicate RouteLists(c: Challenge, now: int) { StudentChallengeRoute.Listed(c, now) }
  predicate RouteAdmits(c: Challenge, now: int) { StudentChallengeRoute.TakesSubmissions(c, now) }
  predicate StudentViewOpen(c: Challenge, now: int) { ChallengeDetailClient.ChallengeStatus(c.isActive, c.startDate, c.endDate, now).isChallengeOpen }
  predicate SupervisorViewOpen(c: Challenge, now: int) { SupervisorChallengeDetail.IsChallengeOpen(c.isActive, c.endDate, now) }
  predicate SupervisorListOpen(c: Challenge, now: int) { !SupervisorChallengeListClient.IsClosed(c.endDate, now) }

  /**
   * The relations between the definitions, for every challenge and instant:
   * the route's listing and the supervisor page agree; the route admits
   * exactly what it lists plus challenges ending at this very instant; the
   * student page is open exactly when the route admits and the start has come;
   * the supervisor list says Open for whatever the route admits, and also for
   * inactive challenges whose end has not passed.
   */
  lemma OpennessRelations(c: Challenge, now: int)
    ensures RouteLists(c, now) <==> SupervisorViewOpen(c, now)
    ensures RouteAdmits(c, now) <==> RouteLists(c, now) || (c.isActive && c.endDate == now)
    ensures StudentViewOpen(c, now) <==> RouteAdmits(c, now) && c.startDate <= now
    ensures SupervisorListOpen(c, now) <==> RouteAdmits(c, now) || (!c.isActive && now <= c.endDate)
  {
  }

  /**
   * At the end instant of an active, started challenge the route still
   * admits submissions and the student page shows the form, while the route's
   * listing leaves it out and the supervisor page shows CLOSED.
   */
  lemma AtEndInstant(c: Challenge, now: int)
    requires c.isActive && c.startDate <= now && now == c.endDate
    ensures RouteAdmits(c, now) && StudentViewOpen(c, now) && SupervisorListOpen(c, now)
    ensures !RouteLists(c, now)
    ensures SupervisorChallengeDetail.StatusBadge(c.isActive, c.endDate, now).text == "CLOSED"
  {
  }

  /**
   * Before its start an active challenge is listed and admitted by the route,
   * while the student page shows "Starting Soon" and no form.
   */
  lemma BeforeStart(c: Challenge, now: int)
    requires c.isActive && now < c.startDate && now < c.endDate
    ensures RouteLists(c, now) && RouteAdmits(c, now) && SupervisorViewOpen(c, now)
    ensures !StudentViewOpen(c, now)
    ensures ChallengeDetailClient.ChallengeStatus(c.isActive, c.startDate, c.endDate, now).text
         == ChallengeDetailClient.STARTING_SOON
  {
  }

  /** An inactive challenge whose end has not passed shows Open in the supervisor list only. */
  lemma InactiveShowsOpenInListOnly(c: Challenge, now: int)
    requires !c.isActive && now <= c.endDate
    ensures SupervisorListOpen(c, now)
    ensures !RouteLists(c, now) && !RouteAdmits(c, now) && !StudentViewOpen(c, now) && !SupervisorViewOpen(c, now)
  {
  }

  /** Every challenge the route lists is one its POST admits. */
  lemma ListedChallengesAreAdmitted(challenges: seq<Challenge>, now: int)
    ensures var r := StudentChallengeRoute.OpenRows(challenges, now);
      forall i :: 0 <= i < |r| ==> RouteAdmits(r[i], now) && SupervisorListOpen(r[i], now)
  {
    var open := Seqs.Filter(challenges, (c: Challenge) => StudentChallengeRoute.Listed(c, now));
    var r := StudentChallengeRoute.OpenRows(challenges, now);
    Seqs.SortByCorrect(open, (c: Challenge) => c.startDate, false);
    forall i | 0 <= i < |r| ensures RouteAdmits(r[i], now) && SupervisorListOpen(r[i], now) {
      assert r[i] in multiset(open);
      var k :| 0 <= k < |open| && open[k] == r[i];
    }
  }
}
