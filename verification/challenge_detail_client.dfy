/**
 * The student's view of one challenge: the status badge derived from the
 * challenge's flag and dates at the moment of rendering, and whether the
 * submission form or the "Submissions Closed" alert is shown. `isPast(end)`
 * is `end < now` and `isFuture(start)` is `start > now`, on millisecond
 * instants.
 */
module ChallengeDetailClient {

  const INACTIVE := "Inactive"
  const CLOSED := "Closed"
  const STARTING_SOON := "Starting Soon"
  const OPEN_FOR_SUBMISSIONS := "OPEN FOR SUBMISSIONS"

  /** The four badge labels. */
  const LABELS: set<string> := {INACTIVE, CLOSED, STARTING_SOON, OPEN_FOR_SUBMISSIONS}

  /** The badge: its label, its variant, and whether submissions are taken. */
  datatype Status = Status(text: string, variant: string, isChallengeOpen: bool)

  /** The `useMemo` chain: the first test that holds decides the badge. */
  function ChallengeStatus(isActive: bool, startDate: int, endDate: int, now: int): (s: Status)
    ensures s.text in LABELS
    ensures s.isChallengeOpen <==> isActive && startDate <= now <= endDate
    ensures s.isChallengeOpen <==> s.text == OPEN_FOR_SUBMISSIONS
  {
    if !isActive then Status(INACTIVE, "secondary", false)
    else if endDate < now then Status(CLOSED, "destructive", false)
    else if startDate > now then Status(STARTING_SOON, "outline", false)
    else Status(OPEN_FOR_SUBMISSIONS, "default", true)
  }

  /**
   * Which label shows is fixed by the inputs alone: an inactive challenge is
   * "Inactive" whatever its dates, a past end wins over a future start, and a
   * future start with the end not yet past is "Starting Soon".
   */
  lemma StatusLabelCases(isActive: bool, startDate: int, endDate: int, now: int)
    ensures var s := ChallengeStatus(isActive, startDate, endDate, now);
      && (s.text == INACTIVE <==> !isActive)
      && (s.text == CLOSED <==> isActive && endDate < now)
      && (s.text == STARTING_SOON <==> isActive && now <= endDate && now < startDate)
      && (s.text == INACTIVE ==> s.variant == "secondary")
      && (s.text == CLOSED ==> s.variant == "destructive")
      && (s.text == STARTING_SOON ==> s.variant == "outline")
      && (s.text == OPEN_FOR_SUBMISSIONS ==> s.variant == "default")
  {
  }

  /** `toLowerCase` on one character, for the letters A to Z; other characters are kept. */
  function LowerChar(c: char): char
  {
    if 'A' <= c <= 'Z' then (c as int + 32) as char else c
  }

  /** `String.prototype.toLowerCase`, character by character. */
  function Lower(s: string): (r: string)
    ensures |r| == |s| && forall i :: 0 <= i < |s| ==> r[i] == LowerChar(s[i])
  {
    seq(|s|, i requires 0 <= i < |s| => LowerChar(s[i]))
  }

  /** What the submission section shows. */
  datatype Section =
    | SubmissionForm(challengeId: string, studentId: string)
    | ClosedAlert(title: string, description: string)

  /** The alert's text around the lower-cased label. */
  function ClosedDescription(lowered: string): string
  {
    "This challenge is currently **" + lowered + "** and cannot receive submissions. Please check the dates above."
  }

  /** The submission section of the page for challenge `challengeId` and student `studentId`. */
  function SubmissionSection(challengeId: string, isActive: bool, startDate: int, endDate: int,
                             studentId: string, now: int): (r: Section)
    ensures r.SubmissionForm? <==> isActive && startDate <= now <= endDate
    ensures r.SubmissionForm? ==> r == SubmissionForm(challengeId, studentId)
    ensures r.ClosedAlert? ==>
      && r.title == "Submissions Closed"
      && r.description == ClosedDescription(Lower(ChallengeStatus(isActive, startDate, endDate, now).text))
  {
    var s := ChallengeStatus(isActive, startDate, endDate, now);
    if s.isChallengeOpen then SubmissionForm(challengeId, studentId)
    else ClosedAlert("Submissions Closed", ClosedDescription(Lower(s.text)))
  }

  /** The alert names the reason in lower case: inactive, closed, or starting soon. */
  lemma ClosedAlertNamesReason(challengeId: string, isActive: bool, startDate: int, endDate: int,
                               studentId: string, now: int)
    ensures var r := SubmissionSection(challengeId, isActive, startDate, endDate, studentId, now);
      r.ClosedAlert? ==>
        && (!isActive ==> r.description == ClosedDescription("inactive"))
        && (isActive && endDate < now ==> r.description == ClosedDescription("closed"))
        && (isActive && now <= endDate && now < startDate ==> r.description == ClosedDescription("starting soon"))
  {
    LowerLabels();
  }

  lemma LowerLabels()
    ensures Lower(INACTIVE) == "inactive" && Lower(CLOSED) == "closed" && Lower(STARTING_SOON) == "starting soon"
  {
    assert Lower(INACTIVE) == "inactive";
    assert Lower(CLOSED) == "closed";
    assert Lower(STARTING_SOON) == "starting soon";
  }
}
