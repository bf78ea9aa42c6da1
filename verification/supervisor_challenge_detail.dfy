/**
 * The supervisor's review page for one challenge. It holds the challenge as
 * the admin challenge route's detail reply returns it, shows an OPEN/CLOSED
 * badge and the submission total, hands each submission's first note to the
 * feedback form, and re-reads the challenge after feedback is saved.
 */
module SupervisorChallengeDetail {
  import opened Common
  import AdminChallengeRoute
  import Database
  import Seqs

  type ChallengeDetail = AdminChallengeRoute.ChallengeDetail
  type SubmissionSummary = AdminChallengeRoute.SubmissionSummary
  type NoteSummary = AdminChallengeRoute.NoteSummary

  /** `isChallengeOpen`: active and the end strictly after now; the start is not consulted. */
  predicate IsChallengeOpen(isActive: bool, endDate: int, now: int)
  {
    isActive && endDate > now
  }

  /** The badge: its text and its background class. */
  datatype Badge = Badge(text: string, color: string)

  function StatusBadge(isActive: bool, endDate: int, now: int): (b: Badge)
    ensures b.text == "OPEN" || b.text == "CLOSED"
    ensures b.text == "OPEN" <==> IsChallengeOpen(isActive, endDate, now)
    ensures b.text == "OPEN" <==> b.color == "bg-green-600"
    ensures b.text == "CLOSED" <==> b.color == "bg-red-600"
  {
    if IsChallengeOpen(isActive, endDate, now) then Badge("OPEN", "bg-green-600") else Badge("CLOSED", "bg-red-600")
  }

  /** `challenge.submissions?.length || 0`. */
  function TotalSubmissions(submissions: Option<seq<SubmissionSummary>>): (n: nat)
    ensures submissions.None? ==> n == 0
    ensures submissions.Some? ==> n == |submissions.value|
  {
    if submissions.Some? && |submissions.value| != 0 then |submissions.value| else 0
  }

  /** `submission.video.notes?.[0] || null`: the first note of the submitted video, if any. */
  function ExistingFeedback(s: SubmissionSummary): (r: Option<NoteSummary>)
    ensures r.Some? <==> s.video.Some? && s.video.value.notes != []
    ensures r.Some? ==> r.value == s.video.value.notes[0]
  {
    if s.video.Some? && s.video.value.notes != [] then Some(s.video.value.notes[0]) else None
  }

  /**
   * For a submission of the route's detail reply, the form is seeded with the
   * first note on that video in table order, and with nothing when the video
   * has no note.
   */
  lemma FeedbackIsFirstNoteOfVideo(s: Database.Submission, videos: seq<Database.Video>, notes: seq<Database.VideoNote>)
    requires AdminChallengeRoute.SummarizeSubmission(s, videos, notes).video.Some?
    ensures var r := ExistingFeedback(AdminChallengeRoute.SummarizeSubmission(s, videos, notes));
      var vid := AdminChallengeRoute.SummarizeSubmission(s, videos, notes).video.value.id;
      && vid == s.videoId
      && (r.Some? <==> exists n :: n in notes && n.videoId == vid)
      && (r.Some? ==> exists n :: n in notes && n.videoId == vid && r.value.id == n.id && r.value.content == n.content && r.value.score == n.score)
  {
    var v := Database.FindVideo(videos, s.videoId).value;
    var mine := Seqs.Filter(notes, (n: Database.VideoNote) => n.videoId == v.id);
    if mine != [] {
      assert mine[0] in notes && mine[0].videoId == v.id;
    }
  }

  /** The page's state: the challenge it shows. */
  class ReviewPage {
    var challenge: ChallengeDetail

    constructor (initial: ChallengeDetail)
      ensures challenge == initial
    {
      challenge := initial;
    }

    /** `refetchChallenge`: `ok` is whether the reply was ok, `data` its body. */
    method RefetchChallenge(ok: bool, data: ChallengeDetail)
      modifies this
      ensures ok ==> challenge == data
      ensures !ok ==> challenge == old(challenge)
    {
      if ok {
        challenge := data;
      }
    }
  }
}
