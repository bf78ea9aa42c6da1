/**
 * `/api/student/challenge`: the listing of challenges still taking part
 * (GET, no session needed) and the submission of one of the caller's videos
 * to a challenge (POST), which runs a fixed chain of checks and then inserts
 * the (video, challenge) link, a duplicate pair being refused by the unique
 * constraint with 409.
 */
module StudentChallengeRoute {
  import opened Common
  import opened Seqs
  import opened Database

  // ---------------------------------------------------------------------
  // GET: open challenges
  // ---------------------------------------------------------------------

  /**
   * One entry of the listing: the selected columns of a challenge. The
   * creator's name, joined from the user table, is not part of the entry.
   */
  datatype ListedChallenge = ListedChallenge(
    id: string,
    title: string,
    description: Option<string>,
    startDate: int,
    endDate: int)

  /** The query's `where`: active, and ending strictly after the request instant. */
  predicate Listed(c: Challenge, now: int)
  {
    c.isActive && c.endDate > now
  }

  function Select(c: Challenge): ListedChallenge
  {
    ListedChallenge(c.id, c.title, c.description, c.startDate, c.endDate)
  }

  /** The matching rows, ordered by start date ascending. */
  function OpenRows(challenges: seq<Challenge>, now: int): seq<Challenge>
  {
    SortBy(Filter(challenges, c => Listed(c, now)), (c: Challenge) => c.startDate, false)
  }

  /** GET: always 200 with the projected open rows. */
  function Get(challenges: seq<Challenge>, now: int): (r: Response<seq<ListedChallenge>>)
    ensures r.status == OK && r.data.Some?
    ensures |r.data.value| <= |challenges|
  {
    var rows := OpenRows(challenges, now);
    SortByCorrect(Filter(challenges, c => Listed(c, now)), (c: Challenge) => c.startDate, false);
    Response(OK, "", Some(seq(|rows|, i requires 0 <= i < |rows| => Select(rows[i]))))
  }

  /**
   * The listing holds exactly the active challenges whose end lies strictly
   * after `now` (one entry per such row, started or not), ordered by start
   * date ascending.
   */
  lemma GetListsExactlyOpen(challenges: seq<Challenge>, now: int)
    ensures var r := Get(challenges, now).data.value;
      && (forall i :: 0 <= i < |r| ==>
            exists c :: c in challenges && Listed(c, now) && r[i] == Select(c))
      && (forall c :: c in challenges && Listed(c, now) ==> Select(c) in r)
      && (forall i, j :: 0 <= i < j < |r| ==> r[i].startDate <= r[j].startDate)
      && |r| == |Filter(challenges, c => Listed(c, now))|
  {
    OpenRowsExact(challenges, now);
    EntriesAreListed(challenges, now);
    ListedHaveEntries(challenges, now);
  }

  /** Every entry is the projection of a listed challenge. */
  lemma EntriesAreListed(challenges: seq<Challenge>, now: int)
    ensures var r := Get(challenges, now).data.value;
      forall i :: 0 <= i < |r| ==> exists c :: c in challenges && Listed(c, now) && r[i] == Select(c)
  {
    var rows := OpenRows(challenges, now);
    OpenRowsExact(challenges, now);
    var r := Get(challenges, now).data.value;
    forall i | 0 <= i < |r|
      ensures exists c :: c in challenges && Listed(c, now) && r[i] == Select(c)
    {
      assert r[i] == Select(rows[i]);
    }
  }

  /** Every listed challenge has an entry. */
  lemma ListedHaveEntries(challenges: seq<Challenge>, now: int)
    ensures var r := Get(challenges, now).data.value;
      forall c :: c in challenges && Listed(c, now) ==> Select(c) in r
  {
    var rows := OpenRows(challenges, now);
    OpenRowsExact(challenges, now);
    var r := Get(challenges, now).data.value;
    forall c | c in challenges && Listed(c, now)
      ensures Select(c) in r
    {
      var m :| 0 <= m < |rows| && rows[m] == c;
      assert r[m] == Select(c);
    }
  }

  /** The rows behind the listing: exactly the listed challenges, by start date ascending. */
  lemma OpenRowsExact(challenges: seq<Challenge>, now: int)
    ensures var rows := OpenRows(challenges, now);
      && (forall i :: 0 <= i < |rows| ==> rows[i] in challenges && Listed(rows[i], now))
      && (forall c :: c in challenges && Listed(c, now) ==> c in rows)
      && (forall i, j :: 0 <= i < j < |rows| ==> rows[i].startDate <= rows[j].startDate)
      && |rows| == |Filter(challenges, c => Listed(c, now))|
  {
    var p := c => Listed(c, now);
    var key := (c: Challenge) => c.startDate;
    FilterSortExact(challenges, p, key, false);
    SortByCorrect(Filter(challenges, p), key, false);
    var rows := OpenRows(challenges, now);
    forall i, j | 0 <= i < j < |rows| ensures rows[i].startDate <= rows[j].startDate {
      assert InOrder(rows[i], rows[j], key, false);
    }
  }

  // ---------------------------------------------------------------------
  // POST: submit a video to a challenge
  // ---------------------------------------------------------------------

  /** The JSON body; a field is `None` when absent. */
  datatype SubmitRequest = SubmitRequest(videoId: Option<string>, challengeId: Option<string>)

  predicate MaySubmit(role: string)
  {
    role == "student" || role == "professional"
  }

  /** The route's own open test: active and not yet ended (`endDate < now` is the only closed case). */
  predicate TakesSubmissions(c: Challenge, now: int)
  {
    c.isActive && !(c.endDate < now)
  }

  /**
   * Every check before the insert passes: a session whose role may submit,
   * both ids, a challenge with that id taking submissions, and a video with
   * that id belonging to the caller.
   */
  predicate ChecksPass(session: Session, req: SubmitRequest, challenges: seq<Challenge>, videos: seq<Video>, now: int)
  {
    && session.Some? && MaySubmit(session.value.role)
    && Truthy(req.videoId) && Truthy(req.challengeId)
    && FindChallenge(challenges, req.challengeId.value).Some?
    && TakesSubmissions(FindChallenge(challenges, req.challengeId.value).value, now)
    && FindVideo(videos, req.videoId.value).Some?
    && FindVideo(videos, req.videoId.value).value.userId == session.value.id
  }

  /**
   * The status the checks reach, in the handler's order: session (401), role
   * (403), both ids present (400), challenge exists (404), challenge taking
   * submissions (403), video exists and is the caller's (403), pair not yet
   * submitted (409); 201 when all pass. The start date is never consulted.
   */
  function SubmitStatus(session: Session, req: SubmitRequest, challenges: seq<Challenge>,
                        videos: seq<Video>, submissions: seq<Submission>, now: int): (r: int)
    ensures r == UNAUTHORIZED <==> session.None?
    ensures r == BAD_REQUEST <==>
      session.Some? && MaySubmit(session.value.role) && (!Truthy(req.videoId) || !Truthy(req.challengeId))
    ensures r == NOT_FOUND <==>
      && session.Some? && MaySubmit(session.value.role) && Truthy(req.videoId) && Truthy(req.challengeId)
      && FindChallenge(challenges, req.challengeId.value).None?
    ensures r == FORBIDDEN <==>
      && session.Some?
      && (|| !MaySubmit(session.value.role)
          || (&& Truthy(req.videoId) && Truthy(req.challengeId)
              && FindChallenge(challenges, req.challengeId.value).Some?
              && (|| !TakesSubmissions(FindChallenge(challenges, req.challengeId.value).value, now)
                  || FindVideo(videos, req.videoId.value).None?
                  || FindVideo(videos, req.videoId.value).value.userId != session.value.id)))
    ensures r == CONFLICT <==>
      ChecksPass(session, req, challenges, videos, now) && PairTaken(submissions, req.videoId.value, req.challengeId.value)
    ensures r == CREATED <==>
      ChecksPass(session, req, challenges, videos, now) && !PairTaken(submissions, req.videoId.value, req.challengeId.value)
  {
    if session.None? then UNAUTHORIZED
    else if !MaySubmit(session.value.role) then FORBIDDEN
    else if !Truthy(req.videoId) || !Truthy(req.challengeId) then BAD_REQUEST
    else
      match FindChallenge(challenges, req.challengeId.value)
      case None => NOT_FOUND
      case Some(c) =>
        if !TakesSubmissions(c, now) then FORBIDDEN
        else
          match FindVideo(videos, req.videoId.value)
          case None => FORBIDDEN
          case Some(v) =>
            if v.userId != session.value.id then FORBIDDEN
            else if PairTaken(submissions, req.videoId.value, req.challengeId.value) then CONFLICT
            else CREATED
  }

  // The messages of the POST replies.
  const AUTH_REQUIRED := "Authentication required."
  const STUDENTS_ONLY := "Only students can submit videos to challenges."
  const MISSING_FIELDS := "Missing required fields: videoId and challengeId."
  const CHALLENGE_NOT_FOUND := "Challenge not found."
  const CHALLENGE_CLOSED := "This challenge is not currently open for submissions."
  const VIDEO_NOT_OWNED := "Video not found or does not belong to the current user."
  const ALREADY_SUBMITTED := "This video has already been submitted to this challenge."
  const SUBMITTED_PREFIX := "Video successfully submitted to challenge: "

  /**
   * POST. The unique (videoId, challengeId) constraint is the store's
   * invariant; the id the ORM assigns to the new link is `newId`.
   */
  method Submit(db: Store, session: Session, req: SubmitRequest, now: int, newId: string)
    returns (resp: Response<string>)
    requires db.Valid()
    requires !SubmissionIdUsed(db.submissions, newId)
    modifies db
    ensures db.Valid()
    ensures resp.status == SubmitStatus(session, req, old(db.challenges), old(db.videos), old(db.submissions), now)
    ensures resp.status == CREATED ==>
      && resp.data == Some(newId)
      && db.submissions == old(db.submissions) + [Submission(newId, req.challengeId.value, req.videoId.value, now)]
    ensures resp.status != CREATED ==> resp.data.None? && db.submissions == old(db.submissions)
    ensures db.challenges == old(db.challenges) && db.videos == old(db.videos) && db.notes == old(db.notes)
  {
    if session.None? {
      return Response(UNAUTHORIZED, AUTH_REQUIRED, None);
    }
    var student := session.value;
    if !MaySubmit(student.role) {
      return Response(FORBIDDEN, STUDENTS_ONLY, None);
    }
    if !Truthy(req.videoId) || !Truthy(req.challengeId) {
      return Response(BAD_REQUEST, MISSING_FIELDS, None);
    }
    var videoId, challengeId := req.videoId.value, req.challengeId.value;
    var challenge := FindChallenge(db.challenges, challengeId);
    if challenge.None? {
      return Response(NOT_FOUND, CHALLENGE_NOT_FOUND, None);
    }
    if !challenge.value.isActive || challenge.value.endDate < now {
      return Response(FORBIDDEN, CHALLENGE_CLOSED, None);
    }
    var video := FindVideo(db.videos, videoId);
    if video.None? || video.value.userId != student.id {
      return Response(FORBIDDEN, VIDEO_NOT_OWNED, None);
    }
    if PairTaken(db.submissions, videoId, challengeId) {
      // The unique constraint fails the insert (P2002).
      return Response(CONFLICT, ALREADY_SUBMITTED, None);
    }
    var row := Submission(newId, challengeId, videoId, now);
    SubmissionsUniqueAppend(db.submissions, row);
    db.submissions := db.submissions + [row];
    resp := Response(CREATED, SUBMITTED_PREFIX + challenge.value.title, Some(newId));
  }

  /**
   * A submission is admitted exactly when there is a session whose role may
   * submit, both ids are given, the challenge exists, is active and has not
   * ended, the video exists and belongs to the caller, and the pair is new.
   */
  lemma SubmitAdmittedIff(session: Session, req: SubmitRequest, challenges: seq<Challenge>,
                          videos: seq<Video>, submissions: seq<Submission>, now: int)
    requires ChallengeIdsUnique(challenges) && VideoIdsUnique(videos)
    ensures SubmitStatus(session, req, challenges, videos, submissions, now) == CREATED <==>
      && session.Some? && MaySubmit(session.value.role)
      && Truthy(req.videoId) && Truthy(req.challengeId)
      && (exists c :: c in challenges && c.id == req.challengeId.value && c.isActive && c.endDate >= now)
      && (exists v :: v in videos && v.id == req.videoId.value && v.userId == session.value.id)
      && !PairTaken(submissions, req.videoId.value, req.challengeId.value)
  {
    if && session.Some? && MaySubmit(session.value.role)
       && Truthy(req.videoId) && Truthy(req.challengeId)
    {
      var cid, vid := req.challengeId.value, req.videoId.value;
      var fc := FindChallenge(challenges, cid);
      var fv := FindVideo(videos, vid);
      if c :| c in challenges && c.id == cid && c.isActive && c.endDate >= now {
        FindChallengeUnique(challenges, c);
      }
      if v :| v in videos && v.id == vid && v.userId == session.value.id {
        FindVideoUnique(videos, v);
      }
    }
  }

  lemma FindChallengeUnique(cs: seq<Challenge>, c: Challenge)
    requires ChallengeIdsUnique(cs) && c in cs
    ensures FindChallenge(cs, c.id) == Some(c)
  {
    var k :| 0 <= k < |cs| && cs[k] == c;
    var r := FindChallenge(cs, c.id);
    if r.Some? {
      var m :| 0 <= m < |cs| && cs[m] == r.value;
      assert m == k;
    }
  }

  lemma FindVideoUnique(vs: seq<Video>, v: Video)
    requires VideoIdsUnique(vs) && v in vs
    ensures FindVideo(vs, v.id) == Some(v)
  {
    var k :| 0 <= k < |vs| && vs[k] == v;
    var r := FindVideo(vs, v.id);
    if r.Some? {
      var m :| 0 <= m < |vs| && vs[m] == r.value;
      assert m == k;
    }
  }

  /** Start dates play no part in admission: a challenge that has not started yet is admitted alike. */
  lemma {:induction false} SubmitIgnoresStartDate(session: Session, req: SubmitRequest, challenges: seq<Challenge>,
                                                 shifted: seq<Challenge>, videos: seq<Video>,
                                                 submissions: seq<Submission>, now: int)
    requires |shifted| == |challenges|
    requires forall i :: 0 <= i < |challenges| ==> shifted[i] == challenges[i].(startDate := shifted[i].startDate)
    ensures SubmitStatus(session, req, shifted, videos, submissions, now)
         == SubmitStatus(session, req, challenges, videos, submissions, now)
  {
    if Truthy(req.challengeId) {
      FindIgnoresStartDate(challenges, shifted, req.challengeId.value);
    }
  }

  lemma {:induction false} FindIgnoresStartDate(challenges: seq<Challenge>, shifted: seq<Challenge>, id: string)
    requires |shifted| == |challenges|
    requires forall i :: 0 <= i < |challenges| ==> shifted[i] == challenges[i].(startDate := shifted[i].startDate)
    ensures FindChallenge(shifted, id).None? <==> FindChallenge(challenges, id).None?
    ensures FindChallenge(shifted, id).Some? ==>
      FindChallenge(shifted, id).value == FindChallenge(challenges, id).value.(startDate := FindChallenge(shifted, id).value.startDate)
    decreases |challenges|
  {
    if challenges != [] && challenges[0].id != id {
      FindIgnoresStartDate(challenges[1..], shifted[1..], id);
    }
  }

  /** A challenge whose end date is the request instant still takes submissions, yet is not listed by GET. */
  lemma EndInstantAdmittedButUnlisted(c: Challenge, now: int)
    requires c.isActive && c.endDate == now
    ensures TakesSubmissions(c, now) && !Listed(c, now)
  {
  }

  /** Submitting the same pair again after it was admitted is refused with 409, and with nothing else changed. */
  lemma SecondSubmissionConflicts(session: Session, req: SubmitRequest, challenges: seq<Challenge>,
                                 videos: seq<Video>, submissions: seq<Submission>, now: int)
    requires SubmitStatus(session, req, challenges, videos, submissions, now) == CREATED
    ensures forall id: string, t: int ::
      SubmitStatus(session, req, challenges, videos,
                   submissions + [Submission(id, req.challengeId.value, req.videoId.value, t)], now) == CONFLICT
  {
    forall id: string, t: int
      ensures SubmitStatus(session, req, challenges, videos,
                   submissions + [Submission(id, req.challengeId.value, req.videoId.value, t)], now) == CONFLICT
    {
      var s2 := submissions + [Submission(id, req.challengeId.value, req.videoId.value, t)];
      assert s2[|submissions|].videoId == req.videoId.value;
    }
  }
}
