/**
 * `/api/admin/challenge`: challenge management. Reading is open to the three
 * reviewer roles (and a single active challenge to anyone); creating,
 * updating and deleting are for admins and professionals only.
 */
module AdminChallengeRoute {
  import opened Common
  import opened Seqs
  import opened Database

  // ---------------------------------------------------------------------
  // Authorization
  // ---------------------------------------------------------------------

  const AUTHORIZED_ROLES: seq<string> := ["admin", "professional", "supervisor"]

  datatype Authorization = Granted(user: User) | Denied(status: int, message: string)

  /** `authorizeManagerOrReviewer`: a session whose role is one of the reviewer roles. */
  function Authorize(session: Session): (a: Authorization)
    ensures a.Granted? <==> session.Some? && session.value.role in AUTHORIZED_ROLES
    ensures a.Granted? ==> a.user == session.value
    ensures session.None? ==> a == Denied(UNAUTHORIZED, "Authentication required.")
    ensures session.Some? && a.Denied? ==> a.status == FORBIDDEN
  {
    if session.None? then Denied(UNAUTHORIZED, "Authentication required.")
    else if session.value.role !in AUTHORIZED_ROLES then
      Denied(FORBIDDEN, "Access denied. Requires one of the following roles: " + Join(AUTHORIZED_ROLES, ", ") + ".")
    else Granted(session.value)
  }

  /** The gate of POST, PUT and DELETE: authorized, and not as a supervisor. */
  predicate CanManage(session: Session)
  {
    var a := Authorize(session);
    a.Granted? && a.user.role != "supervisor"
  }

  /**
   * Exactly admins and professionals pass the write gate; an anonymous
   * caller is refused with 403 there, never 401.
   */
  lemma ManagersAreAdminsAndProfessionals(session: Session)
    ensures CanManage(session) <==> session.Some? && (session.value.role == "admin" || session.value.role == "professional")
  {
  }

  // ---------------------------------------------------------------------
  // POST: create
  // ---------------------------------------------------------------------

  /**
   * A date of the JSON body: the raw text, and the instant `new Date(raw)`
   * denotes (`None` for an Invalid Date, which the ORM refuses).
   */
  datatype DateField = DateField(raw: string, instant: Option<int>)

  predicate DateTruthy(d: Option<DateField>)
  {
    d.Some? && d.value.raw != ""
  }

  datatype CreateRequest = CreateRequest(
    title: Option<string>,
    description: Option<string>,
    startDate: Option<DateField>,
    endDate: Option<DateField>,
    isActive: Option<bool>)

  /**
   * The status POST answers with: the write gate (403), the three required
   * fields (400), a date the ORM cannot store (500), else 201.
   * Nothing compares the start date with the end date.
   */
  function CreateStatus(session: Session, req: CreateRequest): (r: int)
    ensures r == CREATED <==>
      && CanManage(session) && Truthy(req.title) && DateTruthy(req.startDate) && DateTruthy(req.endDate)
      && req.startDate.value.instant.Some? && req.endDate.value.instant.Some?
    ensures r == FORBIDDEN <==> !CanManage(session)
    ensures r == BAD_REQUEST <==>
      CanManage(session) && (!Truthy(req.title) || !DateTruthy(req.startDate) || !DateTruthy(req.endDate))
  {
    if !CanManage(session) then FORBIDDEN
    else if !Truthy(req.title) || !DateTruthy(req.startDate) || !DateTruthy(req.endDate) then BAD_REQUEST
    else if req.startDate.value.instant.None? || req.endDate.value.instant.None? then SERVER_ERROR
    else CREATED
  }

  /** The row POST inserts: `isActive` defaults to true, the creator is the caller. */
  function NewChallenge(req: CreateRequest, creator: User, id: string, now: int): (c: Challenge)
    requires Truthy(req.title) && DateTruthy(req.startDate) && DateTruthy(req.endDate)
    requires req.startDate.value.instant.Some? && req.endDate.value.instant.Some?
    ensures c.id == id && c.creatorId == creator.id
    ensures c.isActive <==> req.isActive != Some(false)
    ensures c.startDate == req.startDate.value.instant.value && c.endDate == req.endDate.value.instant.value
  {
    Challenge(
      id, req.title.value, req.description,
      req.startDate.value.instant.value, req.endDate.value.instant.value,
      if req.isActive.Some? then req.isActive.value else true,
      creator.id, now, now)
  }

  /** POST. The id the ORM assigns to the new challenge is `newId`. */
  method Create(db: Store, session: Session, req: CreateRequest, now: int, newId: string)
    returns (resp: Response<Challenge>)
    requires db.Valid()
    requires !ChallengeIdUsed(db.challenges, newId)
    modifies db
    ensures db.Valid()
    ensures resp.status == CreateStatus(session, req)
    ensures resp.status == CREATED ==>
      var c := NewChallenge(req, session.value, newId, now);
      resp.data == Some(c) && db.challenges == old(db.challenges) + [c]
    ensures resp.status != CREATED ==> resp.data.None? && db.challenges == old(db.challenges)
    ensures db.videos == old(db.videos) && db.notes == old(db.notes) && db.submissions == old(db.submissions)
  {
    if !CanManage(session) {
      return Response(FORBIDDEN, "Access denied. Only Admin or Professional can create challenges.", None);
    }
    if !Truthy(req.title) || !DateTruthy(req.startDate) || !DateTruthy(req.endDate) {
      return Response(BAD_REQUEST, "Missing required fields: title, startDate, and endDate.", None);
    }
    if req.startDate.value.instant.None? || req.endDate.value.instant.None? {
      return Response(SERVER_ERROR, "Failed to create challenge.", None);
    }
    var c := NewChallenge(req, session.value, newId, now);
    db.challenges := db.challenges + [c];
    resp := Response(CREATED, "", Some(c));
  }

  /** A challenge may be created ending before it starts: the dates are never compared. */
  lemma CreateAcceptsAnyDateOrder(session: Session, title: string, start: int, end: int)
    requires CanManage(session) && title != ""
    ensures CreateStatus(session, CreateRequest(Some(title), None,
              Some(DateField("start", Some(start))), Some(DateField("end", Some(end))), None)) == CREATED
  {
  }

  // ---------------------------------------------------------------------
  // GET: detail or list
  // ---------------------------------------------------------------------

  /** The selected columns of a note (the author's name join is not part of this model). */
  datatype NoteSummary = NoteSummary(id: string, score: Option<int>, content: string, updatedAt: int, supervisorId: string)

  datatype SubmittedVideo = SubmittedVideo(id: string, title: string, s3Key: string, uploaderId: string, notes: seq<NoteSummary>)

  /** A submission with its video; the video is always there while the foreign key holds. */
  datatype SubmissionSummary = SubmissionSummary(id: string, video: Option<SubmittedVideo>)

  datatype ChallengeDetail = ChallengeDetail(
    id: string,
    title: string,
    description: Option<string>,
    startDate: int,
    endDate: int,
    isActive: bool,
    creatorId: string,
    submissions: Option<seq<SubmissionSummary>>)

  datatype ChallengeSummary = ChallengeSummary(challenge: Challenge, submissionCount: nat)

  datatype Listing = Detail(detail: ChallengeDetail) | List(items: seq<ChallengeSummary>)

  /** The notes of a video as the relation yields them, at most the first one (`take: 1`). */
  function FirstNote(notes: seq<VideoNote>, videoId: string): (r: seq<NoteSummary>)
    ensures |r| <= 1
    ensures |r| == 1 <==> exists n :: n in notes && n.videoId == videoId
  {
    var mine := Filter(notes, (n: VideoNote) => n.videoId == videoId);
    if mine == [] then []
    else
      var n := mine[0];
      [NoteSummary(n.id, n.score, n.content, n.updatedAt, n.supervisorId)]
  }

  function SummarizeSubmission(s: Submission, videos: seq<Video>, notes: seq<VideoNote>): SubmissionSummary
  {
    match FindVideo(videos, s.videoId)
    case None => SubmissionSummary(s.id, None)
    case Some(v) => SubmissionSummary(s.id, Some(SubmittedVideo(v.id, v.title, v.s3Key, v.userId, FirstNote(notes, v.id))))
  }

  function SubmissionsOf(id: string, videos: seq<Video>, notes: seq<VideoNote>, submissions: seq<Submission>): (r: seq<SubmissionSummary>)
    ensures |r| == |Filter(submissions, (s: Submission) => s.challengeId == id)|
  {
    var mine := Filter(submissions, (s: Submission) => s.challengeId == id);
    seq(|mine|, i requires 0 <= i < |mine| => SummarizeSubmission(mine[i], videos, notes))
  }

  function CountFor(submissions: seq<Submission>, id: string): nat
  {
    |Filter(submissions, (s: Submission) => s.challengeId == id)|
  }

  /** GET with an `id`: the challenge, with its submissions for reviewers only. */
  function GetDetail(reviewer: bool, id: string, challenges: seq<Challenge>, videos: seq<Video>,
                     notes: seq<VideoNote>, submissions: seq<Submission>): (r: Response<Listing>)
    ensures r.status == OK || r.status == NOT_FOUND
    ensures r.status == OK <==>
      FindChallenge(challenges, id).Some? && (reviewer || FindChallenge(challenges, id).value.isActive)
    ensures r.status == OK ==>
      && r.data.Some? && r.data.value.Detail?
      && r.data.value.detail.id == id
      && (r.data.value.detail.submissions.Some? <==> reviewer)
    ensures r.status == OK ==>
      var c := FindChallenge(challenges, id).value;
      var d := r.data.value.detail;
      && d.title == c.title && d.description == c.description
      && d.startDate == c.startDate && d.endDate == c.endDate
      && d.isActive == c.isActive && d.creatorId == c.creatorId
      && (reviewer ==> d.submissions == Some(SubmissionsOf(id, videos, notes, submissions)))
    ensures r.status == NOT_FOUND ==> r.data.None?
  {
    match FindChallenge(challenges, id)
    case None => Response(NOT_FOUND, "Challenge not found.", None)
    case Some(c) =>
      if !reviewer && !c.isActive then Response(NOT_FOUND, "Challenge not found or not active.", None)
      else
        var subs := if reviewer then Some(SubmissionsOf(id, videos, notes, submissions)) else None;
        Response(OK, "", Some(Detail(ChallengeDetail(c.id, c.title, c.description, c.startDate, c.endDate,
                                                     c.isActive, c.creatorId, subs))))
  }

  /** GET without an `id`: every challenge, newest first, each with its submission count. */
  function GetList(challenges: seq<Challenge>, submissions: seq<Submission>): (r: seq<ChallengeSummary>)
  {
    var rows := SortBy(challenges, (c: Challenge) => c.createdAt, true);
    seq(|rows|, i requires 0 <= i < |rows| => ChallengeSummary(rows[i], CountFor(submissions, rows[i].id)))
  }

  /** GET. `id` is the query parameter (`None` when absent). */
  function Get(session: Session, id: Option<string>, challenges: seq<Challenge>, videos: seq<Video>,
               notes: seq<VideoNote>, submissions: seq<Submission>): (r: Response<Listing>)
    ensures !Truthy(id) && Authorize(session).Denied? ==>
      r.status == Authorize(session).status && r.status in {UNAUTHORIZED, FORBIDDEN} && r.data.None?
    ensures !Truthy(id) && Authorize(session).Granted? ==>
      r == Response(OK, "", Some(List(GetList(challenges, submissions))))
    ensures Truthy(id) ==>
      r == GetDetail(Authorize(session).Granted?, id.value, challenges, videos, notes, submissions)
  {
    var auth := Authorize(session);
    if Truthy(id) then GetDetail(auth.Granted?, id.value, challenges, videos, notes, submissions)
    else if auth.Denied? then Response(auth.status, auth.message, None)
    else Response(OK, "", Some(List(GetList(challenges, submissions))))
  }

  /**
   * The list holds every challenge once, newest `createdAt` first, and each
   * entry's count is the number of submissions to that challenge.
   */
  lemma GetListOrderedAndCounted(challenges: seq<Challenge>, submissions: seq<Submission>)
    ensures var r := GetList(challenges, submissions);
      && |r| == |challenges|
      && (forall i, j :: 0 <= i < j < |r| ==> r[i].challenge.createdAt >= r[j].challenge.createdAt)
      && (forall c :: c in challenges <==> exists i :: 0 <= i < |r| && r[i].challenge == c)
      && (forall i :: 0 <= i < |r| ==> r[i].submissionCount == |Filter(submissions, (s: Submission) => s.challengeId == r[i].challenge.id)|)
  {
    GetListOrdered(challenges, submissions);
    GetListSameChallenges(challenges, submissions);
  }

  /** The list is newest first. */
  lemma GetListOrdered(challenges: seq<Challenge>, submissions: seq<Submission>)
    ensures var r := GetList(challenges, submissions);
      forall i, j :: 0 <= i < j < |r| ==> r[i].challenge.createdAt >= r[j].challenge.createdAt
  {
    var key := (c: Challenge) => c.createdAt;
    var rows := SortBy(challenges, key, true);
    SortByCorrect(challenges, key, true);
    var r := GetList(challenges, submissions);
    forall i, j | 0 <= i < j < |r|
      ensures r[i].challenge.createdAt >= r[j].challenge.createdAt
    {
      assert InOrder(rows[i], rows[j], key, true);
    }
  }

  /** The list holds one entry per stored challenge and no other. */
  lemma GetListSameChallenges(challenges: seq<Challenge>, submissions: seq<Submission>)
    ensures var r := GetList(challenges, submissions);
      && |r| == |challenges|
      && forall c :: c in challenges <==> exists i :: 0 <= i < |r| && r[i].challenge == c
  {
    var key := (c: Challenge) => c.createdAt;
    var rows := SortBy(challenges, key, true);
    SortByCorrect(challenges, key, true);
    var r := GetList(challenges, submissions);
    forall c
      ensures c in challenges <==> exists i :: 0 <= i < |r| && r[i].challenge == c
    {
      if c in challenges {
        assert c in multiset(rows);
        var m :| 0 <= m < |rows| && rows[m] == c;
        assert r[m].challenge == c;
      }
      if i :| 0 <= i < |r| && r[i].challenge == c {
        assert rows[i] in multiset(challenges);
      }
    }
  }

  /**
   * In a detail reply each submission of the challenge appears once, in
   * table order, and each video carries at most its first note.
   */
  lemma DetailSubmissionsOfChallenge(id: string, videos: seq<Video>, notes: seq<VideoNote>, submissions: seq<Submission>)
    ensures var r := SubmissionsOf(id, videos, notes, submissions);
      var mine := Filter(submissions, (s: Submission) => s.challengeId == id);
      && |r| == |mine|
      && (forall i :: 0 <= i < |r| ==> r[i].id == mine[i].id && mine[i].challengeId == id)
      && (forall i :: 0 <= i < |r| && r[i].video.Some? ==> |r[i].video.value.notes| <= 1)
      && (forall s :: s in submissions && s.challengeId == id ==> s in mine)
  {
    var r := SubmissionsOf(id, videos, notes, submissions);
    forall i | 0 <= i < |r| && r[i].video.Some?
      ensures |r[i].video.value.notes| <= 1
    {
      var mine := Filter(submissions, (s: Submission) => s.challengeId == id);
      var v := FindVideo(videos, mine[i].videoId);
      assert r[i] == SummarizeSubmission(mine[i], videos, notes);
    }
  }

  // ---------------------------------------------------------------------
  // PUT: partial update
  // ---------------------------------------------------------------------

  /** A field of an update body: absent (`undefined`, left as stored) or given. */
  datatype Patch<T> = Keep | Put(value: T)

  datatype UpdateRequest = UpdateRequest(
    id: Option<string>,
    title: Patch<string>,
    description: Patch<Option<string>>,
    startDate: Option<DateField>,
    endDate: Option<DateField>,
    isActive: Patch<bool>)

  function PatchOr<T>(p: Patch<T>, stored: T): T
  {
    if p.Put? then p.value else stored
  }

  /** A truthy date must parse; a falsy one is dropped. */
  predicate DatesParse(req: UpdateRequest)
  {
    && (DateTruthy(req.startDate) ==> req.startDate.value.instant.Some?)
    && (DateTruthy(req.endDate) ==> req.endDate.value.instant.Some?)
  }

  function DateOr(d: Option<DateField>, stored: int): int
    requires DateTruthy(d) ==> d.value.instant.Some?
  {
    if DateTruthy(d) then d.value.instant.value else stored
  }

  /** The row after the update: absent fields and falsy dates keep their stored value. */
  function Patched(c: Challenge, req: UpdateRequest, now: int): (r: Challenge)
    requires DatesParse(req)
    ensures r.id == c.id && r.creatorId == c.creatorId && r.createdAt == c.createdAt && r.updatedAt == now
    ensures req.title.Keep? ==> r.title == c.title
    ensures req.description.Keep? ==> r.description == c.description
    ensures req.isActive.Keep? ==> r.isActive == c.isActive
    ensures !DateTruthy(req.startDate) ==> r.startDate == c.startDate
    ensures !DateTruthy(req.endDate) ==> r.endDate == c.endDate
  {
    c.(title := PatchOr(req.title, c.title),
       description := PatchOr(req.description, c.description),
       startDate := DateOr(req.startDate, c.startDate),
       endDate := DateOr(req.endDate, c.endDate),
       isActive := PatchOr(req.isActive, c.isActive),
       updatedAt := now)
  }

  /** The table with the row of that id patched and every other row as it was. */
  function UpdateRows(cs: seq<Challenge>, id: string, req: UpdateRequest, now: int): (r: seq<Challenge>)
    requires DatesParse(req)
    ensures |r| == |cs|
    ensures forall i :: 0 <= i < |cs| && cs[i].id != id ==> r[i] == cs[i]
    ensures forall i :: 0 <= i < |cs| && cs[i].id == id ==> r[i] == Patched(cs[i], req, now)
  {
    seq(|cs|, i requires 0 <= i < |cs| => if cs[i].id == id then Patched(cs[i], req, now) else cs[i])
  }

  /**
   * PUT: the write gate (403), a missing id (400), a date the ORM cannot
   * store (500), an unknown id (404, P2025); else 200 with the updated row.
   */
  method Update(db: Store, session: Session, req: UpdateRequest, now: int) returns (resp: Response<Challenge>)
    requires db.Valid()
    modifies db
    ensures db.Valid()
    ensures !CanManage(session) ==> resp.status == FORBIDDEN
    ensures CanManage(session) && !Truthy(req.id) ==> resp.status == BAD_REQUEST
    ensures CanManage(session) && Truthy(req.id) && !DatesParse(req) ==> resp.status == SERVER_ERROR
    ensures CanManage(session) && Truthy(req.id) && DatesParse(req) ==>
      resp.status == (if ChallengeIdUsed(old(db.challenges), req.id.value) then OK else NOT_FOUND)
    ensures resp.status == OK ==>
      && db.challenges == UpdateRows(old(db.challenges), req.id.value, req, now)
      && resp.data == Some(Patched(FindChallenge(old(db.challenges), req.id.value).value, req, now))
    ensures resp.status != OK ==> db.challenges == old(db.challenges) && resp.data.None?
    ensures db.videos == old(db.videos) && db.notes == old(db.notes) && db.submissions == old(db.submissions)
  {
    if !CanManage(session) {
      return Response(FORBIDDEN, "Access denied. Only Admin or Professional can update challenges.", None);
    }
    if !Truthy(req.id) {
      return Response(BAD_REQUEST, "Challenge ID is required for update.", None);
    }
    if !DatesParse(req) {
      return Response(SERVER_ERROR, "Failed to update challenge.", None);
    }
    var id := req.id.value;
    var found := FindChallenge(db.challenges, id);
    if found.None? {
      return Response(NOT_FOUND, "Challenge not found.", None);
    }
    var old_rows := db.challenges;
    db.challenges := UpdateRows(db.challenges, id, req, now);
    assert ChallengeIdsUnique(db.challenges) by {
      forall i, j | 0 <= i < j < |db.challenges| ensures db.challenges[i].id != db.challenges[j].id {
        assert db.challenges[i].id == old_rows[i].id && db.challenges[j].id == old_rows[j].id;
      }
    }
    resp := Response(OK, "", Some(Patched(found.value, req, now)));
  }

  // ---------------------------------------------------------------------
  // DELETE
  // ---------------------------------------------------------------------

  /**
   * DELETE: the write gate (403), a missing id (400), an unknown id (404,
   * P2025); else the row is removed, together with its submissions (the
   * relation cascades), and 200 is returned.
   */
  method Delete(db: Store, session: Session, id: Option<string>) returns (resp: Response<string>)
    requires db.Valid()
    modifies db
    ensures db.Valid()
    ensures !CanManage(session) ==> resp.status == FORBIDDEN
    ensures CanManage(session) && !Truthy(id) ==> resp.status == BAD_REQUEST
    ensures CanManage(session) && Truthy(id) ==>
      resp.status == (if ChallengeIdUsed(old(db.challenges), id.value) then OK else NOT_FOUND)
    ensures resp.status == OK ==>
      && db.challenges == Filter(old(db.challenges), (c: Challenge) => c.id != id.value)
      && db.submissions == Filter(old(db.submissions), (s: Submission) => s.challengeId != id.value)
    ensures resp.status != OK ==> db.challenges == old(db.challenges) && db.submissions == old(db.submissions)
    ensures db.videos == old(db.videos) && db.notes == old(db.notes)
  {
    if !CanManage(session) {
      return Response(FORBIDDEN, "Access denied. Only Admin or Professional can delete challenges.", None);
    }
    if !Truthy(id) {
      return Response(BAD_REQUEST, "Challenge ID is required for deletion.", None);
    }
    var key := id.value;
    if FindChallenge(db.challenges, key).None? {
      return Response(NOT_FOUND, "Challenge not found.", None);
    }
    FilterPairwise(db.challenges, (c: Challenge) => c.id != key, (a: Challenge, b: Challenge) => a.id != b.id);
    FilterPairwise(db.submissions, (s: Submission) => s.challengeId != key,
      (a: Submission, b: Submission) => a.id != b.id && (a.videoId, a.challengeId) != (b.videoId, b.challengeId));
    db.challenges := Filter(db.challenges, (c: Challenge) => c.id != key);
    db.submissions := Filter(db.submissions, (s: Submission) => s.challengeId != key);
    resp := Response(OK, "Challenge successfully deleted.", None);
  }

  /** After a delete no row carries the id and every row with another id is still there. */
  lemma DeleteRemovesExactlyThatChallenge(cs: seq<Challenge>, id: string)
    ensures var r := Filter(cs, (c: Challenge) => c.id != id);
      && (forall i :: 0 <= i < |r| ==> r[i].id != id)
      && (forall c :: c in cs && c.id != id ==> c in r)
      && (forall c :: c in r ==> c in cs)
  {
    var r := Filter(cs, (c: Challenge) => c.id != id);
    forall c | c in cs && c.id != id ensures c in r {
      var k :| 0 <= k < |cs| && cs[k] == c;
    }
  }
}
