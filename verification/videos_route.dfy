/**
 * The video metadata route. POST stores the metadata of a video a student
 * has uploaded, after a role check and the `saveVideoSchema` validation; GET
 * returns the caller's own videos, newest first, each with its notes.
 */
module VideosRoute {
  import opened Common
  import opened Utf16
  import opened Seqs
  import opened Database

  /** The JSON body of a POST, field by field. */
  datatype SaveVideoBody = SaveVideoBody(
    title: Field<string>,
    description: Field<string>,
    s3Key: Field<string>,
    fileSize: Field<int>,
    contentType: Field<string>)

  /** A required string with `min(1)`: present, a string, at least one code unit long. */
  predicate NonEmptyString(f: Field<string>)
  {
    f.Given? && Length(f.value) >= 1
  }

  /** `saveVideoSchema.safeParse(body).success`. */
  predicate ValidBody(body: SaveVideoBody)
  {
    && NonEmptyString(body.title)
    && !body.description.Mistyped?
    && NonEmptyString(body.s3Key)
    && body.fileSize.Given? && body.fileSize.value > 0
    && NonEmptyString(body.contentType)
  }

  /** Only a signed-in student may store video metadata. */
  predicate IsStudent(session: Session)
  {
    session.Some? && session.value.role == "student"
  }

  /** The status POST answers with: the role check comes before the body is looked at. */
  function PostStatus(session: Session, body: SaveVideoBody): (r: int)
    ensures r == FORBIDDEN <==> !IsStudent(session)
    ensures r == BAD_REQUEST <==> IsStudent(session) && !ValidBody(body)
    ensures r == CREATED <==> IsStudent(session) && ValidBody(body)
  {
    if !IsStudent(session) then FORBIDDEN
    else if !ValidBody(body) then BAD_REQUEST
    else CREATED
  }

  /** The row a valid body becomes: the owner is always the caller. */
  function NewVideo(body: SaveVideoBody, caller: User, id: string, now: int): (v: Video)
    requires ValidBody(body)
    ensures v.id == id && v.userId == caller.id && v.createdAt == now
    ensures v.title == body.title.value && v.s3Key == body.s3Key.value
    ensures v.fileSize == body.fileSize.value > 0 && v.contentType == body.contentType.value
    ensures v.description == (if body.description.Given? then Some(body.description.value) else None)
  {
    Video(id, body.title.value, if body.description.Given? then Some(body.description.value) else None,
          body.s3Key.value, body.fileSize.value, body.contentType.value, caller.id, now)
  }

  /**
   * POST. `newId` is the id the database assigns and `now` the creation
   * instant. The reply carries the new id.
   */
  method Post(db: Store, session: Session, body: SaveVideoBody, now: int, newId: string)
    returns (resp: Response<string>)
    requires db.Valid() && !VideoIdUsed(db.videos, newId)
    modifies db
    ensures db.Valid()
    ensures resp.status == PostStatus(session, body)
    ensures resp.status == CREATED ==>
      && db.videos == old(db.videos) + [NewVideo(body, session.value, newId, now)]
      && resp.data == Some(newId)
    ensures resp.status != CREATED ==> db.videos == old(db.videos) && resp.data.None?
    ensures db.challenges == old(db.challenges) && db.notes == old(db.notes) && db.submissions == old(db.submissions)
  {
    if session.None? || session.value.role != "student" {
      return Response(FORBIDDEN, "Unauthorized access or incorrect role.", None);
    }
    if !ValidBody(body) {
      return Response(BAD_REQUEST, "Invalid video metadata", None);
    }
    var v := NewVideo(body, session.value, newId, now);
    db.videos := db.videos + [v];
    resp := Response(CREATED, "Video metadata saved successfully.", Some(newId));
  }

  /** Whatever the body says, an anonymous or non-student caller gets 403, never 400. */
  lemma RoleCheckedBeforeBody(session: Session, body: SaveVideoBody)
    requires !ValidBody(body)
    ensures PostStatus(session, body) == (if IsStudent(session) then BAD_REQUEST else FORBIDDEN)
  {
  }

  /** The selected columns of a note in the GET reply. */
  datatype NoteBrief = NoteBrief(id: string, content: string, timestampMs: Option<int>, createdAt: int)

  /** A video of the GET reply with its notes. */
  datatype OwnVideo = OwnVideo(video: Video, notes: seq<NoteBrief>)

  /** The selected columns of one note. */
  function Brief(n: VideoNote): NoteBrief
  {
    NoteBrief(n.id, n.content, n.timestampMs, n.createdAt)
  }

  /**
   * The notes on one video, in table order (the relation has no `orderBy`):
   * one entry per stored note on that video, each the selected columns of
   * such a note, and every such note has its entry.
   */
  function NotesOf(notes: seq<VideoNote>, videoId: string): (r: seq<NoteBrief>)
    ensures |r| == |Filter(notes, (n: VideoNote) => n.videoId == videoId)|
    ensures forall i :: 0 <= i < |r| ==> exists n :: n in notes && n.videoId == videoId && r[i] == Brief(n)
    ensures forall n :: n in notes && n.videoId == videoId ==> Brief(n) in r
  {
    var mine := Filter(notes, (n: VideoNote) => n.videoId == videoId);
    var r := seq(|mine|, i requires 0 <= i < |mine| => Brief(mine[i]));
    assert forall i :: 0 <= i < |r| ==> r[i] == Brief(mine[i]) && mine[i] in notes;
    assert forall n :: n in notes && n.videoId == videoId ==> n in mine;
    assert forall k :: 0 <= k < |mine| ==> Brief(mine[k]) == r[k];
    r
  }

  /** The caller's videos, newest first. */
  function OwnRows(videos: seq<Video>, userId: string): seq<Video>
  {
    SortBy(Filter(videos, (v: Video) => v.userId == userId), (v: Video) => v.createdAt, true)
  }

  /** GET. Any signed-in user, whatever the role, gets the list of their own videos. */
  function Get(session: Session, videos: seq<Video>, notes: seq<VideoNote>): (r: Response<seq<OwnVideo>>)
    ensures session.None? <==> r.status == UNAUTHORIZED
    ensures session.None? ==> r.data.None?
    ensures session.Some? ==>
      && r.status == OK && r.data.Some?
      && |r.data.value| == |OwnRows(videos, session.value.id)|
      && forall i :: 0 <= i < |r.data.value| ==>
           r.data.value[i] == OwnVideo(OwnRows(videos, session.value.id)[i], NotesOf(notes, OwnRows(videos, session.value.id)[i].id))
  {
    if session.None? then Response(UNAUTHORIZED, "Unauthorized access.", None)
    else
      var rows := OwnRows(videos, session.value.id);
      Response(OK, "", Some(seq(|rows|, i requires 0 <= i < |rows| => OwnVideo(rows[i], NotesOf(notes, rows[i].id)))))
  }

  /**
   * The list holds exactly the caller's videos, each as often as in the
   * table, newest first.
   */
  lemma GetListsExactlyOwnVideos(videos: seq<Video>, userId: string)
    ensures var r := OwnRows(videos, userId);
      && (forall i :: 0 <= i < |r| ==> r[i].userId == userId && r[i] in videos)
      && (forall v :: v in videos && v.userId == userId ==> v in r)
      && (forall i, j :: 0 <= i < j < |r| ==> r[i].createdAt >= r[j].createdAt)
      && |r| == |Filter(videos, (v: Video) => v.userId == userId)|
  {
    var p := (v: Video) => v.userId == userId;
    var key := (v: Video) => v.createdAt;
    FilterSortExact(videos, p, key, true);
    SortByCorrect(Filter(videos, p), key, true);
    var r := OwnRows(videos, userId);
    forall i, j | 0 <= i < j < |r| ensures r[i].createdAt >= r[j].createdAt {
      assert InOrder(r[i], r[j], key, true);
    }
  }

  /** A stored video shows up in its owner's list. */
  lemma PostedVideoIsListed(videos: seq<Video>, body: SaveVideoBody, caller: User, id: string, now: int)
    requires ValidBody(body)
    ensures NewVideo(body, caller, id, now) in OwnRows(videos + [NewVideo(body, caller, id, now)], caller.id)
  {
    var v := NewVideo(body, caller, id, now);
    var s := videos + [v];
    assert s[|videos|] == v;
    GetListsExactlyOwnVideos(s, caller.id);
  }
}
