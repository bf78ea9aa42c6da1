/**
 * The student's own video list: any signed-in user with an id gets the id,
 * title and creation instant of the videos they uploaded, newest first. The
 * route has no role check.
 */
module StudentVideosRoute {
  import opened Common
  import opened Seqs
  import opened Database
  import VideosRoute

  /** The three selected columns. */
  datatype VideoRow = VideoRow(id: string, title: string, createdAt: int)

  /** `session?.user || null`, then `!user || !user.id`. */
  predicate Authenticated(session: Session)
  {
    session.Some? && session.value.id != ""
  }

  function Project(v: Video): VideoRow
  {
    VideoRow(v.id, v.title, v.createdAt)
  }

  /** GET. */
  function Get(session: Session, videos: seq<Video>): (r: Response<seq<VideoRow>>)
    ensures !Authenticated(session) <==> r.status == UNAUTHORIZED
    ensures !Authenticated(session) ==> r.data.None?
    ensures Authenticated(session) ==> r.status == OK && r.data.Some?
  {
    if !Authenticated(session) then Response(UNAUTHORIZED, "Authentication required.", None)
    else
      var rows := VideosRoute.OwnRows(videos, session.value.id);
      Response(OK, "", Some(seq(|rows|, i requires 0 <= i < |rows| => Project(rows[i]))))
  }

  /**
   * A signed-in caller of any role receives one row per own video and no
   * other, newest first, each row holding exactly the video's id, title and
   * creation instant.
   */
  lemma GetListsOwnVideosProjected(session: Session, videos: seq<Video>)
    requires Authenticated(session)
    ensures var rows := Get(session, videos).data.value;
      var uid := session.value.id;
      && |rows| == |Filter(videos, (v: Video) => v.userId == uid)|
      && (forall i :: 0 <= i < |rows| ==> exists v :: v in videos && v.userId == uid && rows[i] == VideoRow(v.id, v.title, v.createdAt))
      && (forall v :: v in videos && v.userId == uid ==> VideoRow(v.id, v.title, v.createdAt) in rows)
      && (forall i, j :: 0 <= i < j < |rows| ==> rows[i].createdAt >= rows[j].createdAt)
  {
    var uid := session.value.id;
    VideosRoute.GetListsExactlyOwnVideos(videos, uid);
    RowsAreOwnVideos(session, videos);
    OwnVideosAreRows(session, videos);
    RowsNewestFirst(session, videos);
  }

  /** Every row is the projection of one of the caller's videos. */
  lemma RowsAreOwnVideos(session: Session, videos: seq<Video>)
    requires Authenticated(session)
    ensures var rows := Get(session, videos).data.value;
      var uid := session.value.id;
      forall i :: 0 <= i < |rows| ==> exists v :: v in videos && v.userId == uid && rows[i] == VideoRow(v.id, v.title, v.createdAt)
  {
    var uid := session.value.id;
    var own := VideosRoute.OwnRows(videos, uid);
    VideosRoute.GetListsExactlyOwnVideos(videos, uid);
    var rows := Get(session, videos).data.value;
    forall i | 0 <= i < |rows|
      ensures exists v :: v in videos && v.userId == uid && rows[i] == VideoRow(v.id, v.title, v.createdAt)
    {
      assert rows[i] == Project(own[i]);
      assert own[i] in videos && own[i].userId == uid;
    }
  }

  /** Every video of the caller shows up as a row. */
  lemma OwnVideosAreRows(session: Session, videos: seq<Video>)
    requires Authenticated(session)
    ensures var rows := Get(session, videos).data.value;
      var uid := session.value.id;
      forall v :: v in videos && v.userId == uid ==> VideoRow(v.id, v.title, v.createdAt) in rows
  {
    var uid := session.value.id;
    var own := VideosRoute.OwnRows(videos, uid);
    VideosRoute.GetListsExactlyOwnVideos(videos, uid);
    var rows := Get(session, videos).data.value;
    forall v | v in videos && v.userId == uid ensures VideoRow(v.id, v.title, v.createdAt) in rows {
      var k :| 0 <= k < |own| && own[k] == v;
      assert rows[k] == Project(v);
    }
  }

  /** The rows are newest first. */
  lemma RowsNewestFirst(session: Session, videos: seq<Video>)
    requires Authenticated(session)
    ensures var rows := Get(session, videos).data.value;
      forall i, j :: 0 <= i < j < |rows| ==> rows[i].createdAt >= rows[j].createdAt
  {
    var uid := session.value.id;
    var own := VideosRoute.OwnRows(videos, uid);
    VideosRoute.GetListsExactlyOwnVideos(videos, uid);
    var rows := Get(session, videos).data.value;
    forall i, j | 0 <= i < j < |rows| ensures rows[i].createdAt >= rows[j].createdAt {
      assert rows[i].createdAt == own[i].createdAt && rows[j].createdAt == own[j].createdAt;
    }
  }
}
