/**
 * The supervisor's view of every video: only a signed-in supervisor is
 * served, and gets all videos newest first, each with its notes newest first.
 */
module SupervisorVideosRoute {
  import opened Common
  import opened Seqs
  import opened Database

  /** A video with its notes. */
  datatype VideoWithNotes = VideoWithNotes(video: Video, notes: seq<VideoNote>)

  /** The notes on one video, newest first. */
  function NotesOf(notes: seq<VideoNote>, videoId: string): seq<VideoNote>
  {
    SortBy(Filter(notes, (n: VideoNote) => n.videoId == videoId), (n: VideoNote) => n.createdAt, true)
  }

  function AllVideos(videos: seq<Video>, notes: seq<VideoNote>): seq<VideoWithNotes>
  {
    var rows := SortBy(videos, (v: Video) => v.createdAt, true);
    seq(|rows|, i requires 0 <= i < |rows| => VideoWithNotes(rows[i], NotesOf(notes, rows[i].id)))
  }

  /** GET: 401 without a session, 403 for every role but supervisor (admins included). */
  function Get(session: Session, videos: seq<Video>, notes: seq<VideoNote>): (r: Response<seq<VideoWithNotes>>)
    ensures r.status == UNAUTHORIZED <==> session.None?
    ensures r.status == FORBIDDEN <==> session.Some? && session.value.role != "supervisor"
    ensures r.status == OK <==> session.Some? && session.value.role == "supervisor"
    ensures r.status == OK <==> r.data.Some?
  {
    if session.None? then Response(UNAUTHORIZED, "Unauthorized access. No session found.", None)
    else if session.value.role != "supervisor" then
      Response(FORBIDDEN, "Access denied. Only supervisors can view all videos.", None)
    else Response(OK, "", Some(AllVideos(videos, notes)))
  }

  /**
   * A supervisor receives every video of the table, whoever uploaded it,
   * newest first; each video's notes are exactly the notes on it, newest first.
   */
  lemma SupervisorSeesEveryVideo(videos: seq<Video>, notes: seq<VideoNote>)
    ensures var r := AllVideos(videos, notes);
      && |r| == |videos|
      && (forall v :: v in videos ==> exists i :: 0 <= i < |r| && r[i].video == v)
      && (forall i, j :: 0 <= i < j < |r| ==> r[i].video.createdAt >= r[j].video.createdAt)
      && (forall i :: 0 <= i < |r| ==>
            && (forall n :: n in notes && n.videoId == r[i].video.id ==> n in r[i].notes)
            && (forall k :: 0 <= k < |r[i].notes| ==> r[i].notes[k].videoId == r[i].video.id)
            && (forall k, l :: 0 <= k < l < |r[i].notes| ==> r[i].notes[k].createdAt >= r[i].notes[l].createdAt))
  {
    var key := (v: Video) => v.createdAt;
    var rows := SortBy(videos, key, true);
    SortByCorrect(videos, key, true);
    var r := AllVideos(videos, notes);
    forall v | v in videos ensures exists i :: 0 <= i < |r| && r[i].video == v {
      assert v in multiset(rows);
      var k :| 0 <= k < |rows| && rows[k] == v;
      assert r[k].video == v;
    }
    forall i, j | 0 <= i < j < |r| ensures r[i].video.createdAt >= r[j].video.createdAt {
      assert InOrder(rows[i], rows[j], key, true);
    }
    forall i | 0 <= i < |r|
      ensures && (forall n :: n in notes && n.videoId == r[i].video.id ==> n in r[i].notes)
              && (forall k :: 0 <= k < |r[i].notes| ==> r[i].notes[k].videoId == r[i].video.id)
              && (forall k, l :: 0 <= k < l < |r[i].notes| ==> r[i].notes[k].createdAt >= r[i].notes[l].createdAt)
    {
      NotesOfExact(notes, r[i].video.id);
    }
  }

  /**
   * A video's notes are exactly the stored notes on that video, each as often
   * as in the table, newest first.
   */
  lemma NotesOfExact(notes: seq<VideoNote>, videoId: string)
    ensures var r := NotesOf(notes, videoId);
      && multiset(r) == multiset(Filter(notes, (n: VideoNote) => n.videoId == videoId))
      && (forall n :: n in notes && n.videoId == videoId ==> n in r)
      && (forall k :: 0 <= k < |r| ==> r[k] in notes && r[k].videoId == videoId)
      && (forall k, l :: 0 <= k < l < |r| ==> r[k].createdAt >= r[l].createdAt)
  {
    var p := (n: VideoNote) => n.videoId == videoId;
    var key := (n: VideoNote) => n.createdAt;
    FilterSortExact(notes, p, key, true);
    var r := NotesOf(notes, videoId);
    forall k, l | 0 <= k < l < |r| ensures r[k].createdAt >= r[l].createdAt {
      assert InOrder(r[k], r[l], key, true);
    }
  }
}
