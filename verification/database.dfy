/**
 * The rows the route handlers read and write, and the store that holds them.
 * Each ORM table is a sequence in insertion order; the store's invariant is
 * what the schema's keys guarantee: ids are unique in every table, and a
 * (videoId, challengeId) pair occurs in at most one submission.
 * Timestamps are milliseconds since the epoch.
 */
module Database {
  import opened Common

  datatype Challenge = Challenge(
    id: string,
    title: string,
    description: Option<string>,
    startDate: int,
    endDate: int,
    isActive: bool,
    creatorId: string,
    createdAt: int,
    updatedAt: int)

  datatype Video = Video(
    id: string,
    title: string,
    description: Option<string>,
    s3Key: string,
    fileSize: int,
    contentType: string,
    userId: string,
    createdAt: int)

  /** A supervisor's note on a video; the scored one serves as the video's feedback. */
  datatype VideoNote = VideoNote(
    id: string,
    content: string,
    timestampMs: Option<int>,
    score: Option<int>,
    supervisorId: string,
    videoId: string,
    createdAt: int,
    updatedAt: int)

  /** The link between one video and one challenge. */
  datatype Submission = Submission(id: string, challengeId: string, videoId: string, createdAt: int)

  /** First challenge with the given id (`findUnique`). */
  function FindChallenge(cs: seq<Challenge>, id: string): (r: Option<Challenge>)
    ensures r.Some? ==> r.value in cs && r.value.id == id
    ensures r.None? ==> forall i :: 0 <= i < |cs| ==> cs[i].id != id
  {
    if cs == [] then None
    else if cs[0].id == id then Some(cs[0])
    else FindChallenge(cs[1..], id)
  }

  /** First video with the given id (`findUnique`). */
  function FindVideo(vs: seq<Video>, id: string): (r: Option<Video>)
    ensures r.Some? ==> r.value in vs && r.value.id == id
    ensures r.None? ==> forall i :: 0 <= i < |vs| ==> vs[i].id != id
  {
    if vs == [] then None
    else if vs[0].id == id then Some(vs[0])
    else FindVideo(vs[1..], id)
  }

  predicate ChallengeIdsUnique(cs: seq<Challenge>)
  {
    forall i, j :: 0 <= i < j < |cs| ==> cs[i].id != cs[j].id
  }

  predicate VideoIdsUnique(vs: seq<Video>)
  {
    forall i, j :: 0 <= i < j < |vs| ==> vs[i].id != vs[j].id
  }

  predicate NoteIdsUnique(ns: seq<VideoNote>)
  {
    forall i, j :: 0 <= i < j < |ns| ==> ns[i].id != ns[j].id
  }

  /** Ids unique, and the (videoId, challengeId) unique constraint. */
  predicate SubmissionsUnique(ss: seq<Submission>)
  {
    forall i, j :: 0 <= i < j < |ss| ==>
      ss[i].id != ss[j].id && (ss[i].videoId, ss[i].challengeId) != (ss[j].videoId, ss[j].challengeId)
  }

  /** Is the pair already submitted? */
  predicate PairTaken(ss: seq<Submission>, videoId: string, challengeId: string)
  {
    exists i :: 0 <= i < |ss| && ss[i].videoId == videoId && ss[i].challengeId == challengeId
  }

  predicate SubmissionIdUsed(ss: seq<Submission>, id: string)
  {
    exists i :: 0 <= i < |ss| && ss[i].id == id
  }

  predicate ChallengeIdUsed(cs: seq<Challenge>, id: string)
  {
    exists i :: 0 <= i < |cs| && cs[i].id == id
  }

  predicate VideoIdUsed(vs: seq<Video>, id: string)
  {
    exists i :: 0 <= i < |vs| && vs[i].id == id
  }

  /** A row with a fresh id and a fresh pair keeps the submissions unique. */
  lemma SubmissionsUniqueAppend(ss: seq<Submission>, row: Submission)
    requires SubmissionsUnique(ss)
    requires !SubmissionIdUsed(ss, row.id) && !PairTaken(ss, row.videoId, row.challengeId)
    ensures SubmissionsUnique(ss + [row])
  {
    var t := ss + [row];
    forall i, j | 0 <= i < j < |t|
      ensures t[i].id != t[j].id && (t[i].videoId, t[i].challengeId) != (t[j].videoId, t[j].challengeId)
    {
      if j == |ss| {
        assert t[i] == ss[i] && t[j] == row;
      }
    }
  }

  /** The database the handlers share. */
  class Store {
    var challenges: seq<Challenge>
    var videos: seq<Video>
    var notes: seq<VideoNote>
    var submissions: seq<Submission>

    ghost predicate Valid()
      reads this
    {
      && ChallengeIdsUnique(challenges)
      && VideoIdsUnique(videos)
      && NoteIdsUnique(notes)
      && SubmissionsUnique(submissions)
    }

    constructor ()
      ensures Valid()
      ensures challenges == [] && videos == [] && notes == [] && submissions == []
    {
      challenges, videos, notes, submissions := [], [], [], [];
    }
  }
}
