/**
 * The supervisor's page for one video: the list of timestamped notes, the
 * form that adds a note at the player's current position, and seeking the
 * player to a note. The note route and the player are reduced to the
 * outcome of their calls.
 */
module VideoDetailClient {
  import opened Common
  import opened Seqs

  /** `formatTime`: "General" for a note without a timestamp, else minutes and seconds, each at least two digits. */
  function FormatTime(ms: Option<int>): (r: string)
    ensures ms.None? ==> r == "General"
  {
    if ms.None? then "General"
    else
      var totalSeconds := ms.value / 1000;
      var minutes := totalSeconds / 60;
      var seconds := JsRem(totalSeconds, 60);
      PadStart(IntToString(minutes), 2, '0') + ":" + PadStart(IntToString(seconds), 2, '0')
  }

  /**
   * For a non-negative timestamp the text is `MM:SS`: both parts are digit
   * strings of at least two characters, the seconds part is exactly two
   * digits below 60, and together they read back as the whole seconds.
   */
  lemma FormatTimeReadsBack(ms: int)
    requires ms >= 0
    ensures ClockText(FormatTime(Some(ms)), ms / 1000)
  {
    var totalSeconds := ms / 1000;
    var minutes := totalSeconds / 60;
    var seconds := totalSeconds % 60;
    FormatTimeParts(ms);
    PaddedDigits(minutes);
    PaddedDigits(seconds);
    ClockTextFrom(FormatTime(Some(ms)), PadStart(IntToString(minutes), 2, '0'), PadStart(IntToString(seconds), 2, '0'),
                  minutes, seconds, totalSeconds);
  }

  /**
   * `text` is `MM:SS`: both parts digit strings of at least two characters,
   * the seconds exactly two digits below 60, together reading back as `total` seconds.
   */
  ghost predicate ClockText(text: string, total: int)
  {
    exists mm: string, ss: string ::
      && text == mm + ":" + ss
      && |mm| >= 2 && |ss| == 2
      && (forall i :: 0 <= i < |mm| ==> DigitValue(mm[i]) < 10)
      && (forall i :: 0 <= i < |ss| ==> DigitValue(ss[i]) < 10)
      && ParseRadix(ss, 10) < 60
      && ParseRadix(mm, 10) * 60 + ParseRadix(ss, 10) == total
  }

  /** Packs the parts of a clock text into `ClockText`. */
  lemma ClockTextFrom(text: string, mm: string, ss: string, minutes: nat, seconds: nat, total: int)
    requires text == mm + ":" + ss
    requires |mm| >= 2 && (seconds < 100 ==> |ss| == 2)
    requires forall i :: 0 <= i < |mm| ==> DigitValue(mm[i]) < 10
    requires forall i :: 0 <= i < |ss| ==> DigitValue(ss[i]) < 10
    requires ParseRadix(mm, 10) == minutes && ParseRadix(ss, 10) == seconds
    requires seconds < 60 && minutes * 60 + seconds == total
    ensures ClockText(text, total)
  {
  }

  /** For a non-negative timestamp the remainder is the non-negative one. */
  lemma FormatTimeParts(ms: int)
    requires ms >= 0
    ensures FormatTime(Some(ms))
         == PadStart(IntToString(ms / 1000 / 60), 2, '0') + ":" + PadStart(IntToString(ms / 1000 % 60), 2, '0')
  {
    assert JsRem(ms / 1000, 60) == ms / 1000 % 60;
  }

  /** `String(n).padStart(2, '0')` for n >= 0: digits, at least two of them, reading back as n; exactly two below 100. */
  lemma PaddedDigits(n: nat)
    ensures var p := PadStart(IntToString(n), 2, '0');
      && |p| >= 2
      && (forall i :: 0 <= i < |p| ==> DigitValue(p[i]) < 10)
      && ParseRadix(p, 10) == n
      && (n < 100 ==> |p| == 2)
  {
    PadStartZeros(ToRadix(n, 10), 2, 10);
    ToRadixRoundTrip(n, 10);
    if n < 100 {
      assert Pow(10, 2) == 100;
      ToRadixLength(n, 10, 2);
    }
  }

  /** A note as the page holds it; `createdAt` is in milliseconds. */
  datatype ClientNote = ClientNote(id: string, content: string, timestampMs: Option<int>, createdAt: int, supervisorName: string)

  /** The body of the POST to the note route. */
  datatype NoteRequest = NoteRequest(content: string, timestampMs: Option<int>, videoId: string, supervisorId: string)

  /** The note route's answer: the created note's fields, or a failure. */
  datatype NoteReply = Created(id: string, content: string, timestampMs: Option<int>) | Failed

  /** The notes after one is added: ascending by creation instant, ties in their earlier order. */
  function NotesAfterAdd(notes: seq<ClientNote>, added: ClientNote): seq<ClientNote>
  {
    SortBy(notes + [added], (n: ClientNote) => n.createdAt, false)
  }

  /** Adding a note keeps every earlier note, adds exactly the new one, and leaves the list in ascending order. */
  lemma NotesAfterAddExact(notes: seq<ClientNote>, added: ClientNote)
    ensures var r := NotesAfterAdd(notes, added);
      && |r| == |notes| + 1
      && multiset(r) == multiset(notes) + multiset{added}
      && forall i, j :: 0 <= i < j < |r| ==> r[i].createdAt <= r[j].createdAt
  {
    var key := (n: ClientNote) => n.createdAt;
    SortByCorrect(notes + [added], key, false);
    var r := NotesAfterAdd(notes, added);
    forall i, j | 0 <= i < j < |r| ensures r[i].createdAt <= r[j].createdAt {
      assert InOrder(r[i], r[j], key, false);
    }
  }

  const NOTE_ADDED := Toast("success", "Note added successfully!", "")
  const NOTE_FAILED := Toast("error", "Could not add note. Please try again.", "")

  /** The page's state for video `videoId`, viewed by supervisor `supervisorId`. */
  class VideoDetailPage {
    const videoId: string
    const supervisorId: string
    const supervisorName: string
    var notes: seq<ClientNote>
    var newNoteContent: string
    var isSubmitting: bool
    /** Requests sent to the note route, oldest first. */
    var requests: seq<NoteRequest>
    /** Toasts shown, oldest first. */
    var toasts: seq<Toast>
    /** The player's position in seconds and whether it plays. */
    var currentTime: real
    var playing: bool

    constructor (videoId: string, supervisorId: string, supervisorName: string, initialNotes: seq<ClientNote>)
      ensures this.videoId == videoId && this.supervisorId == supervisorId && this.supervisorName == supervisorName
      ensures notes == initialNotes && newNoteContent == "" && !isSubmitting && requests == [] && toasts == []
      ensures currentTime == 0.0 && !playing
    {
      this.videoId := videoId;
      this.supervisorId := supervisorId;
      this.supervisorName := supervisorName;
      notes := initialNotes;
      newNoteContent := "";
      isSubmitting := false;
      requests := [];
      toasts := [];
      currentTime := 0.0;
      playing := false;
    }

    /**
     * `handleAddNote`. `playerMs` is the player's position in whole
     * milliseconds (`None` without a player), `reply` the route's answer and
     * `clientNow` the browser's clock. A note is sent when its text does not
     * trim to nothing, that is when it is not all whitespace
     * (`Common.TrimEmptyIffBlank`).
     */
    method HandleAddNote(playerMs: Option<int>, reply: NoteReply, clientNow: int)
      modifies this
      ensures AllWhitespace(old(newNoteContent)) ==>
        notes == old(notes) && newNoteContent == old(newNoteContent) && requests == old(requests) && toasts == old(toasts)
      ensures !AllWhitespace(old(newNoteContent)) ==>
        requests == old(requests) + [NoteRequest(Trim(old(newNoteContent)), playerMs, videoId, supervisorId)]
      ensures !AllWhitespace(old(newNoteContent)) && reply.Created? ==>
        && notes == NotesAfterAdd(old(notes), ClientNote(reply.id, reply.content, reply.timestampMs, clientNow, supervisorName))
        && newNoteContent == ""
        && toasts == old(toasts) + [NOTE_ADDED]
      ensures !AllWhitespace(old(newNoteContent)) && reply.Failed? ==>
        notes == old(notes) && newNoteContent == old(newNoteContent) && toasts == old(toasts) + [NOTE_FAILED]
      ensures AllWhitespace(old(newNoteContent)) ==> isSubmitting == old(isSubmitting)
      ensures !AllWhitespace(old(newNoteContent)) ==> !isSubmitting
      ensures currentTime == old(currentTime) && playing == old(playing)
    {
      if AllWhitespace(newNoteContent) {
        return;
      }
      var noteData := NoteRequest(Trim(newNoteContent), playerMs, videoId, supervisorId);
      isSubmitting := true;
      requests := requests + [noteData];
      var outcome: Toast;
      if reply.Created? {
        var added := ClientNote(reply.id, reply.content, reply.timestampMs, clientNow, supervisorName);
        notes := NotesAfterAdd(notes, added);
        newNoteContent := "";
        outcome := NOTE_ADDED;
      } else {
        outcome := NOTE_FAILED;
      }
      toasts := toasts + [outcome];
      isSubmitting := false;
    }

    /** `handleSeekToNote`: only a mounted player and a timestamped note move the player. */
    method HandleSeekToNote(playerMounted: bool, timestampMs: Option<int>)
      modifies this
      ensures playerMounted && timestampMs.Some? ==> currentTime == timestampMs.value as real / 1000.0 && playing
      ensures !(playerMounted && timestampMs.Some?) ==> currentTime == old(currentTime) && playing == old(playing)
      ensures notes == old(notes) && newNoteContent == old(newNoteContent) && requests == old(requests)
      ensures isSubmitting == old(isSubmitting) && toasts == old(toasts)
    {
      if playerMounted && timestampMs.Some? {
        currentTime := timestampMs.value as real / 1000.0;
        playing := true;
      }
    }
  }
}
