/**
 * The admin's user-details dialog: note timestamps as
 * `m:ss`, and the inline player, which only opens for a video whose object
 * key is a non-empty string and closes whenever the dialog closes. Its role
 * badge is the role dialog's, `UserRoleChanger.RoleVariant`.
 */
module UserDetails {
  import opened Common

  /** `formatTimestamp`: "N/A" without a timestamp, else unpadded minutes, a colon and two-digit seconds. */
  function FormatTimestamp(ms: Option<int>): (r: string)
    ensures ms.None? ==> r == "N/A"
  {
    if ms.None? then "N/A"
    else
      var totalSeconds := ms.value / 1000;
      var minutes := totalSeconds / 60;
      var seconds := JsRem(totalSeconds, 60);
      IntToString(minutes) + ":" + PadStart(IntToString(seconds), 2, '0')
  }

  /**
   * `text` is `m:SS`: the minutes without padding, a colon, and exactly two
   * digits of seconds below 60, together reading back as `total` seconds.
   */
  ghost predicate TimestampText(text: string, total: int)
  {
    exists mm: string, ss: string ::
      && text == mm + ":" + ss
      && total >= 0 && mm == ToRadix(total / 60, 10)
      && |ss| == 2
      && (forall i :: 0 <= i < |ss| ==> DigitValue(ss[i]) < 10)
      && ParseRadix(ss, 10) < 60
      && ParseRadix(mm, 10) * 60 + ParseRadix(ss, 10) == total
  }

  /** For a non-negative timestamp the text reads back as its whole seconds. */
  lemma FormatTimestampReadsBack(ms: int)
    requires ms >= 0
    ensures TimestampText(FormatTimestamp(Some(ms)), ms / 1000)
  {
    var totalSeconds := ms / 1000;
    var minutes := totalSeconds / 60;
    var seconds := totalSeconds % 60;
    FormatTimestampParts(ms);
    TwoDigitSeconds(seconds);
    ToRadixRoundTrip(minutes, 10);
    TimestampTextFrom(FormatTimestamp(Some(ms)), IntToString(minutes), PadStart(IntToString(seconds), 2, '0'),
                      minutes, seconds, totalSeconds);
  }

  /** Packs the parts of a timestamp text into `TimestampText`. */
  lemma TimestampTextFrom(text: string, mm: string, ss: string, minutes: nat, seconds: nat, total: int)
    requires text == mm + ":" + ss && mm == ToRadix(minutes, 10)
    requires |ss| == 2 && forall i :: 0 <= i < |ss| ==> DigitValue(ss[i]) < 10
    requires ParseRadix(mm, 10) == minutes && ParseRadix(ss, 10) == seconds
    requires seconds < 60 && minutes * 60 + seconds == total
    ensures TimestampText(text, total)
  {
    assert total / 60 == minutes;
  }

  /** For a non-negative timestamp the remainder is the non-negative one. */
  lemma FormatTimestampParts(ms: int)
    requires ms >= 0
    ensures FormatTimestamp(Some(ms))
         == IntToString(ms / 1000 / 60) + ":" + PadStart(IntToString(ms / 1000 % 60), 2, '0')
  {
    assert JsRem(ms / 1000, 60) == ms / 1000 % 60;
  }

  /** Seconds below 60, padded to two places: exactly two digits reading back as the seconds. */
  lemma TwoDigitSeconds(seconds: nat)
    requires seconds < 60
    ensures var ss := PadStart(IntToString(seconds), 2, '0');
      && |ss| == 2
      && (forall i :: 0 <= i < |ss| ==> DigitValue(ss[i]) < 10)
      && ParseRadix(ss, 10) == seconds
  {
    PadStartZeros(ToRadix(seconds, 10), 2, 10);
    ToRadixRoundTrip(seconds, 10);
    assert Pow(10, 2) == 100;
    ToRadixLength(seconds, 10, 2);
  }

  /** An uploaded video as the dialog receives it; `s3Key` may be missing from the reply. */
  datatype VideoData = VideoData(id: string, title: string, createdAt: int, s3Key: Option<string>)

  /** A note the user wrote, with the title of the video it is on. */
  datatype NoteData = NoteData(id: string, content: string, timestampMs: Option<int>, videoTitle: string)

  /** The detail reply for one user. */
  datatype Details = Details(
    id: string,
    name: string,
    email: string,
    role: string,
    uploadedVideos: seq<VideoData>,
    createdNotes: seq<NoteData>)

  /** `typeof video.s3Key === 'string' && video.s3Key.length > 0`. */
  predicate IsPlayable(v: VideoData)
  {
    v.s3Key.Some? && v.s3Key.value != ""
  }

  /** The dialog's player state. */
  class UserDetailsModal {
    var activeVideo: Option<VideoData>

    /** Only a playable video is ever active. */
    ghost predicate Valid()
      reads this
    {
      activeVideo.Some? ==> IsPlayable(activeVideo.value)
    }

    constructor ()
      ensures Valid() && activeVideo.None?
    {
      activeVideo := None;
    }

    /** A click on a video row opens the player for that video, if it is playable. */
    method ClickVideo(v: VideoData)
      requires Valid()
      modifies this
      ensures Valid()
      ensures IsPlayable(v) ==> activeVideo == Some(v)
      ensures !IsPlayable(v) ==> activeVideo == old(activeVideo)
    {
      if v.s3Key.Some? && v.s3Key.value != "" {
        activeVideo := Some(v);
      }
    }

    /**
     * The accordion's `onValueChange`: any value other than the player's own
     * item (collapsing it) clears the active video.
     */
    method AccordionChanged(value: string)
      requires Valid()
      modifies this
      ensures Valid()
      ensures value != "video-player" ==> activeVideo.None?
      ensures value == "video-player" ==> activeVideo == old(activeVideo)
    {
      if value != "video-player" {
        activeVideo := None;
      }
    }

    /** The effect on `isOpen`: closing the dialog closes the player. */
    method OpenChanged(isOpen: bool)
      requires Valid()
      modifies this
      ensures Valid()
      ensures !isOpen ==> activeVideo.None?
      ensures isOpen ==> activeVideo == old(activeVideo)
    {
      if !isOpen {
        activeVideo := None;
      }
    }
  }
}
