/**
 * The supervisor's score-and-note form for one submission. It starts from
 * the existing feedback, checks that both fields are filled and the score is
 * within 0..100, and sends the score and the note as typed. The submission
 * route it calls is reduced to its reply.
 */
module FeedbackForm {
  import opened Common
  import AdminChallengeRoute

  /** The score input: empty, or the number it parses to. */
  datatype Score = Blank | Num(n: int)

  /** The form's outcome line. */
  datatype FormStatus = Idle | Success | Error

  /** The body of the PUT. */
  datatype FeedbackRequest = FeedbackRequest(submissionId: string, score: int, note: string)

  /** The route's reply: ok, a non-ok reply with its optional message, or a thrown exception's message. */
  datatype FeedbackReply = OkReply | ErrorReply(message: Option<string>) | NetworkError(thrown: string)

  /** The two ways the fields can be refused. */
  datatype Invalid = Required | OutOfRange

  /** The text the form shows for a refusal. */
  function InvalidMessage(i: Invalid): string
  {
    match i
    case Required => "Score and Note fields are required."
    case OutOfRange => "Score must be a number between 0 and 100."
  }
  const DEFAULT_FAILURE := "Failed to submit feedback."

  /**
   * The validation error of the two fields, if any: the required check comes
   * first, then the range check, whose bounds are inclusive. A note is
   * missing when it trims to nothing, that is when it is all whitespace
   * (`Common.TrimEmptyIffBlank`); `AcceptedIff` restates the result with `Trim`.
   */
  function ValidationError(score: Score, note: string): (e: Option<Invalid>)
    ensures e == Some(Required) <==> score.Blank? || AllWhitespace(note)
    ensures e == Some(OutOfRange) <==> score.Num? && !AllWhitespace(note) && !(0 <= score.n <= 100)
    ensures e.None? <==> score.Num? && 0 <= score.n <= 100 && !AllWhitespace(note)
  {
    if score.Blank? || AllWhitespace(note) then Some(Required)
    else if score.n < 0 || score.n > 100 then Some(OutOfRange)
    else None
  }

  /** The message a failed reply leaves. */
  function FailureMessage(reply: FeedbackReply): (m: string)
    requires !reply.OkReply?
    ensures reply.ErrorReply? && !Truthy(reply.message) ==> m == DEFAULT_FAILURE
    ensures reply.ErrorReply? && Truthy(reply.message) ==> m == reply.message.value
    ensures reply.NetworkError? ==> m == reply.thrown
  {
    match reply
    case ErrorReply(message) => if Truthy(message) then message.value else DEFAULT_FAILURE
    case NetworkError(thrown) => thrown
  }

  /** `initialFeedback?.score ?? ''`: a missing feedback or a missing score leaves the input empty. */
  function InitialScore(initial: Option<AdminChallengeRoute.NoteSummary>): (s: Score)
    ensures s.Num? <==> initial.Some? && initial.value.score.Some?
    ensures s.Num? ==> s.n == initial.value.score.value
  {
    if initial.Some? && initial.value.score.Some? then Num(initial.value.score.value) else Blank
  }

  /** `initialFeedback?.content ?? ''`. */
  function InitialNote(initial: Option<AdminChallengeRoute.NoteSummary>): (s: string)
    ensures initial.None? ==> s == ""
    ensures initial.Some? ==> s == initial.value.content
  {
    if initial.Some? then initial.value.content else ""
  }

  /**
   * The form for submission `submissionId`: the two fields, the status line,
   * and what it has sent and how often it has told its parent about an update.
   */
  class Form {
    const submissionId: string
    var score: Score
    var noteContent: string
    var isSubmitting: bool
    var status: FormStatus
    var errorMessage: Option<string>
    var requests: seq<FeedbackRequest>
    var updatedCalls: nat

    constructor (submissionId: string, initial: Option<AdminChallengeRoute.NoteSummary>)
      ensures this.submissionId == submissionId
      ensures score == InitialScore(initial) && noteContent == InitialNote(initial)
      ensures !isSubmitting && status == Idle && errorMessage.None? && requests == [] && updatedCalls == 0
    {
      this.submissionId := submissionId;
      score := InitialScore(initial);
      noteContent := InitialNote(initial);
      isSubmitting := false;
      status := Idle;
      errorMessage := None;
      requests := [];
      updatedCalls := 0;
    }

    /** The effect on `initialFeedback`: both fields are reloaded and the status line cleared. */
    method Reset(initial: Option<AdminChallengeRoute.NoteSummary>)
      modifies this
      ensures score == InitialScore(initial) && noteContent == InitialNote(initial)
      ensures status == Idle && errorMessage.None?
      ensures isSubmitting == old(isSubmitting) && requests == old(requests) && updatedCalls == old(updatedCalls)
    {
      score := InitialScore(initial);
      noteContent := InitialNote(initial);
      status := Idle;
      errorMessage := None;
    }

    /** `handleSubmit`, with `reply` what the route answers if a request is sent. */
    method HandleSubmit(reply: FeedbackReply)
      modifies this
      ensures ValidationError(old(score), old(noteContent)).Some? ==>
        && requests == old(requests) && updatedCalls == old(updatedCalls)
        && status == Error && errorMessage == Some(InvalidMessage(ValidationError(old(score), old(noteContent)).value))
        && isSubmitting == old(isSubmitting)
      ensures ValidationError(old(score), old(noteContent)).None? ==>
        && requests == old(requests) + [FeedbackRequest(submissionId, old(score).n, old(noteContent))]
        && !isSubmitting
      ensures ValidationError(old(score), old(noteContent)).None? && reply.OkReply? ==>
        status == Success && errorMessage.None? && updatedCalls == old(updatedCalls) + 1
      ensures ValidationError(old(score), old(noteContent)).None? && !reply.OkReply? ==>
        status == Error && errorMessage == Some(FailureMessage(reply)) && updatedCalls == old(updatedCalls)
      ensures score == old(score) && noteContent == old(noteContent)
    {
      var invalid := ValidationError(score, noteContent);
      assert invalid == ValidationError(old(score), old(noteContent));
      errorMessage := None;
      status := Idle;
      if invalid.Some? {
        errorMessage := Some(InvalidMessage(invalid.value));
        status := Error;
        return;
      }
      var request := FeedbackRequest(submissionId, score.n, noteContent);
      isSubmitting := true;
      requests := requests + [request];
      if reply.OkReply? {
        status := Success;
        updatedCalls := updatedCalls + 1;
      } else {
        errorMessage := Some(FailureMessage(reply));
        status := Error;
      }
      isSubmitting := false;
    }
  }

  /**
   * In the source's own terms: the form sends exactly when the score is in
   * range and the note does not trim to the empty string.
   */
  lemma AcceptedIff(score: Score, note: string)
    ensures ValidationError(score, note).None? <==> score.Num? && 0 <= score.n <= 100 && Trim(note) != ""
  {
    TrimEmptyIffBlank(note);
  }

  /** Both ends of the range are accepted, one step beyond either end is refused. */
  lemma RangeBoundsInclusive(note: string)
    requires Trim(note) != ""
    ensures ValidationError(Num(0), note).None? && ValidationError(Num(100), note).None?
    ensures ValidationError(Num(-1), note) == Some(OutOfRange)
    ensures ValidationError(Num(101), note) == Some(OutOfRange)
  {
    TrimEmptyIffBlank(note);
  }

  /** A note that trims to nothing is refused as missing whatever the score, even one out of range. */
  lemma RequiredCheckedFirst(score: Score, note: string)
    requires Trim(note) == ""
    ensures ValidationError(score, note) == Some(Required)
  {
    TrimEmptyIffBlank(note);
  }
}
