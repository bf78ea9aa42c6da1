/**
 * The admin's create/edit form for a challenge. Dates are held as instants
 * in milliseconds, truncated to the minute as the `datetime-local` input
 * holds them; the form refuses a start that is not before the end, and sends
 * PUT with the id when it edits, POST otherwise.
 */
module ChallengeForm {
  import opened Common
  import opened Database

  const MINUTE_MS := 60000
  /** Seven days in milliseconds, the default length of a new challenge. */
  const WEEK_MS := 7 * 24 * 60 * 60 * 1000

  /**
   * `formatDateForInput`: the first 16 characters of the UTC ISO text, i.e.
   * the instant with its seconds and milliseconds cut off.
   */
  function FormatDateForInput(t: int): (r: int)
    ensures r % MINUTE_MS == 0
    ensures r <= t < r + MINUTE_MS
  {
    t - t % MINUTE_MS
  }

  /** Truncating twice is truncating once, and a whole week added before truncation survives it. */
  lemma FormatDateForInputShifts(t: int)
    ensures FormatDateForInput(FormatDateForInput(t)) == FormatDateForInput(t)
    ensures FormatDateForInput(t + WEEK_MS) == FormatDateForInput(t) + WEEK_MS
  {
    var r := FormatDateForInput(t);
    assert WEEK_MS == 10080 * MINUTE_MS;
    assert r + WEEK_MS <= t + WEEK_MS < r + WEEK_MS + MINUTE_MS;
    MinuteFloorUnique(t + WEEK_MS, r + WEEK_MS);
    MinuteFloorUnique(r, r);
  }

  /** The only whole minute `m` with `m <= t < m + MINUTE_MS` is the truncation of `t`. */
  lemma MinuteFloorUnique(t: int, m: int)
    requires m % MINUTE_MS == 0 && m <= t < m + MINUTE_MS
    ensures FormatDateForInput(t) == m
  {
    var r := FormatDateForInput(t);
    var q := m / MINUTE_MS;
    var q' := r / MINUTE_MS;
    assert m == q * MINUTE_MS && r == q' * MINUTE_MS;
    assert (q + 1) * MINUTE_MS == m + MINUTE_MS && (q' + 1) * MINUTE_MS == r + MINUTE_MS;
    LessMulCancel(q', q + 1, MINUTE_MS);
    LessMulCancel(q, q' + 1, MINUTE_MS);
  }

  /** The form's fields. */
  datatype FormData = FormData(title: string, description: string, startDate: int, endDate: int, isActive: bool)

  /** The form of a new challenge at `now`: empty texts, a week-long window from this minute, active. */
  function DefaultForm(now: int): (f: FormData)
    ensures f.title == "" && f.description == "" && f.isActive
    ensures f.startDate == FormatDateForInput(now) && f.endDate - f.startDate == WEEK_MS
  {
    FormatDateForInputShifts(now);
    FormData("", "", FormatDateForInput(now), FormatDateForInput(now + WEEK_MS), true)
  }

  /** The form of a challenge being edited: a missing description becomes empty, the dates are truncated. */
  function EditForm(c: Challenge): (f: FormData)
    ensures f.title == c.title && f.isActive == c.isActive
    ensures f.description == (if c.description.Some? then c.description.value else "")
    ensures f.startDate == FormatDateForInput(c.startDate) && f.endDate == FormatDateForInput(c.endDate)
  {
    FormData(c.title, if c.description.Some? then c.description.value else "",
             FormatDateForInput(c.startDate), FormatDateForInput(c.endDate), c.isActive)
  }

  /** One keystroke or picker change: `handleChange` on one named field. */
  datatype Edit = TitleEdit(title: string) | DescriptionEdit(description: string) | StartEdit(start: int) | EndEdit(end: int)

  /** `{...prev, [name]: value}`. */
  function Apply(f: FormData, e: Edit): (r: FormData)
    ensures r.isActive == f.isActive
    ensures r.title == (if e.TitleEdit? then e.title else f.title)
    ensures r.description == (if e.DescriptionEdit? then e.description else f.description)
    ensures r.startDate == (if e.StartEdit? then e.start else f.startDate)
    ensures r.endDate == (if e.EndEdit? then e.end else f.endDate)
  {
    match e
    case TitleEdit(t) => f.(title := t)
    case DescriptionEdit(d) => f.(description := d)
    case StartEdit(s) => f.(startDate := s)
    case EndEdit(d) => f.(endDate := d)
  }

  /** The request the form sends: PUT carries the id in front of the fields, POST the fields alone. */
  datatype SaveRequest = PutChallenge(id: string, form: FormData) | PostChallenge(form: FormData)

  /** The route's answer: ok, a non-ok reply with its optional message, or a thrown exception's message. */
  datatype SaveReply = Saved | SaveRejected(message: Option<string>) | SaveThrew(thrown: string)

  /** The toast a failed save shows. */
  function FailureToast(editing: bool, reply: SaveReply): (t: Toast)
    requires !reply.Saved?
    ensures t.kind == "error"
    ensures t.title == (if editing then "Error Updating Challenge" else "Error Creating Challenge")
    ensures reply.SaveRejected? && !Truthy(reply.message) ==>
      t.description == (if editing then "Failed to update challenge." else "Failed to create challenge.")
    ensures reply.SaveRejected? && Truthy(reply.message) ==> t.description == reply.message.value
    ensures reply.SaveThrew? ==> t.description == reply.thrown
  {
    var title := if editing then "Error Updating Challenge" else "Error Creating Challenge";
    match reply
    case SaveRejected(message) =>
      Toast("error", title,
            if Truthy(message) then message.value
            else if editing then "Failed to update challenge." else "Failed to create challenge.")
    case SaveThrew(thrown) => Toast("error", title, thrown)
  }

  /** The request for the current form: with the edited challenge's id when there is one. */
  function RequestFor(challengeToEdit: Option<Challenge>, f: FormData): (r: SaveRequest)
    ensures r.form == f
    ensures r.PutChallenge? <==> challengeToEdit.Some?
    ensures r.PutChallenge? ==> r.id == challengeToEdit.value.id
  {
    if challengeToEdit.Some? then PutChallenge(challengeToEdit.value.id, f) else PostChallenge(f)
  }

  const VALIDATION_TOAST := Toast("error", "Validation Failed", "Start date must be before end date.")

  /** The form's state, the requests it has sent, the `onSuccess` calls and its toasts. */
  class Form {
    var challengeToEdit: Option<Challenge>
    var formData: FormData
    var isSubmitting: bool
    var requests: seq<SaveRequest>
    var successCalls: nat
    var toasts: seq<Toast>

    constructor (now: int)
      ensures challengeToEdit.None? && formData == DefaultForm(now)
      ensures !isSubmitting && requests == [] && successCalls == 0 && toasts == []
    {
      challengeToEdit := None;
      formData := DefaultForm(now);
      isSubmitting := false;
      requests := [];
      successCalls := 0;
      toasts := [];
    }

    /** The effect on `challengeToEdit`: load the challenge's fields, or reset to a new challenge at `now`. */
    method Load(c: Option<Challenge>, now: int)
      modifies this
      ensures challengeToEdit == c
      ensures c.Some? ==> formData == EditForm(c.value)
      ensures c.None? ==> formData == DefaultForm(now)
      ensures isSubmitting == old(isSubmitting) && requests == old(requests)
      ensures successCalls == old(successCalls) && toasts == old(toasts)
    {
      challengeToEdit := c;
      if c.Some? {
        formData := EditForm(c.value);
      } else {
        formData := DefaultForm(now);
      }
    }

    /** `handleChange`. */
    method HandleChange(e: Edit)
      modifies this
      ensures formData == Apply(old(formData), e)
      ensures challengeToEdit == old(challengeToEdit) && isSubmitting == old(isSubmitting)
      ensures requests == old(requests) && successCalls == old(successCalls) && toasts == old(toasts)
    {
      formData := Apply(formData, e);
    }

    /** `handleSwitchChange`. */
    method HandleSwitchChange(checked: bool)
      modifies this
      ensures formData == old(formData).(isActive := checked)
      ensures challengeToEdit == old(challengeToEdit) && isSubmitting == old(isSubmitting)
      ensures requests == old(requests) && successCalls == old(successCalls) && toasts == old(toasts)
    {
      formData := formData.(isActive := checked);
    }

    /** `handleSubmit`, with `reply` what the route answers if a request is sent. */
    method HandleSubmit(reply: SaveReply)
      modifies this
      ensures !isSubmitting
      ensures old(formData).startDate >= old(formData).endDate ==>
        && requests == old(requests) && successCalls == old(successCalls)
        && toasts == old(toasts) + [VALIDATION_TOAST]
      ensures old(formData).startDate < old(formData).endDate ==>
        requests == old(requests) + [RequestFor(challengeToEdit, old(formData))]
      ensures old(formData).startDate < old(formData).endDate && reply.Saved? ==>
        successCalls == old(successCalls) + 1 && toasts == old(toasts)
      ensures old(formData).startDate < old(formData).endDate && !reply.Saved? ==>
        && successCalls == old(successCalls)
        && toasts == old(toasts) + [FailureToast(challengeToEdit.Some?, reply)]
      ensures formData == old(formData) && challengeToEdit == old(challengeToEdit)
    {
      isSubmitting := true;
      if formData.startDate >= formData.endDate {
        toasts := toasts + [VALIDATION_TOAST];
        isSubmitting := false;
        return;
      }
      requests := requests + [RequestFor(challengeToEdit, formData)];
      if reply.Saved? {
        successCalls := successCalls + 1;
      } else {
        toasts := toasts + [FailureToast(challengeToEdit.Some?, reply)];
      }
      isSubmitting := false;
    }
  }

  /** A new form passes the date check as it stands. */
  lemma DefaultFormPassesDateCheck(now: int)
    ensures DefaultForm(now).startDate < DefaultForm(now).endDate
  {
  }

  /**
   * A stored challenge whose start and end fall within the same minute loads
   * as a form the date check refuses, although the route accepted it.
   */
  lemma SameMinuteChallengeRefused(c: Challenge)
    requires c.startDate < c.endDate && FormatDateForInput(c.startDate) == FormatDateForInput(c.endDate)
    ensures EditForm(c).startDate >= EditForm(c).endDate
  {
  }
}
