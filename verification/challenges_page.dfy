/**
 * The admin's challenge page: the list from the challenge route, the
 * edit selection, and deletion through a confirmation dialog, which removes
 * the challenge from the list without fetching it again.
 */
module ChallengesPage {
  import opened Common
  import opened Database
  import opened Seqs
  import AdminChallengeRoute

  type ChallengeWithCount = AdminChallengeRoute.ChallengeSummary

  /** `prev.filter(c => c.id !== id)`. */
  function WithoutChallenge(cs: seq<ChallengeWithCount>, id: string): (r: seq<ChallengeWithCount>)
    ensures forall i :: 0 <= i < |r| ==> r[i].challenge.id != id && r[i] in cs
    ensures forall c :: c in cs && c.challenge.id != id ==> c in r
  {
    Filter(cs, (c: ChallengeWithCount) => c.challenge.id != id)
  }

  /**
   * Removing a challenge whose id occurs once leaves exactly the rows before
   * and after it, in their order.
   */
  lemma WithoutChallengeRemovesExactlyOne(pre: seq<ChallengeWithCount>, c: ChallengeWithCount, post: seq<ChallengeWithCount>)
    requires forall i :: 0 <= i < |pre| ==> pre[i].challenge.id != c.challenge.id
    requires forall i :: 0 <= i < |post| ==> post[i].challenge.id != c.challenge.id
    ensures WithoutChallenge(pre + [c] + post, c.challenge.id) == pre + post
  {
    var p := (x: ChallengeWithCount) => x.challenge.id != c.challenge.id;
    calc {
      Filter(pre + [c] + post, p);
      { FilterAppend(pre + [c], post, p); }
      Filter(pre + [c], p) + Filter(post, p);
      { FilterAppend(pre, [c], p); }
      Filter(pre, p) + Filter([c], p) + Filter(post, p);
      { FilterAll(pre, p); FilterAll(post, p); assert Filter([c], p) == []; }
      pre + [] + post;
    }
    assert pre + [] + post == pre + post;
  }

  /** Removing an id that is not in the list leaves it as it is. */
  lemma WithoutAbsentIdIsIdentity(cs: seq<ChallengeWithCount>, id: string)
    requires forall i :: 0 <= i < |cs| ==> cs[i].challenge.id != id
    ensures WithoutChallenge(cs, id) == cs
  {
    FilterAll(cs, (c: ChallengeWithCount) => c.challenge.id != id);
  }

  /** How the list fetch ended. */
  datatype ListFetch = Fetched(data: seq<ChallengeWithCount>) | Rejected(message: Option<string>, statusText: string) | Threw(thrown: string)

  /** The text a failed fetch leaves in `error`. */
  function FetchError(outcome: ListFetch): (e: string)
    requires !outcome.Fetched?
    ensures outcome.Rejected? && !Truthy(outcome.message) ==> e == "Failed to fetch challenges: " + outcome.statusText
    ensures outcome.Rejected? && Truthy(outcome.message) ==> e == outcome.message.value
    ensures outcome.Threw? ==> e == outcome.thrown
  {
    match outcome
    case Rejected(message, statusText) => if Truthy(message) then message.value else "Failed to fetch challenges: " + statusText
    case Threw(thrown) => thrown
  }

  /** How the DELETE ended. */
  datatype DeleteReply = Deleted | DeleteRejected(message: Option<string>) | DeleteThrew(thrown: string)

  /** The toast a DELETE leaves. */
  function DeleteToast(id: string, reply: DeleteReply): (t: Toast)
    ensures reply.Deleted? <==> t.kind == "success"
    ensures reply.Deleted? ==> t == Toast("success", "Challenge deleted successfully.", "ID: " + id)
    ensures reply.DeleteRejected? ==>
      t == Toast("error", "Deletion failed", if Truthy(reply.message) then reply.message.value else "Failed to delete challenge.")
    ensures reply.DeleteThrew? ==> t == Toast("error", "Deletion failed", reply.thrown)
  {
    match reply
    case Deleted => Toast("success", "Challenge deleted successfully.", "ID: " + id)
    case DeleteRejected(message) =>
      Toast("error", "Deletion failed", if Truthy(message) then message.value else "Failed to delete challenge.")
    case DeleteThrew(thrown) => Toast("error", "Deletion failed", thrown)
  }

  /** The page's state, the DELETE requests it has sent and its toasts. */
  class Page {
    var challenges: seq<ChallengeWithCount>
    var selectedChallenge: Option<Challenge>
    var isLoading: bool
    var error: Option<string>
    var isDeleteDialogOpen: bool
    var challengeToDeleteId: Option<string>
    var deleteRequests: seq<string>
    var toasts: seq<Toast>

    constructor ()
      ensures challenges == [] && selectedChallenge.None? && isLoading && error.None?
      ensures !isDeleteDialogOpen && challengeToDeleteId.None? && deleteRequests == [] && toasts == []
    {
      challenges := [];
      selectedChallenge := None;
      isLoading := true;
      error := None;
      isDeleteDialogOpen := false;
      challengeToDeleteId := None;
      deleteRequests := [];
      toasts := [];
    }

    /** `fetchChallenges`: the list is replaced on success; on failure it stays and the error is set. */
    method FetchChallenges(outcome: ListFetch)
      modifies this
      ensures !isLoading
      ensures outcome.Fetched? ==> challenges == outcome.data && error.None?
      ensures !outcome.Fetched? ==> challenges == old(challenges) && error == Some(FetchError(outcome))
      ensures selectedChallenge == old(selectedChallenge) && isDeleteDialogOpen == old(isDeleteDialogOpen)
      ensures challengeToDeleteId == old(challengeToDeleteId) && deleteRequests == old(deleteRequests) && toasts == old(toasts)
    {
      isLoading := true;
      error := None;
      if outcome.Fetched? {
        challenges := outcome.data;
      } else {
        error := Some(FetchError(outcome));
      }
      isLoading := false;
    }

    /** `handleFormSuccess`: the selection is cleared, a toast shown and the list fetched again. */
    method HandleFormSuccess(outcome: ListFetch)
      modifies this
      ensures selectedChallenge.None? && !isLoading
      ensures toasts == old(toasts) + [Toast("success", "Challenge saved successfully!", "")]
      ensures outcome.Fetched? ==> challenges == outcome.data && error.None?
      ensures !outcome.Fetched? ==> challenges == old(challenges) && error == Some(FetchError(outcome))
      ensures isDeleteDialogOpen == old(isDeleteDialogOpen) && challengeToDeleteId == old(challengeToDeleteId)
      ensures deleteRequests == old(deleteRequests)
    {
      selectedChallenge := None;
      toasts := toasts + [Toast("success", "Challenge saved successfully!", "")];
      FetchChallenges(outcome);
    }

    /** `initiateDelete`: remember the id and open the dialog. */
    method InitiateDelete(id: string)
      modifies this
      ensures challengeToDeleteId == Some(id) && isDeleteDialogOpen
      ensures challenges == old(challenges) && selectedChallenge == old(selectedChallenge)
      ensures deleteRequests == old(deleteRequests) && toasts == old(toasts)
    {
      challengeToDeleteId := Some(id);
      isDeleteDialogOpen := true;
    }

    /** `executeDelete`, with `reply` what the route answers if a request is sent. */
    method ExecuteDelete(reply: DeleteReply)
      modifies this
      ensures !Truthy(old(challengeToDeleteId)) ==>
        && challenges == old(challenges) && isDeleteDialogOpen == old(isDeleteDialogOpen)
        && challengeToDeleteId == old(challengeToDeleteId)
        && deleteRequests == old(deleteRequests) && toasts == old(toasts)
      ensures Truthy(old(challengeToDeleteId)) ==>
        && !isDeleteDialogOpen && challengeToDeleteId.None?
        && deleteRequests == old(deleteRequests) + [old(challengeToDeleteId).value]
        && toasts == old(toasts) + [DeleteToast(old(challengeToDeleteId).value, reply)]
      ensures Truthy(old(challengeToDeleteId)) && reply.Deleted? ==>
        challenges == WithoutChallenge(old(challenges), old(challengeToDeleteId).value)
      ensures Truthy(old(challengeToDeleteId)) && !reply.Deleted? ==> challenges == old(challenges)
      ensures selectedChallenge == old(selectedChallenge) && isLoading == old(isLoading) && error == old(error)
    {
      if !Truthy(challengeToDeleteId) {
        return;
      }
      isDeleteDialogOpen := false;
      var id := challengeToDeleteId.value;
      deleteRequests := deleteRequests + [id];
      if reply.Deleted? {
        challenges := WithoutChallenge(challenges, id);
      }
      toasts := toasts + [DeleteToast(id, reply)];
      challengeToDeleteId := None;
    }

    /** `handleEdit`: the nine stored fields are selected; the count and the creator are dropped. */
    method HandleEdit(c: ChallengeWithCount)
      modifies this
      ensures selectedChallenge == Some(c.challenge)
      ensures challenges == old(challenges) && isDeleteDialogOpen == old(isDeleteDialogOpen)
      ensures challengeToDeleteId == old(challengeToDeleteId) && deleteRequests == old(deleteRequests) && toasts == old(toasts)
    {
      var base := Challenge(c.challenge.id, c.challenge.title, c.challenge.description, c.challenge.startDate,
                            c.challenge.endDate, c.challenge.isActive, c.challenge.creatorId,
                            c.challenge.createdAt, c.challenge.updatedAt);
      selectedChallenge := Some(base);
    }
  }
}
