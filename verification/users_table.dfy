/**
 * The admin's user table: the list itself, the role badge, and the two
 * dialogs it opens (details and role change). The user routes are reduced to
 * the outcome of their calls.
 */
module UsersTable {
  import opened Common
  import opened UserRoleChanger
  import UserDetails

  /** `getRoleVariant` of the table: only supervisors get the default badge; professionals get secondary. */
  function RoleVariant(role: string): (v: string)
    ensures v == "destructive" <==> role == "admin"
    ensures v == "default" <==> role == "supervisor"
    ensures v == "secondary" <==> role != "admin" && role != "supervisor"
  {
    match role
    case "admin" => "destructive"
    case "supervisor" => "default"
    case _ => "secondary"
  }

  /** The table and the role dialog agree on every role but `professional`. */
  lemma RoleVariantsDifferOnProfessional(role: string)
    ensures RoleVariant(role) != UserRoleChanger.RoleVariant(role) <==> role == "professional"
    ensures RoleVariant(role) == "secondary" && UserRoleChanger.RoleVariant(role) == "default" <== role == "professional"
  {
  }

  /** `handleRoleUpdated`'s map: the user with the updated user's id takes its role and update instant. */
  function RoleUpdated(users: seq<UserWithCounts>, updated: UserWithCounts): (r: seq<UserWithCounts>)
    ensures |r| == |users|
  {
    seq(|users|, i requires 0 <= i < |users| =>
      if users[i].id == updated.id then users[i].(role := updated.role, updatedAt := updated.updatedAt) else users[i])
  }

  /**
   * Only the role and update instant of the matching user change: every
   * other field and every other user is kept, in the same order.
   */
  lemma RoleUpdatedChangesOnlyRole(users: seq<UserWithCounts>, updated: UserWithCounts)
    ensures var r := RoleUpdated(users, updated);
      && |r| == |users|
      && (forall i :: 0 <= i < |users| && users[i].id != updated.id ==> r[i] == users[i])
      && (forall i :: 0 <= i < |users| && users[i].id == updated.id ==>
            && r[i].role == updated.role && r[i].updatedAt == updated.updatedAt
            && r[i].(role := users[i].role, updatedAt := users[i].updatedAt) == users[i])
  {
  }

  /** Applying the same update twice is the same as once. */
  lemma RoleUpdatedIdempotent(users: seq<UserWithCounts>, updated: UserWithCounts)
    ensures RoleUpdated(RoleUpdated(users, updated), updated) == RoleUpdated(users, updated)
  {
    var once := RoleUpdated(users, updated);
    var twice := RoleUpdated(once, updated);
    forall i | 0 <= i < |users| ensures twice[i] == once[i] {
      assert once[i].id == users[i].id;
    }
  }

  /**
   * What the dialog hands over on success, merged into the table, changes
   * exactly that user's role and update instant to the reply's.
   */
  lemma DialogResultMerges(users: seq<UserWithCounts>, user: UserWithCounts, role: string, updatedAt: string, i: nat)
    requires i < |users| && users[i].id == user.id
    ensures RoleUpdated(users, Merged(user, role, updatedAt))[i] == users[i].(role := role, updatedAt := updatedAt)
  {
  }

  /** How the list fetch ended. */
  datatype UsersFetch =
    | Fetched(data: seq<UserWithCounts>)
    | Rejected(status: int, message: Option<string>)
    | Threw(message: Option<string>)

  /** The error text for a failed list fetch. */
  function FetchError(outcome: UsersFetch): (e: string)
    requires !outcome.Fetched?
    ensures outcome.Rejected? && !Truthy(outcome.message) ==> e == "Failed to fetch users: Status " + IntToString(outcome.status)
    ensures outcome.Rejected? && Truthy(outcome.message) ==> e == outcome.message.value
    ensures outcome.Threw? && outcome.message.Some? ==> e == outcome.message.value
    ensures outcome.Threw? && outcome.message.None? ==> e == "An unknown error occurred."
  {
    match outcome
    case Rejected(status, message) =>
      if Truthy(message) then message.value else "Failed to fetch users: Status " + IntToString(status)
    case Threw(message) => if message.Some? then message.value else "An unknown error occurred."
  }

  /** How the detail fetch ended. */
  datatype DetailsFetch = DetailsLoaded(data: UserDetails.Details) | DetailsFailed | DetailsThrew(message: Option<string>)

  /** The table's state and its notifications. */
  class Table {
    var users: seq<UserWithCounts>
    var isLoading: bool
    var error: Option<string>
    var isDetailsModalOpen: bool
    var isRoleModalOpen: bool
    var selectedUser: Option<UserWithCounts>
    var detailedUserData: Option<UserDetails.Details>
    var isDetailLoading: bool
    var toasts: seq<Toast>

    constructor ()
      ensures users == [] && isLoading && error.None?
      ensures !isDetailsModalOpen && !isRoleModalOpen && selectedUser.None? && detailedUserData.None? && !isDetailLoading
      ensures toasts == []
    {
      users := [];
      isLoading := true;
      error := None;
      isDetailsModalOpen := false;
      isRoleModalOpen := false;
      selectedUser := None;
      detailedUserData := None;
      isDetailLoading := false;
      toasts := [];
    }

    /** `fetchUsers`. */
    method FetchUsers(outcome: UsersFetch)
      modifies this
      ensures !isLoading
      ensures outcome.Fetched? ==> users == outcome.data && error.None? && toasts == old(toasts)
      ensures !outcome.Fetched? ==>
        && users == old(users) && error == Some(FetchError(outcome))
        && toasts == old(toasts) + [Toast("error", "Failed to load users", FetchError(outcome))]
      ensures isDetailsModalOpen == old(isDetailsModalOpen) && isRoleModalOpen == old(isRoleModalOpen)
      ensures selectedUser == old(selectedUser) && detailedUserData == old(detailedUserData)
    {
      isLoading := true;
      error := None;
      if outcome.Fetched? {
        users := outcome.data;
      } else {
        var message := FetchError(outcome);
        error := Some(message);
        toasts := toasts + [Toast("error", "Failed to load users", message)];
      }
      isLoading := false;
    }

    /** `handleRoleUpdated`. */
    method HandleRoleUpdated(updated: UserWithCounts)
      modifies this
      ensures users == RoleUpdated(old(users), updated)
      ensures toasts == old(toasts) + [Toast("success", "Role Updated", "Role for " + updated.name + " updated to " + updated.role + ".")]
      ensures isLoading == old(isLoading) && error == old(error)
      ensures isDetailsModalOpen == old(isDetailsModalOpen) && isRoleModalOpen == old(isRoleModalOpen)
      ensures selectedUser == old(selectedUser) && detailedUserData == old(detailedUserData)
    {
      users := RoleUpdated(users, updated);
      toasts := toasts + [Toast("success", "Role Updated", "Role for " + updated.name + " updated to " + updated.role + ".")];
    }

    /** `handleViewDetails`: the dialog opens, and closes again when the detail fetch fails. */
    method HandleViewDetails(user: UserWithCounts, outcome: DetailsFetch)
      modifies this
      ensures selectedUser == Some(user) && !isDetailLoading
      ensures outcome.DetailsLoaded? ==> isDetailsModalOpen && detailedUserData == Some(outcome.data) && toasts == old(toasts)
      ensures !outcome.DetailsLoaded? ==> !isDetailsModalOpen && detailedUserData.None? && |toasts| == |old(toasts)| + 1
      ensures outcome.DetailsFailed? ==> toasts == old(toasts) + [Toast("error", "Details Load Error", "Failed to fetch detailed user data.")]
      ensures outcome.DetailsThrew? ==>
        toasts == old(toasts) + [Toast("error", "Details Load Error",
                                       if outcome.message.Some? then outcome.message.value else "An unknown error occurred.")]
      ensures users == old(users) && isRoleModalOpen == old(isRoleModalOpen)
    {
      selectedUser := Some(user);
      detailedUserData := None;
      isDetailsModalOpen := true;
      isDetailLoading := true;
      match outcome {
        case DetailsLoaded(data) =>
          detailedUserData := Some(data);
        case DetailsFailed =>
          toasts := toasts + [Toast("error", "Details Load Error", "Failed to fetch detailed user data.")];
          isDetailsModalOpen := false;
        case DetailsThrew(message) =>
          var text := if message.Some? then message.value else "An unknown error occurred.";
          toasts := toasts + [Toast("error", "Details Load Error", text)];
          isDetailsModalOpen := false;
      }
      isDetailLoading := false;
    }

    /** `handleChangeRole`. */
    method HandleChangeRole(user: UserWithCounts)
      modifies this
      ensures selectedUser == Some(user) && isRoleModalOpen
      ensures users == old(users) && isDetailsModalOpen == old(isDetailsModalOpen) && toasts == old(toasts)
    {
      selectedUser := Some(user);
      isRoleModalOpen := true;
    }
  }
}
