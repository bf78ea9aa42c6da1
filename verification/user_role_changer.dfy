/**
 * The dialog that changes a user's role. It offers three roles, starts from
 * the user's current one, refuses to send a request that would change
 * nothing, and on success hands the user, with the role and update instant
 * from the reply, to the table.
 */
module UserRoleChanger {
  import opened Common

  /** A row of the admin user list. */
  datatype UserWithCounts = UserWithCounts(
    id: string,
    name: string,
    email: string,
    role: string,
    studentId: Option<string>,
    professionalId: Option<string>,
    group: Option<string>,
    createdAt: string,
    updatedAt: string,
    uploadedVideos: nat,
    createdNotes: nat)

  /** The roles the select offers. */
  const ALL_ROLES: seq<string> := ["student", "supervisor", "admin"]

  /** The choice is among three distinct roles; `professional` is not one of them. */
  lemma AllRolesExactly()
    ensures |ALL_ROLES| == 3 && ALL_ROLES[0] != ALL_ROLES[1] && ALL_ROLES[1] != ALL_ROLES[2] && ALL_ROLES[0] != ALL_ROLES[2]
    ensures forall r :: r in ALL_ROLES <==> r == "student" || r == "supervisor" || r == "admin"
    ensures "professional" !in ALL_ROLES
  {
  }

  /** `getRoleVariant` of the dialog: professionals share the supervisors' badge. */
  function RoleVariant(role: string): (v: string)
    ensures v == "destructive" <==> role == "admin"
    ensures v == "default" <==> role == "professional" || role == "supervisor"
    ensures v == "secondary" <==> role !in {"admin", "professional", "supervisor"}
  {
    match role
    case "admin" => "destructive"
    case "professional" => "default"
    case "supervisor" => "default"
    case _ => "secondary"
  }

  /** `{...user, role, updatedAt}`: the user with the two fields from the reply. */
  function Merged(user: UserWithCounts, role: string, updatedAt: string): (u: UserWithCounts)
    ensures u.role == role && u.updatedAt == updatedAt
    ensures u.(role := user.role, updatedAt := user.updatedAt) == user
  {
    user.(role := role, updatedAt := updatedAt)
  }

  /** The PATCH reply: the stored role and update instant, a refusal, or a thrown exception. */
  datatype PatchReply =
    | Patched(role: string, updatedAt: string)
    | Refused(status: int, message: Option<string>)
    | Threw(message: Option<string>)

  /** The description of the error toast for a failed PATCH. */
  function FailureText(reply: PatchReply): (t: string)
    requires !reply.Patched?
    ensures reply.Refused? && Truthy(reply.message) ==> t == reply.message.value
    ensures reply.Refused? && !Truthy(reply.message) ==> t == "API Status " + IntToString(reply.status)
    ensures reply.Threw? && reply.message.Some? ==> t == reply.message.value
    ensures reply.Threw? && reply.message.None? ==> t == "An unknown error occurred."
  {
    match reply
    case Refused(status, message) => if Truthy(message) then message.value else "API Status " + IntToString(status)
    case Threw(message) => if message.Some? then message.value else "An unknown error occurred."
  }

  /**
   * The dialog's state and what it has done so far: the PATCH requests it
   * sent (user id and role), the users it passed to `onRoleUpdated`, how often
   * it called `onClose`, and its notifications.
   */
  class RoleChangeModal {
    var newRole: string
    var isUpdating: bool
    var requests: seq<(string, string)>
    var updatedUsers: seq<UserWithCounts>
    var closeCalls: nat
    var toasts: seq<Toast>

    constructor ()
      ensures newRole == "" && !isUpdating && requests == [] && updatedUsers == [] && closeCalls == 0 && toasts == []
    {
      newRole := "";
      isUpdating := false;
      requests := [];
      updatedUsers := [];
      closeCalls := 0;
      toasts := [];
    }

    /** The effect on `user`: the selection starts from the user's current role. */
    method UserChanged(user: Option<UserWithCounts>)
      modifies this
      ensures user.Some? ==> newRole == user.value.role
      ensures user.None? ==> newRole == old(newRole)
      ensures isUpdating == old(isUpdating) && requests == old(requests) && updatedUsers == old(updatedUsers)
      ensures closeCalls == old(closeCalls) && toasts == old(toasts)
    {
      if user.Some? {
        newRole := user.value.role;
      }
    }

    /** Picking a role in the select. */
    method SelectRole(role: string)
      requires role in ALL_ROLES
      modifies this
      ensures newRole == role
      ensures isUpdating == old(isUpdating) && requests == old(requests) && updatedUsers == old(updatedUsers)
      ensures closeCalls == old(closeCalls) && toasts == old(toasts)
    {
      newRole := role;
    }

    /** `handleUpdate` for the dialog's `user`, with `reply` the outcome of the PATCH. */
    method HandleUpdate(user: Option<UserWithCounts>, reply: PatchReply)
      modifies this
      ensures user.None? ==>
        && requests == old(requests) && updatedUsers == old(updatedUsers)
        && closeCalls == old(closeCalls) && toasts == old(toasts) && isUpdating == old(isUpdating)
      ensures user.Some? && old(newRole) == user.value.role ==>
        && requests == old(requests) && updatedUsers == old(updatedUsers) && closeCalls == old(closeCalls)
        && toasts == old(toasts) + [Toast("warning", "No Change", "The selected role is the same as the user's current role.")]
        && isUpdating == old(isUpdating)
      ensures user.Some? && old(newRole) != user.value.role ==>
        && requests == old(requests) + [(user.value.id, old(newRole))]
        && !isUpdating
      ensures user.Some? && old(newRole) != user.value.role && reply.Patched? ==>
        && updatedUsers == old(updatedUsers) + [Merged(user.value, reply.role, reply.updatedAt)]
        && closeCalls == old(closeCalls) + 1
        && toasts == old(toasts) + [Toast("success", "Role Change Successful", user.value.name + "'s role is now " + reply.role + ".")]
      ensures user.Some? && old(newRole) != user.value.role && !reply.Patched? ==>
        && updatedUsers == old(updatedUsers) && closeCalls == old(closeCalls)
        && toasts == old(toasts) + [Toast("error", "Role Change Failed", FailureText(reply))]
      ensures newRole == old(newRole)
    {
      if user.None? {
        return;
      }
      var u := user.value;
      if newRole == u.role {
        toasts := toasts + [Toast("warning", "No Change", "The selected role is the same as the user's current role.")];
        return;
      }
      isUpdating := true;
      // The loading toast is replaced in place by the success or error toast; only the latter is recorded.
      requests := requests + [(u.id, newRole)];
      if reply.Patched? {
        var updatedUser := Merged(u, reply.role, reply.updatedAt);
        updatedUsers := updatedUsers + [updatedUser];
        toasts := toasts + [Toast("success", "Role Change Successful", u.name + "'s role is now " + reply.role + ".")];
        closeCalls := closeCalls + 1;
      } else {
        toasts := toasts + [Toast("error", "Role Change Failed", FailureText(reply))];
      }
      isUpdating := false;
    }
  }
}
