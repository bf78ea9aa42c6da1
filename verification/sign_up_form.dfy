/**
 * The sign-up form: its schema, its defaults, and what a submission does
 * with the sign-up action's result. Email syntax is a parameter; the action
 * itself is reduced to its outcome.
 */
module SignUpForm {
  import opened Common
  import Utf16

  datatype Values = Values(name: string, email: string, password: string, role: string)

  /** The roles the schema and the select allow; `admin` is not one of them. */
  const SIGN_UP_ROLES: set<string> := {"student", "supervisor"}

  const DEFAULT_VALUES := Values("", "", "", "student")

  /**
   * The errors the schema reports, by field. The role's message is the
   * validation library's default text, which is not part of this model (`None`).
   */
  function SchemaErrors(v: Values, isEmail: string -> bool): (errors: map<string, Option<string>>)
    ensures "name" in errors <==> Utf16.Length(v.name) < 2
    ensures "email" in errors <==> !isEmail(v.email)
    ensures "password" in errors <==> Utf16.Length(v.password) < 6
    ensures "role" in errors <==> v.role !in SIGN_UP_ROLES
    ensures "name" in errors ==> errors["name"] == Some("Name is required")
    ensures "email" in errors ==> errors["email"] == Some("Invalid email")
    ensures "password" in errors ==> errors["password"] == Some("Password must be at least 6 characters")
    ensures errors.Keys <= {"name", "email", "password", "role"}
  {
    var e0: map<string, Option<string>> := map[];
    var e1 := if Utf16.Length(v.name) < 2 then e0["name" := Some("Name is required")] else e0;
    var e2 := if !isEmail(v.email) then e1["email" := Some("Invalid email")] else e1;
    var e3 := if Utf16.Length(v.password) < 6 then e2["password" := Some("Password must be at least 6 characters")] else e2;
    if v.role !in SIGN_UP_ROLES then e3["role" := None] else e3
  }

  /** The schema accepts: a two-unit name, an email, a six-unit password, and a sign-up role. */
  predicate Valid(v: Values, isEmail: string -> bool)
  {
    Utf16.Length(v.name) >= 2 && isEmail(v.email) && Utf16.Length(v.password) >= 6 && v.role in SIGN_UP_ROLES
  }

  /** The schema accepts exactly the values it reports no error for. */
  lemma ValidIffNoErrors(v: Values, isEmail: string -> bool)
    ensures Valid(v, isEmail) <==> SchemaErrors(v, isEmail) == map[]
  {
    var errors := SchemaErrors(v, isEmail);
    if !Valid(v, isEmail) {
      assert "name" in errors || "email" in errors || "password" in errors || "role" in errors;
    }
  }

  /** Nobody signs up as an admin, whatever else they type. */
  lemma NoAdminSignUp(v: Values, isEmail: string -> bool)
    requires v.role == "admin"
    ensures !Valid(v, isEmail)
  {
  }

  /** The defaults fail only on the empty fields; the default role is a valid one. */
  lemma DefaultsNeedFilling(isEmail: string -> bool)
    ensures DEFAULT_VALUES.role in SIGN_UP_ROLES
    ensures !Valid(DEFAULT_VALUES, isEmail)
  {
    assert Utf16.Length(DEFAULT_VALUES.name) == 0;
  }

  /** The sign-up action's outcome: no error, an error with its message, or an exception. */
  datatype Outcome = SignedUp | SignUpError(message: string) | SignUpThrew

  /**
   * The form's state: its field errors, the loading flag, the actions called
   * and the pages pushed.
   */
  class Form {
    var fieldErrors: map<string, Option<string>>
    var loading: bool
    var calls: seq<Values>
    var navigations: seq<string>

    constructor ()
      ensures fieldErrors == map[] && !loading && calls == [] && navigations == []
    {
      fieldErrors := map[];
      loading := false;
      calls := [];
      navigations := [];
    }

    /**
     * Submitting `v`: the resolver replaces the field errors with the
     * schema's, and only a valid form reaches `onSubmit`, whose errors are
     * set on the email field.
     */
    method Submit(v: Values, isEmail: string -> bool, outcome: Outcome)
      modifies this
      ensures !Valid(v, isEmail) ==>
        fieldErrors == SchemaErrors(v, isEmail) && loading == old(loading) && calls == old(calls) && navigations == old(navigations)
      ensures Valid(v, isEmail) ==> calls == old(calls) + [v] && !loading
      ensures Valid(v, isEmail) && outcome.SignedUp? ==> navigations == old(navigations) + ["/dashboard"] && fieldErrors == map[]
      ensures Valid(v, isEmail) && outcome.SignUpError? ==>
        navigations == old(navigations) && fieldErrors == map["email" := Some(outcome.message)]
      ensures Valid(v, isEmail) && outcome.SignUpThrew? ==>
        navigations == old(navigations) && fieldErrors == map["email" := Some("Something went wrong.")]
    {
      ValidIffNoErrors(v, isEmail);
      fieldErrors := SchemaErrors(v, isEmail);
      if !Valid(v, isEmail) {
        return;
      }
      loading := true;
      calls := calls + [v];
      match outcome {
        case SignedUp => navigations := navigations + ["/dashboard"];
        case SignUpError(message) => fieldErrors := fieldErrors["email" := Some(message)];
        case SignUpThrew => fieldErrors := fieldErrors["email" := Some("Something went wrong.")];
      }
      loading := false;
    }
  }
}
