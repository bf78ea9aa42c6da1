/**
 * The login form: its schema and where a submission leads. Email syntax is a
 * parameter; the sign-in action is reduced to its result.
 */
module LoginForm {
  import opened Common
  import Utf16

  datatype Values = Values(email: string, password: string)

  /** The errors the schema reports, by field. */
  function SchemaErrors(v: Values, isEmail: string -> bool): (errors: map<string, string>)
    ensures "email" in errors <==> !isEmail(v.email)
    ensures "password" in errors <==> Utf16.Length(v.password) < 6
    ensures "email" in errors ==> errors["email"] == "Invalid email"
    ensures "password" in errors ==> errors["password"] == "Password must be at least 6 characters"
    ensures errors.Keys <= {"email", "password"}
  {
    var e0: map<string, string> := map[];
    var e1 := if !isEmail(v.email) then e0["email" := "Invalid email"] else e0;
    if Utf16.Length(v.password) < 6 then e1["password" := "Password must be at least 6 characters"] else e1
  }

  /** The schema accepts a syntactically valid email and a password of six code units or more. */
  predicate Valid(v: Values, isEmail: string -> bool)
  {
    isEmail(v.email) && Utf16.Length(v.password) >= 6
  }

  /**
   * The sign-in action's result: nothing at all, or an optional error with
   * its message and an optional redirect URL; or a thrown exception.
   */
  datatype Outcome = NoResult | SignInResult(error: Option<string>, redirectUrl: Option<string>) | SignInThrew

  /** Where a result without an error leads: its redirect URL if non-empty, else the success handler. */
  function Target(outcome: Outcome): (path: string)
    requires !outcome.SignInThrew? && !(outcome.SignInResult? && outcome.error.Some?)
    ensures outcome.SignInResult? && Truthy(outcome.redirectUrl) ==> path == outcome.redirectUrl.value
    ensures !(outcome.SignInResult? && Truthy(outcome.redirectUrl)) ==> path == "/login/success-handler"
  {
    if outcome.SignInResult? && Truthy(outcome.redirectUrl) then outcome.redirectUrl.value else "/login/success-handler"
  }

  /** The form's state: its field errors, the loading flag, the actions called and the pages pushed. */
  class Form {
    var fieldErrors: map<string, string>
    var loading: bool
    var calls: seq<Values>
    var navigations: seq<string>

    constructor ()
      ensures fieldErrors == map[] && !loading && calls == [] && navigations == []
    {
      fieldErrors := map[];
      loading := false;
      calls := [];
      navigations := [];
    }

    /** Submitting `v`. Once a valid form is sent, `loading` stays set whatever the outcome. */
    method Submit(v: Values, isEmail: string -> bool, outcome: Outcome)
      modifies this
      ensures !Valid(v, isEmail) ==>
        && fieldErrors == SchemaErrors(v, isEmail) && fieldErrors != map[]
        && loading == old(loading) && calls == old(calls) && navigations == old(navigations)
      ensures Valid(v, isEmail) ==> calls == old(calls) + [v] && loading
      ensures Valid(v, isEmail) && outcome.SignInResult? && outcome.error.Some? ==>
        navigations == old(navigations) && fieldErrors == map["email" := outcome.error.value]
      ensures Valid(v, isEmail) && outcome.SignInThrew? ==>
        navigations == old(navigations) && fieldErrors == map["email" := "Something went wrong."]
      ensures Valid(v, isEmail) && !outcome.SignInThrew? && !(outcome.SignInResult? && outcome.error.Some?) ==>
        navigations == old(navigations) + [Target(outcome)] && fieldErrors == map[]
    {
      fieldErrors := SchemaErrors(v, isEmail);
      if !Valid(v, isEmail) {
        assert "email" in fieldErrors || "password" in fieldErrors;
        return;
      }
      assert fieldErrors == map[];
      loading := true;
      calls := calls + [v];
      if outcome.SignInThrew? {
        fieldErrors := fieldErrors["email" := "Something went wrong."];
      } else if outcome.SignInResult? && outcome.error.Some? {
        fieldErrors := fieldErrors["email" := outcome.error.value];
      } else {
        navigations := navigations + [Target(outcome)];
      }
    }
  }
}
