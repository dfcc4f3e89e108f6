/**
  The account form on the profile page: the email and name of the signed-in
  user, validated, sent as a profile update, and copied into the auth state
  when the update succeeds.  The outcome of the update call and the stored
  token are inputs.
 */
module ProfileSettings {

  import opened Json
  import opened Optional
  import opened Redux
  import opened FieldRules
  import ApiMiddleware
  import UpdateUserProfileActions
  import AuthActions

  const UpdateFailed: string := "Failed to update profile"

  datatype ProfileForm = ProfileForm(email: string, name: string)

  datatype Field = EmailField | NameField

  function Key(field: Field): string {
    if field == EmailField then "email" else "name"
  }

  /** A user field shown in the form: `user?.key || ''`, for fields holding strings. */
  function UserText(user: Json, key: string): (t: string)
    ensures Get(user, key).Str? ==> t == Get(user, key).s
    ensures !Get(user, key).Str? ==> t == ""
  {
    var v := Or(Get(user, key), Str(""));
    if v.Str? then v.s else ""
  }

  /** The form as the user prop fills it: on mount, when the prop changes, and on cancel. */
  function FromUser(user: Json): (f: ProfileForm)
    ensures f.email == UserText(user, "email") && f.name == UserText(user, "name")
  {
    ProfileForm(UserText(user, "email"), UserText(user, "name"))
  }

  /** `validateForm()`: the errors it records. */
  function Validate(f: ProfileForm): (errors: ErrorMap)
    ensures errors.Keys <= {"email", "name"}
    ensures "email" in errors <==> EmailError(f.email).Some?
    ensures "email" in errors ==> errors["email"] == EmailError(f.email).value
    ensures "name" in errors <==> Blank(f.name)
    ensures "name" in errors ==> errors["name"] == NameRequired
  {
    var withEmail := if EmailError(f.email).Some? then map["email" := EmailError(f.email).value] else map[];
    assert "email" != "name" by { assert "email"[0] != "name"[0]; }
    if Blank(f.name) then withEmail["name" := NameRequired] else withEmail
  }

  predicate Passes(f: ProfileForm) {
    |Validate(f)| == 0
  }

  /** The form passes exactly when the email is an address and the name is not blank. */
  lemma PassesExactly(f: ProfileForm)
    ensures Passes(f) <==> !Blank(f.email) && EmailLike(f.email) && !Blank(f.name)
  {
    var errors := Validate(f);
    if EmailError(f.email).Some? {
      assert "email" in errors;
    } else if Blank(f.name) {
      assert "name" in errors;
    } else {
      assert errors.Keys == {};
    }
  }

  /**
    `handleInputChange`: the field takes the typed value, and only that
    field's error is removed, and only if it was showing; a general error
    stays.
   */
  function InputChange(f: ProfileForm, errors: ErrorMap, field: Field, value: string): (r: (ProfileForm, ErrorMap))
    ensures field == EmailField ==> r.0 == f.(email := value)
    ensures field == NameField ==> r.0 == f.(name := value)
    ensures Shown(errors, Key(field)) ==> r.1 == errors - {Key(field)}
    ensures !Shown(errors, Key(field)) ==> r.1 == errors
  {
    var form := if field == EmailField then f.(email := value) else f.(name := value);
    if Shown(errors, Key(field)) then (form, errors - {Key(field)}) else (form, errors)
  }

  /** Typing never adds an error, and every other error, the general one included, is kept. */
  lemma InputChangeKeepsOthers(f: ProfileForm, errors: ErrorMap, field: Field, value: string, k: string)
    requires k != Key(field)
    ensures var after := InputChange(f, errors, field, value).1;
      after.Keys <= errors.Keys && (k in errors ==> k in after && after[k] == errors[k])
      && !Shown(after, Key(field))
  {
  }

  /** The state the component keeps besides the form. */
  datatype Settings = Settings(form: ProfileForm, errors: ErrorMap, isEditing: bool)

  /** `handleCancel`: the form goes back to the user's values, with no errors, out of editing. */
  function Cancel(user: Json): (s: Settings)
    ensures s.form == FromUser(user) && s.errors == map[] && !s.isEditing
  {
    Settings(FromUser(user), map[], false)
  }

  /** The profile fields the form sends. */
  function ProfileData(f: ProfileForm): Json {
    Obj(map["email" := Str(f.email), "name" := Str(f.name)])
  }

  /** Reading `x.key` throws exactly when `x` is undefined or null. */
  predicate Nullish(j: Json) {
    j == Undefined || j == Null
  }

  /** `{ user, token }`, the payload of the auth-data action. */
  function AuthData(user: Json, token: Json): (j: Json)
    ensures Get(j, "user") == user && Get(j, "token") == token
  {
    assert "user" != "token" by { assert "user"[0] != "token"[0]; }
    Obj(map["user" := user, "token" := token])
  }

  /** What a submission leads to. */
  datatype SubmitResult = SubmitResult(settings: Settings, sent: Option<Json>, authUpdate: Option<Action>)

  /**
    The branch on what `await dispatch(...)` yielded: a `result.error`, or a
    reply whose `data` cannot be read, shows the general error; otherwise the
    reply's `data.profile` is stored with `token` and editing ends.
   */
  function Settle(s: Settings, result: Action, token: Json): (r: (Settings, Option<Action>))
    ensures r.1.Some? <==>
      !Truthy(result.Field("error")) && !Nullish(result.Field("response"))
      && !Nullish(Get(result.Field("response"), "data"))
    ensures r.1.None? ==> r.0 == s.(errors := map["general" := UpdateFailed])
    ensures r.1.Some? ==> r.0 == Settings(s.form, map[], false)
    ensures r.1.Some? ==>
      r.1.value == AuthActions.SetAuthDataAction(AuthData(Get(Get(result.Field("response"), "data"), "profile"), token))
  {
    var response := result.Field("response");
    if Truthy(result.Field("error")) || Nullish(response) || Nullish(Get(response, "data")) then
      (s.(errors := map["general" := UpdateFailed]), None)
    else
      (Settings(s.form, map[], false),
        Some(AuthActions.SetAuthDataAction(AuthData(Get(Get(response, "data"), "profile"), token))))
  }

  /**
    `handleSubmit`: an invalid form records its errors and sends nothing;
    otherwise the profile is sent, and `outcome` is how the call ended.
   */
  function Submit(s: Settings, outcome: Outcome, token: Json): (r: SubmitResult)
    ensures !Passes(s.form) ==> r == SubmitResult(s.(errors := Validate(s.form)), None, None)
    ensures Passes(s.form) ==> r.sent == Some(ProfileData(s.form)) && r.settings.form == s.form
    ensures Passes(s.form) && r.authUpdate.None? ==>
      r.settings.errors == map["general" := UpdateFailed] && r.settings.isEditing == s.isEditing
    ensures r.authUpdate.Some? ==>
      r.settings.errors == map[] && !r.settings.isEditing && r.authUpdate.value.Is(AuthActions.SetAuthData)
  {
    if !Passes(s.form) then SubmitResult(s.(errors := Validate(s.form)), None, None)
    else
      var result := ApiMiddleware.DispatchResult(UpdateUserProfileActions.UpdateUserProfile(ProfileData(s.form)), outcome);
      var (settings, authUpdate) := Settle(s, result, token);
      SubmitResult(settings, Some(ProfileData(s.form)), authUpdate)
  }

  /**
    A valid form updates the auth state exactly when the update call
    succeeds with a reply carrying `data`, and then the stored user is that
    reply's `data.profile`.
   */
  lemma SubmitUpdatesAuthOnSuccess(s: Settings, outcome: Outcome, token: Json)
    requires Passes(s.form)
    ensures var r := Submit(s, outcome, token);
      (r.authUpdate.Some? <==>
        outcome.Ok? && !Nullish(outcome.response) && !Nullish(Get(outcome.response, "data")))
      && (r.authUpdate.Some? ==>
        Get(r.authUpdate.value.Field("response"), "user") == Get(Get(outcome.response, "data"), "profile")
        && Get(r.authUpdate.value.Field("response"), "token") == token)
  {
    var d := UpdateUserProfileActions.UpdateUserProfile(ProfileData(s.form));
    ApiMiddleware.AwaitedResult(d, outcome, "Update User Profile Failed", map[]);
  }
}
