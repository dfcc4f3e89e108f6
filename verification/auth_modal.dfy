/**
  The sign-in / sign-up dialog: field validation, the request a valid form
  dispatches, the friendly message shown for a failed sign-in, when the
  backdrop may close the dialog, and how typing clears errors.
 */
module AuthModal {

  import opened Json
  import opened Optional
  import opened Text
  import opened Redux
  import opened FieldRules
  import AuthActions
  import Slices

  const PasswordRequired: string := "Password is required"
  const PasswordTooShort: string := "Password must be at least 7 characters"
  const MinPasswordLength: int := 7

  const DefaultMessage: string := "An error occurred"
  const InvalidCredentialsText: string := "Invalid email or password. Please check your credentials and try again."
  const AccountExistsText: string := "An account with this email already exists. Please sign in instead."
  const NoAccountText: string := "No account found with this email. Please check your email or sign up."
  const NetworkText: string := "Network error. Please check your connection and try again."
  const ServerText: string := "Server error. Please try again later."
  const FriendlyTexts: set<string> :=
    {InvalidCredentialsText, AccountExistsText, NoAccountText, NetworkText, ServerText}

  datatype Mode = SignIn | SignUp

  datatype AuthForm = AuthForm(name: string, email: string, password: string)

  const EmptyForm: AuthForm := AuthForm("", "", "")

  /** The password check: required first, then the length of the raw value. */
  function PasswordError(password: string): (e: Option<string>)
    ensures Blank(password) ==> e == Some(PasswordRequired)
    ensures !Blank(password) ==> (e.Some? <==> |password| < MinPasswordLength)
  {
    if Blank(password) then Some(PasswordRequired)
    else if |password| < MinPasswordLength then Some(PasswordTooShort)
    else None
  }

  function Put(errors: ErrorMap, key: string, e: Option<string>): ErrorMap {
    if e.Some? then errors[key := e.value] else errors
  }

  /** `validateForm()`: the errors it records. */
  function Validate(mode: Mode, f: AuthForm): (errors: ErrorMap)
    ensures errors.Keys <= {"email", "password", "name"}
    ensures "email" in errors <==> EmailError(f.email).Some?
    ensures "email" in errors ==> errors["email"] == EmailError(f.email).value
    ensures "password" in errors <==> PasswordError(f.password).Some?
    ensures "password" in errors ==> errors["password"] == PasswordError(f.password).value
    // the name is checked only when signing up
    ensures "name" in errors <==> mode == SignUp && Blank(f.name)
  {
    var nameError := if mode == SignUp && Blank(f.name) then Some(NameRequired) else None;
    DistinctKeys();
    Put(Put(Put(map[], "email", EmailError(f.email)), "password", PasswordError(f.password)), "name", nameError)
  }

  lemma DistinctKeys()
    ensures "email" != "password" && "email" != "name" && "password" != "name"
  {
    assert "email"[0] != "password"[0] && "email"[0] != "name"[0] && "password"[0] != "name"[0];
  }

  /** `validateForm()`'s answer: no key was recorded. */
  predicate Passes(mode: Mode, f: AuthForm) {
    |Validate(mode, f)| == 0
  }

  /** Signing in passes exactly when the email and password checks pass, whatever the name field holds. */
  lemma SignInIgnoresName(f: AuthForm)
    ensures Passes(SignIn, f) <==> EmailError(f.email).None? && PasswordError(f.password).None?
  {
    var errors := Validate(SignIn, f);
    if EmailError(f.email).None? && PasswordError(f.password).None? {
      assert errors.Keys == {};
    } else if EmailError(f.email).Some? {
      assert "email" in errors;
    } else {
      assert "password" in errors;
    }
  }

  /** What a valid form sends. */
  datatype Credentials =
    | SignInCredentials(email: string, password: string)
    | SignUpDetails(name: string, email: string, password: string)

  function Body(c: Credentials): Json {
    match c
    case SignInCredentials(email, password) =>
      Obj(map["email" := Str(email), "password" := Str(password)])
    case SignUpDetails(name, email, password) =>
      Obj(map["name" := Str(name), "email" := Str(email), "password" := Str(password)])
  }

  /** The descriptor dispatched for a valid form. */
  function Descriptor(c: Credentials): Dispatched {
    if c.SignInCredentials? then AuthActions.LoginUser(Body(c)) else AuthActions.RegisterUser(Body(c))
  }

  /** `handleSubmit`: the recorded errors, and what is sent when they are none. */
  function Submit(mode: Mode, f: AuthForm): (r: (ErrorMap, Option<Credentials>))
    ensures r.0 == Validate(mode, f)
    ensures r.1.Some? <==> Passes(mode, f)
    // signing in sends the email and password only; signing up sends the name as well
    ensures r.1.Some? && mode == SignIn ==> r.1.value == SignInCredentials(f.email, f.password)
    ensures r.1.Some? && mode == SignUp ==> r.1.value == SignUpDetails(f.name, f.email, f.password)
  {
    var errors := Validate(mode, f);
    if |errors| != 0 then (errors, None)
    else if mode == SignIn then (errors, Some(SignInCredentials(f.email, f.password)))
    else (errors, Some(SignUpDetails(f.name, f.email, f.password)))
  }

  /**
    The message before classification: the details' `message`, else their
    `error`, else their `errorMessage`, else a generic message.
   */
  function BaseMessage(details: Json): (m: Json)
    ensures Truthy(m)
    ensures m == Or(Get(details, "message"), Or(Get(details, "error"), Or(Get(details, "errorMessage"), Str(DefaultMessage))))
  {
    var m := Or(Get(details, "errorMessage"), Str(DefaultMessage));
    if Truthy(Get(details, "message")) then Get(details, "message")
    else if Truthy(Get(details, "error")) then Get(details, "error")
    else m
  }

  /**
    The auth slice records only `errorMessage` and `errorStatusCode` for a
    failed sign-in, so the dialog starts from the `errorMessage` the
    middleware put on the failure.
   */
  lemma SliceDetailsUseErrorMessage(a: Action)
    ensures BaseMessage(Slices.ErrorDetails(a)) == Or(Get(a.Field("error"), "errorMessage"), Str(DefaultMessage))
  {
    var d := Slices.ErrorDetails(a);
    assert "message" !in d.fields && "error" !in d.fields;
  }

  /** `errorStatusCode >= 500`: a number, or a string of decimal digits, of at least 500. */
  predicate AtLeast500(status: Json) {
    (status.Num? && status.n >= 500)
    || (status.Str? && status.s != [] && (forall i :: 0 <= i < |status.s| ==> IsDigit(status.s[i]))
        && DigitsValue(status.s) >= 500)
  }

  datatype Category = InvalidCredentials | AccountExists | NoAccount | NetworkError | ServerError | Unclassified

  /** The five tests, in the order the dialog applies them to the lower-cased message. */
  function Tests(lower: string, status: Json): (t: seq<bool>)
    ensures |t| == 5
  {
    [ status == Num(401) || Contains(lower, "unauthorized") || Contains(lower, "invalid credentials")
        || Contains(lower, "invalid email or password"),
      Contains(lower, "user already exists") || Contains(lower, "email already registered"),
      Contains(lower, "user not found"),
      Contains(lower, "network") || Contains(lower, "connection"),
      Contains(lower, "server") || AtLeast500(status) ]
  }

  /** The category each test stands for, position by position. */
  const Ranked: seq<Category> := [InvalidCredentials, AccountExists, NoAccount, NetworkError, ServerError]

  /** No test holds. */
  predicate NoneHolds(t: seq<bool>) {
    forall k :: 0 <= k < |t| ==> !t[k]
  }

  /** The category of the first test that holds, if any does. */
  function FirstHolding(t: seq<bool>): (c: Category)
    requires |t| == 5
    ensures c == Unclassified <==> NoneHolds(t)
  {
    if t[0] then Ranked[0]
    else if t[1] then Ranked[1]
    else if t[2] then Ranked[2]
    else if t[3] then Ranked[3]
    else if t[4] then Ranked[4]
    else Unclassified
  }

  /** The category of a failed sign-in's message: the five tests on the lower-cased message, first match wins. */
  function Classify(message: string, status: Json): (c: Category)
    ensures status == Num(401) ==> c == InvalidCredentials
    ensures c == Unclassified <==> NoneHolds(Tests(ToLower(message), status))
  {
    FirstHolding(Tests(ToLower(message), status))
  }

  /**
    A message falls in the category of a test exactly when that test holds
    and no earlier one does: the order of the tests decides, for instance,
    that a 401 naming the network is still a credentials error.
   */
  lemma {:induction false} FirstTestWins(message: string, status: Json, k: int)
    requires 0 <= k < 5
    ensures var t := Tests(ToLower(message), status);
      Classify(message, status) == Ranked[k] <==> t[k] && forall j :: 0 <= j < k ==> !t[j]
  {
    var t := Tests(ToLower(message), status);
    assert forall i, j :: 0 <= i < j < 5 ==> Ranked[i] != Ranked[j];
  }

  /** Upper- and lower-case spellings of a message are classified alike. */
  lemma ClassifyIgnoresCase(message: string, status: Json)
    ensures Classify(ToLower(message), status) == Classify(message, status)
  {
    ToLowerIdempotent(message);
  }

  lemma ToLowerIdempotent(s: string)
    ensures ToLower(ToLower(s)) == ToLower(s)
  {
    var once := ToLower(s);
    var twice := ToLower(once);
    assert forall i :: 0 <= i < |s| ==> twice[i] == once[i];
  }

  /** The message shown for a category; an unclassified message is shown as it is. */
  function Friendly(message: string, status: Json): (text: string)
    ensures Classify(message, status) == Unclassified ==> text == message
    ensures Classify(message, status) != Unclassified ==> text in FriendlyTexts
  {
    match Classify(message, status)
    case InvalidCredentials => InvalidCredentialsText
    case AccountExists => AccountExistsText
    case NoAccount => NoAccountText
    case NetworkError => NetworkText
    case ServerError => ServerText
    case Unclassified => message
  }

  /**
    The error effect: while the slice reports an error with details, the
    errors become just the friendly `general` message; otherwise `general`
    is blanked and the other errors stay.  A status of exactly 401 settles
    the message before it is ever lower-cased; otherwise a base message that
    is not a string makes `toLowerCase` throw, which `None` stands for.
   */
  function ErrorEffect(errors: ErrorMap, authError: bool, details: Json): (r: Option<ErrorMap>)
    ensures !(authError && Truthy(details)) ==> r == Some(errors["general" := ""])
    ensures authError && Truthy(details) ==>
      (r.Some? <==> BaseMessage(details).Str? || Get(details, "errorStatusCode") == Num(401))
    ensures authError && Truthy(details) && Get(details, "errorStatusCode") == Num(401) ==>
      r == Some(map["general" := InvalidCredentialsText])
    ensures authError && Truthy(details) && BaseMessage(details).Str? ==>
      r == Some(map["general" := Friendly(BaseMessage(details).s, Get(details, "errorStatusCode"))])
  {
    if authError && Truthy(details) then
      var status := Get(details, "errorStatusCode");
      var m := BaseMessage(details);
      if status == Num(401) then Some(map["general" := InvalidCredentialsText])
      else if m.Str? then Some(map["general" := Friendly(m.s, status)])
      else None
    else Some(errors["general" := ""])
  }

  /** `handleModalClose`: a backdrop click closes the dialog unless an error is showing for a signed-out user. */
  predicate BackdropCloses(authError: bool, isAuthenticated: bool): (closes: bool)
    ensures isAuthenticated ==> closes
    ensures !authError ==> closes
    ensures authError && !isAuthenticated ==> !closes
  {
    !authError || isAuthenticated
  }

  /**
    When the backdrop refuses to close the dialog, the effect for a readable
    error has just put a non-empty general message on show, so the refusal
    keeps that message in view.
   */
  lemma BackdropKeepsErrorVisible(errors: ErrorMap, authError: bool, isAuthenticated: bool, details: Json)
    requires Truthy(details) && (BaseMessage(details).Str? || Get(details, "errorStatusCode") == Num(401))
    ensures !BackdropCloses(authError, isAuthenticated) ==>
      ErrorEffect(errors, authError, details).Some? && Shown(ErrorEffect(errors, authError, details).value, "general")
  {
    var m := BaseMessage(details);
    if m.Str? {
      FriendlyNotBlank(m.s, Get(details, "errorStatusCode"));
    }
    assert |InvalidCredentialsText| > 0;
  }

  /** A message with text never turns into an empty one: every friendly text has words in it. */
  lemma FriendlyNotBlank(message: string, status: Json)
    requires message != ""
    ensures Friendly(message, status) != ""
  {
    assert "" !in FriendlyTexts by {
      assert |InvalidCredentialsText| > 0 && |AccountExistsText| > 0 && |NoAccountText| > 0;
      assert |NetworkText| > 0 && |ServerText| > 0;
    }
  }

  datatype Field = NameField | EmailField | PasswordField

  function Key(field: Field): string {
    match field
    case NameField => "name"
    case EmailField => "email"
    case PasswordField => "password"
  }

  /**
    `handleInputChange`: the field takes the typed value; if that field's
    error or the general error was showing, both are blanked.
   */
  function InputChange(f: AuthForm, errors: ErrorMap, field: Field, value: string): (r: (AuthForm, ErrorMap))
    ensures field == NameField ==> r.0 == f.(name := value)
    ensures field == EmailField ==> r.0 == f.(email := value)
    ensures field == PasswordField ==> r.0 == f.(password := value)
    ensures !Shown(r.1, Key(field)) && !Shown(r.1, "general")
    ensures forall k :: k in errors && k != Key(field) && k != "general" ==> k in r.1 && r.1[k] == errors[k]
    ensures r.1.Keys <= errors.Keys + {Key(field), "general"}
  {
    var form := match field
      case NameField => f.(name := value)
      case EmailField => f.(email := value)
      case PasswordField => f.(password := value);
    if Shown(errors, Key(field)) || Shown(errors, "general") then
      (form, errors[Key(field) := ""]["general" := ""])
    else
      (form, errors)
  }
}
