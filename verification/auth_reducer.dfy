/** The authentication slice: sign-in and sign-up lifecycles, sign-out and restoring a session. */
module AuthReducer {

  import opened Json
  import opened Redux
  import opened Slices
  import opened AuthActions
  import ApiMiddleware

  datatype AuthData = AuthData(user: Json, token: Json, isAuthenticated: bool)

  type AuthState = Slice<AuthData>

  const SignedOut: AuthData := AuthData(Null, Null, false)

  const Init: AuthState := Slice(false, false, EmptyObject, SignedOut)

  /** A signed-out session holds neither a user nor a token. */
  predicate Consistent(s: AuthState) {
    !s.data.isAuthenticated ==> s.data.user == Null && s.data.token == Null
  }

  /** The action types the reducer reacts to. */
  predicate Handles(a: Action) {
    a.Is(LoginTypes.request) || a.Is(RegisterTypes.request)
    || a.Is(LoginTypes.success) || a.Is(RegisterTypes.success)
    || a.Is(LoginTypes.failure) || a.Is(RegisterTypes.failure)
    || a.Is(Logout) || a.Is(SetAuthData)
  }

  /** `authReducer(state, action)` for a defined state. */
  function Reduce(s: AuthState, a: Action): (r: AuthState)
    ensures Consistent(s) ==> Consistent(r)
    ensures !Handles(a) ==> r == s
    // only a successful sign-in or sign-up and a restored session sign in
    ensures r.data.isAuthenticated ==> s.data.isAuthenticated || a.Is(LoginTypes.success) || a.Is(RegisterTypes.success) || a.Is(SetAuthData)
    ensures a.Is(Logout) ==> r == Init
    // a sign-in or sign-up request clears the error and keeps the session while it loads
    ensures a.Is(LoginTypes.request) || a.Is(RegisterTypes.request) ==>
      r.loading && !r.error && r.errorDetails == EmptyObject && r.data == s.data
    // a success signs in with the user and token of the response's data
    ensures a.Is(LoginTypes.success) || a.Is(RegisterTypes.success) ==>
      !r.loading && !r.error && r.errorDetails == EmptyObject
      && r.data == AuthData(Get(ResponseData(a), "user"), Get(ResponseData(a), "token"), true)
    // a failure signs out and records the failure's message and status code
    ensures a.Is(LoginTypes.failure) || a.Is(RegisterTypes.failure) ==>
      !r.loading && r.error && r.errorDetails == ErrorDetails(a) && r.data == SignedOut
  {
    DistinctTypes();
    if a.Is(LoginTypes.request) || a.Is(RegisterTypes.request) then
      s.(loading := true, error := false, errorDetails := EmptyObject)
    else if a.Is(LoginTypes.success) || a.Is(RegisterTypes.success) then
      Slice(false, false, EmptyObject, AuthData(Get(ResponseData(a), "user"), Get(ResponseData(a), "token"), true))
    else if a.Is(LoginTypes.failure) || a.Is(RegisterTypes.failure) then
      Slice(false, true, ErrorDetails(a), SignedOut)
    else if a.Is(Logout) then
      Slice(false, false, EmptyObject, SignedOut)
    else if a.Is(SetAuthData) then
      Slice(false, false, EmptyObject, AuthData(Get(Response(a), "user"), Get(Response(a), "token"), true))
    else
      s
  }

  /** Every sequence of actions keeps a consistent session consistent. */
  lemma {:induction false} ReplayConsistent(s: AuthState, actions: seq<Action>)
    requires Consistent(s)
    ensures Consistent(Replay(Reduce, s, actions))
    decreases |actions|
  {
    if actions != [] {
      ReplayConsistent(Reduce(s, actions[0]), actions[1..]);
    }
  }

  /** Signing out twice is signing out once. */
  lemma LogoutIdempotent(s: AuthState)
    ensures Reduce(Reduce(s, LogoutUser()), LogoutUser()) == Reduce(s, LogoutUser())
  {
  }

  /** Restoring a session signs in with the given user and token. */
  lemma SetAuthDataSignsIn(s: AuthState, authData: Json)
    ensures Reduce(s, SetAuthDataAction(authData)).data == AuthData(Get(authData, "user"), Get(authData, "token"), true)
    ensures !Reduce(s, SetAuthDataAction(authData)).error
  {
    DistinctTypes();
  }

  /**
    A sign-in request through the middleware: the session is signed in exactly
    when the call succeeds, with the user the server returned; a failed call
    leaves it signed out with the error recorded, and the builder's message
    stands in when the server's error carries none.
   */
  lemma LoginLifecycle(s: AuthState, credentials: Json, outcome: Outcome)
    ensures var r := Replay(Reduce, s, ApiMiddleware.Run(LoginUser(credentials), outcome));
      && !r.loading
      && (r.data.isAuthenticated <==> outcome.Ok?)
      && (r.error <==> outcome.Err?)
      && (outcome.Ok? ==> r.data.user == Get(Get(outcome.response, "data"), "user"))
      && (outcome.Ok? ==> r.data.token == Get(Get(outcome.response, "data"), "token"))
      && (outcome.Err? ==> r.data == SignedOut)
      && (outcome.Err? && "errorMessage" !in Fields(outcome.error) ==> Get(r.errorDetails, "errorMessage") == Str("Login Failed"))
      // the status code is the error's own, else the server's `error.code`, else UNKNOWN_ERROR
      && (outcome.Err? && "errorStatusCode" in Fields(outcome.error) ==>
            Get(r.errorDetails, "errorStatusCode") == Fields(outcome.error)["errorStatusCode"])
      && (outcome.Err? && "errorStatusCode" !in Fields(outcome.error) ==>
            Get(r.errorDetails, "errorStatusCode") == Or(Get(Get(outcome.error, "error"), "code"), Str(ApiMiddleware.UnknownErrorCode)))
  {
    var d := LoginUser(credentials);
    var emitted := ApiMiddleware.Run(d, outcome);
    DistinctTypes();
    ReplayPair(Reduce, s, emitted[0], emitted[1]);
    assert emitted == [emitted[0], emitted[1]];
    assert "type" !in Fields(d.actionData);
  }

  lemma DistinctTypes()
    ensures LoginTypes.request != LoginTypes.success && LoginTypes.request != LoginTypes.failure
    ensures LoginTypes.success != LoginTypes.failure
    ensures RegisterTypes.request != RegisterTypes.success && RegisterTypes.request != RegisterTypes.failure
    ensures RegisterTypes.success != RegisterTypes.failure
    ensures LoginTypes.request != RegisterTypes.success && LoginTypes.request != RegisterTypes.failure
    ensures LoginTypes.success != RegisterTypes.request && LoginTypes.success != RegisterTypes.failure
    ensures LoginTypes.failure != RegisterTypes.request && LoginTypes.failure != RegisterTypes.success
  {
    assert RegisterTypes.request[9] != RegisterTypes.success[9];
    assert RegisterTypes.request[9] != RegisterTypes.failure[9];
    assert RegisterTypes.success[9] != RegisterTypes.failure[9];
    assert LoginTypes.request[0] != RegisterTypes.request[0];
    assert LoginTypes.request[6] != LoginTypes.success[6];
    assert LoginTypes.request[6] != LoginTypes.failure[6];
    assert LoginTypes.success[6] != LoginTypes.failure[6];
  }
}
