/**
  The API middleware.  A dispatched value without a `CALL_API` descriptor is
  handed to the next dispatcher unchanged.  A descriptor produces a REQUEST
  action carrying the descriptor's `actionData`, performs one HTTP call, and
  then produces exactly one more action: SUCCESS with the response, or
  FAILURE with a normalised error.  The HTTP call is an input (`Outcome`), so
  the middleware is a function from what was dispatched to what reaches the
  reducers.
 */
module ApiMiddleware {

  import opened Json
  import opened Optional
  import opened Redux
  import Urls

  const DefaultErrorMessage: string := "An error occurred"
  const UnknownErrorCode: string := "UNKNOWN_ERROR"

  /**
    The value thrown for a method other than GET, POST, PUT or DELETE is an
    `Error`; its message is not an enumerable own property, so spreading it
    contributes nothing and `error.error` is undefined.
   */
  const UnsupportedMethodError: Json := Obj(map[])

  predicate Supported(m: Method) {
    !m.Unsupported?
  }

  /** `{ type: requestType, ...actionData }` */
  function RequestAction(types: Types, actionData: Json): Action {
    Action(map["type" := Str(types.request)] + Fields(actionData))
  }

  /** `{ type: successType, response, ...actionData }` */
  function SuccessAction(types: Types, response: Json, actionData: Json): Action {
    Action(map["type" := Str(types.success), "response" := response] + Fields(actionData))
  }

  /**
    The `error` object of a FAILURE action: the descriptor's error message (or
    a generic one) and the server's error code (or UNKNOWN_ERROR), with every
    field of the raw error spread over both.
   */
  function NormalizeError(actionData: Json, error: Json): (e: Json)
    ensures e.Obj?
    ensures e.fields.Keys == {"errorMessage", "errorStatusCode"} + Fields(error).Keys
    ensures forall k :: k in Fields(error) ==> e.fields[k] == Fields(error)[k]
    ensures "errorMessage" !in Fields(error) ==>
      e.fields["errorMessage"] == (if Truthy(Get(actionData, "errorMessage")) then Get(actionData, "errorMessage") else Str(DefaultErrorMessage))
    ensures "errorStatusCode" !in Fields(error) ==>
      e.fields["errorStatusCode"] == (if Truthy(Get(Get(error, "error"), "code")) then Get(Get(error, "error"), "code") else Str(UnknownErrorCode))
  {
    Obj(map[
      "errorMessage" := Or(Get(actionData, "errorMessage"), Str(DefaultErrorMessage)),
      "errorStatusCode" := Or(Get(Get(error, "error"), "code"), Str(UnknownErrorCode))
    ] + Fields(error))
  }

  /** `{ type: failureType, error: {...}, ...actionData }` */
  function FailureAction(types: Types, error: Json, actionData: Json): Action {
    Action(map["type" := Str(types.failure), "error" := NormalizeError(actionData, error)] + Fields(actionData))
  }

  /** Whether the call of a descriptor ends in the SUCCESS action. */
  predicate Succeeds(call: ApiCall, outcome: Outcome) {
    Supported(call.verb) && outcome.Ok?
  }

  /** The actions that reach the next dispatcher, in order. */
  function Run(d: Dispatched, outcome: Outcome): (emitted: seq<Action>)
    ensures d.Plain? ==> emitted == [d.action]
    ensures d.Call? ==> |emitted| == 2
    // actionData's fields are carried at top level by both actions
    ensures d.Call? ==> forall k :: k in Fields(d.actionData) ==>
      emitted[0].Field(k) == Fields(d.actionData)[k] && emitted[1].Field(k) == Fields(d.actionData)[k]
    // the REQUEST action comes first and the outcome decides the second
    ensures d.Call? && "type" !in Fields(d.actionData) ==>
      emitted[0].Is(d.call.types.request)
      && emitted[1].Is(if Succeeds(d.call, outcome) then d.call.types.success else d.call.types.failure)
    ensures d.Call? && "response" !in Fields(d.actionData) && Succeeds(d.call, outcome) ==>
      emitted[1].Field("response") == outcome.response
    ensures d.Call? && "error" !in Fields(d.actionData) && !Succeeds(d.call, outcome) ==>
      emitted[1].Field("error") == NormalizeError(d.actionData, if outcome.Err? && Supported(d.call.verb) then outcome.error else UnsupportedMethodError)
    ensures d.Call? ==> emitted[0].fields.Keys == {"type"} + Fields(d.actionData).Keys
    ensures d.Call? && Succeeds(d.call, outcome) ==> emitted[1].fields.Keys == {"type", "response"} + Fields(d.actionData).Keys
    ensures d.Call? && !Succeeds(d.call, outcome) ==> emitted[1].fields.Keys == {"type", "error"} + Fields(d.actionData).Keys
  {
    match d
    case Plain(a) => [a]
    case Call(call, actionData) =>
      var request := RequestAction(call.types, actionData);
      if !Supported(call.verb) then
        [request, FailureAction(call.types, UnsupportedMethodError, actionData)]
      else
        match outcome
        case Ok(response) => [request, SuccessAction(call.types, response, actionData)]
        case Err(error) => [request, FailureAction(call.types, error, actionData)]
  }

  /**
    What `await dispatch(d)` yields: the middleware returns what the next
    dispatcher returns for the last action, which is that action.
   */
  function DispatchResult(d: Dispatched, outcome: Outcome): (result: Action)
    ensures d.Plain? ==> result == d.action
    ensures d.Call? && Succeeds(d.call, outcome) ==> result == SuccessAction(d.call.types, outcome.response, d.actionData)
    ensures d.Call? && !Succeeds(d.call, outcome) ==>
      result == FailureAction(d.call.types, if Supported(d.call.verb) then outcome.error else UnsupportedMethodError, d.actionData)
  {
    var emitted := Run(d, outcome);
    emitted[|emitted| - 1]
  }

  /**
    A component tests `result.error` to tell a failed call from a successful
    one; the test is exact as long as the descriptor's actionData has no
    `error` field of its own.
   */
  lemma DispatchResultError(call: ApiCall, actionData: Json, outcome: Outcome)
    requires "error" !in Fields(actionData)
    ensures Truthy(DispatchResult(Call(call, actionData), outcome).Field("error")) <==> !Succeeds(call, outcome)
  {
  }

  /**
    For a descriptor built the way every builder builds one, an error
    message plus extra fields other than `error` and `response`,
    `await dispatch(d)` yields an action with a truthy `error` exactly when
    the call failed, and otherwise one carrying the response.
   */
  lemma AwaitedResult(d: Dispatched, outcome: Outcome, message: string, extra: map<string, Json>)
    requires d.Call? && Supported(d.call.verb) && d.actionData == ActionData(message, extra)
    requires "error" !in extra && "response" !in extra
    ensures var result := DispatchResult(d, outcome);
      (Truthy(result.Field("error")) <==> outcome.Err?)
      && (outcome.Ok? ==> result.Field("response") == outcome.response)
  {
    assert Fields(d.actionData).Keys == {"errorMessage"} + extra.Keys;
    assert "errorMessage" != "error" && "errorMessage" != "response";
    DispatchResultError(d.call, d.actionData, outcome);
  }

  /** The HTTP request the middleware issues. */
  datatype Request = Request(verb: Method, url: string, body: Json)

  /**
    GET descriptors are fetched by their full URL (with the descriptor's data
    as query parameters); POST, PUT and DELETE go through the client whose
    paths are prefixed with `/v1` and resolved against the base address.
    No request is issued for an unsupported method.
   */
  function Issued(base: string, call: ApiCall): (r: Option<Request>)
    ensures r.None? <==> !Supported(call.verb)
    ensures call.verb == GET ==> r == Some(Request(GET, call.url, call.data))
    // the `/v1` prefix lands right after the base, whatever path the descriptor names
    ensures call.verb in {POST, PUT, DELETE} ==>
      r.Some? && r.value.verb == call.verb && r.value.url == Urls.TrimBaseSlashes(base) + "/v1" + call.url
    ensures call.verb in {POST, PUT} ==> r.Some? && r.value.body == call.data
    ensures call.verb == DELETE ==> r.Some? && r.value.body == Undefined
  {
    var address := Urls.CombineUrls(base, "/v1" + call.url);
    Urls.CombineRooted(base, "/v1" + call.url);
    match call.verb
    case GET => Some(Request(GET, call.url, call.data))
    case POST => Some(Request(POST, address, call.data))
    case PUT => Some(Request(PUT, address, call.data))
    case DELETE => Some(Request(DELETE, address, Undefined))
    case Unsupported(_) => None
  }
}
