/**
  Redux actions, the request descriptors the builders return, HTTP call
  outcomes, and running a reducer over a sequence of actions.
 */
module Redux {

  import opened Json

  /** A plain action object; its `type` is the "type" field. */
  datatype Action = Action(fields: map<string, Json>) {
    function Type(): Json {
      Lookup(fields, "type")
    }

    predicate Is(t: string) {
      Lookup(fields, "type") == Str(t)
    }

    /** `action.key` */
    function Field(key: string): Json {
      Lookup(fields, key)
    }
  }

  /** `{ type: t }` */
  function OfType(t: string): (a: Action)
    ensures a.Is(t) && a.fields.Keys == {"type"}
  {
    Action(map["type" := Str(t)])
  }

  /** `{ type: t, response: payload }`, the shape of every synchronous action creator with a payload. */
  function WithResponse(t: string, payload: Json): (a: Action)
    ensures a.Is(t) && a.Field("response") == payload && a.fields.Keys == {"type", "response"}
  {
    Action(map["type" := Str(t), "response" := payload])
  }

  /** The request method a descriptor names; anything else is carried verbatim. */
  datatype Method = GET | POST | PUT | DELETE | Unsupported(name: Json)

  /** The `[request, success, failure]` action types of a descriptor. */
  datatype Types = Types(request: string, success: string, failure: string)

  /** Three pairwise different action types, as every builder's are. */
  predicate Distinct(t: Types) {
    t.request != t.success && t.request != t.failure && t.success != t.failure
  }

  /** The value under the `CALL_API` key of a descriptor. */
  datatype ApiCall = ApiCall(types: Types, url: string, verb: Method, data: Json)

  /** What a component hands to `dispatch`: a plain action, or a descriptor with its `actionData`. */
  datatype Dispatched = Plain(action: Action) | Call(call: ApiCall, actionData: Json)

  /** How the HTTP call of a descriptor ends: the response body, or the value thrown. */
  datatype Outcome = Ok(response: Json) | Err(error: Json)

  /** The `actionData` every descriptor carries: an error message and optional extra fields. */
  function ActionData(errorMessage: string, extra: map<string, Json>): (d: Json)
    ensures d.Obj?
    ensures "errorMessage" !in extra ==> Get(d, "errorMessage") == Str(errorMessage)
    ensures forall k :: k in extra ==> k in d.fields && d.fields[k] == extra[k]
  {
    Obj(map["errorMessage" := Str(errorMessage)] + extra)
  }

  /** The state after the store has applied `reducer` to each action in turn. */
  function Replay<S>(reducer: (S, Action) -> S, s: S, actions: seq<Action>): S
    decreases |actions|
  {
    if actions == [] then s else Replay(reducer, reducer(s, actions[0]), actions[1..])
  }

  lemma {:induction false} ReplayAppend<S>(reducer: (S, Action) -> S, s: S, xs: seq<Action>, ys: seq<Action>)
    ensures Replay(reducer, s, xs + ys) == Replay(reducer, Replay(reducer, s, xs), ys)
    decreases |xs|
  {
    if xs == [] {
      assert xs + ys == ys;
    } else {
      assert (xs + ys)[0] == xs[0];
      assert (xs + ys)[1..] == xs[1..] + ys;
      ReplayAppend(reducer, reducer(s, xs[0]), xs[1..], ys);
    }
  }

  /** Replaying a request's two lifecycle actions applies the reducer twice, in order. */
  lemma {:induction false} ReplayPair<S>(reducer: (S, Action) -> S, s: S, a: Action, b: Action)
    ensures Replay(reducer, s, [a, b]) == reducer(reducer(s, a), b)
  {
    var s1 := reducer(s, a);
    assert [a, b][1..] == [b];
    assert Replay(reducer, s, [a, b]) == Replay(reducer, s1, [b]);
    assert [b][1..] == [];
    assert Replay(reducer, s1, [b]) == Replay(reducer, reducer(s1, b), []);
  }
}
