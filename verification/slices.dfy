/**
  The two shapes of reducer state.  A slice whose reducer declares an initial
  value always has the four keys `loading`, `error`, `errorDetails` and
  `data`; a slice that starts as `{}` gains keys as actions arrive, and a key
  it has never been given reads as undefined.
 */
module Slices {

  import opened Json
  import opened Redux

  /** A slice with a declared initial shape; `D` is the shape of its `data`. */
  datatype Slice<D> = Slice(loading: bool, error: bool, errorDetails: Json, data: D)

  /** A slice that starts as `{}`; `Undefined` is a key that has not been set. */
  datatype Loose = Loose(loading: Json, error: Json, errorDetails: Json, data: Json, meta: Json)

  const LooseInit: Loose := Loose(Undefined, Undefined, Undefined, Undefined, Undefined)

  /** The pagination a list slice starts with, before the server has sent any. */
  function EmptyPagination(totalPages: int, itemsPerPage: int): (p: Json)
    ensures p.Obj? && p.fields.Keys == {"currentPage", "totalPages", "totalItems", "itemsPerPage", "hasNextPage", "hasPrevPage"}
  {
    Obj(map["currentPage" := Num(1), "totalPages" := Num(totalPages), "totalItems" := Num(0),
            "itemsPerPage" := Num(itemsPerPage), "hasNextPage" := Bool(false), "hasPrevPage" := Bool(false)])
  }

  /** `action.response` */
  function Response(a: Action): Json {
    a.Field("response")
  }

  /** `action.response.data` */
  function ResponseData(a: Action): Json {
    Get(a.Field("response"), "data")
  }

  /** `{ errorMessage: action.error.errorMessage, errorStatusCode: action.error.errorStatusCode }` */
  function ErrorDetails(a: Action): (d: Json)
    ensures d.Obj? && d.fields.Keys == {"errorMessage", "errorStatusCode"}
    ensures d.fields["errorMessage"] == Get(a.Field("error"), "errorMessage")
    ensures d.fields["errorStatusCode"] == Get(a.Field("error"), "errorStatusCode")
  {
    Obj(map["errorMessage" := Get(a.Field("error"), "errorMessage"),
            "errorStatusCode" := Get(a.Field("error"), "errorStatusCode")])
  }

  /** REQUEST on a loose slice: `{ loading: true, data: state.data || {} }`. */
  function Requested(s: Loose): (r: Loose)
    ensures r.loading == Bool(true) && Truthy(r.data)
    ensures Truthy(s.data) ==> r.data == s.data
    ensures r.error == s.error && r.errorDetails == s.errorDetails && r.meta == s.meta
  {
    s.(loading := Bool(true), data := Or(s.data, EmptyObject))
  }

  /** FAILURE on a loose slice: the flag and the details are set, the data is kept. */
  function Failed(s: Loose, a: Action): (r: Loose)
    ensures r.loading == Bool(false) && r.error == Bool(true) && r.errorDetails == ErrorDetails(a)
    ensures r.data == s.data && r.meta == s.meta
  {
    s.(loading := Bool(false), error := Bool(true), errorDetails := ErrorDetails(a))
  }

  /** A completed load on a loose slice: new data, the error flag and details untouched. */
  function Loaded(s: Loose, data: Json): (r: Loose)
    ensures r.loading == Bool(false) && r.data == data
    ensures r.error == s.error && r.errorDetails == s.errorDetails && r.meta == s.meta
  {
    s.(loading := Bool(false), data := data)
  }

  /** A loose slice never clears its error flag: no action other than FAILURE writes it. */
  predicate KeepsError(s: Loose, r: Loose) {
    r.error == s.error || r.error == Bool(true)
  }

  /** Once set, the error flag of a loose slice survives every later action. */
  lemma {:induction false} ReplayKeepsError(reducer: (Loose, Action) -> Loose, s: Loose, actions: seq<Action>)
    requires forall s', a :: KeepsError(s', reducer(s', a))
    requires Truthy(s.error)
    ensures Truthy(Replay(reducer, s, actions).error)
    decreases |actions|
  {
    if actions != [] {
      assert KeepsError(s, reducer(s, actions[0]));
      ReplayKeepsError(reducer, reducer(s, actions[0]), actions[1..]);
    }
  }
}
