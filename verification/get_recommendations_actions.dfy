/** The recommendations request builder and the action that clears them. */
module GetRecommendationsActions {

  import opened Json
  import opened Redux
  import Urls

  const GetRecommendationsTypes: Types := Types("GET_RECOMMENDATIONS_REQUEST", "GET_RECOMMENDATIONS_SUCCESS", "GET_RECOMMENDATIONS_FAILURE")
  const ClearRecommendations: string := "CLEAR_RECOMMENDATIONS"

  /** `getRecommendations()` */
  function GetRecommendations(base: string): (d: Dispatched)
    ensures d.Call? && d.call.types == GetRecommendationsTypes && d.call.verb == GET && d.call.data == Undefined
    ensures d.call.url == base + "/v1" + Urls.RecommendationsUrl
    ensures d.actionData == ActionData("Failed to fetch AI recommendations", map[])
  {
    Call(ApiCall(GetRecommendationsTypes, base + "/v1" + Urls.RecommendationsUrl, GET, Undefined),
      ActionData("Failed to fetch AI recommendations", map[]))
  }

  /** `clearRecommendations()` */
  function ClearRecommendationsAction(): (a: Action)
    ensures a.Is(ClearRecommendations) && a.fields.Keys == {"type"}
  {
    OfType(ClearRecommendations)
  }
}
