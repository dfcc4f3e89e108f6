/** The profile-update request builder. */
module UpdateUserProfileActions {

  import opened Json
  import opened Redux
  import Urls

  const UpdateUserProfileTypes: Types := Types("UPDATE_USER_PROFILE_REQUEST", "UPDATE_USER_PROFILE_SUCCESS", "UPDATE_USER_PROFILE_FAILURE")

  /** `updateUserProfile(profileData)`: a PUT of the profile fields to the profile path, relative to the API client. */
  function UpdateUserProfile(profileData: Json): (d: Dispatched)
    ensures d.Call? && d.call.types == UpdateUserProfileTypes && d.call.verb == PUT
    ensures d.call.url == Urls.UserProfileUrl && d.call.data == profileData
    ensures d.actionData == ActionData("Update User Profile Failed", map[])
  {
    Call(ApiCall(UpdateUserProfileTypes, Urls.UserProfileUrl, PUT, profileData), ActionData("Update User Profile Failed", map[]))
  }
}
