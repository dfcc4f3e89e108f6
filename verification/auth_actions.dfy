/** The sign-in and sign-up request builders and the two session actions. */
module AuthActions {

  import opened Json
  import opened Redux
  import Urls

  const LoginTypes: Types := Types("LOGIN_REQUEST", "LOGIN_SUCCESS", "LOGIN_FAILURE")
  const RegisterTypes: Types := Types("REGISTER_REQUEST", "REGISTER_SUCCESS", "REGISTER_FAILURE")
  const Logout: string := "LOGOUT"
  const SetAuthData: string := "SET_AUTH_DATA"

  /** `loginUser(credentials)`: the credentials are the body, unchanged. */
  function LoginUser(credentials: Json): (d: Dispatched)
    ensures d.Call? && d.call.types == LoginTypes && d.call.verb == POST
    ensures d.call.url == Urls.LoginUrl && d.call.data == credentials
    ensures d.actionData == ActionData("Login Failed", map[])
  {
    Call(ApiCall(LoginTypes, Urls.LoginUrl, POST, credentials), ActionData("Login Failed", map[]))
  }

  /** `registerUser(userData)`: the new user's data is the body, unchanged. */
  function RegisterUser(userData: Json): (d: Dispatched)
    ensures d.Call? && d.call.types == RegisterTypes && d.call.verb == POST
    ensures d.call.url == Urls.RegisterUrl && d.call.data == userData
    ensures d.actionData == ActionData("Registration Failed", map[])
  {
    Call(ApiCall(RegisterTypes, Urls.RegisterUrl, POST, userData), ActionData("Registration Failed", map[]))
  }

  /** `logoutUser()` */
  function LogoutUser(): (a: Action)
    ensures a.Is(Logout) && a.fields.Keys == {"type"}
  {
    OfType(Logout)
  }

  /** `setAuthData(authData)` */
  function SetAuthDataAction(authData: Json): (a: Action)
    ensures a.Is(SetAuthData) && a.Field("response") == authData
  {
    WithResponse(SetAuthData, authData)
  }
}
