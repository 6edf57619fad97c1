/** src/app/login/page.tsx: handleLogin. The CSRF-guarded POST /login, then
    the bearer token of the response is installed and the user is sent home. */
module LoginPage {
  import opened Wrappers
  import opened Failures
  import opened Payloads
  import opened Api
  import ErrorMessages

  /** `response.data` of POST /login: the `token` field, when present. */
  datatype LoginData = LoginData(token: Option<string>)

  /** The endpoint credentials are posted to. */
  const LoginEndpoint: string := "/login"
  const HomePath: string := "/home"
  const CsrfMissing: Failure := Thrown("Failed to retrieve CSRF token")
  const NoTokenReceived: Failure := Thrown("Authentication failed - no token received")

  class LoginForm {
    var loading: bool
    var error: string
    var navigation: Option<string>

    constructor ()
      ensures !loading && error == "" && navigation.None?
    {
      loading := false;
      error := "";
      navigation := None;
    }

    /** handleLogin. `issued` is the outcome of a CSRF bootstrap request, if
        one is needed; `outcome` that of POST /login. `posted` tells whether
        the credentials were sent. */
    method HandleLogin(api: ApiClient, email: string, password: string,
                       issued: Result<string, Failure>, outcome: Result<LoginData, Failure>)
      returns (r: SubmitOutcome, posted: bool)
      modifies this, api
      ensures !loading && r != Refused
      ensures posted <==> CsrfOutcome(old(api.cookie), issued).Ok?
      ensures posted ==>
        api.sent == old(api.sent) + CsrfRequests(old(api.cookie), old(api.common))
                    + [Request(Post, LoginEndpoint, Outgoing(old(api.common), map[XsrfHeader := CsrfOutcome(old(api.cookie), issued).value]),
                               Credentials(email, password))]
      ensures !posted ==>
        && api.sent == old(api.sent) + CsrfRequests(old(api.cookie), old(api.common))
        && r == Failed(CsrfOutcome(old(api.cookie), issued).error)
      ensures posted && outcome.Err? ==> r == Failed(outcome.error)
      ensures posted && outcome.Ok? && !Truthy(outcome.value.token) ==> r == Failed(NoTokenReceived)
      ensures r.Succeeded? <==> posted && outcome.Ok? && Truthy(outcome.value.token)
      ensures r.Succeeded? ==>
        && api.common == WithBearer(old(api.common), outcome.value.token.value)
        && api.storage == (if api.hasWindow then old(api.storage)[TokenKey := outcome.value.token.value] else old(api.storage))
        && navigation == Some(HomePath) && error == ""
      ensures r.Failed? ==>
        && api.common == old(api.common) && api.storage == old(api.storage)
        && navigation == old(navigation) && error == ErrorMessages.LoginMessage(r.failure)
    {
      loading := true;
      error := "";
      var response;
      response, posted := api.PostWithCsrf(LoginEndpoint, Credentials(email, password), CsrfMissing, issued, outcome);
      var failure: Option<Failure> := None;
      if response.Err? {
        failure := Some(response.error);
      } else if !Truthy(response.value.token) {
        failure := Some(NoTokenReceived);
      } else {
        api.SetAuthToken(response.value.token.value);
        navigation := Some(HomePath);
      }
      if failure.None? {
        r := Succeeded;
      } else {
        error := ErrorMessages.LoginMessage(failure.value);
        r := Failed(failure.value);
      }
      loading := false;
    }
  }

  /** The errors the page throws itself carry no response, so the banner
      shows their own text rather than the credentials fallback. */
  lemma MissingTokenMessage()
    ensures ErrorMessages.LoginMessage(CsrfMissing) == "Failed to retrieve CSRF token"
    ensures ErrorMessages.LoginMessage(NoTokenReceived) == "Authentication failed - no token received"
  {
  }
}
