/**
 * The HTTP flavour of the core types: the aggregator's "no authenticator"
 * response, and the record the token store keeps per user. The record kept
 * per token, `AuthenticatedTokenInfo`, is SessionSpec.TokenRecord.
 */
module HttpCommon {
  import opened Http
  import UserData

  /**
   * `PerformProceedWhenNoAuthenticatorFound`: no authenticator could handle
   * the request, so it is answered with 401 and an empty body.
   */
  function ProceedWhenNoAuthenticatorFound(resp: Response): (r: Response)
    ensures r.status == StatusUnauthorized && r.bodyWritten
    ensures r.headers == resp.headers
  {
    WriteEmptyBody(WithStatus(resp, StatusUnauthorized))
  }

  /**
   * `AuthenticatedUserInfo`: a user's data cache and the set of tokens that
   * currently authenticate the user.
   */
  datatype AuthenticatedUserInfo = AuthenticatedUserInfo(userInfo: UserData.UserInfo, authTokens: set<string>)
}
