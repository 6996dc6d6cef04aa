/**
 * `LoginResponseCreator`: a POST carrying a username and a password is
 * challenged by the schema's authenticator; a request that is already
 * authenticated just gets its token back, otherwise the login provider is
 * asked for a user ID and, when it gives one, the user is registered under
 * a new token. Anything else is a malformed request (400).
 *
 * The login provider (an LDAP client in the repository) and the user-ID
 * transformer are code outside this layer, so they are parameters, as is the
 * token the authenticator generates.
 */
module Login {
  import opened Wrappers
  import opened Http
  import opened SessionSpec
  import opened Core
  import opened Store
  import opened Authenticators
  import opened Responses

  /** `LoginConfiguration` defaults for the credential field names. */
  const DefaultUsernameFormName: string := "username"
  const DefaultPasswordFormName: string := "password"

  const JsonContentType: string := "application/json"
  /** The JSON body limit: 1024 * 1024 * 1024 bytes, one gibibyte. */
  const MaxJsonContentLength: int := 1024 * 1024 * 1024

  /** The settings a `LoginResponseCreator` is built with. */
  datatype LoginSettings = LoginSettings(
    authSchema: Option<string>,
    usernameFormName: string,
    passwordFormName: string,
    userIDTransformer: Option<string -> string>)

  /**
   * The JSON content type is matched ignoring case: a content type is accepted
   * exactly when its upper-cased form is "APPLICATION/JSON", so every
   * capitalisation of "application/json" is.
   */
  lemma JsonContentTypeIgnoresCase(a: string)
    ensures EqualsIgnoreCase(a, JsonContentType) <==> Upper(a) == "APPLICATION/JSON"
  {
    assert Upper(JsonContentType) == "APPLICATION/JSON";
  }

  /** The guard of the JSON path: the content type and a known length below the limit. */
  predicate JsonBodyAccepted(body: RequestBody) {
    && body.Other?
    && body.contentType.Some? && EqualsIgnoreCase(body.contentType.value, JsonContentType)
    && body.contentLength.Some? && body.contentLength.value < MaxJsonContentLength
  }

  /** A form field, its name matched ignoring case, with exactly one value. */
  predicate SingleValued(fields: FormFields, name: string) {
    FormValues(fields, name).Some? && |FormValues(fields, name).value| == 1
  }

  /**
   * The credentials read from the body. A form gives them only when both
   * fields are present with exactly one value each; an accepted JSON body
   * gives each string-valued property; anything else gives none.
   */
  function ReadCredentials(body: RequestBody, usernameName: string, passwordName: string): (r: (Option<string>, Option<string>))
    ensures body.Form? ==>
      if SingleValued(body.fields, usernameName) && SingleValued(body.fields, passwordName)
      then r == (Some(FormValues(body.fields, usernameName).value[0]), Some(FormValues(body.fields, passwordName).value[0]))
      else r == (None, None)
    ensures JsonBodyAccepted(body) ==>
      && (r.0.Some? <==> usernameName in body.jsonStrings)
      && (r.1.Some? <==> passwordName in body.jsonStrings)
      && (r.0.Some? ==> r.0.value == body.jsonStrings[usernameName])
      && (r.1.Some? ==> r.1.value == body.jsonStrings[passwordName])
    ensures !body.Form? && !JsonBodyAccepted(body) ==> r == (None, None)
  {
    match body
    case Form(fields) =>
      if SingleValued(fields, usernameName) && SingleValued(fields, passwordName)
      then (Some(FormValues(fields, usernameName).value[0]), Some(FormValues(fields, passwordName).value[0]))
      else (None, None)
    case Other(_, _, json) =>
      if JsonBodyAccepted(body) then
        (if usernameName in json then Some(json[usernameName]) else None,
         if passwordName in json then Some(json[passwordName]) else None)
      else (None, None)
  }

  /**
   * Form field names are matched ignoring case: a form whose fields are spelt
   * in any capitalisation of the configured names, with one value each, gives
   * those values as the credentials.
   */
  lemma FormNamesIgnoreCase(fields: FormFields, usernameName: string, passwordName: string, u: string, p: string)
    requires u in fields && EqualsIgnoreCase(u, usernameName) && |fields[u]| == 1
    requires p in fields && EqualsIgnoreCase(p, passwordName) && |fields[p]| == 1
    ensures ReadCredentials(Form(fields), usernameName, passwordName) == (Some(fields[u][0]), Some(fields[p][0]))
  {
    assert FormValues(fields, usernameName).Some? && FormValues(fields, passwordName).Some?;
  }

  /** The two credentials of a request, read only from a POST. */
  function Credentials(settings: LoginSettings, req: Request): (Option<string>, Option<string>) {
    if req.httpMethod == MethodPost then ReadCredentials(req.body, settings.usernameFormName, settings.passwordFormName)
    else (None, None)
  }

  /**
   * `sentAnythingBack`: a POST with a non-empty username and password for
   * which an authenticator of the schema can be used in an authentication
   * attempt.
   */
  predicate Attempted(settings: LoginSettings, agg: Aggregator<HttpAuthenticator>, req: Request) {
    var creds := Credentials(settings, req);
    && req.httpMethod == MethodPost
    && !IsNullOrEmpty(creds.0) && !IsNullOrEmpty(creds.1)
    && Chosen(agg, req, settings.authSchema, true).Some?
  }

  /** The transformer, when one is configured, applied to the provider's user ID. */
  function TransformUserID(transformer: Option<string -> string>, userID: string): string {
    match transformer
    case None => userID
    case Some(f) => f(userID)
  }

  /** The malformed-request answer: 400 with an empty body. */
  function BadRequest(resp: Response): (r: Response)
    ensures r.status == StatusBadRequest && r.bodyWritten && r.headers == resp.headers
  {
    WriteEmptyBody(WithStatus(resp, StatusBadRequest))
  }

  /**
   * The attempted part of `ProcessLogin`: challenge the request with `a`; when
   * that fails, ask the provider about the credentials and register its
   * (transformed) user ID under the generated token. No user entry is
   * dropped, so every user keeps its cache untouched.
   */
  method LoginWith(settings: LoginSettings, a: HttpAuthenticator, req: Request, resp: Response, now: int,
                   provider: (string, string) -> Option<string>, username: string, pw: string, generated: string)
    returns (r: Result<Response>)
    requires a.store.Valid()
    modifies a.store, a.store.UserInfos()
    ensures a.store.Valid()
    ensures var id := a.GetAuthID(req);
      var g := TryGet(a.store.revision, old(a.store.View()), id, now);
      var userID := provider(username, pw);
      && (g.ok ==> a.store.View() == g.state && r == Success(a.Run(MarkChallengeAccepted(id.value), resp)))
      && (!g.ok && IsNullOrEmpty(userID) ==>
            a.store.View() == g.state && r == Success(a.Run(GiveUpOnChallenge, resp)))
      && (!g.ok && !IsNullOrEmpty(userID) ==>
            var added := Add(g.state, generated, TransformUserID(settings.userIDTransformer, userID.value), a.expirationTime, now);
            && a.store.View() == added.state
            && (r.Success? <==> added.ok)
            && (r.Success? ==> r.value == a.Run(MarkChallengeAccepted(generated), resp)))
    ensures a.store.CachesKept(old(a.store.caches))
    ensures forall u :: u in a.store.caches && u !in old(a.store.caches) ==>
      fresh(a.store.caches[u]) && a.store.caches[u].State() == UserData.CacheState(map[], false, [])
  {
    var challengeResult := a.ChallengeAsync(req, now);
    if !challengeResult.IsSuccess() {
      var userID := provider(username, pw);
      if IsNullOrEmpty(userID) {
        r := Success(a.Run(challengeResult.proceed, resp));
      } else {
        var transformed := TransformUserID(settings.userIDTransformer, userID.value);
        r := a.RegisterUser(resp, transformed, generated, now);
      }
    } else {
      r := Success(a.Run(challengeResult.proceed, resp));
    }
  }

  /**
   * `LoginResponseCreator.ProcessForResponseAsync`. Exactly one of three
   * things happens: 400 without touching any store; the challenge's
   * continuation (the token sent back when the request was already
   * authenticated, 401 when the provider gives no user ID); or the
   * registration of the provider's (transformed) user ID under the generated
   * token. A failed registration is the store's exception.
   */
  method ProcessLogin(settings: LoginSettings, agg: Aggregator<HttpAuthenticator>, req: Request, resp: Response, now: int,
                      provider: (string, string) -> Option<string>, generated: string)
    returns (r: Result<Response>)
    requires var c := Chosen(agg, req, settings.authSchema, true); c.Some? ==> c.value.store.Valid()
    modifies Footprint(Chosen(agg, req, settings.authSchema, true))
    ensures var c := Chosen(agg, req, settings.authSchema, true);
      c.Some? ==> c.value.store.Valid()
    ensures !Attempted(settings, agg, req) ==>
      && r == Success(BadRequest(resp))
      && var c := Chosen(agg, req, settings.authSchema, true);
         c.Some? ==> c.value.store.View() == old(c.value.store.View())
    ensures Attempted(settings, agg, req) ==>
      var creds := Credentials(settings, req);
      var a := Chosen(agg, req, settings.authSchema, true).value;
      var id := a.GetAuthID(req);
      var g := TryGet(a.store.revision, old(a.store.View()), id, now);
      var userID := provider(creds.0.value, creds.1.value);
      && (g.ok ==> a.store.View() == g.state && r == Success(a.Run(MarkChallengeAccepted(id.value), resp)))
      && (!g.ok && IsNullOrEmpty(userID) ==>
            a.store.View() == g.state && r == Success(a.Run(GiveUpOnChallenge, resp)))
      && (!g.ok && !IsNullOrEmpty(userID) ==>
            var added := Add(g.state, generated, TransformUserID(settings.userIDTransformer, userID.value), a.expirationTime, now);
            && a.store.View() == added.state
            && (r.Success? <==> added.ok)
            && (r.Success? ==> r.value == a.Run(MarkChallengeAccepted(generated), resp)))
    ensures var c := Chosen(agg, req, settings.authSchema, true);
      c.Some? ==>
        var st := c.value.store;
        && st.CachesKept(old(st.caches))
        && forall u :: u in st.caches && u !in old(st.caches) ==>
             fresh(st.caches[u]) && st.caches[u].State() == UserData.CacheState(map[], false, [])
  {
    var sentAnythingBack := false;
    if req.httpMethod == MethodPost {
      var creds := ReadCredentials(req.body, settings.usernameFormName, settings.passwordFormName);
      var username, pw := creds.0, creds.1;
      var authChecker: Option<HttpAuthenticator> := None;
      if !IsNullOrEmpty(username) && !IsNullOrEmpty(pw) {
        authChecker := Chosen(agg, req, settings.authSchema, true);
      }
      sentAnythingBack := authChecker.Some?;
      if sentAnythingBack {
        r := LoginWith(settings, authChecker.value, req, resp, now, provider, username.value, pw.value, generated);
      }
    }
    if !sentAnythingBack {
      r := Success(BadRequest(resp));
    }
  }
}
