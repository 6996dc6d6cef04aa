/**
 * The response creator that consults the authenticators. The guarded
 * creator looks up the authenticator of its schema, challenges the request,
 * and then runs its inner handler with the authenticated user, or the
 * challenge's continuation, or the aggregator's 401.
 */
module Responses {
  import opened Wrappers
  import opened Http
  import opened SessionSpec
  import opened Core
  import opened Store
  import opened Authenticators
  import HttpCommon
  import UserData

  /** What a creator ends up doing with the request. */
  datatype Handling =
    /** The inner handler runs, with the authenticated user. */
    | Inner(user: UserData.UserInfo?)
    /** The challenge's continuation ran on the response. */
    | Proceeded(resp: Response)
    /** No authenticator could be used: the aggregator's fallback ran on the response. */
    | NoAuthenticator(resp: Response)

  /** The authenticator a request is challenged by: the first usable one of the schema. */
  function Chosen(agg: Aggregator<HttpAuthenticator>, req: Request, schema: Option<string>, attempt: bool): Option<HttpAuthenticator> {
    GetAuthenticator(agg, Usable(req, attempt), schema)
  }

  /** What challenging with `c` may change: its store and the store's user caches. */
  function Footprint(c: Option<HttpAuthenticator>): set<object>
    reads if c.Some? then {c.value.store} else {}
  {
    if c.Some? then {c.value.store} + c.value.store.UserInfos() else {}
  }

  /**
   * `AuthenticationGuardedResponseCreator.ProcessForResponseAsync`, with the
   * authentication-attempt flag left at false. Exactly one of three things
   * happens: the inner handler runs with the user the challenge found; the
   * failed challenge's continuation answers 401; or, with no usable
   * authenticator, the aggregator answers 401 and the store is not touched.
   */
  method ProcessGuarded(agg: Aggregator<HttpAuthenticator>, schema: Option<string>, req: Request, resp: Response, now: int)
    returns (r: Handling)
    requires var c := Chosen(agg, req, schema, false); c.Some? ==> c.value.store.Valid()
    modifies Footprint(Chosen(agg, req, schema, false))
    ensures var c := Chosen(agg, req, schema, false);
      && (c.None? ==> r == NoAuthenticator(HttpCommon.ProceedWhenNoAuthenticatorFound(resp)))
      && (c.Some? ==>
            var a := c.value;
            var id := a.GetAuthID(req);
            var g := TryGet(a.store.revision, old(a.store.View()), id, now);
            && a.store.Valid()
            && a.store.View() == g.state
            && (g.ok ==> r == Inner(old(a.store.caches)[old(a.store.tokens)[id.value].userID]))
            && (!g.ok ==> r == Proceeded(a.Run(GiveUpOnChallenge, resp)) && r.resp.status == StatusUnauthorized))
    ensures var c := Chosen(agg, req, schema, false);
      c.Some? ==> c.value.store.caches == old(c.value.store.caches) && c.value.store.CachesKept(old(c.value.store.caches))
  {
    var c := Chosen(agg, req, schema, false);
    if c.Some? {
      var challenge := c.value.ChallengeAsync(req, now);
      if challenge.IsSuccess() {
        r := Inner(challenge.userInfo);
      } else {
        r := Proceeded(c.value.Run(challenge.proceed, resp));
      }
    } else {
      r := NoAuthenticator(HttpCommon.ProceedWhenNoAuthenticatorFound(resp));
    }
  }

  /** A compiled regular expression; matching is not modelled. */
  datatype Regex = Regex(pattern: string)

  /** `RegexHolder`: the extractor of the string to match, and the regex. */
  datatype RegexHolder<-C> = RegexHolder(extractRegex: C -> string, regex: Regex)

  /** The `RegexHolder` constructor: a null extractor, then a null regex, is an `ArgumentNullException`. */
  function NewRegexHolder<C>(extractRegex: Option<C -> string>, regex: Option<Regex>): (r: Result<RegexHolder<C>>)
    ensures r.Success? <==> extractRegex.Some? && regex.Some?
    ensures r.Success? ==> r.value.extractRegex == extractRegex.value && r.value.regex == regex.value
    ensures extractRegex.None? ==> r == Failure("extractRegex")
    ensures extractRegex.Some? && regex.None? ==> r == Failure("regex")
  {
    if extractRegex.None? then Failure("extractRegex")
    else if regex.None? then Failure("regex")
    else Success(RegexHolder(extractRegex.value, regex.value))
  }
}
