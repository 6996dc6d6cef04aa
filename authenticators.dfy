/**
 * `HTTPAuthenticator`: the challenge / register / unregister protocol written
 * against a token store, and its two strategies. The header strategy carries
 * the token in a request and response header; the guest strategy registers
 * one token for a fixed user when it is built and answers every request with
 * it. Strategies differ only in `CanBeUsed`, `GetAuthID` and `SetAuthID`.
 *
 * The continuations the source returns (`Func<Task>`) are the `Proceed`
 * values; `Run` is what awaiting one does to the response. Token generation
 * is random, so the generated token is a parameter.
 */
module Authenticators {
  import opened Wrappers
  import opened Http
  import opened SessionSpec
  import opened Core
  import opened Store

  /** `HTTPAuthenticatorConfiguration` defaults: 32 token bytes, 3 hours. */
  const DefaultTokenByteCount: int := 32
  const DefaultExpirationTime: int := 3 * TicksPerHour
  /** `HTTPHeaderBasedAuthenticationConfiguration.DEFAULT_HEADER_NAME`. */
  const DefaultHeaderName: string := "X-MyAuthToken"
  /** The guest configuration's default user ID. */
  const DefaultGuestUserID: string := "guest"

  /** `HTTPAuthenticatorConfiguration`; the base64 shuffle seed only feeds token generation. */
  datatype Configuration = Configuration(tokenByteCount: int, expirationTime: int, isDefault: bool)

  const DefaultConfiguration: Configuration := Configuration(DefaultTokenByteCount, DefaultExpirationTime, false)

  /** `HTTPHeaderBasedAuthenticationConfiguration`: a null header name is `None`. */
  datatype HeaderConfiguration = HeaderConfiguration(base: Configuration, headerName: Option<string>)

  const DefaultHeaderConfiguration: HeaderConfiguration := HeaderConfiguration(DefaultConfiguration, Some(DefaultHeaderName))

  /** The guest authenticator's configuration. */
  datatype GuestConfiguration = GuestConfiguration(base: Configuration, userID: string)

  const DefaultGuestConfiguration: GuestConfiguration := GuestConfiguration(DefaultConfiguration, DefaultGuestUserID)

  /** `Math.Max(1, n)`: the least count that is at least 1 and at least `n`. */
  function ClampByteCount(n: int): (r: int)
    ensures r >= 1 && r >= n
    ensures r == 1 || r == n
  {
    if n < 1 then 1 else n
  }

  /** Where the token travels: a named header, or nowhere (the guest's fixed token). */
  datatype Strategy =
    | HeaderBased(headerName: string)
    | Guest(userID: string, authID: string)

  /** The continuation of a challenge: accept with the token, or give up with 401. */
  datatype Proceed = MarkChallengeAccepted(authID: string) | GiveUpOnChallenge

  /** One authenticator: immutable settings and the store it shares with its schema. */
  class HttpAuthenticator {
    const strategy: Strategy
    const authIDByteCount: int
    const expirationTime: int
    const isDefault: bool
    const store: AuthenticationDataHolder

    /** The base constructor: the byte count is clamped to at least 1. */
    constructor (config: Configuration, strategy: Strategy, store: AuthenticationDataHolder)
      ensures this.strategy == strategy && this.store == store
      ensures authIDByteCount == ClampByteCount(config.tokenByteCount)
      ensures expirationTime == config.expirationTime && isDefault == config.isDefault
    {
      this.strategy := strategy;
      this.store := store;
      authIDByteCount := ClampByteCount(config.tokenByteCount);
      expirationTime := config.expirationTime;
      isDefault := config.isDefault;
    }

    /**
     * `CanBeUsed`: the header strategy needs its header in the request, the
     * guest takes every request; neither looks at the attempt flag. The
     * header strategy can be used exactly when it reads a token (possibly
     * empty) from the request.
     */
    predicate CanBeUsed(req: Request, isAuthenticationAttempt: bool)
      ensures strategy.Guest? ==> CanBeUsed(req, isAuthenticationAttempt)
      ensures strategy.HeaderBased? ==> (CanBeUsed(req, isAuthenticationAttempt) <==> GetAuthID(req).Some?)
    {
      match strategy
      case HeaderBased(name) => HasHeader(req.headers, name)
      case Guest(_, _) => true
    }

    /** `GetAuthID`: the header's value (null when absent), or the guest's fixed token. */
    function GetAuthID(req: Request): (r: Option<string>)
      ensures strategy.Guest? ==> r == Some(strategy.authID)
      ensures strategy.HeaderBased? ==> (r.Some? <==> HasHeader(req.headers, strategy.headerName))
      ensures strategy.HeaderBased? && r.Some? ==>
        forall n :: EqualsIgnoreCase(n, strategy.headerName) ==> r.value == req.headers[Upper(n)]
    {
      match strategy
      case HeaderBased(name) => GetHeader(req.headers, name)
      case Guest(_, id) => Some(id)
    }

    /**
     * `SetAuthID`: the header strategy writes the token into the same-named
     * response header, the guest writes nothing; both signal that the
     * response may be sent.
     */
    function SetAuthID(resp: Response, authID: string): (r: (Response, bool))
      ensures r.1
      ensures r.0.status == resp.status && r.0.bodyWritten == resp.bodyWritten
      ensures strategy.HeaderBased? ==>
        && (forall n :: EqualsIgnoreCase(n, strategy.headerName) ==> GetHeader(r.0.headers, n) == Some(authID))
        && (forall n :: !EqualsIgnoreCase(n, strategy.headerName) ==> GetHeader(r.0.headers, n) == GetHeader(resp.headers, n))
      ensures strategy.Guest? ==> r.0 == resp
    {
      match strategy
      case HeaderBased(name) => (resp.(headers := SetHeader(resp.headers, name, authID)), true)
      case Guest(_, _) => (resp, true)
    }

    /**
     * Awaiting a continuation. Accepting sets the token and, when `SetAuthID`
     * allows it, writes the empty body; giving up is the aggregator's 401.
     */
    function Run(p: Proceed, resp: Response): (r: Response)
      ensures r.bodyWritten
      ensures p.GiveUpOnChallenge? ==> r.status == StatusUnauthorized && r.headers == resp.headers
      ensures p.MarkChallengeAccepted? ==> r.status == resp.status && r.headers == SetAuthID(resp, p.authID).0.headers
    {
      match p
      case GiveUpOnChallenge => HttpCommon.ProceedWhenNoAuthenticatorFound(resp)
      case MarkChallengeAccepted(id) =>
        var (resp', send) := SetAuthID(resp, id);
        if send then WriteEmptyBody(resp') else resp'
    }

    /**
     * `ChallengeAsync`: look the request's token up. Found: the owner's cache
     * and the accept continuation. Not found: `RemoveAuthData` on the token,
     * no user, and the give-up continuation.
     */
    method ChallengeAsync(req: Request, now: int) returns (r: ChallengeResult<Proceed>)
      requires store.Valid()
      modifies store, store.UserInfos()
      ensures store.Valid()
      ensures var id := GetAuthID(req);
        var g := TryGet(store.revision, old(store.View()), id, now);
        && (r.IsSuccess() <==> g.ok)
        && (g.ok ==>
              && store.View() == g.state
              && r.userInfo == old(store.caches)[old(store.tokens)[id.value].userID]
              && r.proceed == MarkChallengeAccepted(id.value))
        && (!g.ok ==>
              && store.View() == Remove(g.state, id)
              && store.View() == g.state
              && r.proceed == GiveUpOnChallenge)
      ensures store.CachesReleased(old(store.caches))
      ensures store.caches == old(store.caches)
    {
      var authID := GetAuthID(req);
      var found, info, entry := store.TryGetAuthData(authID, now);
      var userInfo: UserData.UserInfo?;
      if found {
        userInfo := entry.value.userInfo;
      } else {
        FailedLookupRemovalIsNoop(store.revision, old(store.View()), authID, now);
        store.RemoveAuthData(authID);
        userInfo := null;
      }
      r := ChallengeResult(userInfo, if userInfo != null then MarkChallengeAccepted(authID.value) else GiveUpOnChallenge);
    }

    /**
     * `RegisterUser`: store the generated token for `userID` with the
     * configured expiration, then accept with it. A duplicate token is the
     * store's exception, and then the response is left alone.
     */
    method RegisterUser(resp: Response, userID: string, generated: string, now: int) returns (r: Result<Response>)
      requires store.Valid()
      modifies store
      ensures store.Valid()
      ensures var a := Add(old(store.View()), generated, userID, expirationTime, now);
        && store.View() == a.state
        && (r.Success? <==> a.ok)
        && (r.Success? ==> r.value == Run(MarkChallengeAccepted(generated), resp))
      ensures userID in store.caches && store.caches == old(store.caches)[userID := store.caches[userID]]
      ensures userID in old(store.caches) ==> store.caches[userID] == old(store.caches)[userID]
      ensures userID !in old(store.caches) ==>
        fresh(store.caches[userID]) && store.caches[userID].State() == UserData.CacheState(map[], false, [])
      ensures store.CachesKept(old(store.caches))
    {
      var ok := store.AddAuthData(generated, userID, expirationTime, now);
      if !ok {
        return Failure("Duplicate auth ID?");
      }
      r := Success(Run(MarkChallengeAccepted(generated), resp));
    }

    /** `UnregisterUser`: remove the request's token, unless it is null or empty. */
    method UnregisterUser(req: Request)
      requires store.Valid()
      modifies store, store.UserInfos()
      ensures store.Valid()
      ensures store.View() == Remove(old(store.View()), GetAuthID(req))
      ensures store.CachesReleased(old(store.caches)) && store.UserInfos() <= old(store.UserInfos())
    {
      var authID := GetAuthID(req);
      if !IsNullOrEmpty(authID) {
        store.RemoveAuthData(authID);
      }
    }
  }

  /** The header authenticator factory: a null configuration is replaced by the default one. */
  method NewHeaderAuthenticator(config: Option<HeaderConfiguration>, store: AuthenticationDataHolder)
    returns (a: HttpAuthenticator)
    ensures fresh(a) && a.store == store
    ensures var c := config.GetOr(DefaultHeaderConfiguration);
      && a.strategy == HeaderBased(c.headerName.GetOr(DefaultHeaderName))
      && a.authIDByteCount == ClampByteCount(c.base.tokenByteCount)
      && a.expirationTime == c.base.expirationTime
      && a.isDefault == c.base.isDefault
  {
    var c := config.GetOr(DefaultHeaderConfiguration);
    a := new HttpAuthenticator(c.base, HeaderBased(c.headerName.GetOr(DefaultHeaderName)), store);
  }

  /** `ProcessConfiguration`: the guest's token never expires. */
  function GuestProcessConfiguration(config: Configuration): (r: Configuration)
    ensures r.expirationTime == InfiniteSpan
    ensures r.tokenByteCount == config.tokenByteCount && r.isDefault == config.isDefault
  {
    config.(expirationTime := InfiniteSpan)
  }

  /**
   * The guest constructor: registers the generated token for the configured
   * user with the infinite span. A duplicate token is the store's exception,
   * and no authenticator is built.
   */
  method NewGuestAuthenticator(config: GuestConfiguration, store: AuthenticationDataHolder, generated: string, now: int)
    returns (r: Result<HttpAuthenticator>)
    requires store.Valid()
    modifies store
    ensures store.Valid()
    ensures var a := Add(old(store.View()), generated, config.userID, InfiniteSpan, now);
      && store.View() == a.state
      && (r.Success? <==> a.ok)
    ensures r.Success? ==>
      && fresh(r.value) && r.value.store == store
      && r.value.strategy == Guest(config.userID, generated)
      && r.value.expirationTime == InfiniteSpan
      && r.value.authIDByteCount == ClampByteCount(config.base.tokenByteCount)
      && r.value.isDefault == config.base.isDefault
    ensures config.userID in store.caches && store.caches == old(store.caches)[config.userID := store.caches[config.userID]]
    ensures config.userID in old(store.caches) ==> store.caches[config.userID] == old(store.caches)[config.userID]
    ensures config.userID !in old(store.caches) ==>
      fresh(store.caches[config.userID]) && store.caches[config.userID].State() == UserData.CacheState(map[], false, [])
    ensures store.CachesKept(old(store.caches))
  {
    var processed := GuestProcessConfiguration(config.base);
    var a := new HttpAuthenticator(processed, Guest(config.userID, generated), store);
    var ok := store.AddAuthData(generated, config.userID, a.expirationTime, now);
    if !ok {
      return Failure("Duplicate auth ID?");
    }
    r := Success(a);
  }

  /** Whether `a` can be used for `req`: the predicate the aggregator filters with. */
  function Usable(req: Request, isAuthenticationAttempt: bool): HttpAuthenticator -> bool {
    (a: HttpAuthenticator) => a.CanBeUsed(req, isAuthenticationAttempt)
  }

  /**
   * Header names are matched ignoring case: a request whose header is named
   * in any capitalisation of the configured name (HTTP/2 sends every name in
   * lower case) can be used, and its token is read.
   */
  lemma HeaderNameCaseIgnored(a: HttpAuthenticator, h: Headers, name: string, t: string, m: string, body: RequestBody, attempt: bool)
    requires a.strategy.HeaderBased? && EqualsIgnoreCase(name, a.strategy.headerName)
    ensures var req := Request(m, SetHeader(h, name, t), body);
      a.CanBeUsed(req, attempt) && a.GetAuthID(req) == Some(t)
  {
    EqualsIgnoreCaseIsEquivalence(a.strategy.headerName, name, name);
  }

  /**
   * Header round trip: a client that echoes the response's headers back reads
   * the token the accept continuation set, and the authenticator can be used.
   */
  lemma HeaderRoundTrip(a: HttpAuthenticator, resp: Response, t: string, m: string, body: RequestBody, attempt: bool)
    requires a.strategy.HeaderBased?
    ensures var echoed := Request(m, a.Run(MarkChallengeAccepted(t), resp).headers, body);
      a.GetAuthID(echoed) == Some(t) && a.CanBeUsed(echoed, attempt)
  {
  }

  /** A guest in a schema's list shadows every authenticator after it, for every request. */
  lemma GuestShadowsLater(agg: Aggregator<HttpAuthenticator>, req: Request, attempt: bool, schema: Option<string>, i: nat)
    requires SchemaKey(schema) in agg.checkers && i < |agg.checkers[SchemaKey(schema)]|
    requires agg.checkers[SchemaKey(schema)][i].strategy.Guest?
    ensures GetAuthenticator(agg, Usable(req, attempt), schema).Some?
    ensures exists k :: 0 <= k <= i && GetAuthenticator(agg, Usable(req, attempt), schema).value == agg.checkers[SchemaKey(schema)][k]
  {
    EarlierUsableShadowsLater(agg, Usable(req, attempt), schema, i);
  }

  /**
   * Login then challenge: a token registered with a finite span, echoed back
   * in the header within that span, authenticates the request.
   */
  lemma RegisteredTokenAuthenticates(a: HttpAuthenticator, s: StoreView, rev: Revision, resp: Response, userID: string,
                                     t: string, t0: int, t1: int, m: string, body: RequestBody)
    requires a.strategy.HeaderBased? && Inv(s)
    requires t != "" && t !in s.tokens && t !in UserTokens(s, userID)
    requires a.expirationTime != InfiniteSpan && t0 <= t1 <= t0 + a.expirationTime
    ensures var added := Add(s, t, userID, a.expirationTime, t0);
      var echoed := Request(m, a.Run(MarkChallengeAccepted(t), resp).headers, body);
      added.ok && TryGet(rev, added.state, a.GetAuthID(echoed), t1).ok
  {
    SlidingExpiry(rev, s, t, userID, a.expirationTime, t0, t1, t1);
  }

  /**
   * After `UnregisterUser`, the token it read from the request no longer
   * authenticates; for the guest this is its one shared token, which nothing
   * registers again.
   */
  lemma UnregisteredTokenRejected(a: HttpAuthenticator, s: StoreView, rev: Revision, req: Request, now: int)
    requires !IsNullOrEmpty(a.GetAuthID(req))
    ensures !TryGet(rev, Remove(s, a.GetAuthID(req)), a.GetAuthID(req), now).ok
  {
    RemovedTokenNotFound(rev, s, a.GetAuthID(req), now);
  }

  /**
   * The guest over the older store, as written: once registered (by
   * NewGuestAuthenticator), its token fails every challenge at or after the
   * registration time, whatever the request.
   */
  lemma LegacyGuestNeverAuthenticates(a: HttpAuthenticator, s: StoreView, t0: int, now: int, req: Request)
    requires a.strategy.Guest? && a.expirationTime == InfiniteSpan
    requires Inv(s) && a.strategy.authID != "" && a.strategy.authID !in s.tokens
    requires a.strategy.authID !in UserTokens(s, a.strategy.userID)
    requires t0 <= now
    ensures var added := Add(s, a.strategy.authID, a.strategy.userID, a.expirationTime, t0);
      added.ok && !TryGet(Legacy, added.state, a.GetAuthID(req), now).ok
  {
    LegacyInfiniteTokenRejected(s, a.strategy.authID, a.strategy.userID, t0, now);
  }

  /** The guest over the revised store: its token passes every challenge, at any time. */
  lemma RevisedGuestAlwaysAuthenticates(a: HttpAuthenticator, s: StoreView, t0: int, now: int, req: Request)
    requires a.strategy.Guest? && a.expirationTime == InfiniteSpan
    requires Inv(s) && a.strategy.authID != "" && a.strategy.authID !in s.tokens
    requires a.strategy.authID !in UserTokens(s, a.strategy.userID)
    ensures var added := Add(s, a.strategy.authID, a.strategy.userID, a.expirationTime, t0);
      added.ok && TryGet(Revised, added.state, a.GetAuthID(req), now).ok
  {
    RevisedInfiniteTokenAccepted(s, a.strategy.authID, a.strategy.userID, t0, now);
  }
}
