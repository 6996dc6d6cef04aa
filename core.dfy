/**
 * The protocol-neutral part of authentication: the result of a challenge, and
 * the aggregator that maps an authentication schema to its ordered list of
 * authenticators and picks the first one that can handle a request.
 *
 * The aggregator is generic in the authenticator type `A`; whether an
 * authenticator "can be used" for the request at hand is passed in as a
 * predicate, which is `CanBeUsed` applied to the request and the
 * authentication-attempt flag.
 */
module Core {
  import opened Wrappers
  import UserData

  /**
   * `ChallengeResult`: the authenticated user (null when the challenge
   * failed) and the continuation to run after the response has been produced.
   */
  datatype ChallengeResult<P> = ChallengeResult(userInfo: UserData.UserInfo?, proceed: P) {
    /** `IsSuccess`: a challenge succeeded exactly when it yields a user. */
    predicate IsSuccess() {
      userInfo != null
    }
  }

  /** `DefaultAuthenticatorAggregator`: schema -> authenticators, in priority order. */
  datatype Aggregator<A> = Aggregator(checkers: map<string, seq<A>>)

  /** The constructor: a null dictionary becomes an empty one. */
  function NewAggregator<A>(checkers: Option<map<string, seq<A>>>): (r: Aggregator<A>)
    ensures checkers.Some? ==> r.checkers == checkers.value
    ensures checkers.None? ==> r.checkers == map[] && AuthenticationSchemas(r) == {}
  {
    Aggregator(checkers.GetOr(map[]))
  }

  /** A null schema is looked up as the empty schema. */
  function SchemaKey(schema: Option<string>): string {
    schema.GetOr("")
  }

  /** `FirstOrDefault` with a predicate: the index of the first element satisfying it. */
  function FirstUsable<A>(candidates: seq<A>, usable: A -> bool): (r: Option<nat>)
    ensures r.Some? ==> r.value < |candidates| && usable(candidates[r.value])
    ensures r.Some? ==> forall j :: 0 <= j < r.value ==> !usable(candidates[j])
    ensures r.None? <==> forall j :: 0 <= j < |candidates| ==> !usable(candidates[j])
  {
    if candidates == [] then None
    else if usable(candidates[0]) then Some(0)
    else
      match FirstUsable(candidates[1..], usable)
      case None => None
      case Some(i) => Some(i + 1)
  }

  /**
   * `GetAuthenticator`: the first authenticator registered for the schema
   * that can be used, or none when the schema is unknown or none can.
   */
  function GetAuthenticator<A>(agg: Aggregator<A>, usable: A -> bool, schema: Option<string>): (r: Option<A>)
    ensures r.Some? <==>
      && SchemaKey(schema) in agg.checkers
      && exists i :: 0 <= i < |agg.checkers[SchemaKey(schema)]| && usable(agg.checkers[SchemaKey(schema)][i])
    ensures r.Some? ==>
      && usable(r.value)
      && exists i :: 0 <= i < |agg.checkers[SchemaKey(schema)]| && r.value == agg.checkers[SchemaKey(schema)][i]
                     && forall j :: 0 <= j < i ==> !usable(agg.checkers[SchemaKey(schema)][j])
  {
    var key := SchemaKey(schema);
    if key !in agg.checkers then None
    else
      match FirstUsable(agg.checkers[key], usable)
      case None => None
      case Some(i) => Some(agg.checkers[key][i])
  }

  /** `GetAuthenticators`: all authenticators of the schema, or none for an unknown schema. */
  function GetAuthenticators<A>(agg: Aggregator<A>, schema: Option<string>): (r: Option<seq<A>>)
    ensures r.Some? <==> SchemaKey(schema) in agg.checkers
    ensures r.Some? ==> r.value == agg.checkers[SchemaKey(schema)]
  {
    var key := SchemaKey(schema);
    if key in agg.checkers then Some(agg.checkers[key]) else None
  }

  /** `AuthenticationSchemas`: the registered schema names. */
  function AuthenticationSchemas<A>(agg: Aggregator<A>): set<string> {
    agg.checkers.Keys
  }

  /** The schemas listed are exactly those for which `GetAuthenticators` finds a list. */
  lemma SchemasAreRegistered<A>(agg: Aggregator<A>, s: string)
    ensures s in AuthenticationSchemas(agg) <==> GetAuthenticators(agg, Some(s)).Some?
  {
  }

  /**
   * Priority: once the authenticator at position `i` is usable, the one chosen
   * sits at position `i` or before it, so every later authenticator is
   * shadowed.
   */
  lemma EarlierUsableShadowsLater<A>(agg: Aggregator<A>, usable: A -> bool, schema: Option<string>, i: nat)
    requires SchemaKey(schema) in agg.checkers
    requires i < |agg.checkers[SchemaKey(schema)]|
    requires usable(agg.checkers[SchemaKey(schema)][i])
    ensures GetAuthenticator(agg, usable, schema).Some?
    ensures exists k :: 0 <= k <= i && GetAuthenticator(agg, usable, schema).value == agg.checkers[SchemaKey(schema)][k]
  {
    var list := agg.checkers[SchemaKey(schema)];
    var f := FirstUsable(list, usable);
    assert f.Some? && f.value <= i;
  }
}
