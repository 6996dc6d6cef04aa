/**
 * `LogoutResponseCreator`: every authenticator of every schema unregisters
 * the request's token. The server builds one store per schema and hands it to
 * every authenticator of that schema; `Wired` states that arrangement.
 */
module Logout {
  import opened Wrappers
  import opened Http
  import opened SessionSpec
  import opened Core
  import opened Store
  import opened Authenticators
  import UserData

  /**
   * How the server arranges its stores, as values: every authenticator of
   * schema `s` uses `stores[s]`, and distinct schemas have distinct stores.
   */
  ghost predicate Wiring(agg: Aggregator<HttpAuthenticator>, stores: map<string, AuthenticationDataHolder>)
  {
    && agg.checkers.Keys == stores.Keys
    && (forall s, i :: s in agg.checkers && 0 <= i < |agg.checkers[s]| ==> agg.checkers[s][i].store == stores[s])
    && (forall s, s' :: s in stores && s' in stores && s != s' ==> stores[s] != stores[s'])
  }

  /**
   * One store per schema: the `Wiring`, with every store valid and distinct
   * stores sharing no user cache.
   */
  ghost predicate Wired(agg: Aggregator<HttpAuthenticator>, stores: map<string, AuthenticationDataHolder>)
    reads stores.Values
  {
    && Wiring(agg, stores)
    && (forall s, s' :: s in stores && s' in stores && s != s' ==> stores[s].UserInfos() !! stores[s'].UserInfos())
    && (forall s :: s in stores ==> stores[s].Valid())
  }

  /** The token each authenticator of the list reads from the request, in list order. */
  function AuthIDs(list: seq<HttpAuthenticator>, req: Request): (r: seq<Option<string>>)
    ensures |r| == |list| && forall i :: 0 <= i < |list| ==> r[i] == list[i].GetAuthID(req)
  {
    seq(|list|, i requires 0 <= i < |list| => list[i].GetAuthID(req))
  }

  /**
   * Where the inner `foreach` stands once the tokens `removed` have been
   * unregistered: the store is valid, holds no cache it did not hold at entry
   * (`infos`), its view is the entry view `v0` without those tokens, and its
   * caches stand as `ReleasedSince` the entry caches `before` with their
   * entry `states`.
   */
  ghost predicate UnregisteredSoFar(store: AuthenticationDataHolder, infos: set<UserData.UserInfo>, v0: StoreView,
                                    removed: seq<Option<string>>,
                                    before: map<string, UserData.UserInfo>, states: map<string, UserData.CacheState>)
    reads store, before.Values
  {
    && store.Valid() && store.UserInfos() <= infos
    && store.View() == RemoveAll(v0, removed)
    && store.ReleasedSince(before, states)
  }

  /**
   * One turn of the inner `foreach`: `a` unregisters the request's token. The
   * store's view loses that token, no cache is gained, and a user that loses
   * its entry has its cache disposed while the others keep theirs untouched.
   */
  method UnregisterStep(a: HttpAuthenticator, store: AuthenticationDataHolder, req: Request,
                        ghost infos: set<UserData.UserInfo>, ghost v0: StoreView, ghost removed: seq<Option<string>>,
                        ghost before: map<string, UserData.UserInfo>, ghost states: map<string, UserData.CacheState>)
    requires a.store == store
    requires forall u :: u in before ==> before[u].id == u
    requires UnregisteredSoFar(store, infos, v0, removed, before, states)
    modifies store, store.UserInfos()
    ensures store.View() == Remove(old(store.View()), a.GetAuthID(req))
    ensures UnregisteredSoFar(store, infos, v0, removed + [a.GetAuthID(req)], before, states)
  {
    ghost var mid := store.caches;
    a.UnregisterUser(req);
    assert (removed + [a.GetAuthID(req)])[..|removed|] == removed;
    forall u | u in before && u in states && u !in mid
      ensures before[u].State() == old(before[u].State())
    {
      // Disposed in an earlier turn, so not a cache this turn may touch.
      assert before[u] !in old(store.UserInfos()) by {
        forall v | v in mid ensures mid[v] != before[u] {
          assert mid[v].id == v;
        }
      }
    }
    forall u | u in before && u in states && u in mid
      ensures store.CacheReleased(mid, u)
    {
    }
  }

  /**
   * The turns of the inner `foreach`, in list order, from the state recorded
   * at entry: once they are done every authenticator's token is unregistered.
   */
  method UnregisterTurns(list: seq<HttpAuthenticator>, store: AuthenticationDataHolder, req: Request,
                         ghost infos: set<UserData.UserInfo>, ghost v0: StoreView,
                         ghost before: map<string, UserData.UserInfo>, ghost states: map<string, UserData.CacheState>)
    requires forall i :: 0 <= i < |list| ==> list[i].store == store
    requires forall u :: u in before ==> before[u].id == u
    requires UnregisteredSoFar(store, infos, v0, [], before, states)
    modifies store, infos
    ensures UnregisteredSoFar(store, infos, v0, AuthIDs(list, req), before, states)
  {
    ghost var removed: seq<Option<string>> := [];
    var i := 0;
    while i < |list|
      invariant i <= |list| && removed == AuthIDs(list, req)[..i]
      invariant UnregisteredSoFar(store, infos, v0, removed, before, states)
    {
      UnregisterStep(list[i], store, req, infos, v0, removed, before, states);
      removed := removed + [list[i].GetAuthID(req)];
      i := i + 1;
    }
    assert removed == AuthIDs(list, req);
  }

  /**
   * The inner `foreach` for one schema: each authenticator of the list, all
   * sharing `store`, unregisters the request's token. A user that keeps its
   * entry keeps its cache untouched; a user that loses it has its cache
   * disposed.
   */
  method UnregisterEach(list: seq<HttpAuthenticator>, store: AuthenticationDataHolder, req: Request)
    requires forall i :: 0 <= i < |list| ==> list[i].store == store
    requires store.Valid()
    modifies store, store.UserInfos()
    ensures store.Valid() && store.UserInfos() <= old(store.UserInfos())
    ensures store.View() == RemoveAll(old(store.View()), AuthIDs(list, req))
    ensures store.CachesReleased(old(store.caches))
  {
    ghost var before := store.caches;
    ghost var states := store.States(before);
    store.ReleasedSinceNow();
    UnregisterTurns(list, store, req, store.UserInfos(), store.View(), before, states);
  }

  /**
   * The caches of every store as `ProcessLogout` found them (`before`), with
   * their states then (`states`): each user's cache is filed under its own
   * id, all lie in `caches`, and distinct schemas share no cache.
   */
  ghost predicate Recorded(stores: map<string, AuthenticationDataHolder>, caches: set<UserData.UserInfo>,
                           before: map<string, map<string, UserData.UserInfo>>,
                           states: map<string, map<string, UserData.CacheState>>)
  {
    && before.Keys == stores.Keys && states.Keys == stores.Keys
    && (forall s :: s in states ==> states[s].Keys == before[s].Keys)
    && (forall s :: s in before ==> before[s].Values <= caches)
    && (forall s, u :: s in before && u in before[s] ==> before[s][u].id == u)
    && (forall s, s' :: s in before && s' in before && s != s' ==> before[s].Values !! before[s'].Values)
  }

  /**
   * Where one store stands in the outer `foreach`, against its view `v0`,
   * caches `before` and cache `states` recorded when `ProcessLogout` began:
   * it is valid, its caches lie in `caches`, its view has lost the tokens
   * `ids` once its schema is `done` and is `v0` before that, and its caches
   * stand as `ReleasedSince` the recorded ones.
   */
  ghost predicate StoreLoggedOut(store: AuthenticationDataHolder, caches: set<UserData.UserInfo>, v0: StoreView,
                                 ids: seq<Option<string>>, done: bool,
                                 before: map<string, UserData.UserInfo>, states: map<string, UserData.CacheState>)
    reads store, before.Values
  {
    && store.Valid() && store.UserInfos() <= caches
    && store.View() == (if done then RemoveAll(v0, ids) else v0)
    && store.ReleasedSince(before, states)
  }

  /**
   * The schema's own store in its turn of the outer `foreach`: once its
   * authenticators `list` have unregistered the request's token, the store
   * stands as `StoreLoggedOut` with its schema done.
   */
  method LogoutStore(list: seq<HttpAuthenticator>, store: AuthenticationDataHolder, req: Request,
                     ghost caches: set<UserData.UserInfo>, ghost v0: StoreView,
                     ghost before: map<string, UserData.UserInfo>, ghost states: map<string, UserData.CacheState>)
    requires forall i :: 0 <= i < |list| ==> list[i].store == store
    requires states.Keys == before.Keys && forall u :: u in before ==> before[u].id == u
    requires StoreLoggedOut(store, caches, v0, AuthIDs(list, req), false, before, states)
    modifies store, store.UserInfos()
    ensures StoreLoggedOut(store, caches, v0, AuthIDs(list, req), true, before, states)
    ensures store.UserInfos() <= old(store.UserInfos())
  {
    UnregisterTurns(list, store, req, store.UserInfos(), v0, before, states);
  }

  /**
   * One schema's turn of the outer `foreach`: its authenticators unregister
   * the request's token in its store, which moves `schema` into the done
   * schemas `done'`. Every store still stands as `StoreLoggedOut` says, and
   * every other store keeps its caches map.
   */
  method LogoutSchema(agg: Aggregator<HttpAuthenticator>, stores: map<string, AuthenticationDataHolder>,
                      ghost caches: set<UserData.UserInfo>, schema: string, req: Request,
                      ghost views: map<string, StoreView>, ghost done: set<string>,
                      ghost before: map<string, map<string, UserData.UserInfo>>,
                      ghost states: map<string, map<string, UserData.CacheState>>)
    returns (ghost done': set<string>)
    requires Wiring(agg, stores) && Recorded(stores, caches, before, states)
    requires schema in stores && schema !in done && views.Keys == stores.Keys
    requires forall s :: s in stores ==>
               StoreLoggedOut(stores[s], caches, views[s], AuthIDs(agg.checkers[s], req), s in done, before[s], states[s])
    modifies stores[schema], stores[schema].UserInfos()
    ensures done' == done + {schema}
    ensures forall s :: s in stores ==>
              StoreLoggedOut(stores[s], caches, views[s], AuthIDs(agg.checkers[s], req), s in done', before[s], states[s])
    ensures forall s :: s in stores && s != schema ==> stores[s].caches == old(stores[s].caches)
  {
    var list := GetAuthenticators(agg, Some(schema)).GetOr([]);
    var store := stores[schema];
    ghost var touched := store.UserInfos();
    store.ReleasedSinceWithin(before[schema], states[schema]);
    LogoutStore(list, store, req, caches, views[schema], before[schema], states[schema]);
    done' := done + {schema};
    forall s | s in stores && s != schema
      ensures stores[s].caches == old(stores[s].caches)
      ensures StoreLoggedOut(stores[s], caches, views[s], AuthIDs(agg.checkers[s], req), s in done', before[s], states[s])
    {
      assert stores[s] != store && unchanged(stores[s]);
      forall u | u in before[s] ensures unchanged(before[s][u]) {
        assert before[s][u] in before[s].Values;
      }
    }
  }

  /**
   * The turns of the outer `foreach`, one schema at a time, from the views
   * `views`, caches `before` and cache `states` recorded at entry: once they
   * are done every store stands as `StoreLoggedOut` with its schema done.
   */
  method LogoutTurns(agg: Aggregator<HttpAuthenticator>, stores: map<string, AuthenticationDataHolder>,
                     ghost caches: set<UserData.UserInfo>, req: Request, ghost views: map<string, StoreView>,
                     ghost before: map<string, map<string, UserData.UserInfo>>,
                     ghost states: map<string, map<string, UserData.CacheState>>)
    requires Wiring(agg, stores) && Recorded(stores, caches, before, states) && views.Keys == stores.Keys
    requires forall s :: s in stores ==>
               StoreLoggedOut(stores[s], caches, views[s], AuthIDs(agg.checkers[s], req), false, before[s], states[s])
    modifies stores.Values, caches
    ensures forall s :: s in stores ==>
              StoreLoggedOut(stores[s], caches, views[s], AuthIDs(agg.checkers[s], req), true, before[s], states[s])
  {
    var remaining := AuthenticationSchemas(agg);
    ghost var done: set<string> := {};
    while remaining != {}
      invariant remaining <= stores.Keys && forall s :: s in stores ==> (s in done <==> s !in remaining)
      invariant forall s :: s in stores ==>
                  StoreLoggedOut(stores[s], caches, views[s], AuthIDs(agg.checkers[s], req), s in done, before[s], states[s])
      decreases remaining
    {
      var schema :| schema in remaining;
      remaining := remaining - {schema};
      done := LogoutSchema(agg, stores, caches, schema, req, views, done, before, states);
    }
  }

  /** Every store's view, now. */
  ghost function ViewsOf(stores: map<string, AuthenticationDataHolder>): (r: map<string, StoreView>)
    reads stores.Values
    ensures r.Keys == stores.Keys && forall s :: s in stores ==> r[s] == stores[s].View()
  {
    map s | s in stores :: stores[s].View()
  }

  /** Every store's caches, now. */
  ghost function CachesOf(stores: map<string, AuthenticationDataHolder>): (r: map<string, map<string, UserData.UserInfo>>)
    reads stores.Values
    ensures r.Keys == stores.Keys && forall s :: s in stores ==> r[s] == stores[s].caches
  {
    map s | s in stores :: stores[s].caches
  }

  /** The state of every store's caches, now; all of them lie in `caches`. */
  ghost function StatesOf(stores: map<string, AuthenticationDataHolder>, caches: set<UserData.UserInfo>)
    : (r: map<string, map<string, UserData.CacheState>>)
    requires forall s :: s in stores ==> stores[s].UserInfos() <= caches
    reads stores.Values, caches
    ensures r.Keys == stores.Keys && forall s :: s in stores ==> r[s] == stores[s].States(stores[s].caches)
  {
    map s | s in stores :: assert stores[s].caches.Values == stores[s].UserInfos(); stores[s].States(stores[s].caches)
  }

  /**
   * Recording every store's view, caches and cache states as they are: the
   * record is `Recorded`, since wired stores share no cache, and every store
   * stands as `StoreLoggedOut` with its schema not yet done.
   */
  lemma Recording(agg: Aggregator<HttpAuthenticator>, stores: map<string, AuthenticationDataHolder>,
                  caches: set<UserData.UserInfo>, req: Request)
    requires Wired(agg, stores) && forall s :: s in stores ==> stores[s].UserInfos() <= caches
    ensures Recorded(stores, caches, CachesOf(stores), StatesOf(stores, caches))
    ensures forall s :: s in stores ==>
              StoreLoggedOut(stores[s], caches, ViewsOf(stores)[s], AuthIDs(agg.checkers[s], req), false,
                             CachesOf(stores)[s], StatesOf(stores, caches)[s])
  {
    var before := CachesOf(stores);
    forall s | s in stores
      ensures StoreLoggedOut(stores[s], caches, ViewsOf(stores)[s], AuthIDs(agg.checkers[s], req), false,
                             before[s], StatesOf(stores, caches)[s])
    {
      stores[s].ReleasedSinceNow();
    }
    forall s, s' | s in before && s' in before && s != s' ensures before[s].Values !! before[s'].Values {
      assert before[s].Values == stores[s].UserInfos();
    }
  }

  /**
   * Stores whose caches stand as `ReleasedSince` a `Recorded` record hold only
   * recorded caches, so distinct stores still share none.
   */
  lemma StillSeparate(stores: map<string, AuthenticationDataHolder>, caches: set<UserData.UserInfo>,
                      before: map<string, map<string, UserData.UserInfo>>,
                      states: map<string, map<string, UserData.CacheState>>)
    requires Recorded(stores, caches, before, states)
    requires forall s :: s in stores ==> stores[s].ReleasedSince(before[s], states[s])
    ensures forall s, s' :: s in stores && s' in stores && s != s' ==> stores[s].UserInfos() !! stores[s'].UserInfos()
  {
    forall s, s' | s in stores && s' in stores && s != s'
      ensures stores[s].UserInfos() !! stores[s'].UserInfos()
    {
      stores[s].ReleasedSinceWithin(before[s], states[s]);
      stores[s'].ReleasedSinceWithin(before[s'], states[s']);
    }
  }

  /**
   * `LogoutResponseCreator.ProcessForResponseAsync`: each schema's store ends
   * as if `RemoveAuthData` had run for each of its authenticators' tokens in
   * list order (see LoggedOutTokenRejected for what that leaves), and each
   * store's caches are released accordingly. The response is not touched.
   * Schemas are visited in no particular order, which does not matter as
   * their stores are distinct.
   */
  method ProcessLogout(agg: Aggregator<HttpAuthenticator>, stores: map<string, AuthenticationDataHolder>,
                       ghost caches: set<UserData.UserInfo>, req: Request)
    requires Wired(agg, stores)
    requires forall s :: s in stores ==> stores[s].UserInfos() <= caches
    modifies stores.Values, caches
    ensures Wired(agg, stores)
    ensures forall s :: s in stores ==> stores[s].View() == RemoveAll(old(stores[s].View()), AuthIDs(agg.checkers[s], req))
    ensures forall s :: s in stores ==> stores[s].CachesReleased(old(stores[s].caches))
  {
    ghost var views := ViewsOf(stores);
    ghost var before := CachesOf(stores);
    ghost var states := StatesOf(stores, caches);
    Recording(agg, stores, caches, req);
    LogoutTurns(agg, stores, caches, req, views, before, states);
    forall s | s in stores
      ensures stores[s].CachesReleased(old(stores[s].caches))
    {
      forall u | u in before[s] ensures stores[s].CacheReleased(before[s], u) {
        assert states[s][u] == old(before[s][u].State());
      }
    }
    StillSeparate(stores, caches, before, states);
  }

  /**
   * After logout, the token that any authenticator of a schema reads from the
   * request is gone from that schema's token map, so no later challenge with
   * it succeeds.
   */
  lemma LoggedOutTokenRejected(list: seq<HttpAuthenticator>, req: Request, v: StoreView, i: int, rev: Revision, now: int)
    requires 0 <= i < |list| && !IsNullOrEmpty(list[i].GetAuthID(req))
    ensures list[i].GetAuthID(req).value !in RemoveAll(v, AuthIDs(list, req)).tokens
    ensures !TryGet(rev, RemoveAll(v, AuthIDs(list, req)), list[i].GetAuthID(req), now).ok
  {
    assert list[i].GetAuthID(req).value in TokenSet(AuthIDs(list, req));
  }
}
