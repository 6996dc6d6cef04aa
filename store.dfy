/**
 * `AuthenticationDataHolderImpl`: the in-memory token store. A map token ->
 * token info and a map user ID -> user entry, updated in place; each user
 * entry (`AuthenticatedUserInfo`) is held as its two parts, the token set and
 * the data cache, in two maps with the same keys. Every method is proved to
 * change the abstract view exactly as the matching function of SessionSpec
 * says, so the lemmas there apply to the store.
 *
 * The users' data caches (`UserInfos()`) are objects shared with callers;
 * removing a user's last token disposes that user's cache.
 */
module Store {
  import opened Wrappers
  import opened SessionSpec
  import opened UserData
  import opened HttpCommon

  class AuthenticationDataHolder {
    /** Which revision of the validity check this store uses. */
    const revision: Revision
    var tokens: map<string, TokenRecord>
    /** The `AuthTokens` of each user entry. */
    var users: map<string, set<string>>
    /** The `UserInfo` of each user entry. */
    var caches: map<string, UserInfo>
    /** The `AbstractDisposable` flag. */
    var disposed: bool

    /** The abstract state: the token records and the token set of each user entry. */
    function View(): StoreView
      reads this
    {
      StoreView(tokens, users)
    }

    /** The user entry of `u` as the source's `AuthenticatedUserInfo`. */
    function Entry(u: string): AuthenticatedUserInfo
      reads this
      requires u in users && u in caches
    {
      AuthenticatedUserInfo(caches[u], users[u])
    }

    /** The data caches of the users that currently have an entry. */
    function UserInfos(): set<UserInfo>
      reads this
    {
      caches.Values
    }

    /**
     * Every user entry has both parts, each cache carries its user's ID (so no
     * two users share a cache), and the abstract state satisfies `Inv`.
     */
    ghost predicate Valid()
      reads this
    {
      && caches.Keys == users.Keys
      && (forall u :: u in caches ==> caches[u].id == u)
      && Inv(View())
    }

    /**
     * How the user caches change from `before`: no user gains an entry; a user
     * that keeps its entry keeps its cache, untouched; the cache of a user
     * that loses its entry has been disposed.
     */
    twostate predicate CachesReleased(before: map<string, UserInfo>)
      reads this, before.Values
    {
      && caches.Keys <= before.Keys
      && forall u :: u in before ==> CacheReleased(before, u)
    }

    /** `CachesReleased` for the user `u`. */
    twostate predicate CacheReleased(before: map<string, UserInfo>, u: string)
      requires u in before
      reads this, before[u]
    {
      if u in caches then caches[u] == before[u] && before[u].State() == old(before[u].State())
      else DisposalOf(old(before[u].State()), before[u].State())
    }

    /**
     * `CachesReleased` against recorded states: `states` holds each cache's
     * state at the time `before` was taken.
     */
    ghost predicate ReleasedSince(before: map<string, UserInfo>, states: map<string, CacheState>)
      reads this, before.Values
    {
      && caches.Keys <= before.Keys
      && forall u :: u in before && u in states ==>
           if u in caches then caches[u] == before[u] && before[u].State() == states[u]
           else DisposalOf(states[u], before[u].State())
    }

    /** The state of each cache in `before`, now. */
    ghost function States(before: map<string, UserInfo>): (r: map<string, CacheState>)
      reads before.Values
      ensures r.Keys == before.Keys && forall u :: u in before ==> r[u] == before[u].State()
    {
      map u | u in before :: before[u].State()
    }

    /** Nothing has happened yet: the current caches against their current states. */
    lemma ReleasedSinceNow()
      ensures ReleasedSince(caches, States(caches))
    {
    }

    /** While `ReleasedSince` holds, every current cache is one of `before`. */
    lemma ReleasedSinceWithin(before: map<string, UserInfo>, states: map<string, CacheState>)
      requires states.Keys == before.Keys && ReleasedSince(before, states)
      ensures UserInfos() <= before.Values
    {
      forall v | v in caches ensures caches[v] in before.Values {
        assert v in states && caches[v] == before[v];
      }
    }

    /**
     * How the user caches change from `before` when no entry is dropped: every
     * user keeps its cache, untouched; new users may gain one.
     */
    twostate predicate CachesKept(before: map<string, UserInfo>)
      reads this, before.Values
    {
      && before.Keys <= caches.Keys
      && forall u :: u in before ==> caches[u] == before[u] && before[u].State() == old(before[u].State())
    }

    /** An empty store (the cleanup timer is not modelled). */
    constructor (revision: Revision)
      ensures Valid()
      ensures this.revision == revision && View() == StoreView(map[], map[]) && !disposed
    {
      this.revision := revision;
      tokens := map[];
      users := map[];
      caches := map[];
      disposed := false;
    }

    /**
     * `AddAuthData`. `ok` is false where the source throws "Duplicate auth
     * ID?"; the changes made before the throw stay, as in the source. A user
     * seen for the first time gets a fresh, empty cache.
     */
    method AddAuthData(authID: string, userID: string, span: int, now: int) returns (ok: bool)
      requires Valid()
      modifies this
      ensures Valid() && disposed == old(disposed)
      ensures var o := Add(old(View()), authID, userID, span, now); View() == o.state && ok == o.ok
      ensures userID in caches && caches == old(caches)[userID := caches[userID]]
      ensures userID in old(caches) ==> caches[userID] == old(caches)[userID]
      ensures userID !in old(caches) ==> fresh(caches[userID]) && caches[userID].State() == CacheState(map[], false, [])
    {
      ok := AddTokens(authID, userID, span, now);
      EnsureEntry(userID);
    }

    /**
     * The map half of `AddAuthData`: the token joins the user's set, then the
     * token map, stopping at the first duplicate. The caches are not touched.
     */
    method AddTokens(authID: string, userID: string, span: int, now: int) returns (ok: bool)
      requires Valid()
      modifies this
      ensures Inv(View()) && users.Keys == old(users).Keys + {userID}
      ensures caches == old(caches) && disposed == old(disposed)
      ensures var o := Add(old(View()), authID, userID, span, now); View() == o.state && ok == o.ok
    {
      ghost var o := Add(View(), authID, userID, span, now);
      AddKeepsInv(View(), authID, userID, span, now);
      var authTokens: set<string> := if userID in users then users[userID] else {};
      if authID in authTokens {
        ok := false;
      } else {
        users := users[userID := authTokens + {authID}];
        if authID in tokens {
          ok := false;
        } else {
          tokens := tokens[authID := NewTokenInfo(Some(userID), span, now).value];
          ok := true;
        }
      }
      assert View() == o.state;
    }

    /**
     * The cache half of `AddAuthData`'s user lookup: a user seen for the first
     * time gets a fresh, empty cache; nothing else changes.
     */
    method EnsureEntry(userID: string)
      requires forall u :: u in caches ==> caches[u].id == u
      modifies this
      ensures tokens == old(tokens) && users == old(users) && disposed == old(disposed)
      ensures userID in caches && caches == old(caches)[userID := caches[userID]]
      ensures forall u :: u in caches ==> caches[u].id == u
      ensures userID in old(caches) ==> caches[userID] == old(caches)[userID]
      ensures userID !in old(caches) ==> fresh(caches[userID]) && caches[userID].State() == CacheState(map[], false, [])
    {
      if userID !in caches {
        var cache := new UserInfo(userID);
        caches := caches[userID := cache];
      }
    }

    /**
     * `TryGetAuthData`. On success `entry` is the owner's entry and the token's
     * last access becomes `now`; `info` is the token's record whenever the
     * token was in the map, as the source's out-parameter is: the refreshed
     * record on success (the source refreshes the very object it hands out),
     * the record as it was otherwise.
     */
    method TryGetAuthData(authID: Option<string>, now: int)
      returns (found: bool, info: Option<TokenRecord>, entry: Option<AuthenticatedUserInfo>)
      requires Valid()
      modifies this
      ensures Valid() && users == old(users) && caches == old(caches) && disposed == old(disposed)
      ensures var o := TryGet(revision, old(View()), authID, now); View() == o.state && found == o.ok
      ensures found <==> entry.Some?
      ensures info.Some? <==> !IsNullOrEmpty(authID) && authID.value in old(tokens)
      ensures found ==> info.value == tokens[authID.value] == MarkAccessedNow(old(tokens)[authID.value], now)
      ensures info.Some? && !found ==> info.value == old(tokens)[authID.value]
      ensures found ==> info.value.userID in users && info.value.userID in caches
                        && entry.value == Entry(info.value.userID)
    {
      info := None;
      entry := None;
      if !IsNullOrEmpty(authID) && authID.value in tokens {
        var record := tokens[authID.value];
        info := Some(record);
        if StillValid(revision, record, now) {
          if record.userID in users {
            entry := Some(Entry(record.userID));
            info := Some(MarkAccessedNow(record, now));
            tokens := tokens[authID.value := info.value];
          }
        } else {
          tokens := tokens - {authID.value};
        }
      }
      found := info.Some? && entry.Some?;
      TryGetKeepsInv(revision, old(View()), authID, now);
    }

    /**
     * The shared removal step of `RemoveAuthData` and the sweep: take the
     * token out of the map, out of its owner's set, and drop and dispose the
     * owner once no token is left.
     */
    method DropToken(t: string)
      requires Valid()
      modifies this, UserInfos()
      ensures Valid() && disposed == old(disposed)
      ensures View() == Drop(old(View()), t)
      ensures CachesReleased(old(caches)) && UserInfos() <= old(UserInfos())
    {
      if t in tokens {
        EvictOneKeepsInv(View(), t);
        var u := tokens[t].userID;
        tokens := tokens - {t};
        if u in users {
          var rest := users[u] - {t};
          if rest == {} {
            ReleaseEntry(u);
          } else {
            users := users[u := rest];
          }
        }
      }
    }

    /** Drop the entry of a user left without tokens and dispose its cache. */
    method ReleaseEntry(u: string)
      requires u in caches && caches.Keys == users.Keys
      requires forall v :: v in caches ==> caches[v].id == v
      modifies this, caches[u]
      ensures tokens == old(tokens) && disposed == old(disposed)
      ensures users == old(users) - {u} && caches == old(caches) - {u}
      ensures DisposalOf(old(caches[u].State()), old(caches)[u].State())
      ensures forall v :: v in caches ==> caches[v].State() == old(caches[v].State())
    {
      var cache := caches[u];
      users := users - {u};
      caches := caches - {u};
      cache.Dispose();
    }

    /** `RemoveAuthData`: a null or empty token is ignored. */
    method RemoveAuthData(authID: Option<string>)
      requires Valid()
      modifies this, UserInfos()
      ensures Valid() && disposed == old(disposed)
      ensures View() == Remove(old(View()), authID)
      ensures CachesReleased(old(caches)) && UserInfos() <= old(UserInfos())
    {
      if !IsNullOrEmpty(authID) {
        DropToken(authID.value);
      }
    }

    /**
     * `CleanupAuthData`, the timer's sweep at time `now`: snapshot the tokens
     * the sweep selects, then drop them one at a time.
     */
    method CleanupAuthData(now: int)
      requires Valid()
      modifies this, UserInfos()
      ensures Valid() && disposed == old(disposed)
      ensures View() == Sweep(revision, old(View()), now)
      ensures CachesReleased(old(caches))
    {
      var toRemove := set t | t in tokens && SweepSelects(revision, tokens[t], now);
      assert toRemove == Selected(revision, View(), now);
      var done: set<string> := {};
      ghost var before := caches;
      EvictNothing(View());
      while toRemove - done != {}
        invariant Valid() && disposed == old(disposed)
        invariant done <= toRemove
        invariant View() == Evict(old(View()), done)
        invariant forall u :: u in before ==> before[u].id == u
        invariant CachesReleased(before)
        decreases toRemove - done
      {
        var t :| t in toRemove - done;
        ghost var mid := caches;
        label Step:
        DropToken(t);
        forall u | u in before ensures CacheReleased(before, u) {
          if u !in mid {
            // Disposed in an earlier round, so not a cache this step may touch.
            assert before[u] !in old@Step(UserInfos()) by {
              forall v | v in mid ensures mid[v] != before[u] {
                assert mid[v].id == v;
              }
            }
            assert before[u].State() == old@Step(before[u].State());
          } else {
            assert CacheReleased@Step(mid, u);
          }
        }
        EvictStep(old(View()), done, t);
        done := done + {t};
      }
      assert done == toRemove;
    }

    /**
     * `Dispose`: the first call empties both maps; the users' caches are
     * dropped from the store without being disposed.
     */
    method Dispose()
      requires Valid()
      modifies this
      ensures Valid() && disposed
      ensures !old(disposed) ==> View() == StoreView(map[], map[])
      ensures old(disposed) ==> View() == old(View()) && caches == old(caches)
    {
      if !disposed {
        disposed := true;
        users := map[];
        caches := map[];
        tokens := map[];
      }
    }
  }

  /** Evicting no token changes nothing. */
  lemma EvictNothing(s: StoreView)
    ensures Evict(s, {}) == s
  {
    forall u | u in s.users ensures Owned(s, {}, u) == {} && s.users[u] - {} == s.users[u] { }
  }

  /** One eviction step keeps the invariant. */
  lemma EvictOneKeepsInv(s: StoreView, t: string)
    requires Inv(s) && t in s.tokens
    ensures Inv(EvictOne(s, t))
  {
    EvictNothing(s);
    EvictStep(s, {}, t);
    EvictKeepsInv(s, {t});
  }
}
