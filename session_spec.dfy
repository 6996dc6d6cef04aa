/**
 * The token store's abstract state and the effect of each of its operations,
 * as pure functions. The store class (module Store) is proved to follow these
 * functions step by step; the lemmas here state what the operations promise.
 *
 * Times are DateTime/TimeSpan values in 100-nanosecond ticks. Both revisions of
 * the store are covered: they differ only in how a token's validity is decided.
 */
module SessionSpec {
  import opened Wrappers

  const TicksPerMillisecond: int := 10000
  const TicksPerHour: int := 3600 * 1000 * TicksPerMillisecond

  /** `Timeout.InfiniteTimeSpan`: minus one millisecond. */
  const InfiniteSpan: int := -TicksPerMillisecond

  /** The older store (no infinite sentinel) and the revised one. */
  datatype Revision = Legacy | Revised

  /** What `AuthenticatedTokenInfo` holds for one token. */
  datatype TokenRecord = TokenRecord(userID: string, lastAccessed: int, expirationSpan: int)

  /**
   * The two maps of the store: token -> record, and user ID -> that user's
   * token set (the `AuthTokens` of its `AuthenticatedUserInfo`).
   */
  datatype StoreView = StoreView(tokens: map<string, TokenRecord>, users: map<string, set<string>>)

  /** The result of a store operation: the new state and whether it succeeded. */
  datatype Outcome = Outcome(state: StoreView, ok: bool)

  /**
   * The `AuthenticatedTokenInfo` constructor: a null user ID is an
   * `ArgumentNullException`; otherwise the record is stamped with the
   * creation time.
   */
  function NewTokenInfo(userID: Option<string>, span: int, now: int): (r: Result<TokenRecord>)
    ensures r.Success? <==> userID.Some?
    ensures r.Success? ==> r.value.userID == userID.value && r.value.expirationSpan == span && r.value.lastAccessed == now
  {
    if userID.None? then Failure("userID") else Success(TokenRecord(userID.value, now, span))
  }

  /** `MarkAccessedNow`: only the last-access time changes. */
  function MarkAccessedNow(r: TokenRecord, now: int): (r': TokenRecord)
    ensures r'.lastAccessed == now && r'.userID == r.userID && r'.expirationSpan == r.expirationSpan
  {
    r.(lastAccessed := now)
  }

  // ---------------------------------------------------------------------------
  // Validity

  /**
   * `CheckAuthTokenIsStillValid`: the sliding idle timeout, with the revised
   * store's infinite sentinel. In the revised store the sentinel is valid at
   * every time; in the older store a negative span, the sentinel included, is
   * never valid once time has not gone backwards.
   */
  predicate StillValid(rev: Revision, r: TokenRecord, now: int)
    ensures rev == Revised && r.expirationSpan == InfiniteSpan ==> StillValid(rev, r, now)
    ensures rev == Legacy && r.expirationSpan < 0 && r.lastAccessed <= now ==> !StillValid(rev, r, now)
  {
    (rev == Revised && r.expirationSpan == InfiniteSpan) || now - r.lastAccessed <= r.expirationSpan
  }

  /**
   * The condition under which the sweep picks a token: in both revisions,
   * exactly the tokens that are no longer valid.
   */
  predicate SweepSelects(rev: Revision, r: TokenRecord, now: int)
    ensures SweepSelects(rev, r, now) <==> !StillValid(rev, r, now)
  {
    match rev
    case Revised => !StillValid(rev, r, now)
    case Legacy => now - r.lastAccessed > r.expirationSpan
  }

  /**
   * A record is valid when it is created, and again when it has just been
   * marked accessed, unless its span is negative; in the revised store the
   * infinite sentinel is valid as well.
   */
  lemma FreshRecordValid(rev: Revision, userID: string, span: int, t: int, now: int)
    requires span >= 0 || (rev == Revised && span == InfiniteSpan)
    ensures StillValid(rev, NewTokenInfo(Some(userID), span, now).value, now)
    ensures StillValid(rev, MarkAccessedNow(TokenRecord(userID, t, span), now), now)
  {
  }

  /** The two revisions agree on every span other than the sentinel. */
  lemma RevisionsAgreeOnFiniteSpans(r: TokenRecord, now: int)
    requires r.expirationSpan != InfiniteSpan
    ensures StillValid(Legacy, r, now) == StillValid(Revised, r, now)
  {
  }

  // ---------------------------------------------------------------------------
  // The invariant

  /** The token set of `u`, empty when there is no entry for `u`. */
  function UserTokens(s: StoreView, u: string): set<string> {
    if u in s.users then s.users[u] else {}
  }

  /**
   * What every operation keeps: each token in the token map belongs to the
   * token set of the entry for its owner, and no user entry has an empty set.
   * The converse of the first half (every token in a set is in the map) is NOT
   * kept: see StaleTokenAfterExpiredLookup.
   */
  ghost predicate Inv(s: StoreView) {
    && (forall t :: t in s.tokens ==> s.tokens[t].userID in s.users && t in s.users[s.tokens[t].userID])
    && (forall u :: u in s.users ==> s.users[u] != {})
  }

  // ---------------------------------------------------------------------------
  // AddAuthData

  /**
   * `AddAuthData`: get or create the entry for `userID`, add the token to its
   * set, then to the token map. Either step finding the token already there is
   * the "Duplicate auth ID?" exception; the first step's effect is not undone.
   */
  function Add(s: StoreView, authID: string, userID: string, span: int, now: int): (r: Outcome)
    ensures r.ok <==> authID !in UserTokens(s, userID) && authID !in s.tokens
    ensures r.ok ==> r.state.tokens == s.tokens[authID := TokenRecord(userID, now, span)]
    ensures !r.ok ==> r.state.tokens == s.tokens
    ensures r.state.users.Keys == s.users.Keys + {userID}
    ensures r.state.users[userID] == UserTokens(s, userID) + {authID}
    ensures forall u :: u in s.users && u != userID ==> r.state.users[u] == s.users[u]
  {
    var existing := UserTokens(s, userID);
    if authID in existing then
      Outcome(s, false)
    else
      var users' := s.users[userID := existing + {authID}];
      if authID in s.tokens then
        Outcome(s.(users := users'), false)
      else
        Outcome(StoreView(s.tokens[authID := NewTokenInfo(Some(userID), span, now).value], users'), true)
  }

  lemma AddKeepsInv(s: StoreView, authID: string, userID: string, span: int, now: int)
    requires Inv(s)
    ensures Inv(Add(s, authID, userID, span, now).state)
  {
    var r := Add(s, authID, userID, span, now);
    forall t | t in r.state.tokens
      ensures r.state.tokens[t].userID in r.state.users && t in r.state.users[r.state.tokens[t].userID]
    {
      if t != authID || !r.ok {
        assert r.state.tokens[t] == s.tokens[t];
      }
    }
  }

  /**
   * A failed add is not atomic: when the token is already owned by another
   * user, the requested user's entry still ends up holding the token.
   */
  lemma DuplicateAddLeavesTrace(s: StoreView, authID: string, userID: string, span: int, now: int)
    requires authID in s.tokens && s.tokens[authID].userID != userID
    requires userID !in s.users
    ensures !Add(s, authID, userID, span, now).ok
    ensures Add(s, authID, userID, span, now).state != s
    ensures Add(s, authID, userID, span, now).state.users[userID] == {authID}
  {
    assert userID in Add(s, authID, userID, span, now).state.users;
  }

  // ---------------------------------------------------------------------------
  // TryGetAuthData

  /**
   * `TryGetAuthData`: a null, empty or unknown token is not found; a valid
   * token whose owner has an entry is found and its last-access time becomes
   * `now`; an expired token is removed from the token map only.
   */
  function TryGet(rev: Revision, s: StoreView, authID: Option<string>, now: int): (r: Outcome)
    ensures r.ok <==> !IsNullOrEmpty(authID) && authID.value in s.tokens
                      && StillValid(rev, s.tokens[authID.value], now) && s.tokens[authID.value].userID in s.users
    ensures r.state.users == s.users
    ensures r.ok ==> r.state.tokens == s.tokens[authID.value := s.tokens[authID.value].(lastAccessed := now)]
    ensures !r.ok ==> r.state.tokens.Keys <= s.tokens.Keys
                      && forall t :: t in r.state.tokens ==> r.state.tokens[t] == s.tokens[t]
    ensures (!r.ok && (IsNullOrEmpty(authID) || authID.value !in s.tokens || StillValid(rev, s.tokens[authID.value], now)))
      ==> r.state == s
    ensures (!IsNullOrEmpty(authID) && authID.value in s.tokens && !StillValid(rev, s.tokens[authID.value], now))
      ==> !r.ok && r.state.tokens == s.tokens - {authID.value}
  {
    if IsNullOrEmpty(authID) || authID.value !in s.tokens then
      Outcome(s, false)
    else
      var rec := s.tokens[authID.value];
      if StillValid(rev, rec, now) then
        if rec.userID in s.users then
          Outcome(s.(tokens := s.tokens[authID.value := MarkAccessedNow(rec, now)]), true)
        else
          Outcome(s, false)
      else
        Outcome(s.(tokens := s.tokens - {authID.value}), false)
  }

  lemma TryGetKeepsInv(rev: Revision, s: StoreView, authID: Option<string>, now: int)
    requires Inv(s)
    ensures Inv(TryGet(rev, s, authID, now).state)
  {
    var r := TryGet(rev, s, authID, now);
    forall t | t in r.state.tokens
      ensures r.state.tokens[t].userID in r.state.users && t in r.state.users[r.state.tokens[t].userID]
    {
      assert r.state.tokens[t].userID == s.tokens[t].userID;
    }
  }

  /**
   * An expired lookup leaves a stale token behind: the token leaves the token
   * map but stays in its owner's set, so the owner's entry (and its UserInfo)
   * is neither removed nor disposed.
   */
  lemma StaleTokenAfterExpiredLookup(rev: Revision, s: StoreView, t: string, now: int)
    requires Inv(s)
    requires t != "" && t in s.tokens && !StillValid(rev, s.tokens[t], now)
    ensures var r := TryGet(rev, s, Some(t), now);
      && !r.ok
      && t !in r.state.tokens
      && s.tokens[t].userID in r.state.users
      && t in r.state.users[s.tokens[t].userID]
  {
  }

  // ---------------------------------------------------------------------------
  // Removal: RemoveAuthData and the sweep share one eviction step

  /**
   * Evicting one token from the token map: it also leaves its owner's set,
   * and an owner whose set becomes empty loses its entry.
   */
  function EvictOne(s: StoreView, t: string): (r: StoreView)
    requires t in s.tokens
    ensures r.tokens == s.tokens - {t}
    ensures r.users.Keys <= s.users.Keys
  {
    var u := s.tokens[t].userID;
    if u in s.users then
      var rest := s.users[u] - {t};
      if rest == {} then StoreView(s.tokens - {t}, s.users - {u})
      else StoreView(s.tokens - {t}, s.users[u := rest])
    else
      StoreView(s.tokens - {t}, s.users)
  }

  /** `TryRemove` on the token map, then the eviction step when the token was there. */
  function Drop(s: StoreView, t: string): (r: StoreView)
    ensures r.tokens == s.tokens - {t}
    ensures r.users.Keys <= s.users.Keys
  {
    if t in s.tokens then EvictOne(s, t) else s
  }

  /** `RemoveAuthData`: a null or empty token is a no-op; otherwise the token is dropped. */
  function Remove(s: StoreView, authID: Option<string>): (r: StoreView)
    ensures !IsNullOrEmpty(authID) ==> authID.value !in r.tokens
    ensures IsNullOrEmpty(authID) ==> r == s
    ensures r.tokens.Keys <= s.tokens.Keys && r.users.Keys <= s.users.Keys
  {
    if IsNullOrEmpty(authID) then s else Drop(s, authID.value)
  }

  /** The tokens of `ts` that are in the token map and owned by `u`. */
  function Owned(s: StoreView, ts: set<string>, u: string): set<string> {
    set t | t in ts && t in s.tokens && s.tokens[t].userID == u
  }

  /**
   * Evicting a whole set of tokens at once: what remains of each user's set
   * after its owned tokens leave, and a user loses its entry exactly when some
   * of its tokens left and nothing remains.
   */
  function Evict(s: StoreView, ts: set<string>): (r: StoreView)
    ensures r.tokens == s.tokens - ts
  {
    StoreView(
      s.tokens - ts,
      map u | u in s.users && (s.users[u] - Owned(s, ts, u) != {} || Owned(s, ts, u) == {})
        :: s.users[u] - Owned(s, ts, u))
  }

  /** The tokens the sweep removes. */
  function Selected(rev: Revision, s: StoreView, now: int): set<string> {
    set t | t in s.tokens && SweepSelects(rev, s.tokens[t], now)
  }

  /** `CleanupAuthData`: evict every token the sweep selects. */
  function Sweep(rev: Revision, s: StoreView, now: int): StoreView {
    Evict(s, Selected(rev, s, now))
  }

  /** Removing one known token is evicting the singleton set: one destruction rule for both call sites. */
  lemma RemoveIsEvict(s: StoreView, t: string)
    requires t != ""
    ensures Remove(s, Some(t)) == Evict(s, {t})
  {
    var e := Evict(s, {t});
    var r := Remove(s, Some(t));
    if t in s.tokens {
      var u := s.tokens[t].userID;
      forall v | v != u ensures Owned(s, {t}, v) == {} { }
      assert Owned(s, {t}, u) == {t};
      forall v ensures v in r.users <==> v in e.users
        ensures v in r.users ==> r.users[v] == e.users[v]
      {
        if v != u {
          assert Owned(s, {t}, v) == {};
          if v in s.users { assert s.users[v] - {} == s.users[v]; }
        }
      }
      assert r.users == e.users;
    } else {
      forall v ensures Owned(s, {t}, v) == {} { }
      forall v ensures v in r.users <==> v in e.users
        ensures v in r.users ==> r.users[v] == e.users[v]
      {
        if v in s.users { assert s.users[v] - {} == s.users[v]; }
      }
      assert e.tokens == s.tokens;
      assert r.users == e.users;
    }
  }

  /**
   * Dropping one more token after a batch eviction is the eviction of the
   * batch plus that token, whether or not the token is still there. This is
   * the step of the sweep loop and of logout.
   */
  lemma {:induction false} EvictStep(s: StoreView, ts: set<string>, t: string)
    ensures Drop(Evict(s, ts), t) == Evict(s, ts + {t})
  {
    var e := Evict(s, ts);
    var lhs := Drop(e, t);
    var rhs := Evict(s, ts + {t});
    if t in s.tokens && t !in ts {
      var u := s.tokens[t].userID;
      assert e.tokens[t] == s.tokens[t];
      forall v | v != u ensures Owned(s, ts + {t}, v) == Owned(s, ts, v) { }
      assert Owned(s, ts + {t}, u) == Owned(s, ts, u) + {t};
      forall v ensures v in lhs.users <==> v in rhs.users
        ensures v in lhs.users ==> lhs.users[v] == rhs.users[v]
      {
        if v == u && u in s.users {
          assert s.users[u] - Owned(s, ts + {t}, u) == (s.users[u] - Owned(s, ts, u)) - {t};
        }
      }
      assert lhs.users == rhs.users;
    } else {
      forall v ensures Owned(s, ts + {t}, v) == Owned(s, ts, v) { }
      assert s.tokens - (ts + {t}) == s.tokens - ts;
      assert lhs == e;
    }
  }

  /** Eviction keeps the invariant. */
  lemma EvictKeepsInv(s: StoreView, ts: set<string>)
    requires Inv(s)
    ensures Inv(Evict(s, ts))
  {
    var e := Evict(s, ts);
    forall t | t in e.tokens
      ensures e.tokens[t].userID in e.users && t in e.users[e.tokens[t].userID]
    {
      var u := s.tokens[t].userID;
      assert t in s.users[u] - Owned(s, ts, u);
    }
  }

  lemma RemoveKeepsInv(s: StoreView, authID: Option<string>)
    requires Inv(s)
    ensures Inv(Remove(s, authID))
  {
    if !IsNullOrEmpty(authID) {
      RemoveIsEvict(s, authID.value);
      EvictKeepsInv(s, {authID.value});
    }
  }

  lemma SweepKeepsInv(rev: Revision, s: StoreView, now: int)
    requires Inv(s)
    ensures Inv(Sweep(rev, s, now))
  {
    EvictKeepsInv(s, Selected(rev, s, now));
  }

  /** The sweep keeps exactly the tokens that are still valid, records unchanged. */
  lemma SweepKeepsExactlyValid(rev: Revision, s: StoreView, now: int, t: string)
    ensures t in Sweep(rev, s, now).tokens <==> t in s.tokens && StillValid(rev, s.tokens[t], now)
    ensures t in Sweep(rev, s, now).tokens ==> Sweep(rev, s, now).tokens[t] == s.tokens[t]
  {
  }

  /** Under the invariant, a user survives the sweep exactly when one of its tokens is still valid or was never in the token map. */
  lemma SweepKeepsUser(rev: Revision, s: StoreView, now: int, u: string)
    requires Inv(s)
    ensures u in Sweep(rev, s, now).users <==>
      u in s.users && exists t :: t in s.users[u] && t !in Owned(s, Selected(rev, s, now), u)
  {
    var ts := Selected(rev, s, now);
    if u in s.users && s.users[u] - Owned(s, ts, u) == {} {
      forall t | t in s.users[u] ensures t in Owned(s, ts, u) {
        assert t !in s.users[u] - Owned(s, ts, u);
      }
    }
    if u in s.users && Owned(s, ts, u) == {} {
      var t :| t in s.users[u];
      assert t !in Owned(s, ts, u);
    }
  }

  /** Removing a token twice is removing it once. */
  lemma RemoveIdempotent(s: StoreView, authID: Option<string>)
    ensures Remove(Remove(s, authID), authID) == Remove(s, authID)
  {
  }

  /**
   * Reference counting: with two live tokens for one user, removing the first
   * keeps the user's entry, and removing the second as well removes it.
   */
  lemma RemoveLastTokenRemovesUser(s: StoreView, u: string, t1: string, t2: string)
    requires Inv(s)
    requires t1 != "" && t2 != "" && t1 != t2
    requires t1 in s.tokens && t2 in s.tokens && s.tokens[t1].userID == u && s.tokens[t2].userID == u
    requires s.users[u] == {t1, t2}
    ensures u in Remove(s, Some(t1)).users
    ensures Remove(s, Some(t1)).users[u] == {t2}
    ensures u !in Remove(Remove(s, Some(t1)), Some(t2)).users
  {
    var s1 := Remove(s, Some(t1));
    assert s.users[u] - {t1} == {t2};
    assert s1.tokens[t2] == s.tokens[t2];
  }

  /** After a token is removed, no lookup of it succeeds (a logout cannot be undone by replaying the token). */
  lemma RemovedTokenNotFound(rev: Revision, s: StoreView, authID: Option<string>, now: int)
    requires !IsNullOrEmpty(authID)
    ensures !TryGet(rev, Remove(s, authID), authID, now).ok
  {
  }

  /**
   * Under the invariant, removing the token of a failed lookup changes
   * nothing: the lookup found no token, or it already took the expired token
   * out of the token map, so the removal's `TryRemove` fails. The owner's
   * entry therefore keeps the stale token.
   */
  lemma FailedLookupRemovalIsNoop(rev: Revision, s: StoreView, authID: Option<string>, now: int)
    requires Inv(s)
    requires !TryGet(rev, s, authID, now).ok
    ensures Remove(TryGet(rev, s, authID, now).state, authID) == TryGet(rev, s, authID, now).state
  {
    var g := TryGet(rev, s, authID, now);
    if !IsNullOrEmpty(authID) {
      assert authID.value !in g.state.tokens;
    }
  }

  /**
   * The stale entry outlives every later clean-up: when the token that
   * expired in a lookup was its owner's only token, neither removing that
   * token nor any sweep drops the owner's entry, so its data cache is never
   * disposed.
   */
  lemma StaleEntryOutlivesCleanup(rev: Revision, s: StoreView, t: string, now: int, later: int)
    requires Inv(s)
    requires t != "" && t in s.tokens && !StillValid(rev, s.tokens[t], now)
    requires s.users[s.tokens[t].userID] == {t}
    ensures var g := TryGet(rev, s, Some(t), now).state;
      && s.tokens[t].userID in Remove(g, Some(t)).users
      && s.tokens[t].userID in Sweep(rev, g, later).users
      && Sweep(rev, g, later).users[s.tokens[t].userID] == {t}
  {
    var g := TryGet(rev, s, Some(t), now).state;
    var u := s.tokens[t].userID;
    assert Owned(g, Selected(rev, g, later), u) == {};
    assert g.users[u] - {} == {t};
  }

  /** The non-empty tokens among `ids`. */
  function TokenSet(ids: seq<Option<string>>): set<string> {
    set i | 0 <= i < |ids| && !IsNullOrEmpty(ids[i]) :: ids[i].value
  }

  /**
   * `RemoveAuthData` applied to each of `ids` in turn. The token map loses
   * exactly the non-empty tokens among them, and no user entry is created.
   */
  function RemoveAll(s: StoreView, ids: seq<Option<string>>): (r: StoreView)
    ensures r.tokens == s.tokens - TokenSet(ids)
    ensures r.users.Keys <= s.users.Keys
    decreases |ids|
  {
    if ids == [] then s
    else
      var last := ids[|ids| - 1];
      var r := Remove(RemoveAll(s, ids[..|ids| - 1]), last);
      assert TokenSet(ids) == TokenSet(ids[..|ids| - 1]) + TokenSet([last]) by {
        forall t ensures t in TokenSet(ids) <==> t in TokenSet(ids[..|ids| - 1]) + TokenSet([last]) {
          if t in TokenSet(ids) {
            var i :| 0 <= i < |ids| && !IsNullOrEmpty(ids[i]) && ids[i].value == t;
            if i < |ids| - 1 {
              assert ids[..|ids| - 1][i] == ids[i];
            } else {
              assert [last][0] == ids[i];
            }
          }
          if t in TokenSet(ids[..|ids| - 1]) {
            var i :| 0 <= i < |ids| - 1 && !IsNullOrEmpty(ids[..|ids| - 1][i]) && ids[..|ids| - 1][i].value == t;
            assert ids[i] == ids[..|ids| - 1][i];
          }
        }
      }
      r
  }

  /** Removing a batch of tokens keeps the invariant. */
  lemma {:induction false} RemoveAllKeepsInv(s: StoreView, ids: seq<Option<string>>)
    requires Inv(s)
    ensures Inv(RemoveAll(s, ids))
    decreases |ids|
  {
    if ids != [] {
      RemoveAllKeepsInv(s, ids[..|ids| - 1]);
      RemoveKeepsInv(RemoveAll(s, ids[..|ids| - 1]), ids[|ids| - 1]);
    }
  }

  // ---------------------------------------------------------------------------
  // Sliding expiry

  /**
   * A token added with a finite span `d` is found by a lookup within `d` of the
   * add, and again within `d` of that lookup; after an idle gap longer than `d`
   * it is not found.
   */
  lemma SlidingExpiry(rev: Revision, s: StoreView, t: string, u: string, d: int, t0: int, t1: int, t2: int)
    requires Inv(s) && t != "" && t !in s.tokens && t !in UserTokens(s, u)
    requires d != InfiniteSpan
    requires t0 <= t1 <= t0 + d
    ensures var a := Add(s, t, u, d, t0);
      var g1 := TryGet(rev, a.state, Some(t), t1);
      && a.ok && g1.ok
      && (t1 <= t2 <= t1 + d ==> TryGet(rev, g1.state, Some(t), t2).ok)
      && (t2 > t1 + d ==> !TryGet(rev, g1.state, Some(t), t2).ok)
  {
    var a := Add(s, t, u, d, t0);
    assert a.state.tokens[t] == TokenRecord(u, t0, d);
    var g1 := TryGet(rev, a.state, Some(t), t1);
    assert g1.state.tokens[t] == TokenRecord(u, t1, d);
  }

  // ---------------------------------------------------------------------------
  // A token with the infinite span (the guest token)

  /**
   * Older store, as written: a token registered with `Timeout.InfiniteTimeSpan`
   * is never found by a lookup at or after its registration, and the first
   * sweep at or after that time removes it.
   */
  lemma LegacyInfiniteTokenRejected(s: StoreView, t: string, u: string, t0: int, now: int)
    requires Inv(s) && t != "" && t !in s.tokens && t !in UserTokens(s, u)
    requires t0 <= now
    ensures var a := Add(s, t, u, InfiniteSpan, t0);
      && a.ok
      && !TryGet(Legacy, a.state, Some(t), now).ok
      && t !in Sweep(Legacy, a.state, now).tokens
  {
    var a := Add(s, t, u, InfiniteSpan, t0);
    assert a.state.tokens[t] == TokenRecord(u, t0, InfiniteSpan);
    SweepKeepsExactlyValid(Legacy, a.state, now, t);
  }

  /**
   * Revised store: a token registered with `Timeout.InfiniteTimeSpan` is found
   * by every lookup and survives every sweep, at any time.
   */
  lemma RevisedInfiniteTokenAccepted(s: StoreView, t: string, u: string, t0: int, now: int)
    requires Inv(s) && t != "" && t !in s.tokens && t !in UserTokens(s, u)
    ensures var a := Add(s, t, u, InfiniteSpan, t0);
      && a.ok
      && TryGet(Revised, a.state, Some(t), now).ok
      && t in Sweep(Revised, a.state, now).tokens
  {
    var a := Add(s, t, u, InfiniteSpan, t0);
    assert a.state.tokens[t] == TokenRecord(u, t0, InfiniteSpan);
    SweepKeepsExactlyValid(Revised, a.state, now, t);
  }
}
