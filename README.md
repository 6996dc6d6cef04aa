# Authentication session layer: a verified model

This project models the authentication session layer of an ASP.NET Core
backend. Each incoming request is routed to a response creator, and some
creators require the request to be authenticated. The layer has four parts:

- **Token store** (`AuthenticationDataHolderImpl`). It maps each
  authentication token to its record (owner, last access, expiration span)
  and each user ID to a user entry (the user's live tokens and one data
  cache).
  - Lookups slide the expiry forward.
  - A timer sweeps expired tokens.
  - Removing a user's last token drops the entry and disposes its cache.
  - Two revisions exist. The revised one treats `Timeout.InfiniteTimeSpan`
    (−1 ms) as "never expires"; the older one has no such check.
- **Per-user data cache** (`UserInfoImpl`). Get-or-add over a key/value map,
  guarded by a disposed flag. Disposing the cache drains the map.
- **Dispatch** (`DefaultAuthenticatorAggregator`). Each schema has an ordered
  list of authenticators; a request goes to the first one that can be used.
  When there is none, the HTTP aggregator answers 401 with an empty body.
- **Challenge protocol** (`HTTPAuthenticator`) and its users:
  - `HTTPAuthenticator` challenges, registers and unregisters against the
    store. Its two strategies are the token in a request header, and a guest
    that owns one fixed token.
  - The authentication-guarded response creator, logout, and the login flow.

Time is an integer count of 100 ns ticks, passed in as `now`.
`Timeout.InfiniteTimeSpan` is `SessionSpec.InfiniteSpan` (−10000 ticks).

The server builds one store per schema and hands it to every authenticator
of that schema (`Source/Code/Backend.HTTP.Server.Initialization/Initialization.cs:159-165`).
Each store creates its own user caches, so no cache is shared between
schemas. Logout takes this arrangement as its precondition (`Logout.Wired`).

Modules:

- `Http` holds the slice of a request and a response the layer reads and
  writes. Header names are matched ignoring case, as ASP.NET's header
  dictionary matches them: each header is kept under its upper-cased name.
- `SessionSpec` holds the store's operations as functions on an abstract
  view (token map plus each user's token set). It also holds the store
  invariant and the lemmas about them.
- `Store.AuthenticationDataHolder` is the store as a class. Each of its
  methods is proved to change the view exactly as the matching `SessionSpec`
  function says, so those lemmas carry over to it.
- `UserData.UserInfo` is the cache as a class, proved against the function
  `UserData.GetOrAdd` and the predicate `UserData.DisposalOf`.
- `Authenticators.HttpAuthenticator` is one class for both strategies. The
  `Strategy` datatype selects the header or the guest behaviour.
- `Responses`, `Logout`, `Login` and `SampleLogin` model the consumers.

The store's record types and the 401 fallback live in `HttpCommon` and
`SessionSpec.TokenRecord`. The defaults are:

- 32 token bytes (`Authenticators.DefaultTokenByteCount`);
- a 3-hour expiration (`DefaultExpirationTime`);
- the header `X-MyAuthToken`;
- the guest user ID `guest`;
- the form field names `username` and `password`;
- `sample`/`sample` for the sample login provider.

All of them are constants of the modules that use them.

## Model

| member | source | states |
|---|---|---|
| UserData.GetOrAdd | Source/Code/Backend.HTTP.Server.Initialization/Initialization.cs:502-536 | On a live cache, a stored key is returned without calling the factory, and a missing key is materialised by exactly one factory call and stored. On a disposed cache the factory is never called and null is returned; a value still stored under the key is removed and appended to the release log. The log changes on no other path, and every other key keeps its value. |
| UserData.GetOrAddMaterializesOnce | Source/Code/Backend.HTTP.Server.Initialization/Initialization.cs:519-531 | Two get-or-adds of one key on a live cache run a factory at most once and return the same value. |
| UserData.DisposedNeverMaterializes | Source/Code/Backend.HTTP.Server.Initialization/Initialization.cs:513-518 | After disposal, any series of get-or-adds answers null every time and never runs a factory. |
| UserData.DrainedFromLength | Source/Code/Backend.HTTP.Server.Initialization/Initialization.cs:545-551 | A drain that releases each entry of a map exactly once releases exactly as many values as the map held. |
| UserData.UserInfo.constructor | Source/Code/Backend.HTTP.Server.Initialization/Initialization.cs:489-496 | A new cache has its ID, no data, is live, and has released nothing. |
| UserData.UserInfo.GetOrAddUserData | Source/Code/Backend.HTTP.Server.Initialization/Initialization.cs:502-536 | The new state, the value returned and whether the factory ran are those of `GetOrAdd`. A disposed cache stays empty. The older copy at Source/Backend.HTTP.Server.Initialization/Initialization.cs:471-505 behaves the same. |
| UserData.UserInfo.Dispose | Source/Code/Backend.HTTP.Server.Initialization/Initialization.cs:538-554 | The first call marks the cache disposed and empties it, releasing every entry exactly once after what was released before. A later call changes nothing. The older copy at Source/Backend.HTTP.Server.Initialization/Initialization.cs:507-523 behaves the same. |
| SessionSpec.NewTokenInfo | Source/Code/Backend.HTTP.Common/Authentication.cs:61-70 | A null user ID is an ArgumentNullException. Otherwise the record carries the user ID and span and is stamped with the creation time. |
| SessionSpec.MarkAccessedNow | Source/Code/Backend.HTTP.Common/Authentication.cs:84-87 | Only the last-access time changes, to now. User ID and span are kept. |
| SessionSpec.FreshRecordValid | Source/Code/Backend.HTTP.Common/Authentication.cs:61-70 | A record just created or just marked accessed is valid at that instant when its span is non-negative, or when it is the infinite span in the revised store. |
| SessionSpec.RevisionsAgreeOnFiniteSpans | Source/Code/Backend.HTTP.Server.Initialization/Initialization.cs:464-468 | The two revisions' validity checks agree on every span except the sentinel. |
| SessionSpec.StillValid | Source/Code/Backend.HTTP.Server.Initialization/Initialization.cs:464-468 | Validity is the sliding idle timeout. In the revised store a token with the infinite span is valid at every time. In the older store (Source/Backend.HTTP.Server.Initialization/Initialization.cs:434-437) a negative span, the infinite one included, is never valid once time has not gone backwards. |
| SessionSpec.SweepSelects | Source/Code/Backend.HTTP.Server.Initialization/Initialization.cs:433-435 | The revised sweep picks exactly the tokens that are no longer valid. The older sweep's condition `now - last > span` (Source/Backend.HTTP.Server.Initialization/Initialization.cs:403-405) is exactly the complement of its own validity check. |
| SessionSpec.Add | Source/Code/Backend.HTTP.Server.Initialization/Initialization.cs:359-371 | It succeeds iff the token is in neither the user's set nor the token map. On success the token map gains the new record. In every case the user's entry exists afterwards and holds the token, and no other user's entry changes. The older copy at Source/Backend.HTTP.Server.Initialization/Initialization.cs:329-341 behaves the same. |
| SessionSpec.AddKeepsInv | Source/Code/Backend.HTTP.Server.Initialization/Initialization.cs:359-371 | Adding keeps the invariant: every mapped token is in its owner's set, and no entry has an empty set. |
| SessionSpec.DuplicateAddLeavesTrace | Source/Code/Backend.HTTP.Server.Initialization/Initialization.cs:363-367 | A failed add is not atomic. When another user owns the token, the requested user's entry is still created and holds the token. |
| SessionSpec.TryGet | Source/Code/Backend.HTTP.Server.Initialization/Initialization.cs:373-400 | Found iff the token is non-empty, mapped, valid, and its owner has an entry. When found, only that token's last access becomes now. A null, empty or unknown token, or a valid one whose owner has no entry, leaves the state unchanged. An expired token is removed from the token map and nothing else changes. User entries never change. The older copy at Source/Backend.HTTP.Server.Initialization/Initialization.cs:343-370 behaves the same. |
| SessionSpec.TryGetKeepsInv | Source/Code/Backend.HTTP.Server.Initialization/Initialization.cs:373-400 | A lookup keeps the invariant. |
| SessionSpec.StaleTokenAfterExpiredLookup | Source/Code/Backend.HTTP.Server.Initialization/Initialization.cs:391-396 | An expired lookup takes the token out of the token map only. It stays in its owner's set and the owner keeps its entry, so the converse of the invariant fails. |
| SessionSpec.EvictOne | Source/Code/Backend.HTTP.Server.Initialization/Initialization.cs:407-420 | The token leaves the map, and no user entry is created. |
| SessionSpec.Drop | Source/Code/Backend.HTTP.Server.Initialization/Initialization.cs:406-423 | The token is no longer in the map, and no user entry is created. |
| SessionSpec.Remove | Source/Code/Backend.HTTP.Server.Initialization/Initialization.cs:402-425 | A null or empty token changes nothing. Otherwise the token is no longer in the map. No token or user entry is added. The older copy at Source/Backend.HTTP.Server.Initialization/Initialization.cs:372-395 behaves the same. |
| SessionSpec.RemoveIsEvict | Source/Code/Backend.HTTP.Server.Initialization/Initialization.cs:402-449 | Removing one known token is the same as evicting the one-token set. `RemoveAuthData` and the sweep share one destruction rule. |
| SessionSpec.EvictStep | Source/Code/Backend.HTTP.Server.Initialization/Initialization.cs:436-450 | Dropping one more token after a batch eviction is the eviction of the batch plus that token, whether or not the token is still there. |
| SessionSpec.EvictKeepsInv | Source/Code/Backend.HTTP.Server.Initialization/Initialization.cs:436-450 | Evicting any set of tokens keeps the invariant. |
| SessionSpec.RemoveKeepsInv | Source/Code/Backend.HTTP.Server.Initialization/Initialization.cs:402-425 | Removal keeps the invariant. |
| SessionSpec.SweepKeepsInv | Source/Code/Backend.HTTP.Server.Initialization/Initialization.cs:427-462 | The sweep keeps the invariant. |
| SessionSpec.SweepKeepsExactlyValid | Source/Code/Backend.HTTP.Server.Initialization/Initialization.cs:433-450 | After a sweep, a token is mapped iff it was mapped and still valid, and its record is unchanged. |
| SessionSpec.SweepKeepsUser | Source/Code/Backend.HTTP.Server.Initialization/Initialization.cs:443-448 | A user survives the sweep iff one of its tokens is not swept. |
| SessionSpec.RemoveIdempotent | Source/Code/Backend.HTTP.Server.Initialization/Initialization.cs:402-425 | Removing a token twice is the same as removing it once. |
| SessionSpec.RemoveLastTokenRemovesUser | Source/Code/Backend.HTTP.Server.Initialization/Initialization.cs:414-419 | With two tokens, removing the first keeps the user's entry with only the second. Removing the second as well drops the entry. |
| SessionSpec.RemovedTokenNotFound | Source/Code/Backend.HTTP.Server.Initialization/Initialization.cs:402-425 | No lookup succeeds for a token after it has been removed. |
| SessionSpec.FailedLookupRemovalIsNoop | Source/Code/Backend.HTTP.Common.Skeletons/Authentication.cs:73-81 | Under the invariant, the removal a failed challenge performs changes nothing. The lookup already took an expired token out of the map, so that token stays in its owner's set. |
| SessionSpec.StaleEntryOutlivesCleanup | Source/Code/Backend.HTTP.Server.Initialization/Initialization.cs:393-396 | When a token that expires during a lookup was its owner's only token, neither removing it nor any later sweep drops the owner's entry, which keeps holding the token; the entry's data cache is never disposed. |
| SessionSpec.RemoveAll | Source/Backend.HTTP.Common.Logout/Functionality.cs:64-67 | Removing a list of tokens in turn takes exactly its non-empty tokens out of the map and creates no user entry. |
| SessionSpec.RemoveAllKeepsInv | Source/Backend.HTTP.Common.Logout/Functionality.cs:64-67 | Removing a list of tokens keeps the invariant. |
| SessionSpec.SlidingExpiry | Source/Code/Backend.HTTP.Server.Initialization/Initialization.cs:373-400 | A token added with a finite span is found within that span of the add. It is found again within the span of that lookup, and not after a longer idle gap. |
| SessionSpec.LegacyInfiniteTokenRejected | Source/Backend.HTTP.Server.Initialization/Initialization.cs:434-437 | In the older store, a token registered with the infinite span is never found at or after registration, and the first sweep removes it. |
| SessionSpec.RevisedInfiniteTokenAccepted | Source/Code/Backend.HTTP.Server.Initialization/Initialization.cs:464-468 | In the revised store, a token registered with the infinite span is found by every lookup and survives every sweep. |
| HttpCommon.ProceedWhenNoAuthenticatorFound | Source/Code/Backend.HTTP.Common/Authentication.cs:44-48 | The response gets status 401 and an empty body; headers are untouched. |
| Core.NewAggregator | Source/Backend.Core/Authentication.cs:84-89 | The map is kept as given. A null map gives an aggregator with no schemas. |
| Core.FirstUsable | Source/Backend.Core/Authentication.cs:94 | `FirstOrDefault`: returns the index of a usable element with no usable element before it, or none iff no element is usable. |
| Core.GetAuthenticator | Source/Backend.Core/Authentication.cs:91-95 | Returns an authenticator iff the schema (null read as "") is registered and one of its authenticators can be used. The one returned is usable and every earlier one is not. |
| Core.GetAuthenticators | Source/Backend.Core/Authentication.cs:97-101 | The whole registered list for the schema, in order, or none for an unknown schema. |
| Core.SchemasAreRegistered | Source/Backend.Core/Authentication.cs:103-109 | The schemas listed are exactly those for which `GetAuthenticators` finds a list. |
| Core.EarlierUsableShadowsLater | Source/Backend.Core/Authentication.cs:91-95 | Once the authenticator at position i can be used, the chosen one is at position i or earlier. |
| Store.AuthenticationDataHolder.constructor | Source/Code/Backend.HTTP.Server.Initialization/Initialization.cs:346-357 | A new store is empty and valid. |
| Store.AuthenticationDataHolder.AddAuthData | Source/Code/Backend.HTTP.Server.Initialization/Initialization.cs:359-371 | The view and the success flag are exactly `SessionSpec.Add`'s. The store stays valid and its disposed flag unchanged. A first-time user gets a fresh, empty, live cache; a known user keeps its cache object, and no other user's cache changes. The older copy at Source/Backend.HTTP.Server.Initialization/Initialization.cs:329-341 behaves the same. |
| Store.AuthenticationDataHolder.AddTokens | Source/Code/Backend.HTTP.Server.Initialization/Initialization.cs:365-368 | The map part of `AddAuthData`: the view and flag are exactly `SessionSpec.Add`'s, the invariant holds, the user gains an entry key, and the caches are untouched. |
| Store.AuthenticationDataHolder.EnsureEntry | Source/Code/Backend.HTTP.Server.Initialization/Initialization.cs:363 | The user-entry lookup of `AddAuthData`: a user with no entry gets a fresh, empty, live cache carrying its ID; an existing cache is kept; the token and user maps are unchanged. |
| Store.AuthenticationDataHolder.TryGetAuthData | Source/Code/Backend.HTTP.Server.Initialization/Initialization.cs:373-400 | The view and the result are exactly `SessionSpec.TryGet`'s. The token record is returned whenever the token was mapped: on success the refreshed record now in the store, otherwise the record as it was. On success the owner's entry is returned. User entries, caches and the disposed flag are unchanged. The older copy at Source/Backend.HTTP.Server.Initialization/Initialization.cs:343-370 behaves the same. |
| Store.AuthenticationDataHolder.DropToken | Source/Code/Backend.HTTP.Server.Initialization/Initialization.cs:406-423 | The view becomes `SessionSpec.Drop`'s; the disposed flag is unchanged. Users keeping an entry keep their cache untouched; a user losing its entry has its cache disposed. |
| Store.AuthenticationDataHolder.ReleaseEntry | Source/Code/Backend.HTTP.Server.Initialization/Initialization.cs:416-420 | A user whose token set became empty loses both parts of its entry and has its cache disposed. Every other cache keeps its state, because no two users share a cache. |
| Store.AuthenticationDataHolder.RemoveAuthData | Source/Code/Backend.HTTP.Server.Initialization/Initialization.cs:402-425 | The view becomes `SessionSpec.Remove`'s, and the store stays valid with its disposed flag unchanged. A dropped user's cache is disposed; every other cache is untouched. The older copy at Source/Backend.HTTP.Server.Initialization/Initialization.cs:372-395 behaves the same. |
| Store.AuthenticationDataHolder.CleanupAuthData | Source/Code/Backend.HTTP.Server.Initialization/Initialization.cs:427-457 | The view becomes `SessionSpec.Sweep`'s, which evicts exactly the invalid tokens. The store stays valid and its disposed flag unchanged. Dropped users' caches are disposed. The older copy at Source/Backend.HTTP.Server.Initialization/Initialization.cs:397-427 does the same with its own selection rule. |
| Store.AuthenticationDataHolder.Dispose | Source/Code/Backend.HTTP.Server.Initialization/Initialization.cs:470-481 | The first call empties both maps and marks the store disposed. A later call changes neither the view nor the caches. The older copy at Source/Backend.HTTP.Server.Initialization/Initialization.cs:439-450 behaves the same. |
| Authenticators.ClampByteCount | Source/Code/Backend.HTTP.Common.Skeletons/Authentication.cs:44 | The token byte count is the least value that is at least 1 and at least the configured count. |
| Authenticators.HttpAuthenticator.constructor | Source/Code/Backend.HTTP.Common.Skeletons/Authentication.cs:36-57 | The byte count is clamped. Expiration, `IsDefault`, the strategy and the store come from the arguments. |
| Authenticators.HttpAuthenticator.CanBeUsed | Source/Code/Backend.HTTP.Common.HeaderAuthenticator/Authenticator.cs:73-76 | The guest (Source/Backend.HTTP.Common.GuestAuthenticator/Authenticator.cs:45-51) can always be used. The header strategy can be used iff it reads a token from the request, whatever the attempt flag. |
| Authenticators.HttpAuthenticator.GetAuthID | Source/Code/Backend.HTTP.Common.HeaderAuthenticator/Authenticator.cs:78-81 | The header strategy reads the value of its header, the name matched ignoring case; the value is null when no header has that name in any capitalisation. The guest always answers with its fixed token. |
| Authenticators.HttpAuthenticator.SetAuthID | Source/Code/Backend.HTTP.Common.HeaderAuthenticator/Authenticator.cs:83-88 | Always signals that the response may be sent. The header strategy makes its header, under every capitalisation of its name, read as the token, and leaves every other header, the status and the body as they were. The guest (Source/Backend.HTTP.Common.GuestAuthenticator/Authenticator.cs:60-67) leaves the response exactly as it was. |
| Authenticators.HttpAuthenticator.Run | Source/Code/Backend.HTTP.Common.Skeletons/Authentication.cs:118-135 | Giving up answers 401 with an empty body and headers unchanged. Accepting keeps the status, sets the headers as `SetAuthID` does, and writes the empty body. |
| Authenticators.HttpAuthenticator.ChallengeAsync | Source/Code/Backend.HTTP.Common.Skeletons/Authentication.cs:67-87 | Success iff the store lookup of the request's token succeeds. On success: the owner's cache and the accept continuation, store as after the lookup. On failure: `RemoveAuthData`, proved to leave the store as the lookup left it; no user; the give-up continuation. No user entry is dropped: the caches map is unchanged and every cache keeps its state. The older copy at Source/Backend.HTTP.Common.Skeletons/Authentication.cs:62-82 behaves the same. |
| Authenticators.HttpAuthenticator.RegisterUser | Source/Code/Backend.HTTP.Common.Skeletons/Authentication.cs:89-94 | The store changes as `SessionSpec.Add` of the generated token with the configured expiration. On success the response is that of the accept continuation with the token. A duplicate token is the store's exception. Every user keeps its cache, untouched; a first-time user gets a fresh, empty one. The older copy at Source/Backend.HTTP.Common.Skeletons/Authentication.cs:84-89 behaves the same. |
| Authenticators.HttpAuthenticator.UnregisterUser | Source/Code/Backend.HTTP.Common.Skeletons/Authentication.cs:96-103 | The store becomes `SessionSpec.Remove` of the request's token, a no-op when the token is null or empty. Only a dropped user's cache is disposed. The older copy at Source/Backend.HTTP.Common.Skeletons/Authentication.cs:91-98 behaves the same. |
| Authenticators.NewHeaderAuthenticator | Source/Code/Backend.HTTP.Common.HeaderAuthenticator/Authenticator.cs:65-71 | A null configuration becomes the default one, and a null header name becomes `X-MyAuthToken`. Byte count (clamped), expiration and `IsDefault` come from the configuration. |
| Authenticators.GuestProcessConfiguration | Source/Backend.HTTP.Common.GuestAuthenticator/Authenticator.cs:69-73 | The guest's expiration becomes infinite; nothing else changes. |
| Authenticators.NewGuestAuthenticator | Source/Backend.HTTP.Common.GuestAuthenticator/Authenticator.cs:34-43 | The store changes as `SessionSpec.Add` of the generated token for the configured user with the infinite span. The guest exists iff that add succeeds, and then answers with that token. It keeps the configured byte count (clamped by `ClampByteCount`) and default flag. The configured user ends with a cache entry: an existing cache is kept, a first-time user gets a fresh, empty one. No other user's cache changes, and no cache changes state. |
| Authenticators.HeaderRoundTrip | Source/Code/Backend.HTTP.Common.HeaderAuthenticator/Authenticator.cs:78-88 | A token written by the accept continuation and echoed back in the request headers is read back unchanged, and the authenticator can be used. |
| Authenticators.HeaderNameCaseIgnored | Source/Code/Backend.HTTP.Common.HeaderAuthenticator/Authenticator.cs:73-81 | A request that carries the header under any capitalisation of the configured name (HTTP/2 lower-cases every name) can be used, and its token is read. |
| Authenticators.GuestShadowsLater | Source/Backend.HTTP.Common.GuestAuthenticator/Authenticator.cs:45-51 | A guest in a schema's list is always usable, so it shadows every authenticator after it for every request. |
| Authenticators.RegisteredTokenAuthenticates | Source/Code/Backend.HTTP.Common.Skeletons/Authentication.cs:89-94 | A freshly registered token, echoed back in the header within its span, passes the challenge lookup. |
| Authenticators.UnregisteredTokenRejected | Source/Code/Backend.HTTP.Common.Skeletons/Authentication.cs:96-103 | After `UnregisterUser`, the token it read (for the guest, its single shared token) passes no challenge. |
| Authenticators.LegacyGuestNeverAuthenticates | Source/Backend.HTTP.Common.GuestAuthenticator/Authenticator.cs:41-42 | Over the older store, the guest's token, registered with the infinite span, fails every challenge from its registration on. |
| Authenticators.RevisedGuestAlwaysAuthenticates | Source/Backend.HTTP.Common.GuestAuthenticator/Authenticator.cs:41-42 | Over the revised store, the guest's token passes every challenge at any time. |
| Responses.ProcessGuarded | Source/Backend.Core/Response.cs:81-105 | The authenticator is chosen with the attempt flag false. Exactly one of three things happens: the inner handler runs with the user found by a successful challenge; the failed challenge's continuation answers 401; or, with no authenticator, the aggregator's 401 runs and the store is untouched. The chosen store's caches map is unchanged and no cache changes state, so the user handed to the inner handler is the live cache it was. |
| Responses.NewRegexHolder | Source/Backend.Core/Response.cs:45-52 | Succeeds iff both the extractor and the regex are non-null. A null extractor is reported first, then a null regex. |
| Logout.UnregisterStep | Source/Backend.HTTP.Common.Logout/Functionality.cs:66 | One authenticator's `UnregisterUser`: the store's view becomes `SessionSpec.Remove` of its token, and the store gains no cache. Measured against the caches recorded before the first turn, a user that keeps its entry keeps its cache untouched, and a user that has lost it has its cache disposed. |
| Logout.UnregisterTurns | Source/Backend.HTTP.Common.Logout/Functionality.cs:64-67 | The turns over one schema's authenticators, in list order: the store's view becomes `RemoveAll` of their tokens, and the caches stand as `UnregisterStep` says against those recorded at entry. |
| Logout.UnregisterEach | Source/Backend.HTTP.Common.Logout/Functionality.cs:64-67 | One schema's authenticators unregister the request's token in turn. Their shared store becomes `RemoveAll` of their tokens, in list order, stays valid and gains no cache. Its caches are released (`CachesReleased`): a user that keeps its entry keeps its cache untouched, and a user that loses it has its cache disposed. |
| Logout.LogoutStore | Source/Backend.HTTP.Common.Logout/Functionality.cs:64-67 | The schema's own store in its turn goes from not done to done in `StoreLoggedOut`: its view loses its authenticators' tokens, and its caches stay released against the record. |
| Logout.LogoutSchema | Source/Backend.HTTP.Common.Logout/Functionality.cs:64-67 | One schema's turn moves that schema into the done set. Every store still stands as `StoreLoggedOut` says for the new done set. Every other store keeps its caches map, and its view and cache states with it. |
| Logout.LogoutTurns | Source/Backend.HTTP.Common.Logout/Functionality.cs:64-67 | The turns over all schemas: once they are done every store stands as `StoreLoggedOut` with its schema done. |
| Logout.ProcessLogout | Source/Backend.HTTP.Common.Logout/Functionality.cs:58-70 | Every schema's store becomes `RemoveAll` of the tokens its authenticators read from the request. The stores stay wired (valid, with no cache shared between schemas). Every store's caches are released (`CachesReleased`): users keeping an entry keep their cache untouched, and users losing it have it disposed. The response is not touched. |
| Logout.LoggedOutTokenRejected | Source/Backend.HTTP.Common.Logout/Functionality.cs:64-67 | After logout, every token an authenticator read from the request is gone from its store, and no challenge with it succeeds. |
| Http.EqualsIgnoreCase | Source/Code/Backend.HTTP.Common.Login/Functionality.cs:133 | Ordinal case-insensitive equality holds iff the two strings' upper-cased forms are equal. |
| Http.EqualsIgnoreCaseIsEquivalence | Source/Code/Backend.HTTP.Common.Login/Functionality.cs:133 | The case-insensitive comparison is reflexive, symmetric and transitive. |
| Http.HasHeader | Source/Code/Backend.HTTP.Common.HeaderAuthenticator/Authenticator.cs:75 | `ContainsKey` holds iff some entry's name equals the asked name ignoring case; entries are kept under their upper-cased names, which the `Headers` type enforces. |
| Http.FormValues | Source/Code/Backend.HTTP.Common.Login/Functionality.cs:124-125 | The form's `TryGetValue` finds a field iff some field's name equals the asked name ignoring case, and gives that field's values. |
| Http.GetHeader | Source/Code/Backend.HTTP.Common.HeaderAuthenticator/Authenticator.cs:80 | Header lookup ignores the case of the name: a value is found iff some entry's name equals the asked name ignoring case, and it is that entry's value. |
| Http.SetHeader | Source/Code/Backend.HTTP.Common.HeaderAuthenticator/Authenticator.cs:85 | Setting a header makes every capitalisation of its name read the new value, replacing an entry spelt differently, and leaves every header of another name as it was. |
| Login.JsonContentTypeIgnoresCase | Source/Code/Backend.HTTP.Common.Login/Functionality.cs:133 | A content type matches `application/json` iff its upper-cased form is `APPLICATION/JSON`, so every capitalisation is accepted and nothing else is. |
| Login.ReadCredentials | Source/Code/Backend.HTTP.Common.Login/Functionality.cs:122-164 | A form gives credentials only when both fields, their names matched ignoring case, are present with exactly one value each. A JSON body is read only under the content-type and below-1-GiB length guard, each credential present iff its property is. Any other body gives none. |
| Login.BadRequest | Source/Code/Backend.HTTP.Common.Login/Functionality.cs:211-216 | The malformed-request answer is 400 with an empty body. |
| Login.ProcessLogin | Source/Code/Backend.HTTP.Common.Login/Functionality.cs:108-217 | Without a POST, non-empty credentials and a usable authenticator (attempt flag true): 400, store untouched. Otherwise the challenge runs. On success only its continuation runs. On failure the provider decides: no user ID gives 401 and nothing registered; a user ID is transformed when a transformer is set, then registered under the generated token. Every user keeps its cache, untouched; a user who gains one gets a fresh, empty cache. |
| Login.LoginWith | Source/Code/Backend.HTTP.Common.Login/Functionality.cs:180-205 | The attempted path: the store view and the response follow the lookup, or the lookup then `SessionSpec.Add` of the transformed provider user ID; no cache is disposed or changed, and new caches are fresh and empty. |
| Login.FormNamesIgnoreCase | Source/Code/Backend.HTTP.Common.Login/Functionality.cs:124-131 | A form whose fields are spelt in any capitalisation of the configured names, one value each, gives those values as the credentials. |
| SampleLogin.NewSampleLoginProvider | Source/Sample/SampleBackendLogin/ResponseCreator.cs:35-39 | A null configured username or password falls back to `sample`. |
| SampleLogin.PerformAuthentication | Source/Sample/SampleBackendLogin/ResponseCreator.cs:41-44 | Answers iff both values equal the configured ones, and then answers with the username itself. |
| SampleLogin.DefaultAcceptsOnlySample | Source/Sample/SampleBackendLogin/ResponseCreator.cs:47-53 | With the default configuration, only `sample`/`sample` logs in, as user `sample`. |

## Left out

- Locks, `ConcurrentDictionary`, `Interlocked.Exchange` and the cleanup timer's
  rescheduling. The model is sequential. The sweep is the method
  `CleanupAuthData(now)`, and the re-check under the lock in
  `GetOrAddUserData` collapses into the first check. No `try`/`catch` is
  needed around the sweep, because nothing in it can fail here.
- Wall-clock time. `DateTime.UtcNow` is the `now` parameter, one value per
  call. The source reads the clock again for every token the sweep examines.
- Token generation. The random generator, the seeded shuffle of the base64
  alphabet and the encoding are cryptography outside this layer. The
  generated token is a parameter of `RegisterUser` and
  `NewGuestAuthenticator`. The byte count is modelled (`ClampByteCount`) but
  not the token's length.
- `AuthenticatedTokenInfo` and `AuthenticatedUserInfo` are held as values, not
  shared objects.
  - A token record is a `TokenRecord` in the store's map; `MarkAccessedNow`
    replaces it.
  - A user entry is split across two maps with the same keys: the token sets
    and the `UserInfo` caches.
  - `TryGetAuthData` hands out a copy of the record. On success the copy is
    the refreshed record, as the source's shared object is at that moment.
    A later lookup that refreshes the same token again is not seen through
    a copy taken earlier, whereas the source's shared object would show it.
    No code of this layer reads a record after the lookup that returned it.
  - `UserInfo` caches are real objects, shared with callers and disposed in
    place.
- C# `null` for strings. It is modelled (`Option`) where the code tests for
  it: token IDs, header names, schemas, configuration values, provider
  results. Elsewhere strings are never null, and the null-argument exceptions
  there are not modelled: a null user ID passed to `AddAuthData` or
  `UserInfoImpl`, a null store passed to `HTTPAuthenticator`, a null guest or
  login configuration.
- `StringValues`. A header has one value, and a header that is present reads
  as that value. Several values joined by commas are not modelled.
- Login body parsing. The form is the field map, keyed by upper-cased field
  name, and a JSON body is the string-valued properties of its top-level
  object, looked up by exact name as `JObject.TryGetValue` does. The buffer pool, the
  streaming JSON reader, and the null reference thrown for a JSON body that
  is not an object are not modelled.
- `UserData.GetOrAdd`: the values are untyped (`object?`), so the cast
  `(T) retVal` at Source/Code/Backend.HTTP.Server.Initialization/Initialization.cs:535
  is not modelled. Where the source throws for a value type `T` given null
  (a disposed cache or a factory returning null), or for a stored value of
  another type, the model returns the value, or null, as it is.
- `Core.NewAggregator`: the authenticator lists hold no null elements. The
  server set-up drops a schema whose whole list is null but keeps a list with
  null elements
  (Source/Code/Backend.HTTP.Server.Initialization/Initialization.cs:171-183);
  choosing an authenticator or logging out over such a list throws in the
  source. The server set-up is not part of this model.
- `Http.EqualsIgnoreCase`: folds ASCII letters only, for the login's content
  type, header names and form field names alike. `OrdinalIgnoreCase` also upper-cases
  non-ASCII letters (for example `ı` onto `I`), so such a content type or
  header name matches in the source but not in the model.
- Async shape. The `Func<Task>` continuations are the `Proceed` values, and
  awaiting one is `HttpAuthenticator.Run`. The inner handler of the guarded
  creator is the `Inner` outcome. The login provider and the
  user-ID transformer are function parameters.
- The public response creator (`PublicResponseCreator`,
  Source/Backend.Core/Response.cs:114-126) is not modelled. It only passes
  the request on to its abstract inner handler, without a user. It consults
  no authenticator and touches no store, so there is nothing about it to
  prove.
- `RegexBasedMatcher.IsMatch` (regular-expression matching) is not part of this
  model. Only `RegexHolder`'s argument checks are.
- `ProcessConfiguration` overwrites the caller's configuration object. The
  model returns the updated configuration instead
  (`GuestProcessConfiguration`), so a later reader of the shared object is not
  modelled.
- `Logout.ProcessLogout`: visits schemas in an unspecified order, where the
  source follows the dictionary's key order. The result is the same because
  every schema has its own store (`Logout.Wired`). A deployment that shares
  one store between schemas is not covered.
- `Store.AuthenticationDataHolder.CleanupAuthData`: says how caches change
  (dropped users' caches disposed, others untouched) rather than in which
  order they are disposed.

## Findings

| source | as written | input that shows it | evidently intended | confidence | as-written member | corrected member |
|---|---|---|---|---|---|---|
| Source/Backend.HTTP.Server.Initialization/Initialization.cs:434-437 | The older store's validity check is `now - lastAccessed <= span`. The guest authenticator registers its token with `Timeout.InfiniteTimeSpan`, a negative span, so its token is never valid: the first challenge removes it from the token map and every challenge answers 401. | A guest registered at time t0, then challenged at any time ≥ t0. | A token with the infinite span never expires, as the revised store's check `span == InfiniteTimeSpan \|\| …` (Source/Code/Backend.HTTP.Server.Initialization/Initialization.cs:464-468) says. | high (not executed) | Authenticators.LegacyGuestNeverAuthenticates | Authenticators.RevisedGuestAlwaysAuthenticates |
