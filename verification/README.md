# Verification of authn_kit

A Dafny model of the authentication engine `authn_kit`, and proofs about it. Four parts, which build on
each other:

1. **The JWKS refresh protocol** (`RefreshProtocol`, `RefreshTheorems`, `RefreshHealing`, `OidcProvider`,
   `RefreshRuns`). Any number of
   calls of `refresh` and `verify_id_token` run at once. A step of the system is one atomic section of one
   call, the passage of time, the start of a call, or the dropping of a suspended call; discovery may
   succeed, fail or never return. The theorems hold of every run. `OidcProvider` is the object itself,
   whose methods replace its one field, and its `Refresh` and `VerifyIdToken` are shown to be runs of the
   steps.
2. **The credential cache and the mechanisms that rely on it** (`CredentialCache`, `CacheHistory`,
   `CacheRefinement`, `CacheRecency`, `SharedCache`, `SharedRecency`, `CachedExchange`, `ApiToken`,
   `BasicGrants`).
   `CredentialCache` is the class with its map and its clock. Sequential histories refine a recency list
   that drops expired items at once. `SharedCache` draws ticks outside the lock, as the code does.
   `CachedExchange` runs any number of requests over one cache and one remote party, and the API-token and
   Basic mechanisms are instances of it.
3. **The chain and who claims what** (`AuthTypes`, `AuthChain`, `BearerShape`, `Session`, `Claimants`).
4. **Login and the wire formats** (`RedirectPolicy`, `LoginFlow`, `LoginCookies`, `Cookies`,
   `CookieHeader`, `CookieJar`, `Base64`, `Utf8`, `CredentialParser`). Login attempts interleave; a jar
   after section 5.3 of RFC 6265 holds the cookies; parsers and printers are inverted against RFC 7617,
   RFC 4648, RFC 3629, RFC 3986 and section 5.2 of RFC 6265.

`Wrappers` and `Strings` hold the few shared types and string operations.

A method that changes an object is specified by a function of the old state (`Refreshed`, `Apply`,
`Verdicts`, `Resolve`), and the theorems are about those functions and the runs built from them. What such
a function means is stated without its own name and helpers, in lemmas such as `AcceptedIff`,
`InsertThenGetIff`, `ListedDecides`, `GrantAnswers` and `CompleteIff`.
Clock readings, the answers of the issuer, random values and what other calls do in between are
parameters.

## Where the code differs from its documentation, or is surprising

- `README.md:67-71` asks for a redirecting session authenticator to be registered last. An absent
  credential is claimed by the session mechanism alone, so its position decides nothing for such a
  request (`AbsentCredentialIsTheSessions`). Order matters for exactly two kinds of request: a session
  cookie together with a credential another mechanism claims, and a bearer token that carries the API
  prefix and has the shape of a compact JWS. For every other request no order matters, and for each of
  these some value of the session cookie and some judgement of the provider make it matter
  (`OrderMattersIff`); one ID token in both places does not (`SameTokenDoesNotMatter`).
- `src/mechanisms/session.rs:30-33` says that the session authenticator declines without a login flow. It
  returns an error when there is neither cookie nor credential; the model follows the code
  (`ClaimDomains`).
- `cache_ttl` gives `None` for an expiry already past, so claims that had expired before they were
  cached are kept for the fallback lifetime. `NoHitAfterExpiryIff` says exactly when a cached answer can
  outlive its claims.
- An allow-list entry with nothing after `://` is cut back to the scheme and its colon, and then accepts
  URLs with any authority (`EmptyAuthorityAcceptsAnother`); with an authority the prefix test is parsing
  (`PrefixTestIsParsingIff`).
- `CookieSettings::clear` misses the cookie that `set` stored when the configured path does not start
  with `/` and the two responses answer pages with different default paths (`ClearCancelsSetIff`). A
  lifetime below a second prints as `Max-Age=0`, which removes the cookie.
- On a public scope with the `Optional` policy, a request whose only credential is a session cookie is
  anonymous: no mechanism looks at the cookie (`AnonymousIff`).
- Under concurrency the last use of a cache entry may go backwards (`LastUseMayGoBack`), exactly when a
  section uses it with an older tick (`LastUseFallsIff`). The recency guarantee holds of sequential
  histories and of every interleaving in tick order, such as one that takes the lock in the order of the
  draws (`DrawOrderIsTickOrder`).
- A failed discovery is not debounced: once the stored snapshot is old, no `refresh` that starts later
  returns Ok before some fetch has succeeded (`FailuresDoNotDebounce`), and fetches can follow failed ones
  at the same instant (`FailedFetchesCanBeClose`).
- The debounce delays recovery from a key rotation: a valid token of the new keys can be refused exactly
  while the stored snapshot, fetched before the rotation, is young (`NewTokenRefusedIff`); from then on
  every call that has to try twice is answered by the new keys (`RotationHeals`, `FreshAnswersIff`).
- A callback can be replayed as far as the token endpoint from a browser whose login and callback pages
  give the protection cookie different identities (`ReplayIsRefusedIff`).

## Model

| member | source | states |
|---|---|---|
| RefreshProtocol.DecideKeepsTask | src/oidc/provider.rs:211-226 | the age test, waiting and the double check keep what a call knows: it saw its snapshot old, or what it promises has happened |
| RefreshProtocol.VerifyKeepsTask | src/oidc/provider.rs:253-273 | both attempts keep the counts of attempts and refreshes and the record of what was verified with what |
| RefreshProtocol.AdvanceUsesLock | src/oidc/provider.rs:217-229 | only the section after a successful fetch stores, the mutex is taken before the re-read and dropped at the end, and held in between |
| RefreshProtocol.StoreKeepsTask | src/oidc/provider.rs:169-174 | storing numbers the snapshot next and makes the call's `Ok` true |
| RefreshProtocol.StepKeepsInv | src/oidc/provider.rs:211-274 | every step of any call, drop, start and passage of time keeps the invariant, and never takes back a published snapshot |
| RefreshTheorems.RunKeepsInv | src/oidc/provider.rs:211-274 | every state of every run has the invariant |
| RefreshTheorems.SingleFlight | src/oidc/provider.rs:204-207 | at most one fetch is in flight, and its caller holds the mutex |
| RefreshTheorems.OnlyTheHolderPublishes | src/oidc/provider.rs:221-228 | the stored snapshot changes only in the hands of the mutex holder, which had observed the very snapshot it replaces and fetched a full interval after it |
| RefreshTheorems.OneSuccessorPerObservation | src/oidc/provider.rs:211-230 | of all calls that observed one snapshot, at most one replaces it |
| RefreshTheorems.RefreshesTakeTime | src/oidc/provider.rs:190-194 | n refreshes move the newest fetch time by at least n intervals |
| RefreshTheorems.WindowBound | src/oidc/provider.rs:208-215 | a window of length W holds at most W / interval + 1 successful fetches, in every run, for a positive interval |
| RefreshTheorems.NoEarlyFetch | src/oidc/provider.rs:211-228 | a fetch starts only when the stored snapshot is an interval old, and for the snapshot its caller observed |
| RefreshTheorems.DoubleCheckIsIdentity | src/oidc/provider.rs:221-226 | under the mutex the age test adds nothing: the double check is the pointer comparison |
| RefreshTheorems.RefreshDelivers | src/oidc/provider.rs:211-230 | `Ok` means that the observed snapshot, stored at some instant of the call, was young when its age was read or has been replaced since |
| RefreshTheorems.ReadDuringCall | src/oidc/provider.rs:162-167 | every snapshot a call observes or verifies with was the stored one at an instant of the call |
| RefreshTheorems.VerifiedAgainstCurrentKeys | src/oidc/provider.rs:244-300 | every accepted token passed the check with keys stored at some instant of the call, never older than those of a failed first attempt, and its nonce is the expected one, present or free, as the caller asked |
| RefreshTheorems.RefusedAgainstCurrentKeys | src/oidc/provider.rs:244-300 | a token is refused only if, with keys stored at some instant of the call, its check failed with the very error reported, or its nonce breaks what the caller asked |
| RefreshTheorems.FirstAttemptLeadsTo | src/oidc/error.rs:137-146 | a first attempt leads to a refresh exactly on a missing key, a failed signature or an ambiguous key, and otherwise to the answer |
| RefreshTheorems.DebouncedIff | src/oidc/provider.rs:211-215 | a refresh goes on to the mutex exactly if the interval has passed since the fetch of the snapshot it observed |
| RefreshTheorems.RetriesAreBounded | src/oidc/provider.rs:253-273 | at most two attempts and one refresh, and a refresh only after a missing key, a failed signature or an ambiguous key |
| RefreshTheorems.StepLowersWork | src/oidc/provider.rs:211-274 | every section a call runs, and every drop, lowers the bound on the work left |
| RefreshTheorems.SomeCallCanRun | src/oidc/provider.rs:217-230 | no deadlock: while a call is unfinished, some call can run |
| RefreshTheorems.DroppedFetchFreesOthers | src/oidc/provider.rs:217-230 | dropping a call while it fetches leaves the stored snapshot alone and lets whoever waits for the mutex go on |
| RefreshTheorems.CallsFinish | src/oidc/provider.rs:211-274 | however calls interleave, they take no more steps than the bound on the work at the start and thirteen for each call that starts meanwhile |
| OidcProviderObject.OidcProvider.Discover | src/oidc/provider.rs:110-129 | the object starts with the first snapshot |
| OidcProviderObject.OidcProvider.Store | src/oidc/provider.rs:169-174 | replaces the snapshot by a new allocation |
| OidcProviderObject.OidcProvider.Refresh | src/oidc/provider.rs:211-230 | result and stored snapshot are `Refreshed` of the old one, with others storing while this call waits |
| OidcProviderObject.OidcProvider.VerifyIdToken | src/oidc/provider.rs:244-274 | result and stored snapshot are `VerifiedToken` of the old one, which `RefreshRuns.VerifyIdTokenIsARun` shows to be a run of the protocol |
| OidcProviderObject.AcceptedIff | src/oidc/provider.rs:244-300 | a token is accepted with certain claims exactly if the check yields them, with a nonce as the caller asked, for the stored keys or, after a failure fresh keys could cure, for those of a successful refresh |
| OidcProviderObject.RefusedIff | src/oidc/provider.rs:244-300 | exactly which tokens are refused, with which error of the check or of the nonce, and when the refresh itself is the error |
| OidcProviderObject.RefreshedDelivers | src/oidc/provider.rs:211-230 | `Ok` is a young or a newer snapshot, an error leaves the snapshot alone, and without others a replaced one was an interval old |
| RefreshHealing.FailuresDoNotDebounce | src/oidc/provider.rs:211-230 | a `refresh` that starts when the stored snapshot is an interval old returns Ok only if a newer one has been stored since, however many fetches failed |
| RefreshHealing.StartsAreSpaced | src/oidc/provider.rs:208-210 | two fetches start an interval apart, or the first of them failed or was dropped, whatever tokens arrive |
| RefreshHealing.FailedFetchesCanBeClose | src/oidc/provider.rs:211-230 | every run that has come to an old snapshot and a free mutex can go on with two fetches started at one instant, the first of them failed |
| RefreshHealing.StartedLater | src/oidc/provider.rs:212-213 | a call observes nothing older than the snapshot stored when it starts, and reads its age no earlier |
| RefreshHealing.StoredLater | src/oidc/provider.rs:190-194 | once no call holds keys fetched before a moment, everything stored later was fetched after it |
| RefreshHealing.SecondAttemptUses | src/oidc/provider.rs:268-273 | a second attempt judges with a snapshot that was young when its age was read, or one stored since the call observed another |
| RefreshHealing.RotationHeals | src/oidc/provider.rs:197-200 | if the stored snapshot is an interval old, or was fetched since the rotation, every call that starts from then on and tries twice is answered by the new keys, unless older keys are about to be stored |
| RefreshHealing.FreshAnswersIff | src/oidc/provider.rs:208-226 | however a run goes on, every second attempt uses keys fetched since the rotation exactly if the snapshot stored now is an interval old or was fetched since |
| RefreshHealing.NewTokenRefusedIff | src/oidc/provider.rs:208-215 | a token that the stored keys fail and the new keys verify can be refused at the second attempt exactly if the stored snapshot is young |
| RefreshHealing.DebounceRefusesNewToken | src/oidc/provider.rs:213-215 | for every rotation while the snapshot is young there is a run, from discovery on, that refuses a valid token of the new keys |
| OidcProviderObject.OthersAdvance | src/oidc/provider.rs:169-174 | the generation counts the stores, so pointer identity is generation equality |
| RefreshRuns.RefreshIsARun | src/oidc/provider.rs:211-230 | the object's `Refresh` is a run of the step system with the same result and snapshot, for any others that store while it waits, each an interval after the snapshot it replaces |
| RefreshRuns.OthersStore | src/oidc/provider.rs:217-228 | any such sequence of stores is made by other calls while this one waits for the mutex |
| RefreshRuns.VerifyIdTokenIsARun | src/oidc/provider.rs:244-274 | the object's `VerifyIdToken` is a run of the step system: verify, refresh and verify again, with the same snapshot and the result its call ends with |
| CredentialCaching.EvictedEvictsColdest | src/cache.rs:177-189 | eviction removes as few entries as make room, none used later than one that stays |
| CredentialCaching.EvictionIsDetermined | src/cache.rs:177-189 | with distinct uses, any eviction of the coldest, in any scan order, removes the same entries |
| CredentialCaching.ColdestExists | src/cache.rs:178-181 | a non-empty map has a coldest entry |
| CredentialCaching.TicksWrap | src/cache.rs:104-106 | the tick after a tick is its successor modulo 2^64 |
| CredentialCaching.CredentialCache.Tick | src/cache.rs:104-106 | returns the old clock and advances it modulo 2^64 |
| CredentialCaching.CredentialCache.Get | src/cache.rs:136-147 | the new entries, clock and answer are those of `Apply` |
| CredentialCaching.CredentialCache.FindColdest | src/cache.rs:178-181 | whatever the scan order, finds an entry used no later than any other, or none if there is none |
| CredentialCaching.CredentialCache.Evict | src/cache.rs:177-189 | the loop terminates and evicts the coldest entries, no more than needed |
| CredentialCaching.CredentialCache.MakeRoom | src/cache.rs:167-190 | prunes and evicts only at capacity and only for a new key |
| CredentialCaching.CredentialCache.Insert | src/cache.rs:155-194 | the whole new state, without any precondition; `CacheHistory.InsertThenGetIff` has the lifetime |
| CredentialCaching.CredentialCache.Remove | src/cache.rs:197-202 | exactly the one key goes |
| CredentialCaching.CredentialCache.Len | src/cache.rs:204-206 | the number of entries, expired ones included |
| CacheHistory.HistoryKeepsInv | src/cache.rs:136-202 | after any sequential history: at most the maximum, uses distinct and below the clock |
| CacheHistory.StoreKeepsInv | src/cache.rs:163-193 | a store never leaves more than the maximum and changes no other entry it keeps |
| CacheHistory.InsertThenGetIff | src/cache.rs:136-194 | a stored value is found exactly until the reported or else the fallback lifetime, less the margin, is over |
| CacheHistory.InsertOverIff | src/cache.rs:155-194 | an older entry of the key is replaced, unless the lifetime is no longer than the margin |
| CacheRefinement.LazyPruningIsInvisible | src/cache.rs:136-194 | every sequential history is answered like a recency list that drops expired items before each operation |
| CacheRefinement.HistoryRefines | src/cache.rs:136-202 | the list holds exactly the unexpired entries, in order of use, after every history |
| CacheRefinement.GetRefines | src/cache.rs:136-147 | a hit moves the item to the end of the list, and list and cache answer alike |
| CacheRefinement.InsertRefines | src/cache.rs:155-194 | a store on the cache is a store on the list, in-place overwriting of expired keys included |
| CacheRefinement.EvictionDropsHead | src/cache.rs:174-189 | pruning and evicting the coldest is dropping the head of the list |
| CacheRecency.EveryEntryWasUsed | src/cache.rs:136-194 | every entry carries the tick of the last operation that used its key |
| CacheRecency.EvictionNeedsOtherUses | src/cache.rs:149-154 | an unexpired entry is evicted only after hits and inserts of at least `max_entries` other keys since its own last use |
| CacheRecency.EvictionKeepsTheRecent | src/cache.rs:167-190 | when an unexpired entry goes, one fewer than the maximum stay, each used later |
| SharedCaching.EventKeepsInv | src/cache.rs:104-202 | with ticks drawn outside the lock, every locked section keeps size, freshness and distinct uses, and every entry is one that was stored |
| SharedCaching.EveryInterleaving | src/cache.rs:104-202 | the same of every state of every interleaving |
| SharedCaching.VictimIsDetermined | src/cache.rs:177-189 | in every interleaving the victim is unique whatever the order of the hash map, and at most one entry is evicted |
| SharedCaching.HitWasStored | src/cache.rs:136-147 | a hit is a value stored for that key less than its time to live ago |
| SharedCaching.UninterruptedGet | src/cache.rs:136-147 | a `get` nobody interrupts is the sequential one |
| SharedCaching.UninterruptedInsert | src/cache.rs:155-194 | and so is an `insert` |
| SharedCaching.LastUseMayGoBack | src/cache.rs:136-147 | a run in which the last use of an entry goes backwards |
| SharedRecency.LastUseFallsIff | src/cache.rs:136-194 | the last use of an entry falls exactly if a hit or a store uses it with a tick drawn before that of its last use |
| SharedRecency.RunHasHistory | src/cache.rs:104-202 | every state of every interleaving has a history of draws and locked sections |
| SharedRecency.DrawOrderIsTickOrder | src/cache.rs:136-194 | if the lock is taken in the order of the draws, every use has a later tick than every entry |
| SharedRecency.LastUsesNeverFall | src/cache.rs:136-194 | in tick order no last use ever goes back |
| SharedRecency.LaterTickIsLaterUse | src/cache.rs:136-194 | in tick order a later tick means a later use |
| SharedRecency.EvictionNeedsOtherUses | src/cache.rs:149-190 | in every interleaving in tick order an unexpired entry is evicted only after hits and inserts of at least `max_entries` other keys since its own last use |
| CachedExchanging.StepKeepsInv | src/mechanisms/api_token.rs:308-323 | every step of any request keeps the origin of every entry and every answer |
| CachedExchanging.HitIsExplained | src/mechanisms/api_token.rs:308-323 | every hit in every interleaving had been produced before, in that run, for a request with the same key, and comes within the granted time to live |
| CachedExchanging.MarginAbsorbsLatency | src/cache.rs:32-34 | if storing took at most the margin, no hit comes at or after the end of the reported lifetime |
| CachedExchanging.AnswerAloneIsARun | src/mechanisms/api_token.rs:308-323 | one uninterrupted request is a run of the concurrent system with the same answer and cache |
| ApiTokens.ApiTokenAuthenticator.FindToken | src/mechanisms/api_token.rs:283-287 | the first static token that permits the scope and equals the key |
| ApiTokens.ApiTokenAuthenticator.Authenticate | src/mechanisms/api_token.rs:269-324 | verdict and cache are `Verdicts` of the old cache, whose meaning is in `ListedDecides`, `UnlistedIsNotDecided` and `OthersAreAsked` |
| ApiTokens.AuthenticateIsARun | src/mechanisms/api_token.rs:308-323 | a call of the object that asks is a run of its exchange, with the same verdict and cache |
| ApiTokens.FirstAccepting | src/mechanisms/api_token.rs:110-127 | the list search finds the first entry that accepts |
| ApiTokens.StaticNeedsNobody | src/mechanisms/api_token.rs:283-298 | a listed key is answered from the list whatever the validator or the cache say |
| ApiTokens.ListedDecides | src/mechanisms/api_token.rs:110-127 | the first token whose secret is the key, and whose scopes, if limited, name the scope, decides; the cache stays as it is |
| ApiTokens.UnlistedIsNotDecided | src/mechanisms/api_token.rs:283-307 | without such a token the key is refused, cache unchanged, where there is no validator; with one, the list has no say |
| ApiTokens.OthersAreAsked | src/mechanisms/api_token.rs:299-324 | a key the list does not decide is answered by an unexpired entry of its own scope, validator and digest, or else by the validator and the conversion |
| ApiTokens.AnswerLastsIff | src/mechanisms/api_token.rs:219-224 | the answer is given again without the validator exactly until the time left to the reported expiry, capped, or else the fallback lifetime, less the margin, is over |
| ApiTokens.CachedAnswersAreSound | src/mechanisms/api_token.rs:308-322 | every cached answer is the conversion of claims the validator had returned before, in that run, for the same key and scope, within the capped lifetime less the margin, and before the reported expiry if stored within the margin |
| ApiTokens.CacheIsTransparent | src/mechanisms/api_token.rs:269-324 | with a constant validator every call of every interleaving answers as without a cache |
| ApiTokens.NoHitAfterExpiryIff | src/mechanisms/api_token.rs:219-224 | no run hits claims at or after their expiry exactly if they had not expired when the lifetime was computed, or the fallback lifetime caches nothing |
| ApiTokens.ExpiredHit | src/mechanisms/api_token.rs:308-323 | a run that stores claims already expired and hits them |
| BasicGrants.BasicAuthenticator.RunGrant | src/mechanisms/basic.rs:66-164 | answer and cache of either grant; `GrantAnswers` says what the answer is made of |
| BasicGrants.BasicAuthenticator.Authenticate | src/mechanisms/basic.rs:182-211 | verdict and cache by grant header, an unknown or disabled grant refused without touching the cache |
| BasicGrants.HeaderSelects | src/mechanisms/basic.rs:182-211 | an unknown grant is malformed and a disabled one unsupported, cache unchanged; the named client grant is the default |
| BasicGrants.GrantAnswers | src/mechanisms/basic.rs:66-164 | the password grant answers with its own cached entry or with the conversion of the claims the endpoint yields, the client grant with that of the presented id |
| BasicGrants.AnswerLastsIff | src/mechanisms/basic.rs:66-164 | an answer is given again without the endpoint exactly until the reported or else the fallback lifetime, less the margin, is over |
| BasicGrants.AuthenticateIsARun | src/mechanisms/basic.rs:66-164 | a call of the object, under either grant, is a run of its exchange, with the same verdict and cache |
| BasicGrants.MechanismsDiffer | src/mechanisms/basic.rs:72-128 | the two grants never share a cache key |
| BasicGrants.GrantsAreIsolated | src/mechanisms/basic.rs:66-164 | every cached answer had been produced before, in that run, by the same grant for the same scope, id and secret; a machine grant's is the client id's own, a password grant's that of verified claims; none is given at or after expiry if stored within the margin |
| AuthChains.AuthChain.With | src/authenticator.rs:140-150 | appends, changing nothing else |
| AuthChains.AuthChain.SetPublicScopePolicy | src/authenticator.rs:152-155 | sets the policy, changing nothing else |
| AuthChains.AuthChain.Authenticate | src/authenticator.rs:170-202 | the outcome is `Resolve` of the verdicts; all consulted before the last one declined, and none is consulted where the policy short-circuits |
| AuthTypes.StatusClasses | src/error.rs:119-129 | 401 is for missing and wrong credentials alone, 400 and 403 for unreadable and insufficient ones, 302 for redirects, 5xx for the service |
| AuthChains.FirstClaimDecides | src/authenticator.rs:188-194 | the outcome depends on the first claiming verdict alone |
| AuthChains.FailsClosed | src/authenticator.rs:114-120 | after a refusal nothing registered later changes the answer, on protected and public scopes, wherever mechanisms are consulted |
| AuthChains.PermutationAgrees | src/authenticator.rs:188-201 | if all claimants agree, every permutation of the verdicts gives the same outcome, on public and protected scopes |
| AuthChains.OrderIsIrrelevantIff | src/authenticator.rs:114-120 | registration order is irrelevant exactly when all claimants agree |
| AuthChains.AnonymousIff | src/gateway.rs:76-94 | exactly when a request passes anonymously; never on a protected scope |
| AuthChains.TurnedAwayIff | src/gateway.rs:76-94 | a caller gets exactly the error, redirects included, of a first claimant that failed, or is unauthenticated where nobody claims on a protected scope |
| AuthChains.PrincipalIff | src/gateway.rs:76-94 | a principal is let in exactly if the first claimant resolved it |
| BearerShapes.CompactJwsIff | src/mechanisms/bearer.rs:24-32 | the shape test in characters: two dots, none leading, trailing or adjacent |
| BearerShapes.PrefixOverlapsIff | src/mechanisms/bearer.rs:16-32 | some key with the prefix looks like a JWS exactly if the prefix has at most two dots, none leading, no two adjacent |
| Sessions.SessionAuthenticator.Challenge | src/mechanisms/session.rs:67-85 | redirect into the login flow, or the fallback, with the destination built from path and query |
| Sessions.SessionAuthenticator.Authenticate | src/mechanisms/session.rs:94-136 | the verdict by cookie, codec, verification and conversion |
| Sessions.RedirectsIff | src/mechanisms/session.rs:60-85 | a redirect is issued exactly for a challenged GET with a login flow and an acceptable page, which is the path and, behind a question mark, the query |
| Sessions.RedirectCarries | src/mechanisms/session.rs:67-85 | the redirect carries the state, the nonce and the challenge of one new attempt, sets its protection cookie with that page, and clears the session |
| Sessions.LetInIff | src/mechanisms/session.rs:94-130 | a user is let in exactly if the cookie decodes, its token is verified and its claims convert to that user |
| Sessions.RefusedIff | src/mechanisms/session.rs:94-136 | every other error: the fallback where no login can begin, a refused page, a failure that is not a 401, claims that do not convert |
| Sessions.VerbatimSessions | src/oidc/session.rs:45-58 | with the verbatim codec the cookie is the token judged, and an empty one is challenged like none at all |
| Sessions.LocalPagesAreAccepted | src/mechanisms/session.rs:75-79 | a local path with its query is always an acceptable destination |
| Claimants.ClaimDomains | src/mechanisms/session.rs:98-110 | each of the four mechanisms claims exactly its own requests, whatever anybody answers |
| Claimants.BearerIff | src/mechanisms/bearer.rs:61-84 | a JWS-shaped bearer token lets in whom the provider and the application accept, and otherwise yields the provider's error or an internal one |
| Claimants.ContestedIff | README.md:67-71 | two mechanisms claim a request exactly if it carries a cookie and a claimed credential, or a prefixed JWS-shaped token |
| Claimants.OrderDoesNotMatter | README.md:67-71 | every other request gets the same outcome in every registration order, policy and scope |
| Claimants.OrderMattersIff | README.md:67-71 | for a codec that can carry any token: no order matters for a request, whatever the value of its session cookie and whatever the provider makes of ID tokens, exactly if it is not ambiguous |
| Claimants.AmbiguousCanMatter | README.md:67-71 | for every ambiguous request a value of the session cookie and a provider with which the order matters |
| Claimants.SameTokenDoesNotMatter | src/mechanisms/session.rs:117-130 | one ID token both in the cookie and as the bearer token, without a login flow, gives the same outcome in every order |
| Claimants.VerbatimCodecCarriesAnyToken | src/oidc/session.rs:45-58 | the codec that stores the token verbatim carries every non-empty token |
| Claimants.AbsentCredentialIsTheSessions | src/mechanisms/session.rs:21-26 | a request without a credential gets the session mechanism's answer in every order |
| RedirectPolicies.PrefixTestIsParsing | src/oidc/login.rs:86-95 | for an entry with an authority, the prefix test accepts a URL exactly if it parses to that scheme and authority |
| RedirectPolicies.PrefixTestIsParsingIff | src/oidc/login.rs:83-95 | the prefix test is parsing, for all URLs, exactly if the entry has an authority |
| RedirectPolicies.EmptyAuthorityIsCutBack | src/oidc/login.rs:87 | trimming an entry without an authority leaves the scheme and its colon |
| RedirectPolicies.EmptyAuthorityAcceptsAnother | src/oidc/login.rs:86-95 | such an entry accepts a URL with another authority |
| RedirectPolicies.ParsesToIff | src/oidc/login.rs:88-93 | a URL parses to an origin exactly if it starts with its text and ends there or at a delimiter |
| RedirectPolicies.AcceptedIff | src/oidc/login.rs:44-81 | a destination is accepted exactly if it has no control character and is a local path or parses to a listed origin |
| RedirectPolicies.RefusedFor | src/oidc/login.rs:44-81 | a control character is refused first, then `//` and `/\` at the start, then what the policy does not list |
| LoginFlows.FromQuery | src/oidc/login.rs:165-195 | the last value of each parameter counts, an error wins, and code and state are both needed |
| LoginFlows.LastValueIff | src/oidc/login.rs:165-195 | the value taken for a name is that of its last occurrence, and none if there is none |
| LoginFlows.AuthorizeSends | src/oidc/login.rs:266-312 | a refused destination begins nothing; every other attempt sends its state, nonce and, with PKCE, the transform of its verifier, and stores them with the verifier and the destination in the protection cookie |
| LoginFlows.CompleteIff | src/oidc/login.rs:320-385 | a callback is completed exactly if it reports no error, fits a cookie that decodes, its code yields with the cookie's verifier a token that is verified and has the cookie's nonce, and the session encodes |
| LoginFlows.RefusedUnasked | src/oidc/login.rs:324-350 | a denial is unauthenticated and another report of the issuer upstream; a missing, unreadable or foreign cookie is unauthenticated |
| LoginFlows.RefusedAsked | src/oidc/login.rs:352-385 | after that the first failure of exchange, ID token, verification, nonce and encoding is the answer |
| LoginFlows.BeginKeepsInv | src/oidc/login.rs:266-312 | beginning an attempt keeps secrets distinct, cookies faithful and destinations valid |
| LoginFlows.FinishKeepsInv | src/oidc/login.rs:320-385 | finishing keeps every login checked: cookie, state, destination and the nonce of its code's request agree, and its token was verified |
| LoginFlows.RunKeepsInv | src/oidc/login.rs:266-385 | so does every run |
| LoginFlows.LoginIsBoundToOneAttempt | src/oidc/login.rs:97-115 | a login on a cookie from `authorize` used the state, verifier and nonce of exactly one attempt and a verified token, and leads to its destination, which the policy accepts |
| LoginFlows.ForgedCallbackAsksNobody | src/oidc/login.rs:325-348 | a callback that reports an error or does not fit the cookie fails before its code is sent anywhere |
| LoginFlows.HonestCallbackCompletes | src/oidc/login.rs:340-384 | a callback with the state of an attempt, its cookie and a code for its request yields the token's session and the attempt's destination |
| LoginCookies.AuthorizeLeavesProtection | src/oidc/login.rs:303-311 | after `authorize` the jar holds this attempt's protection cookie and no session |
| LoginCookies.CompleteLeavesSession | src/oidc/login.rs:375-384 | after `complete` the jar holds the session of the token exchanged and not the protection cookie |
| LoginCookies.ReplayIsRefusedIff | src/oidc/login.rs:378-383 | a replayed callback is refused before any exchange exactly if the callback's page clears the protection cookie under the identity the browser has it, or that cookie has expired |
| LoginCookies.HonestLoginSucceedsIff | src/oidc/login.rs:320-385 | a browser that comes back from the issuer of its own request is logged in exactly if the protection cookie has not expired, and keeps no protection cookie exactly if both pages give it one identity |
| CredentialParsing.ParseBasicIff | src/credential.rs:92-116 | the parser accepts exactly the canonical rendering of an id without a colon and a secret |
| CredentialParsing.MalformedIff | src/credential.rs:92-116 | the three reasons: no bytes render to the parameter, none that are text, or text without a colon |
| CredentialParsing.ReadAsIff | src/credential.rs:72-91 | exactly which headers are read as a bearer token, as another scheme's text, by the Basic parser, or as no credential |
| CredentialParsing.WhitespaceIff | src/credential.rs:73 | white space is 25 code points |
| Strings.LettersAreLowered | src/credential.rs:82 | lowering changes the 26 capital letters of ASCII and nothing else |
| CredentialParsing.BasicRoundTrip | src/credential.rs:72-116 | every rendering is read back, each letter of the scheme in either case, with any spaces and tabs around it |
| CredentialParsing.BearerRoundTrip | src/credential.rs:72-91 | so is every token without white space at its ends |
| CredentialParsing.AcceptedIff | src/credential.rs:72-116 | a header is read as a pair exactly if it carries the canonical rendering of that pair |
| CredentialParsing.RenderingIsInjective | src/credential.rs:92-116 | no parameter stands for two pairs |
| Base64.DecodeEncode | src/credential.rs:102-104 | decoding gives back what was encoded |
| Base64.EncodeDecode | src/credential.rs:102-104 | only the canonical text decodes |
| Base64.Alphabet | src/credential.rs:102 | the digits are those of Table 1 of RFC 4648 |
| Base64.GroupsAreNumbers | src/credential.rs:102-104 | three bytes are one number of four digits |
| Base64.LastGroupIsNumber | src/credential.rs:102-104 | one or two bytes at the end are padded with zero bits and `=` |
| Utf8.TextOfBytes | src/credential.rs:105-107 | UTF-8 decoding gives back the text that was encoded |
| Utf8.BytesOfText | src/credential.rs:105-107 | only well-formed bytes decode, each text has one encoding |
| Utf8.Rfc3629Examples | src/credential.rs:105-107 | characters of one, two, three and four bytes are encoded as in section 7 of RFC 3629 |
| CookieHeaders.Display | src/cookie.rs:103-126 | writing piece by piece gives the name, the value and the attributes in order |
| CookieHeaders.PrintedRoundTrip | src/cookie.rs:103-126 | a user agent reads back name, value and every attribute of a directive without delimiters |
| CookieHeaders.AttributesRecovered | src/cookie.rs:103-126 | and from them path, domain, whole seconds, both flags and `Strict`, `Lax` or `None` |
| CookieJars.SetStores | src/oidc/session.rs:145-153 | a set header stores the value for whole seconds under the settings' identity |
| CookieJars.ProtectionsAreSent | src/oidc/session.rs:140-162 | both headers are always HttpOnly and carry the configured secure flag and same-site rule |
| CookieJars.DefaultsAreProtective | src/cookie.rs:37-60 | a directive from a name alone is HttpOnly, Secure and Lax, for this host and session; the one that clears ends at once |
| CookieJars.ClearRemoves | src/oidc/session.rs:156-162 | a clear header removes that identity and nothing else |
| CookieJars.ClearCancelsSetIff | src/oidc/session.rs:140-162 | clearing undoes setting exactly if the path starts with a slash, or the default paths agree, or the lifetime is below a second |
| CookieJars.SetThenClearLeavesTheRest | src/oidc/session.rs:140-162 | other cookies are not touched |
| CookieJars.CompletedLoginCookiesIff | src/oidc/login.rs:375-384 | after a completed login the jar holds the session and not the protection cookie exactly if their identities differ and the session lasts a second |

## Left out

- HTTP, discovery, JWKS parsing, signatures, token endpoints: functions or steps that answer anything, succeed, fail or never return.
- BLAKE3 and constant-time comparison: a function assumed to tell apart the secrets presented in a run (`NoCollision`), and equality; nothing is said about timing.
- JSON and form encoding, and randomness: a codec assumed to give back what it encoded (`FaithfulCodec`), decoded query pairs, and fresh distinct secrets (`FreshSecrets`).
- Authorization requests made elsewhere: assumed unable to carry a nonce they never saw (`Plausible`).
- OidcProviderObject.OidcProvider.Refresh: what other calls do while this one waits arrives as a parameter; `RefreshProtocol` has all interleavings.
- RefreshProtocol.StepKeepsInv: atomic steps at lock, swap and clock-reading granularity; poisoned locks and memory ordering are not modelled.
- SharedCaching.EventKeepsInv: draws of ticks and sections under the lock are atomic, so two hits under the read lock run one after the other; the clock stays below 2^64, though `CredentialCaching.CredentialCache.Tick` wraps.
- CacheHistory.HistoryKeepsInv: fewer than 2^64 operations, for the same reason.
- ApiTokens.CachedAnswersAreSound: the wall clock of `expires_at` and the monotone clock of the cache are one clock, and adding a lifetime to an instant does not overflow.
- An issuer that refuses a code used before: the assumed issuer (`TokenEndpoint`) takes a code as often as it is presented, and a refusal changes nothing.
- LoginFlows.LoginIsBoundToOneAttempt: the request builder and the requested scopes, which are rebound values without branching, are folded into `RequestFor`.
- CookieJars.SetStores: the public-suffix check, cookie prefixes and eviction by the browser are not part of this model.
- LoginCookies.HonestLoginSucceedsIff: whether the browser sends the protection cookie with the callback, by its path and its same-site rule, is not modelled; expiry is.
- Claimants.OrderDoesNotMatter: for one mechanism of each of the four kinds, with the remote answers of one moment fixed.
- Constructors and setters, `from_json`, `src/env.rs`, `src/builder.rs`, `src/oidc/config.rs`, `src/oidc/metadata.rs`, `src/claims.rs`, client messages: how values are configured, read and labelled before the engine runs.
- `src/mechanisms/introspection.rs`: one kind of validator, abstract here.
- `src/mechanisms/disabled.rs`, `src/scope.rs`, `src/request.rs`, `src/adapters`, logging and `Debug`: a fixed principal, the shape of scopes and requests, and the frameworks' types on either side of the engine.
- Dropping a request that waits for its cache lock: the lock is never held across an await, so a dropped request is one dropped while it asks.
