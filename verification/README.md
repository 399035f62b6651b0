# A verified model of Rauthy's token and login protocols

Rauthy is an OpenID Connect provider. This project models the part of it that lives over time: authorization
codes and the sessions they promote, refresh tokens and their rotation, the device authorization grant together
with its polling client, signing keys with their rotation, caches and clean-up, the delay of login answers, the
public-key worker of the client library, the nightly password warnings, and two small algorithms, base64url and the
teaser of the documentation search.

Every protocol is a state with a `Step` type, a function `Apply` that says what a step does, and `Exec`, the state
after the first n steps of a run. The source updates records and tables in place, so each protocol also has a class
with the same fields, whose methods follow the handlers branch by branch and are proved to compute exactly `Apply`
and the handler's answer. The results about runs are proved about `Exec` for every run and every point of it. History
variables (what was issued, spent, asked, answered) record what has happened; no handler reads them.

| file | models |
|---|---|
| `Wrappers.dfy`, `Text.dfy` | optional values, powers of two, splitting of text |
| `Base64.dfy` | the two alphabets, the character filter, the strict decoder, the encoding bit by bit |
| `AuthCodes.dfy` | login, session renewal, upstream login, code redemption, sessions in table and cache |
| `AuthAnswers.dfy` | which answer a login, a renewal or a redemption gets, and second factors, over runs |
| `Sessions.dfy` | one session's table row and cache entry over runs: when an ended or logged-out session lets somebody in |
| `AuthRuns.dfy` | runs in which a session comes back or a redemption aborts |
| `RefreshTokens.dfy`, `RefreshRuns.dfy` | issue, rotation with a grace window, reuse detection, clean-up; a run in which reuse goes unnoticed |
| `RefreshAnswers.dfy` | which answer an exchange gets, what is stored, and how a user's tokens are ended |
| `DeviceGrant.dfy` | request, decision and polling (RFC 8628) |
| `DeviceRecords.dfy` | how long the record of a device code lasts, when exactly a poll gets tokens, and a client that does not wait |
| `DeviceScopes.dfy` | the scope check of the device endpoint |
| `DeviceClient.dfy` | the waiting loop of the client library, alone and against the server |
| `KeyScan.dfy`, `SigningKeys.dfy` | the clean-up scan on any key table; rotation, caches, signing, lookups over runs |
| `LoginDelay.dfy` | the running mean, the failure counters, the ladder of penalties and blocks |
| `ClientJwks.dfy` | mailbox, key list and timed negative cache of the client library |
| `JwksAnswers.dfy` | which answer a Get gets at any point of any run |
| `ExpiryWarnings.dfy` | the windows of the nightly warning |
| `Teaser.dfy` | weighing, the weights by place in the text, sliding window and marking of search teasers |

Assumptions. A request is one atomic step, since a lookup and its save are separate calls without a lock in the
source. Clocks never run backwards. Random ids and tokens are new. Queries return rows with equal sort keys in the
order of insertion. A signed token carries the claims it was signed with and cannot be forged. Digests, password
checks, DPoP validation, origin and redirect checks are parameters. Cache entries, the login time among them, may
disappear at any step. The workspace is built with `panic = "abort"` (Cargo.toml:19-26), so a request that panics
(the answer `Aborted`) ends the process; what this does to its caches are `EvictSession`, `EvictCode` and `Evict`
steps, which may come at any time, and the tables stay as the model has them. The failure counters live in memory: a
run of the login delay lies within one life of the process. The client library is not part of that workspace
(Cargo.toml:12): there a panic ends the worker's task and drops its mailbox.

What the code does where its comments or documentation say something else; the model follows the code:

- `find_latest` sorts ascending and takes the first row, so it returns the oldest key. A rotation therefore changes
  the signing key only for an algorithm that had none (`SavedKeySignsIff`,
  `RotationTakesEffect`), while the endpoint's documentation
  (rauthy-handlers/src/oidc.rs:617-622) says that new tokens use the new keys. The comment of the clean-up calls the
  first row the latest; it is the oldest too, and so keys that sign are never cleaned up, for any token lifetime.
- A logout writes the table and removes an entry from a cache that lookups do not read, so the next lookup still finds
  the session as it was (`LogoutNotSeenAtFirst`). The first request that comes more than 10 s after the session was
  last seen writes the cached copy back, and the logout is lost (`LogoutSticksIff`, `LogoutIsUndone`); it takes
  effect if the cache loses its copy before that (`LogoutTakesEffect`).
- Ending the sessions of a user sets their expiry to the present even if they had expired, and a session is valid up
  to and including its expiry. An ended session is therefore let in again in every second in which the user's sessions
  are ended once more (`EndedSessionEntersIff`, `EndingTwiceLetsIn`), as the job for expired users does in each run
  (rauthy-main/src/schedulers.rs:409).
- Ending all sessions looks at the table only and skips rows that have expired. A session whose cached copy outlives
  its row is therefore not ended (`EndingAllReachesIff`), and a logout makes it one: whoever logs out first is let in
  right after all sessions have been ended (`LogoutOutlivesEndAll`).
- Session renewal accepts a challenge without a method, treating it as "plain" or not checking it at all. The timely
  redemption of such a code with a verifier panics (`RedemptionAbortsIff`, `RedemptionCanAbort`), and no other codes
  do (`AbortsOnlyAfterRenewal`). With `panic = "abort"` it ends the process.
- After a declined device request the device is told expired_token, not the access_denied of RFC 8628 section 3.5
  (`AfterDecline`). The third early poll deletes the record and writes it back, so that access_denied is not final: a
  later poll gets tokens under the same conditions as for any other code (`DeniedCodeSucceedsIff`). The warning
  counter is a byte that wraps around: from the 256th early poll on three more are told slow_down
  (`WarningsWrapAround`).
- Reuse of a refresh token is noticed only while its row exists; the clean-up job deletes expired rows, after which a
  late presentation is just "not found" (`LateReuseDetectedIff`, `ReuseAfterCleanUpGoesUnnoticed`). Refresh tokens
  handed to devices are never accepted (`DeviceTokensNeverExchanged`).
- Login answers for unknown e-mail addresses are not delayed (`RefusalDelayedIff`), although the delay's comment
  gives username enumeration as its purpose.
- The scope check of the device endpoint is a substring test on the list of registered scopes as one text: it lets
  through any fragment of a registered scope (`FragmentsAreAllowed`, `UnregisteredFragmentPasses`), and is exact only
  for clients all of whose scopes' fragments are registered themselves (`ScopeCheckExactIff`).
- The published key set can lack a key that signs only if it was cached before that key was saved
  (`PublishedSetShowsSignerIff`), and only on a key table that lacked an algorithm to begin with
  (`PublishedAlwaysCoversIff`). The initialisation stores a key of every algorithm before the first request
  (rauthy-models/src/app_state.rs:249-253, rauthy-models/src/migration/db_migrate.rs:129-322), so a seeded table never
  shows this (`PublishedSetCoversSigners`), nor does a rotation ever change one of its signing keys
  (`SeededKeysSignForEver`). `MissingAlgorithmHidesSigner` is the case of an initialisation that broke off between its
  saves.
- An asker of the client library's key worker that goes away makes it panic (`AliveIffAllWaiting`). Everybody who is
  waiting then, or asks later, gets an error (`OnlyClosedAfterPanic`, `AbandonedGetCloses`), so that each asker that
  waits still gets exactly one answer (`EveryGetAnsweredOnce`).
- Expiry warnings come exactly once for everybody only with runs exactly a day apart (`EverybodyOnceIffDaily`).

## Model

| member | source | states |
|---|---|---|
| Base64.UrlEncodeIsNoPad | rauthy-common/src/utils.rs:73-90 | for every byte string, filtering the padded standard encoding gives the unpadded URL-safe encoding |
| Base64.DecodeOfEncode | rauthy-common/src/utils.rs:87-110 | the strict unpadded decoder inverts the encoder |
| Base64.EncodeOfDecode | rauthy-common/src/utils.rs:102-110 | the decoder accepts nothing but encodings: what it reads, re-encoded, is the text it was given |
| Base64.UrlEncodeInjective | rauthy-common/src/utils.rs:73-86 | two byte strings have the same text exactly when they are equal, so comparing texts compares digests |
| Base64.DecodesIffSpells | rauthy-common/src/utils.rs:73-110 | a text decodes to some bytes, and is their encoding, exactly when its k-th character is the one at the place in the RFC 4648 section 5 alphabet that the k-th six bits of the bytes spell, zero bits filling up the last |
| AuthCodes.LoginSucceedsIff | rauthy-service/src/auth.rs:65-194 | whatever the order of the checks, a login gets a code exactly when user, authentication, account, client, redirect, challenge and origin all qualify |
| AuthCodes.RefusalDelayedIff | rauthy-service/src/auth.rs:72-172 | exactly which refusals ask for a delay |
| AuthAnswers.LoginRefusals | rauthy-service/src/auth.rs:65-194 | for each of the ten refusals of a login, the input that gets it; MfaRequired exactly when all before it is in order, the client other than "rauthy" forces a second factor and the user has no passkey |
| AuthAnswers.LoginAnswers | rauthy-service/src/auth.rs:65-244 | with a usable session, LoggedIn and AwaitWebauthn exactly for those who may log in without and with a passkey |
| AuthCodes.RenewalSucceedsIff | rauthy-service/src/auth.rs:248-330 | the renewal's checks pass exactly for an enabled, unexpired user of the session, with a passkey where the client forces one, right redirect and origin, and a method that the client allows, "plain" where none is named |
| AuthAnswers.RenewalRefusals | rauthy-service/src/auth.rs:248-280 | for each of the nine refusals of a renewal, the input that gets it |
| AuthAnswers.RenewalAnswers | rauthy-service/src/auth.rs:248-330 | success exactly for an authenticated session that may be renewed, waiting for the second factor only if configured |
| AuthCodes.UpstreamSucceedsIff | rauthy-models/src/entity/auth_providers.rs:880-988 | an upstream login gets a code exactly for an enabled, unexpired user, with the provider's second factor or a passkey where one is forced, right redirect, origin and challenge |
| AuthAnswers.UpstreamRefusals | rauthy-models/src/entity/auth_providers.rs:880-930 | for each refusal of an upstream login, the input that gets it |
| AuthAnswers.UpstreamAnswers | rauthy-models/src/entity/auth_providers.rs:880-988 | the answer of an upstream login to a user with a usable session |
| AuthAnswers.EveryCodeHasItsFactor | rauthy-models/src/entity/clients.rs:660-666 | in every run each code of a forcing client other than "rauthy" belongs to a user with a passkey, or to an upstream login with the provider's own second factor |
| AuthCodes.PasswordlessAwaitsWebauthn | rauthy-service/src/auth.rs:102-106 | a login without a password is never finished without the second factor |
| AuthCodes.AuthServer.SessionFromCookie | rauthy-handlers/src/middleware/principal.rs:117-155 | lookup, validity and refreshed last-seen time of a request's session |
| AuthCodes.AuthServer.Authorize | rauthy-service/src/auth.rs:65-244 | the whole new state and answer of a login, error by error, with the delay flag |
| AuthCodes.AuthServer.AuthorizeRefresh | rauthy-service/src/auth.rs:248-330 | the whole new state and answer of a session renewal, with the request checks in front of it and the second factor asked for if configured |
| AuthCodes.AuthServer.LoginFinish | rauthy-models/src/entity/auth_providers.rs:880-988 | the whole new state and answer of an upstream login, the session being marked before redirect, challenge and origin are checked |
| AuthCodes.AuthServer.CheckTheCode | rauthy-service/src/auth.rs:894-1003 | the refusals of a redemption in order, including the panic on a challenge without a method |
| AuthCodes.AuthServer.GrantTypeCode | rauthy-service/src/auth.rs:889-1046 | the whole new state of a redemption: session promoted and given the user, expiry capped by the user's, code deleted; or what a failure leaves |
| AuthCodes.AuthServer.PostLogout | rauthy-models/src/entity/sessions.rs:590-614 | a logout updates the table only |
| AuthCodes.AuthServer.InvalidateForUser | rauthy-models/src/entity/sessions.rs:324-356 | the loops that end all sessions of a user and drop them from the cache |
| AuthCodes.AuthServer.InvalidateAll | rauthy-models/src/entity/sessions.rs:294-321 | the loops that end all sessions whose row is live and drop them from the cache |
| AuthCodes.DigestComparison | rauthy-service/src/auth.rs:986-1002 | for every method but plain, a verifier passes exactly when the challenge decodes to its SHA-256 digest |
| AuthCodes.PlainComparison | rauthy-service/src/auth.rs:977-984 | for "plain", a verifier passes exactly when it equals the challenge |
| AuthCodes.VerifierCheckedIff | rauthy-service/src/auth.rs:968-1003 | which verifiers pass for any code: any for one without a challenge, none for one without a method |
| AuthCodes.ExecKeepsInv | rauthy-service/src/auth.rs:182-1038 | in every run: stored codes are unspent and as issued; authenticated sessions, in table and cache, belong to the user of the code redeemed last for them |
| AuthCodes.RedemptionPromotes | rauthy-service/src/auth.rs:1021-1038 | a redemption leaves the code's session authenticated for its user in table and cache, living no longer than before or than the user |
| AuthCodes.RedemptionIsSound | rauthy-service/src/auth.rs:943-1038 | a successful redemption is for an issued, unspent code, by its client, in time, for its user; if the code has a challenge, the verifier equals it (plain) or has the digest it decodes to (any other method) |
| AuthAnswers.RedemptionSucceedsIff | rauthy-service/src/auth.rs:889-1046 | in every run, at any time after its issue, a code yields tokens exactly when it is unspent and not evicted, presented in time by its client with the right verifier, its user has a second left, its session is known and the database does not fail |
| AuthAnswers.CodeStoredIff | rauthy-service/src/auth.rs:943-953 | a code is stored from its issue on exactly until it is redeemed or evicted |
| AuthAnswers.CodeRefusals | rauthy-service/src/auth.rs:894-1003 | for each refusal that concerns the code itself, the input that gets it |
| AuthAnswers.UserRefusals | rauthy-service/src/auth.rs:1006-1046 | the same for user, lifetime, database and session, once the code is in order |
| AuthAnswers.RefusedRedemptionChangesNothing | rauthy-service/src/auth.rs:889-1046 | a redemption without tokens leaves codes, sessions and history as they were |
| AuthCodes.RedeemedAtMostOnce | rauthy-service/src/auth.rs:943-1038 | no code is redeemed twice in any run |
| AuthCodes.CodeHasOrigin | rauthy-service/src/auth.rs:182-194 | every code of a run was issued by one earlier step that vouched for its user, client, session and challenge |
| AuthCodes.NewCodeIsVouched | rauthy-models/src/entity/auth_providers.rs:880-930 | what each of the three ways of issuing a code has made sure of |
| AuthCodes.S256ClientsNeedTheDigest | rauthy-models/src/entity/clients.rs:748-812 | a client that allows S256 only gets tokens only against a verifier whose digest its challenge spells |
| AuthCodes.RedemptionAbortsIff | rauthy-service/src/auth.rs:943-978 | a redemption panics exactly when the right client presents a stored code in time, with a verifier, whose challenge has no method |
| AuthRuns.RedemptionCanAbort | rauthy-service/src/auth.rs:1926-1942 | runs that reach the panic: login, renewal with a challenge and no method, redemption with any verifier |
| AuthCodes.AbortsOnlyAfterRenewal | rauthy-service/src/auth.rs:1926-1942 | in every run a code whose redemption panics was issued by the renewal of a session, for a client without challenges or one that allows "plain" |
| AuthCodes.MethodlessCodesAreUseless | rauthy-service/src/auth.rs:968-978 | such a code never yields tokens in any run |
| AuthCodes.SessionsFollowCodes | rauthy-service/src/auth.rs:1021-1038 | wherever an authenticated session is found, a code issued for that very session was redeemed, and the session carries the user of the last one |
| AuthCodes.LogoutSeenIff | rauthy-models/src/entity/sessions.rs:142-174 | directly after a logout's table update a lookup shows it exactly when the session is not cached |
| AuthCodes.LogoutNotSeenAtFirst | rauthy-handlers/src/oidc.rs:590-596 | a logout request itself fills the cache, so the next lookup finds the session unchanged |
| Sessions.SessionEvolves | rauthy-models/src/entity/sessions.rs:142-174 | whatever a step does, to one session it is one of ten events, and its two copies depend on nothing else |
| Sessions.EndedSessionEntersIff | rauthy-models/src/entity/sessions.rs:324-356 | in every run, with anything in between, an ended session is let in at a later second exactly when its user's sessions are ended again in that second and it has not timed out |
| Sessions.OnlyEndingRevives | rauthy-models/src/entity/sessions.rs:623-634 | the same from any point at which all copies of the session have expired |
| AuthRuns.EndingTwiceLetsIn | rauthy-main/src/schedulers.rs:400-412 | runs in which an ended session is refused, ended again, and let in authenticated |
| Sessions.EndingForUserReaches | rauthy-models/src/entity/sessions.rs:324-356 | ending the sessions of a user sets the expiry of each to the present, drops it from the cache, and touches no other |
| Sessions.EndingAllReachesIff | rauthy-models/src/entity/sessions.rs:294-321 | ending all sessions ends every copy of a session exactly unless a live cached copy outlives its row |
| Sessions.AllEndedEntersIff | rauthy-models/src/entity/sessions.rs:294-321 | in every run, after that such a session is let in exactly in a second in which its user's sessions are ended again |
| Sessions.LogoutOutlivesEndAll | rauthy-models/src/entity/sessions.rs:294-321 | from every state in which a session is let in, logging out and ending all sessions leaves it let in |
| Sessions.LogoutSticksIff | rauthy-models/src/entity/sessions.rs:590-614 | the table goes on showing a logout exactly as long as no request refreshes or marks the cached copy and no code for the session is redeemed |
| Sessions.LogoutTakesEffect | rauthy-models/src/entity/sessions.rs:590-634 | if the cache loses its copy before that, nobody is let in from the next second on, but for a repeated ending |
| AuthRuns.LogoutIsUndone | rauthy-handlers/src/middleware/principal.rs:127-141 | runs in which a visit after the logout writes the cached session back, so that it is let in even after the cache has lost it |
| RefreshTokens.TokenStore.BuildRefreshToken | rauthy-service/src/auth.rs:583-636 | the row stored for a new token: suffix of 49 characters, user, times, scope, table by device or not |
| RefreshTokens.TokenStore.TokenSetFromUser | rauthy-service/src/token_set.rs:190-260 | lifetime capped by the user's expiry, refused for a user about to expire, refresh token only for clients that have them |
| RefreshTokens.TokenStore.ValidateRefreshToken | rauthy-service/src/auth.rs:1949-2086 | the whole new state and answer of an exchange, including revocation on late reuse |
| RefreshTokens.TokenStore.CleanUpExpired | rauthy-main/src/schedulers.rs:452-479 | deletes exactly the expired rows |
| RefreshAnswers.ExchangeSucceedsIff | rauthy-service/src/auth.rs:1949-2086 | at any point of any run an exchange yields tokens exactly for a signed refresh token of this client with the proof it is bound to, a stored row with exp not before now, and a user who is found, enabled and has a second left; exactly the disabled, unknown or expired user is refused, and then nothing changes |
| RefreshAnswers.ClaimRefusals | rauthy-service/src/auth.rs:1956-2017 | for each refusal before the table is read, the input that gets it |
| RefreshAnswers.RowRefusals | rauthy-service/src/auth.rs:2019-2086 | for each outcome after that, the row and the user that get it |
| RefreshAnswers.RefusalKeepsState | rauthy-service/src/auth.rs:1949-2042 | every refusal but a detected reuse and an expired user leaves the state as it was |
| RefreshAnswers.ExchangeStores | rauthy-service/src/auth.rs:2047-2084 | exactly two rows change: the used one is cut to the grace time, the new one has the user, scope and times it should |
| RefreshAnswers.LoginStores | rauthy-service/src/auth.rs:583-636 | the row of a login's token, in the table for browsers or for devices |
| RefreshAnswers.LifetimeIs | rauthy-service/src/token_set.rs:190-215 | the access token's lifetime: the client's, capped by the user's expiry, none for a user about to expire |
| RefreshAnswers.EndedTokensAreRefused | rauthy-models/src/entity/refresh_tokens.rs:59-84 | in every run, from the second after a user's tokens, or all, have been ended, none of those is accepted |
| RefreshAnswers.OthersKeepTheirTokens | rauthy-models/src/entity/refresh_tokens.rs:69-84 | ending one user's tokens leaves those of others as they are |
| RefreshTokens.ExecKeepsInv | rauthy-service/src/auth.rs:593-636 | in every run: tokens have distinct suffixes, rows belong to the user of their token, children have their parent's claims |
| RefreshTokens.ExpiryNeverRises | rauthy-service/src/auth.rs:2049-2056 | a stored expiry never rises and a deleted row never comes back |
| RefreshTokens.RotationWindow | rauthy-service/src/auth.rs:2019-2056 | a token first exchanged at time t is never accepted after t + grace time + 1, however often it is used inside the window |
| RefreshTokens.ReuseRevokesAll | rauthy-service/src/auth.rs:2024-2035 | after a detected reuse no token the user had is accepted in any continuation |
| RefreshTokens.RowStoredIffNeverForgotten | rauthy-models/src/entity/refresh_tokens.rs:131-141 | a row is stored exactly as long as no clean-up after its expiry and no detection for its user has hit it |
| RefreshTokens.LateReuseDetectedIff | rauthy-service/src/auth.rs:2024-2035 | a late presentation revokes exactly when the row is still stored, and is "not found" otherwise |
| RefreshRuns.ReuseAfterCleanUpGoesUnnoticed | rauthy-main/src/schedulers.rs:468-473 | a run in which reuse after a clean-up goes unnoticed and the child token still works |
| RefreshTokens.DeviceTokensNeverExchanged | rauthy-service/src/auth.rs:2019-2022 | a refresh token handed to a device is never accepted |
| RefreshTokens.ChainBinding | rauthy-service/src/auth.rs:1979-2084 | down to any depth a token has user, client and DPoP thumbprint of its login |
| RefreshTokens.DescendantsStayBound | rauthy-service/src/auth.rs:1979-2017 | a descendant is accepted only from the client of the login, with its DPoP proof and for its user |
| RefreshTokens.IssuedTokenIsAccepted | rauthy-service/src/auth.rs:2020-2022 | the suffix stored at issue is the one looked up: a new token is accepted from its holder |
| DeviceGrant.DeviceServer.FindCode | rauthy-models/src/entity/devices.rs:187-211 | lookup by user code, deleting an expired record |
| DeviceGrant.DeviceServer.PostDeviceAuth | rauthy-handlers/src/oidc.rs:396-459 | a code is issued exactly to a known, enabled client with the flow, allowed scopes and the right secret; the client that gets each of the five refusals, among them one with a readable secret that differs from the one sent; refusals leave the state alone |
| DeviceGrant.DeviceServer.HandlePoll | rauthy-service/src/auth.rs:1113-1293 | the records and the answer after a poll, in the order of the source's checks, deletions and saves |
| DeviceGrant.DeviceServer.GrantTypeDeviceCode | rauthy-service/src/auth.rs:1113-1293 | a poll as one step of the protocol |
| DeviceGrant.DeviceServer.PostDeviceVerify | rauthy-handlers/src/oidc.rs:485-524 | accept, decline or ask, as one step |
| DeviceGrant.ExecKeepsInv | rauthy-service/src/auth.rs:1161-1287 | in every run each record agrees with what was observed of its code: last poll, warnings modulo 256, verifier, fixed lifetime |
| DeviceGrant.TokensOnlyAfterAccept | rauthy-service/src/auth.rs:1191-1281 | tokens go to the user of the latest Accept, in time, never after a Decline or an earlier grant |
| DeviceGrant.TokensAtMostOnce | rauthy-service/src/auth.rs:1230-1280 | a device code yields at most one token set |
| DeviceGrant.AfterDecline | rauthy-handlers/src/oidc.rs:514-517 | after a Decline every poll is refused as expired or not its own, never with access_denied |
| DeviceGrant.PollHistory | rauthy-service/src/auth.rs:1161-1189 | while nobody has accepted, each answer is determined by the times of the polls so far: on time, or by the count of early polls modulo 256 |
| DeviceRecords.StoredIffValid | rauthy-models/src/entity/devices.rs:130-211 | in its lifetime, in every run, a record is stored exactly as long as nobody has declined it, it is unspent and no step has lost it, and keeps client, secret and expiry of its request |
| DeviceRecords.TokensIff | rauthy-service/src/auth.rs:1113-1293 | in every run a poll gets tokens exactly when it comes in the lifetime of a code that was accepted, never declined, is unspent and not lost, with the id and secret of its request and without a fault; they are for the last accepting user and the scopes of the request |
| DeviceRecords.PollAnswers | rauthy-service/src/auth.rs:1113-1293 | in every run, what each poll in the lifetime of a code is told: foreign id, wrong secret, wait, fault; expired once the code is declined, spent or lost, unless another code has taken its place |
| DeviceRecords.PollRefusals | rauthy-service/src/auth.rs:1129-1160 | each answer by the record under the user code; expired_token exactly when there is none or it has expired |
| DeviceRecords.DecisionAnswers | rauthy-handlers/src/oidc.rs:485-524 | what a user's decision answers and changes |
| DeviceRecords.DeniedCodeSucceedsIff | rauthy-service/src/auth.rs:1177-1287 | whatever happens after a poll was told access_denied, a later poll gets tokens exactly when somebody has accepted since, nobody declined, and code, credentials, time and record are in order: access_denied is not final |
| DeviceRecords.WarningsWrapAround | rauthy-service/src/auth.rs:1161-1189 | of a client that never waits the n-th poll is told access_denied exactly when n modulo 256 is at least 3, so the 256th is told slow_down again |
| DeviceClient.PacedClientIsServed | rauthy-client/src/device_code.rs:204-257 | client, server and users together: a client that waits the interval is never slowed down or denied, and its wait stays the interval |
| DeviceClient.PacedClientStops | rauthy-client/src/device_code.rs:214-257 | such a client polls at most lifetime / interval + 1 times |
| DeviceClient.WaitForToken | rauthy-client/src/device_code.rs:214-257 | against any answers, each wait is the interval times 2 to the number of slow_down answers, and the loop stops at the first final answer |
| DeviceScopes.FragmentsAreAllowed | rauthy-handlers/src/oidc.rs:422-436 | a request without commas passes the scope check exactly when each of its parts is a fragment of some registered scope |
| DeviceScopes.UnregisteredFragmentPasses | rauthy-handlers/src/oidc.rs:425 | every non-empty fragment without spaces of any registered scope passes the check, registered or not |
| DeviceScopes.ScopeCheckExactIff | rauthy-handlers/src/oidc.rs:422-436 | over all texts without commas and without empty parts, the check admits registered scopes only exactly when every non-empty fragment without spaces of a registered scope is itself registered |
| Text.JoinOfSplit | rauthy-handlers/src/oidc.rs:423-424 | the parts of a split text hold no separator and join to the text |
| KeyScan.ScanForExpired | rauthy-main/src/schedulers.rs:588-601 | the loop over the ordered keys marks exactly the keys that are old and not the first of their algorithm |
| KeyScan.OrderByCreatedSorts | rauthy-main/src/schedulers.rs:569-571 | the ordered query is a sorted permutation of the table |
| KeyScan.QueryLatestIsFirst | rauthy-models/src/entity/jwk.rs:527-539 | the newest-key query returns the first, that is the oldest, key of the algorithm |
| KeyScan.FirstIsOldest | rauthy-models/src/entity/jwk.rs:534-539 | no key of the algorithm is older than the one returned |
| KeyScan.CleanupSurvivors | rauthy-main/src/schedulers.rs:564-622 | a key survives exactly when it is the first of its algorithm or not older than the cutoff |
| KeyScan.CleanupKeepsFirst | rauthy-main/src/schedulers.rs:588-601 | no algorithm loses its first, hence not its last key |
| KeyScan.NewestSurvives | rauthy-main/src/schedulers.rs:564-567 | the newest key survives when it is younger than the retention time |
| KeyScan.CleanupIdempotent | rauthy-main/src/schedulers.rs:588-620 | at a fixed time a second scan deletes nothing |
| SigningKeys.CleanupLeaves | rauthy-main/src/schedulers.rs:564-622 | at any point of any run a clean-up deletes exactly the keys older than 90 days that are not the first of their algorithm, except those whose deletion fails, and a cached key exactly with its row |
| SigningKeys.KeyStore.SaveKey | rauthy-service/src/auth.rs:1759-1830 | one saved key of a rotation |
| SigningKeys.KeyStore.RotateJwks | rauthy-service/src/auth.rs:1753-1872 | four saves and five cache deletions, stopping at any failing one |
| SigningKeys.KeyStore.Sign | rauthy-service/src/auth.rs:1874-1905 | signs with the read-through newest-key lookup, filling its cache |
| SigningKeys.KeyStore.Find | rauthy-models/src/entity/jwk.rs:476-505 | read-through lookup by key id |
| SigningKeys.KeyStore.FindPk | rauthy-models/src/entity/jwk.rs:155-190 | read-through published key set |
| SigningKeys.KeyStore.DeleteKeys | rauthy-main/src/schedulers.rs:603-620 | deletes rows and cache entries one by one; failures leave theirs |
| SigningKeys.KeyStore.JwksCleanup | rauthy-main/src/schedulers.rs:564-622 | scan and deletions as one step |
| SigningKeys.ExecKeepsInv | rauthy-service/src/auth.rs:1753-1905 | in every run, also inside a rotation: the table is in order of creation, and what the caches and past signers hold is accounted for in the table |
| SigningKeys.CachesAgreeWithDatabase | rauthy-service/src/auth.rs:1832-1862 | at every point of every run the newest-key lookup agrees with the database for all algorithms, and a cached key by id is stored unless its cache deletion failed |
| SigningKeys.SigningKeyIsFixed | rauthy-models/src/entity/jwk.rs:509-551 | once an algorithm has a signing key, that key signs for ever |
| SigningKeys.SavedKeySignsIff | rauthy-models/src/entity/jwk.rs:509-551 | at any time after a key was saved, in any run, it is the signing key exactly when no key of its algorithm was stored before |
| SigningKeys.RotationTakesEffect | rauthy-service/src/auth.rs:1753-1862 | a rotation interleaved with any other requests changes the signing key of exactly those algorithms that had none |
| SigningKeys.SigningKeysStayAvailable | rauthy-main/src/schedulers.rs:564-622 | every key that ever signed is still stored and found by id after any run, for any token lifetime |
| SigningKeys.PublishedSetShowsSignerIff | rauthy-models/src/entity/jwk.rs:155-190 | in every run the published set contains a key that has signed exactly when, if cached, it was read after the key was saved |
| SigningKeys.MissingAlgorithmHidesSigner | rauthy-models/src/migration/db_migrate.rs:129-322 | on a table that lacks one algorithm, as left by an initialisation broken off between its saves: a run in which the set is read, the missing key is saved and signs, and the set does not show it |
| SigningKeys.PublishedSetCoversSigners | rauthy-models/src/entity/jwk.rs:155-190 | if every algorithm has a key to begin with, the published set, cached or not, contains every key that ever signed |
| SigningKeys.PublishedAlwaysCoversIff | rauthy-models/src/entity/jwk.rs:155-190 | the published set contains every signer at every point of every run exactly when every algorithm has a key to begin with |
| SigningKeys.SeededKeysSignForEver | rauthy-models/src/app_state.rs:249-253 | from a table with a key of the algorithm no run, with any rotations and clean-ups, ever changes the key that signs |
| LoginDelay.DelayHandler.LoginCheck | rauthy-models/src/events/ip_blacklist_handler.rs:90-108 | the counter of failures of an IP address goes up by one and is returned |
| LoginDelay.DelayHandler.HandleLoginDelay | rauthy-service/src/auth.rs:1476-1687 | the whole new state and the response: delay, block or none |
| LoginDelay.MeanIsExact | rauthy-service/src/auth.rs:1485-1523 | since any point after which the cache has not lost it, the stored time is the exact quotient, by a power of two, of the time then and the weighted sum of the hashed durations since; rounding never accumulates |
| LoginDelay.MeanAfterLoss | rauthy-service/src/auth.rs:1485-1493 | after a loss the same holds from two seconds on |
| LoginDelay.MeanConverges | rauthy-service/src/auth.rs:1509-1512 | since any such point, with a constant duration d, the mean is d, or d - 1 from below, exactly when the power of two exceeds the distance to the time then |
| LoginDelay.CounterIsFailuresSinceSuccess | rauthy-models/src/events/ip_blacklist_handler.rs:90-126 | the counter is the number of delayed failures since the last success of the address |
| LoginDelay.AnswerByFailures | rauthy-service/src/auth.rs:1570-1684 | in every run a delayed failure is answered by the number of its address's failures since the last success: blacklisted at 7, 10, 15, 20 and from 25 on for 60, 600, 900, 3600 and 86400 s, otherwise delayed by the rest of the mean and that number's penalty |
| LoginDelay.OtherAnswers | rauthy-service/src/auth.rs:1497-1580 | exactly the failures are refused, and exactly those that ask for no delay at once; without an address no failure blocks |
| LoginDelay.BlocksGrow | rauthy-service/src/auth.rs:1582-1681 | an answer blacklists exactly at 7, 10, 15, 20 and from 25 failures on, and never for a shorter time than for fewer failures |
| LoginDelay.PenaltiesGrow | rauthy-service/src/auth.rs:1582-1680 | between blocks the penalty never gets smaller |
| LoginDelay.DelayedAnswerTime | rauthy-service/src/auth.rs:1570-1684 | an answer that does not block takes the larger of mean and elapsed time plus the penalty |
| LoginDelay.LeastTimeClosedForm | rauthy-service/src/auth.rs:1583-1680 | n failures cost at least 8642 s plus a day for each beyond the 24th |
| LoginDelay.GuessingTakesTime | rauthy-service/src/auth.rs:1527-1687 | whatever others do, a caller that waits out each answer and block makes its n-th attempt no earlier than that |
| ClientJwks.JwksHandler.FindKey | rauthy-client/src/jwks.rs:184-189 | the search loop finds the first key with the id |
| ClientJwks.JwksHandler.RunUpdate | rauthy-client/src/jwks.rs:125-179 | an update replaces the list only on success, and does nothing without a provider |
| ClientJwks.JwksHandler.AnswerGet | rauthy-client/src/jwks.rs:183-219 | the whole new state of handling a Get |
| ClientJwks.JwksHandler.Run | rauthy-client/src/jwks.rs:181-231 | the message loop handles the mailbox in order until it is empty or the worker has panicked |
| JwksAnswers.GetAnswers | rauthy-client/src/jwks.rs:183-219 | at any point of any run, the one answer that a waiting asker gets: the first key of the list with the id and no request; an error without a request exactly within 300 s of the end of a lookup for the id; otherwise the outcome of the request |
| JwksAnswers.RecentIffLookedUp | rauthy-client/src/jwks.rs:191-205 | the timed cache holds an id exactly for 300 s from the end of a lookup for it |
| JwksAnswers.UpdatesReplaceList | rauthy-client/src/jwks.rs:125-179 | an Update replaces the list exactly when a provider is known and answers; a new provider queues one |
| JwksAnswers.FilterKeyByKey | rauthy-client/src/jwks.rs:151-171 | the filter treats each key on its own, in order |
| JwksAnswers.FilterOfOne | rauthy-client/src/jwks.rs:151-171 | it keeps a key, with its decoded bytes if it has an encoding, and drops exactly those that cannot be decoded |
| ClientJwks.FilterKeepsDecodable | rauthy-client/src/jwks.rs:151-171 | the filter keeps exactly the keys it can decode, each with its decoded bytes |
| ClientJwks.KeysAreLastFetch | rauthy-client/src/jwks.rs:118-231 | the list is always the filtered list of the last successful fetch, empty if none |
| ClientJwks.JwksHandler.SendMessage | rauthy-client/src/jwks.rs:21-30 | a message goes to the mailbox of a living worker, and an asker of a dead one gets an error at once |
| ClientJwks.EveryGetAnsweredOnce | rauthy-client/src/jwks.rs:81-94 | in every run, panics included, the askers that wait are, in order, those answered exactly once and those still in the mailbox; a found key has the id asked for |
| ClientJwks.EveryAskerIsServed | rauthy-client/src/jwks.rs:181-231 | once the worker has taken up as many messages as its mailbox held, everybody who had asked by then has been answered |
| ClientJwks.AliveIffAllWaiting | rauthy-client/src/jwks.rs:184-189 | the worker is alive exactly when everybody whose Get was handled was still waiting |
| ClientJwks.ClosedOnlyAfterPanic | rauthy-client/src/jwks.rs:81-94 | nobody is told that the mailbox is closed as long as everybody whose Get was handled was still waiting |
| ClientJwks.NobodyClosedIfAllWait | rauthy-client/src/jwks.rs:81-94 | if every asker waits, the worker lives and nobody is ever told so |
| ClientJwks.OnlyClosedAfterPanic | rauthy-client/src/jwks.rs:81-94 | after a panic nobody is left waiting, and everybody who asks later gets the closed error |
| ClientJwks.AbandonedGetCloses | rauthy-client/src/jwks.rs:184-189 | runs in which a Get that nobody waits for makes a later asker get the closed error |
| ClientJwks.LookupsAreSpaced | rauthy-client/src/jwks.rs:191-205 | updates triggered for one id lie at least 300 s apart |
| ClientJwks.LookupsAreFew | rauthy-client/src/jwks.rs:191-205 | in time T they number at most the distinct ids times T / 300 s + 1 |
| ExpiryWarnings.CheckPasswords | rauthy-main/src/schedulers.rs:324-345 | one run notifies exactly the users, each row once, whose expiry lies more than 9 and at most 10 days ahead |
| ExpiryWarnings.NobodyMissed | rauthy-main/src/schedulers.rs:324-345 | runs at most a day apart miss nobody |
| ExpiryWarnings.NobodyWarnedTwice | rauthy-main/src/schedulers.rs:324-345 | runs at least a day apart warn nobody twice |
| ExpiryWarnings.DailyRunsWarnOnce | rauthy-main/src/schedulers.rs:308-345 | with runs exactly a day apart every covered expiry is warned of once, every other never |
| ExpiryWarnings.EverybodyOnceIffDaily | rauthy-main/src/schedulers.rs:324-327 | only runs exactly a day apart warn everybody exactly once |
| Text.JoinOfSentences | docs/searcher.js:175 | splitting into sentences loses nothing |
| Teaser.WeighSentence | docs/searcher.js:180-198 | the inner loops give the weighed words of a sentence, its end offset, and whether a term matched |
| Teaser.WeighBody | docs/searcher.js:174-199 | the outer loop gives the weighed words of the body and whether any term matched |
| Teaser.OffsetsAreTrue | docs/searcher.js:174-198 | across both levels of splitting every recorded offset is the true position of its word, and words follow one another without touching |
| Teaser.WindowWeights | docs/searcher.js:204-216 | the running sums are the direct sums of every window |
| Teaser.ChooseWindow | docs/searcher.js:218-230 | the backward scan finds the last window of greatest weight |
| Teaser.HeavyIffMatched | docs/searcher.js:184-192 | a word weighs 40 exactly when it matches a search term |
| Teaser.WeightsByPlace | docs/searcher.js:174-198 | in every text a matching word weighs 40; any other weighs 8 if it is the first or a full stop stands between it and the word before, and 2 otherwise |
| Teaser.MarkWindow | docs/searcher.js:232-252 | the output loop's pieces spell the body from the first to the last word of the window, with exactly the matched words inside tags |
| Teaser.DeleteTagsOfRender | docs/searcher.js:242-252 | deleting the tags from the output of pieces without a bracket gives their plain text |
| Teaser.MakeTeaser | docs/searcher.js:159-253 | the teaser shows the last heaviest window when a term is found and the first otherwise; deleting its tags gives the body slice, and exactly the matching words are emphasised |
| Teaser.TeaserOfPage | docs/searcher.js:138-139 | since the body is escaped first, deleting the tags of a search result's teaser always gives the slice of the escaped body |

## Left out

- HTTP, headers, cookies, CSRF and proof-of-work checks, templates, mails and events: input and output only.
- Claims of access and ID tokens, userinfo, introspection, the client-credentials and password grants: field copying and simpler flows.
- Registration data of clients and users, password rules, WebAuthn ceremonies, the confirmation of the second factor and the upstream provider's own exchange.
- The interleaving of two requests inside one lookup and its save.
- The distributed cache and leader election; a scheduler run stands for a run of the leader.
- The event that raises a failure counter on other nodes (rauthy-models/src/events/ip_blacklist_handler.rs:110-118), the periodic removal of expired blocks, and manual block lists.
- Wrap-around of the u32 failure counter and of the client's doubling u64 wait.
- The rate limit per IP address of the device endpoint (rauthy-handlers/src/oidc.rs:357-385).
- The deletion of a code when the session finds its user expired (rauthy-service/src/auth.rs:1028-1031): building the token set has already refused such a user at that time.
- The IP binding and the unused states of sessions.
- AuthCodes.AuthServer.InvalidateForUser: a failing save in the middle of the loop is not modelled.
- AuthCodes.AuthServer.InvalidateAll: a failing save in the middle of the loop is not modelled.
- Teaser.MakeTeaser: assumes that lower-casing keeps the length of the body; stemming is a parameter.
- The cached crate behind the timed cache is not part of this model; an entry is taken to count for 300 s.
