# OKK MCP gateway: a model of its grants, its session rotation and its statistics

The gateway in `server/okk_mcp` lets AI clients read OKK call analytics on behalf of a person. This project
models the parts of it where a mistake would not show in one function: the life of an OAuth grant, the
renewal of the person's OKK session by many requests at once, and the claims its statistics make about
being complete. `dafny verify dfyconfig.toml` checks everything.

## What is modelled

**The OAuth grant** (`Grants`, `GrantServer`, with the invariants in `GrantInvariant` and `GrantHistory`). A
store of clients, sessions, codes and tokens, changed by sign-in, code exchange, refresh, revocation and
the cleanup. `Grants` says what one step does to a store and what a run is; `GrantServer.Server` is the
mutable store with one method per endpoint, every one proved to do exactly its step. `GrantAnswers` says
from the caller's side, on the request and the stored rows, what each answer means, and `GrantTrail` follows
every token back to the requests that led to it. A step is one
transaction. Four things are finer than that:

- the refresh grant waits for OKK between its checks and its writes while it holds the lock of the presented
  row. It is split into asking, OKK's answer and the writes; `inflight` holds the locked rows;
- the code exchange is split into its checks and its writes, with any other request in between; `redeeming`
  is the set of code rows it holds locked;
- a bulk `UPDATE` takes a set `unseen` of rows which its snapshot missed because they were committed while
  the statement waited, so no theorem depends on a revocation having reached every row;
- a step reads the clock several times (`check`, `mark`, `note`, `issue`), in order.

`History` holds history variables, which decide no answer: every grant, every family's chain of refresh
tokens, the code each token descends from, and every value drawn at random.

**The OKK session under concurrency** (`Rotation`, `Platform`, `RenewalCache`). Any number of requests, each cut at every
`await` and every transaction, share the session rows, the row locks, the process-local memory of renewals
and an OKK that gives each refresh token's successor once. `Platform.OkkPlatformClient` is the code of the
pieces, `Rotation` the interleavings, `RotationAnswers` what a caller may rely on.

**The statistics** (`JournalPaging`, `Transcript`, `Scenarios`, `ScenarioStats`, `CriterionStats`, `Directory`, `Grounding`,
`DepartmentReport`, `ReleaseCheck`). Loops over upstream rows with dictionaries, counters and an `ok` or `partial` status:
what the status promises is proved; `StatsAnswers` counts the answers again, call by call. `ReleaseCheck` is the independent checker of `server/scripts/smoke_release.py`.

**Limits and grading** (`RateLimit`, `OrderedTools`). The fixed-window counters in Redis, and the ordered tool match of the evals.

Taken as given: `token_hash` and the S256 challenge are injective, sealing is invertible, random draws never
repeat, clocks do not go back, OKK never issues one token twice. OKK's tokens are (session, number of issue);
the code compares them and does nothing else with them.

## What the proofs found

- An orphan session (no live token, no live code) can become usable again in two cases: while one of its
  refreshes waits for OKK, and while an exchange of its code is between its checks and its commit. What was
  presented may expire in between, the cleanup then reads the session as an orphan, and the request still
  issues a pair. `OrphanStaysIffNothingInFlight` shows that there is no third case; `OrphanWithRefreshInFlight`
  and `OrphanWithExchangeUnderWay` reach the two.
- `/revoke` of a used refresh token which the cleanup has already deleted does nothing; with the row kept it would
  end the grant. The two stores stay alike exactly when there was nothing left to end: the session has stopped and
  no unrevoked row of the family would be reached (`RecallKeepsTwinIff`). Otherwise a client can see it
  (`RecallTellsThemApart`), and under all settings that retain long enough a client can get there by keeping
  its grant refreshed past the retention (`RecallIsReal`). `CleanupIsInvisible` covers every run whose recalls are
  of the harmless kind.
- In these runs the cleanup is invisible exactly when `mcp_refresh_token_days <= mcp_audit_retention_days`
  (`InvisibleIffRetained`); the settings accept other values.
- A revocation does not stop a refresh that was already past OKK when it happened: that refresh still writes its
  pair. The session never gets another token exactly when there was no such refresh
  (`NoMoreTokensIffNoneInFlight`); the access token of such a pair never verifies, because the session is
  revoked (`RevocationIsFinal`).
- If OKK replaces a refresh token and its answer is lost, the stored token is presented again and the session
  ends (`LostAnswerShowsOneTokenTwice`). The stored pair is OKK's current one exactly when that did not happen
  (`StoredPairIsCurrent`), and short of it no token is spent twice (`RotationIsSafe`).
- A grant for which the person refused everything can never be refreshed (`RefreshScopeGrantable`).
- Reading archived versions leaves every attribution unchanged exactly when all calls of each archived version
  show one code (`ArchiveChangesNothingIff`).
- The limits hold exactly when a Redis key lives at least as long as its window (`LimitHoldsIffKeyOutlivesWindow`);
  the code gives it twice that.

## Model

| member | source | states |
|---|---|---|
| Scopes.ValidateScopes | server/okk_mcp/security.py:33-37 | an accepted scope is non-empty and allowed; an absent one means the defaults |
| Scopes.GrantedScope | server/okk_mcp/oauth.py:398-405 | consent only removes scopes, only the two optional ones, exactly those the person did not check, and none with the old form |
| Scopes.RefreshScopeGrantable | server/okk_mcp/oauth.py:774-779 | a refresh is granted exactly for a non-empty part of what is held; the empty grant never, because its empty text falls back to the defaults |
| GrantServer.Server.RegisterClient | server/okk_mcp/oauth.py:197-244 | a registered client is a row of that moment without a first authorization, and every other client keeps its row |
| GrantServer.Server.AuthorizeLogin | server/okk_mcp/oauth.py:615-631 | a completed sign-in adds one session and one code for it with the consented scope, and nothing else |
| GrantServer.Server.TokenByCode | server/okk_mcp/oauth.py:711-731 | a code exchange up to its checks does the step whose answers and changes `CodeExchangeAnswers` and `CodeExchangeChanges` spell out |
| GrantServer.Server.FinishExchange | server/okk_mcp/oauth.py:732-748 | the rest of an accepted exchange does the step `RedeemGivesTheCodesScope` spells out |
| GrantServer.Server.AddPair | server/okk_mcp/oauth.py:637-674 | one access and one refresh row, same session, scope, resource and family |
| GrantServer.Server.Retried | server/okk_mcp/oauth.py:821-845 | the retried pair is given only inside the window and while the successor is unused and unrevoked; nothing is written |
| GrantServer.Server.TokenByRefresh | server/okk_mcp/oauth.py:749-779 | what a presented refresh token does before OKK is asked is the step `RefreshAnswers` spells out |
| GrantServer.Server.ContextAnswered | server/okk_mcp/oauth.py:780-781 | when OKK confirms the session, the waiting refresh may write; no row has changed yet |
| GrantServer.Server.ContextRefused | server/okk_mcp/oauth.py:780-785 | when OKK refuses the session, or is down, the refresh leaves every row as it was and lets go of its own; the two answer differently |
| GrantServer.Server.FinishRefresh | server/okk_mcp/oauth.py:786-803 | the presented row is consumed, revoked and linked to its successor, whose scope is the one asked for |
| GrantServer.Server.Revoke | server/okk_mcp/oauth.py:849-869 | a revocation does the step `RevokeChanges` spells out |
| GrantServer.Server.ReadAccess | server/okk_mcp/oauth.py:893-908 | the first read gives a row exactly when it is a live access token of this resource |
| GrantServer.Server.AnswerAccess | server/okk_mcp/oauth.py:911-927 | the second read accepts exactly when the session is active then and OKK does not refuse; OKK being down does not matter |
| GrantServer.TwoReadsVerify | server/okk_mcp/oauth.py:893-927 | the two reads, with any requests between them, are the verification the theorems speak of |
| GrantServer.Server.RevokeUpstream | server/okk_mcp/platform_client.py:372-385 | only a still active session row is marked, once |
| GrantServer.Server.SelectOrphans | server/okk_mcp/maintenance.py:25-46 | at most 500 distinct orphans, all of them when there are fewer |
| GrantServer.Server.PurgeRows | server/okk_mcp/maintenance.py:48-85 | the five statements together are the purge step, which `PurgeDeletesExactly` and `PurgeKeepsWhatIsReferred` spell out |
| GrantServer.Server.CleanupOnce | server/okk_mcp/maintenance.py:22-93 | one pass stops exactly the sessions it lists, all orphans when it read them and all of them if they are fewer than 500, then purges |
| GrantServer.CleanupIsARun | server/okk_mcp/maintenance.py:22-93 | what a whole pass does to the store is a run of events, so the theorems about runs hold across it |
| GrantAnswers.CodeExchangeAnswers | server/okk_mcp/oauth.py:711-731 | which answer a code exchange gets: accepted if and only if the code is stored, unused and unexpired and the request shows its client, redirect URI, resource and the well-formed verifier of its challenge |
| GrantAnswers.CodeExchangeChanges | server/okk_mcp/oauth.py:720-731 | a refused exchange changes nothing, an accepted one locks its code, a replay ends the session and revokes exactly its reached token rows |
| GrantAnswers.RedeemGivesTheCodesScope | server/okk_mcp/oauth.py:732-748 | the first pair has the scope of the code and the lives the settings give, the code is used up, the client authorized, no other row changes |
| GrantAnswers.RefreshAnswers | server/okk_mcp/oauth.py:749-779 | which answer a refresh gets: an own, unexpired, unused, unrevoked token is taken up if and only if the words asked for are a non-empty part of what it holds; each refusal has its own condition and changes nothing |
| GrantAnswers.RefreshGivesWhatWasAsked | server/okk_mcp/oauth.py:771-803 | from any accepted request to its writes, in every run between, both new rows and the answer have exactly the words of the request |
| GrantAnswers.ReuseChanges | server/okk_mcp/oauth.py:758-768 | a reused refresh token stops its session and revokes exactly the reached rows of its family |
| GrantAnswers.OkkEndsTheRefresh | server/okk_mcp/oauth.py:780-785 | an invalid token when OKK refuses the session, try again when OKK is down; only the lock goes |
| GrantAnswers.RevokeChanges | server/okk_mcp/oauth.py:849-869 | a foreign or unknown token changes no row, an access token only itself, a refresh token its session and exactly the reached rows of its family |
| GrantAnswers.RevokedAccessTokenIsDead | server/okk_mcp/oauth.py:867-868 | an access token its client revoked is accepted by no verification in any later run, whatever OKK answers |
| GrantAnswers.VerifiedIff | server/okk_mcp/oauth.py:893-927 | a token is accepted if and only if it is a stored, unrevoked, unexpired access token, its session is active when that is read, and OKK does not refuse; with the scope it was issued with |
| GrantAnswers.OneResource | server/okk_mcp/oauth.py:626-627 | every code and token of every run is for the one resource of the settings |
| GrantAnswers.PurgeDeletesExactly | server/okk_mcp/maintenance.py:48-76 | which codes, tokens and sealed pairs a purge takes and which it leaves, both ways, and that it leaves the others as they were |
| GrantAnswers.PurgeKeepsWhatIsReferred | server/okk_mcp/maintenance.py:60-84 | which sessions and clients a purge takes and which it leaves, both ways |
| GrantAnswers.OrphanIff | server/okk_mcp/maintenance.py:25-44 | an orphan is an active session without an unexpired, unrevoked token and without an unexpired, unused code |
| GrantServer.CleanupStops | server/okk_mcp/maintenance.py:45-46 | a pass stops exactly the sessions it lists |
| GrantTrail.SignInAnswers | server/okk_mcp/oauth.py:615-634 | a completed sign-in adds one active session and one code for its client, redirect URI and challenge, with exactly the requested words that were not refused; any other client is refused and nothing is stored |
| GrantTrail.CodeTrail | server/okk_mcp/oauth.py:619-630 | every code stored in any run was issued by a sign-in of the run, with what that sign-in was given |
| GrantTrail.FamilyTrail | server/okk_mcp/oauth.py:711-748 | every family of every run goes back to a sign-in, a presentation of its code in time by the same client with the verifier of the challenge and the redirect URI, and its redemption, in this order |
| GrantTrail.TokenTrail | server/okk_mcp/oauth.py:735-743 | so does every token of every run, through any number of refreshes; it carries no word that was not requested at that sign-in and none that was refused there |
| GrantTrail.SecondUseIsCaught | server/okk_mcp/oauth.py:720-722 | presenting a redeemed code again, after any events, is a replay that ends the session if and only if no purge had a cutoff past its expiry |
| GrantInvariant.StepKeeps | server/okk_mcp/oauth.py:690-869 | every event of the lifecycle keeps the invariant over tokens, chains, codes, grants, sessions and the locks on tokens and codes |
| GrantInvariant.ReachableKeeps | server/okk_mcp/oauth.py:690-869 | the invariant holds after every run from the empty database |
| GrantInvariant.PurgedBeforeSuccessor | server/okk_mcp/maintenance.py:52-59 | a refresh row is purged no later than its successor, so what goes is a prefix of each chain |
| GrantInvariant.PurgeKeepsReferred | server/okk_mcp/maintenance.py:48-85 | no token or code loses its session or client; a client that ever received tokens is never removed |
| GrantHistory.RunLater | server/okk_mcp/models.py:26-100 | over any run use and revocation are never undone, rows are never reborn, a stopped session never starts again, a pair is forgotten only outside its window |
| GrantSafety.OneChain | server/okk_mcp/oauth.py:786-802 | the stored refresh rows of a family are a suffix of one linear chain: used exactly if it has a successor, used ones revoked, only the last can be unused |
| GrantSafety.SessionIsOneGrant | server/okk_mcp/oauth.py:806-818 | in every reachable store, whether or not the code is still stored: tokens share their session exactly when they share their family, and exactly when they descend from the same code |
| GrantSafety.ReplayHitsItsGrant | server/okk_mcp/oauth.py:806-818 | what a replay revokes by session is exactly what its code issued and what was refreshed from that; one code per session, and no token before the code is used |
| GrantSafety.ScopesOnlyShrink | server/okk_mcp/oauth.py:735-743 | token scope within its predecessor's, the consented, the requested and the allowed scope; resource and client constant |
| GrantSafety.RevocationIsFinal | server/okk_mcp/oauth.py:758-768 | after a code replay, a refresh reuse or a revocation, in every run, OKK up or down: no verification accepts a token of the session, no refresh gets past OKK any more, so those that can still mint only become fewer |
| GrantSafety.NoMoreTokensIffNoneInFlight | server/okk_mcp/oauth.py:780-803 | the session gets no token in any run after that if and only if no refresh of it was past OKK at that moment |
| GrantSafety.EndsGrantEnds | server/okk_mcp/oauth.py:720-722 | each of the three events stops the session at once and leaves only refreshes already past OKK |
| GrantSafety.UsedTokenHasTwoAnswers | server/okk_mcp/oauth.py:758-768 | after any events a used, unexpired refresh token gives the very pair issued first with no row changed, or ends family and session; which of the two is decided by the window and the successor |
| GrantOrphans.OrphanStaysIffNothingInFlight | server/okk_mcp/maintenance.py:25-46 | an orphan stays one in every run if and only if no refresh of it and no exchange of its code holds a row lock |
| GrantWitness.OrphanWithRefreshInFlight | server/okk_mcp/maintenance.py:25-46 | the first case in which it does not stay one is reachable |
| GrantWitness.OrphanWithExchangeUnderWay | server/okk_mcp/oauth.py:722-748 | the second case is reachable |
| CleanupTwin.CleanupIsInvisible | server/okk_mcp/maintenance.py:52-76 | with retention covering the refresh life, no answer, verification or orphan differs from a cleanup that keeps all rows and pairs, in every run in which a revocation of a forgotten refresh token has nothing left to end |
| CleanupTwin.StepTwin | server/okk_mcp/maintenance.py:52-76 | every single request answers the same on the store that forgot and the one that remembers, and leaves them alike |
| CleanupTwin.SameRetry | server/okk_mcp/oauth.py:831-843 | a cleared pair was already outside its retry window |
| CleanupTwin.SameOrphans | server/okk_mcp/maintenance.py:25-46 | the orphans selected do not depend on deleted rows |
| CleanupTwin.RecallKeepsTwinIff | server/okk_mcp/oauth.py:849-869 | revoking a forgotten refresh token leaves the two stores alike if and only if the session has stopped and no unrevoked row of the family is reached |
| CleanupTwin.RecallTellsThemApart | server/okk_mcp/oauth.py:849-869 | a client sees the difference: an access token of the session is still accepted, and would be refused had the row been kept |
| GrantWitness.RecallIsReal | server/okk_mcp/oauth.py:849-869 | whatever the settings with sufficient retention, a reachable store and a run of a cleanup and a revocation end in that difference |
| CleanupTwin.ForgettingHidesReuse | server/okk_mcp/oauth.py:756-768 | with a short retention a reuse is answered as an ordinary invalid token |
| GrantWitness.InvisibleIffRetained | server/okk_mcp/config.py:38-55 | the cleanup is invisible in all runs with harmless recalls if and only if refresh days do not exceed retention days |
| Rotation.StepKeeps | server/okk_mcp/platform_client.py:161-260 | every step of every request keeps the invariant over rows, locks, requests, renewals and what OKK saw |
| Rotation.NoTokenSpentTwice | server/okk_mcp/platform_client.py:217-250 | in every interleaving a token is presented again only if the earlier presentation did nothing at OKK or its answer was lost; OKK never renews one token twice |
| Rotation.StoredPairIsCurrent | server/okk_mcp/platform_client.py:241-244 | outside the locked section the stored pair of a usable session is OKK's current pair if and only if the answer that replaced its refresh token was not lost |
| Rotation.LoserTakesTheRenewedToken | server/okk_mcp/platform_client.py:246-250 | a request that lost the race takes the stored, newer token and presents nothing |
| Rotation.SubstitutionMovesForward | server/okk_mcp/platform_client.py:252-260 | a sent token is the context's own or a later one of its session; the cache stays within its bound |
| Rotation.RotationIsSafe | server/okk_mcp/platform_client.py:217-250 | if OKK fails only before it rotates, no rotated token is ever presented again and the stored pair is current |
| Rotation.LostAnswerIsFatal | server/okk_mcp/platform_client.py:236-240 | after a lost answer the next presentation is refused and the session ends |
| Rotation.LostAnswerShowsOneTokenTwice | server/okk_mcp/platform_client.py:142-146 | the assumption is needed: a run of two requests shows one token twice |
| RotationAnswers.ReadyWasConfirmed | server/okk_mcp/platform_client.py:187-207 | in every run, a request that works for a session was let through by a confirmation of the same person on a row stored and unrevoked at that moment, with the very token it works with |
| RotationAnswers.ConfirmingWasAccepted | server/okk_mcp/platform_client.py:181-187 | a token comes to be confirmed only after OKK accepted it |
| RotationAnswers.StrangerIsRefused | server/okk_mcp/platform_client.py:192-195 | if OKK names another person, the session is revoked and the request fails |
| RotationAnswers.EndedForGood | server/okk_mcp/platform_client.py:174-232 | once a session is revoked, in every later run it stays so, and every request that reads it, waits for it or comes to be confirmed fails |
| RotationAnswers.WhatEndsASession | server/okk_mcp/platform_client.py:187-241 | an active session ends if and only if OKK refuses its token or answers something unusable, names another person, or it is logged out; an outage, a lost answer or a failed commit does not end it |
| RotationAnswers.WhatFailsARequest | server/okk_mcp/platform_client.py:161-250 | exactly which steps make a request fail |
| RotationAnswers.RenewedOnlyWhenExpired | server/okk_mcp/platform_client.py:217-240 | in every run OKK is asked to renew a session only for a request whose access token it had refused as expired, and while that token is still the stored one |
| RotationAnswers.WhatReplacesThePair | server/okk_mcp/platform_client.py:241-244 | the stored pair changes only by storing a renewal, to the pair OKK answered |
| RotationAnswers.RenewalIsRemembered | server/okk_mcp/platform_client.py:245-260 | after a renewal a read that still holds the expired token is repeated with the renewed one |
| Platform.OkkPlatformClient.ReadSession | server/okk_mcp/platform_client.py:174-179 | the unlocked read fails on a missing or revoked row, otherwise takes the stored token |
| Platform.OkkPlatformClient.LockAndCompare | server/okk_mcp/platform_client.py:225-234 | only an unchanged token keeps the lock and goes on to OKK |
| Platform.OkkPlatformClient.RefreshUpstream | server/okk_mcp/platform_client.py:235-240 | a refusal revokes the row, an outage only lets go of it, an answer stays in hand |
| Platform.OkkPlatformClient.StoreRenewal | server/okk_mcp/platform_client.py:241-244 | both tokens are stored together and the lock is released |
| Platform.OkkPlatformClient.RememberAndReturn | server/okk_mcp/platform_client.py:245-250 | the renewal is remembered after the commit or after the check |
| Platform.OkkPlatformClient.ConfirmUser | server/okk_mcp/platform_client.py:188-207 | a changed person revokes the session, a gone session fails |
| Platform.OkkPlatformClient.ReadMetExpiry | server/okk_mcp/platform_client.py:303-311 | a read that met a 401 queues with the token it had sent |
| RenewalCache.RememberedKeeps | server/okk_mcp/platform_client.py:252-256 | one entry per session, the bound is kept, the new renewal is there, at most the oldest other entry is lost |
| RenewalCache.CurrentIsHeldOrRenewed | server/okk_mcp/platform_client.py:258-260 | substitution gives the held token or the one remembered for exactly it |
| RenewalCache.RememberedIsSent | server/okk_mcp/platform_client.py:252-260 | right after a renewal is remembered its expired token is sent as the renewed one, any other as it is |
| RenewalCache.Renewals.RememberRenewal | server/okk_mcp/platform_client.py:252-256 | pop, insert and evict together are the remembered cache |
| RenewalCache.Renewals.CurrentAccess | server/okk_mcp/platform_client.py:258-260 | the lookup gives the current token |
| JournalPaging.JournalPages | server/okk_mcp/backend_client.py:1262-1283 | the loop ends and gives the collected reading |
| JournalPaging.NeverTwiceNeverOver | server/okk_mcp/backend_client.py:1274-1279 | whatever OKK answers, the rows stay within the cap; if no single page lists a call twice, no call is counted twice |
| JournalPaging.NoCallFromTwoPages | server/okk_mcp/backend_client.py:1273-1276 | whatever OKK answers, every row is from the page it was read on and no call is counted from two pages |
| JournalPaging.CompleteReading | server/okk_mcp/backend_client.py:1279-1282 | if calls only arrive in front while it is read, a complete reading holds every call of the first read exactly once and in order |
| JournalPaging.CompleteIffAllRead | server/okk_mcp/backend_client.py:1279-1283 | where a reading ends, and that it is complete if and only if no further page is promised there and all that was read is within the cap |
| JournalPaging.ReadHoldsEveryId | server/okk_mcp/backend_client.py:1276-1278 | what was read holds every call id the pages list, and no other |
| Transcript.SegmentChunk | server/okk_mcp/backend_client.py:255-268 | the chunk is the greedy stretch of the source from its start |
| Transcript.TakenIsMaximal | server/okk_mcp/backend_client.py:255-268 | the chunk fits both budgets or is one segment, and no longer one does |
| Transcript.FollowGivesTheSource | server/okk_mcp/backend_client.py:2188-2200 | following `next_start_segment` ends and the parts are the source, each within the budgets |
| Transcript.GreedyIsFewest | server/okk_mcp/backend_client.py:255-268 | no consecutive split into admissible parts has fewer parts |
| Transcript.TextChunk | server/okk_mcp/backend_client.py:2201-2214 | the part stands in the text at `start`, is within `maxChars` and as long as possible; `next` is null exactly at the end and otherwise says where the text goes on |
| Transcript.FollowTextGivesTheText | server/okk_mcp/backend_client.py:2201-2214 | following `next_start_char` ends and the parts are the text |
| Scenarios.ArchivedKeepsItsCode | server/okk_mcp/backend_client.py:133-147 | a version archived under a code at any time still has that business code |
| Scenarios.ScenarioVersionsByCode | server/okk_mcp/backend_client.py:161-175 | the dictionary gives every catalog id the code of its last row; the first shown code wins |
| Scenarios.CallsOfScenario | server/okk_mcp/backend_client.py:193-209 | the calls of one scenario and the number that cannot be placed |
| Scenarios.SelectedInOrder | server/okk_mcp/backend_client.py:193-209 | the selection is exactly the calls of the scenario, in journal order, each once |
| Scenarios.SelectionsShareOut | server/okk_mcp/backend_client.py:193-209 | over all scenarios the selections and the unplaced calls add up to the calls that have a version |
| Scenarios.ArchiveChangesNothingIff | server/okk_mcp/backend_client.py:154-190 | every call is attributed alike with and without the archive if and only if the calls of each archived version show one code |
| StatsAnswers.CodeOfAVersion | server/okk_mcp/backend_client.py:161-175 | a current version has its catalog code whatever its calls show; an archived one the code its first call to show one shows |
| StatsAnswers.CodeOfAText | server/okk_mcp/backend_client.py:143-147 | only a blank text is no code; a text without the archive mark is its own |
| StatsAnswers.ArchivedIff | server/okk_mcp/backend_client.py:137-147 | an archived code is a code of one line, the mark and twenty digits, and nothing else is |
| StatsAnswers.CodeOfACall | server/okk_mcp/backend_client.py:154-190 | a call has the code of its version when that is readable, else the chosen code, else the shown one |
| ScenarioStats.SelectVisible | server/okk_mcp/backend_client.py:434-442 | the visible requested ids, each once, in order; every other request is counted as omitted |
| ScenarioStats.ScenarioPerformance | server/okk_mcp/backend_client.py:3117-3216 | rows, exclusions and status from catalog, filter and journal |
| ScenarioStats.EveryNameIsShown | server/okk_mcp/backend_client.py:3160-3167 | the lookup of a row's scenario never fails |
| ScenarioStats.ShownBest | server/okk_mcp/backend_client.py:3160-3167 | a scenario is shown by its first current version, else by its first one |
| ScenarioStats.EveryEvaluationLands | server/okk_mcp/backend_client.py:3168-3181 | for any status: evaluations of the rows, excluded ones and those outside the filter add up to the scored calls |
| ScenarioStats.OkIffFullyAccounted | server/okk_mcp/backend_client.py:3202-3204 | an unfiltered answer is `ok` if and only if it was read whole and its rows hold every scored call |
| ScenarioStats.VersionsAddUp | server/okk_mcp/backend_client.py:3183-3199 | the version counts of a row add up to its evaluations |
| StatsAnswers.RowCountsItsCalls | server/okk_mcp/backend_client.py:3168-3199 | a row counts exactly the scored calls of its scenario, each version of it exactly those made on that version |
| StatsAnswers.RowsAreTheScenarios | server/okk_mcp/backend_client.py:3155-3159 | rows are exactly the scenarios of the visible versions, under a filter of the requested ones, one each |
| StatsAnswers.ScenarioStatus | server/okk_mcp/backend_client.py:3127-3204 | the status with and without a filter, as a condition on catalog, journal and request |
| StatsAnswers.ScenarioCounters | server/okk_mcp/backend_client.py:434-442 | the omitted requests and the two excluded counts are exactly the requests that are not visible, the scored calls that name no scenario, and without a filter those that name one without a row |
| CriterionStats.CriterionKeys | server/okk_mcp/backend_client.py:3288-3302 | keys and shown criteria of the readable versions |
| CriterionStats.IndexedSound | server/okk_mcp/backend_client.py:3288-3302 | every indexed criterion has an entry to show it by, under its own key |
| CriterionStats.EvaluatedCalls | server/okk_mcp/backend_client.py:3322-3334 | the scored calls of the scenario asked for, and those that name none |
| CriterionStats.Aggregate | server/okk_mcp/backend_client.py:3345-3392 | observations and violations per criterion, in order of first sight, and the three exclusion counters |
| CriterionStats.CriterionPerformance | server/okk_mcp/backend_client.py:3267-3431 | both lists, the limit, the counters and the status |
| CriterionStats.EveryObservationLands | server/okk_mcp/backend_client.py:3345-3392 | for any status: rows before the limit, unreadable observations and unasked ones are all items of the evaluated calls; the calls add up as well |
| CriterionStats.OkIffAllObservationsShown | server/okk_mcp/backend_client.py:3408-3413 | an unfiltered answer is `ok` if and only if it was read whole, every scored call gave items, and the two returned lists hold all of them |
| CriterionStats.LimitKeepsTheWorst | server/okk_mcp/backend_client.py:3405-3412 | a critical error left out by the limit has no more violations than any shown |
| StatsAnswers.TableTellsTheTruth | server/okk_mcp/backend_client.py:3345-3392 | every criterion asked for and observed has a row, with exactly the observations and violations the items of the evaluated calls say |
| StatsAnswers.CriterionStatus | server/okk_mcp/backend_client.py:3280-3413 | the status with and without filters, as a condition on what was read |
| StatsAnswers.CriterionCounters | server/okk_mcp/backend_client.py:3322-3376 | the same for the counters of a criterion answer |
| StatsAnswers.SortIsStable | server/okk_mcp/backend_client.py:3407-3408 | criteria of equal rank stay in the order in which they were first observed |
| StatsAnswers.ListsHold | server/okk_mcp/backend_client.py:3405-3412 | critical errors and the others in their own ordered lists, with no row left out while there is room |
| StatsAnswers.IndexPrefersCurrent | server/okk_mcp/backend_client.py:3288-3302 | a criterion is shown by the first entry of a current version, else by the first; an id stands for the last entry that has it |
| StatsAnswers.OneCriterionAcrossVersions | server/okk_mcp/backend_client.py:3296 | criteria of one scenario are one criterion if and only if they have one code; without a code each id stands alone |
| Directory.Employees | server/okk_mcp/backend_client.py:1083-1140 | the loop ends; which pages are read, what is kept, what is excluded and when the list is complete |
| Directory.DirectoryIsSound | server/okk_mcp/backend_client.py:1083-1140 | unique ids, named, visible, within the cap; kept and excluded add up; a complete list has everyone acceptable |
| Directory.ScreenKeepsTheFirst | server/okk_mcp/backend_client.py:1112-1130 | of several records of one id the first acceptable one is listed |
| Directory.AcceptedIff | server/okk_mcp/backend_client.py:1115-1122 | who must be accepted: an id, a name that is not blank, and a visible department, the one asked for if any |
| Directory.CompleteListsExactly | server/okk_mcp/backend_client.py:1111-1138 | a complete directory lists exactly the people who belong on it |
| Grounding.GroundRow | server/okk_mcp/backend_client.py:738-756 | the row gets the directory's name wherever it names its employee, and says whether that changed it |
| Grounding.GroundEmployeeRows | server/okk_mcp/backend_client.py:712-758 | kept rows, and kept plus excluded are the rows received |
| Grounding.GroundedInOrder | server/okk_mcp/backend_client.py:726-757 | the kept rows are exactly the known ones, in the received order |
| Grounding.GroundingTwiceIsOnce | server/okk_mcp/backend_client.py:712-758 | grounding its own output excludes nobody, changes nothing and gives the same rows |
| Grounding.UncountedIsUntouched | server/okk_mcp/backend_client.py:738-756 | a row not counted as normalized is passed on as it came, but for a name it lacked |
| Grounding.CountedIffChanged | server/okk_mcp/backend_client.py:738-756 | a row is counted as normalized if and only if grounding changed more than adding a missing name |
| DepartmentReport.DepartmentStatistics | server/okk_mcp/backend_client.py:1542-1599 | three lists grounded in one roster, the counters, the card and the status |
| DepartmentReport.OkHidesNobody | server/okk_mcp/backend_client.py:1586-1595 | an `ok` report kept every row of its three lists, at its place, saying of its employee what it said before |
| DepartmentReport.CardCountsAndStatus | server/okk_mcp/backend_client.py:1567-1595 | the card counts exactly the rows left out and the rows renamed; the report is `ok` if and only if the directory is whole, the plan is there and both counts are zero |
| DepartmentReport.RowsShowNoHistory | server/okk_mcp/backend_client.py:1551-1553 | a ranking row is shown without the edit history of its plan and otherwise as it was grounded |
| DepartmentReport.PlanShowsTheNamed | server/okk_mcp/reporting.py:81-91 | the plan shows exactly the entries that name an employee, in their order |
| ReleaseCheck.AcceptedIffGrounded | server/scripts/smoke_release.py:125-165 | what the checker accepts: a live authoritative card of the same scope with unique ids, and only rows that speak of somebody on it by that name |
| ReleaseCheck.EveryReportPasses | server/scripts/smoke_release.py:125-165 | every report built on a proper directory passes, whatever rows the upstream sends |
| ReleaseCheck.LiveReportPasses | server/scripts/smoke_release.py:125-165 | the same from the first directory page on |
| RateLimit.Limiters.CountToolCall | server/okk_mcp/backend_client.py:3537-3558 | counted and refused above the limit; with Redis down the call passes uncounted |
| RateLimit.Limiters.CheckLogin | server/okk_mcp/oauth.py:544-561 | counted under address and account, refused when either is above the limit or Redis is down |
| RateLimit.Limiters.CheckRegistration | server/okk_mcp/oauth.py:178-194 | counted per bucket and hour, refused above the limit or with Redis down |
| RateLimit.CountersAreExact | server/okk_mcp/backend_client.py:3541-3549 | until a window ends, its counter is the number of its attempts |
| RateLimit.WindowBound | server/okk_mcp/backend_client.py:3554-3558 | at most `limit` requests of a key are admitted in its window |
| RateLimit.FirstOnesAdmitted | server/okk_mcp/backend_client.py:3554-3558 | exactly the first `limit` tool calls of a window are admitted |
| RateLimit.IntervalBound | server/okk_mcp/oauth.py:544-561 | at most twice the limit in any stretch as long as the window |
| RateLimit.LimitHoldsIffKeyOutlivesWindow | server/okk_mcp/backend_client.py:3546-3549 | the limit holds in all runs if and only if a key lives at least as long as its window |
| RateLimit.MinuteLimit | server/okk_mcp/backend_client.py:3541-3558 | the bounds for the windows in force: tool calls and logins by the minute |
| RateLimit.HourLimit | server/okk_mcp/oauth.py:178-194 | the same for registrations by the hour |
| OrderedTools.ToolsSelected | evals/run.py:768-784 | each mode's verdict; in order means: the names are called at increasing places |
| OrderedTools.GreedyFindsTheOrder | evals/run.py:780-784 | the greedy loop meets all names if and only if they occur in order |

## Left out

- GrantServer.Server.AuthorizeLogin: the password check, the CSRF form, the redirect-URI check and the encrypted OKK tokens in the session row are not part of it; it starts where the password was accepted.
- GrantServer.Server.RegisterClient: client metadata, redirect URIs, client expiry and `deleted_at` are not modelled; a client is its creation and first authorization times.
- GrantServer.Server.AnswerAccess: the account claims of the accepted token are left out.
- GrantServer.Server.Retried: the code tests the retry window before it waits for the successor's row, the model after; they differ when another refresh holds that row until the window is over and then gives up, and the model answers with a reuse where the code still gives the pair.
- GrantServer.Server.RevokeUpstream: the logout call to OKK, whose failure the code ignores, is left out.
- GrantServer.Server.CleanupOnce: in the method no request comes between its transactions; in the runs of the theorems any may. The counts it reports are left out.
- Platform.OkkPlatformClient.ConfirmUser: the snapshots of role and departments and `last_verified_at`, which it writes as well, are left out.
- CriterionStats.Aggregate: it counts; the sum of scores, the employees, the versions and the last observation of a criterion are left out.
- CriterionStats.CriterionPerformance: score sums and averages are left out; where the rounded average puts a criterion is a given rank, so the sorting and the limit are modelled but not the average itself.
- ScenarioStats.ScenarioPerformance: average, minimum and maximum score, pass rates and the number of employees are left out; the versions of a row stand in order of first sight, not in the order they are displayed in.
- Scenarios.ScenarioVersionsByCode: digits and blanks are the ASCII ones; the regular expression and `strip` of Python also know others.
- Directory.Employees: every directory record is taken to be an object, and the page counts are bounded by some number.
- DepartmentReport.DepartmentStatistics: the summary, the trend chart, the department card and the contract text are passed through and left out.
- RateLimit.Limiters.CheckLogin: the normalised and hashed account key is given, not computed.
- RateLimit.Limiters.CheckRegistration: which bucket and limit an address gets (trusted networks share one) is given, not computed.
- RateLimit.Limiters.CountToolCall: time is in whole seconds and read once; the gateway's clock and Redis' clock are one.
- Rotation.StepKeeps: other processes' renewal caches and the retries of a dropped read are not modelled; a read is answered, fails or meets a 401.
- Commits that fail are modelled for storing a renewed OKK pair only; elsewhere a transaction that fails leaves no trace.
- HTTP, HTML pages, headers, client metadata fetching, blocking by an operator and MCP declarations: wiring or library behaviour.
- Field projections, trace redaction, text search, period tables and free-text graders: they would only add easy members.
