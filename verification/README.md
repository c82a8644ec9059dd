# Stack detector: verified model of sessions, accounts, detection and address checks

The backend of this repository issues rotating refresh tokens, keeps accounts, limits scans and
turns one crawl's artefacts into a list of technologies; the frontend's API client refreshes the
session. This project models that logic in Dafny and proves what it keeps over whole histories.

- **Refresh tokens.** `TokenRows` is the table and its SQL statements, `TokenService` the service
  as serial calls, `TokenMachine` the same calls as processes that interleave statement by
  statement. `TokenSafety`, `TokenOverlap`, `UserSignOut`, `TokenSessions` and `TokenPruning` hold the
  theorems: one slot per family, permanent death, overlapping refreshes, signing out everywhere,
  refinement to a ledger of current tokens, invisible pruning.
- **The browser.** `ApiClient` is the single-flight refresh of `api.ts`; `BrowserSafety` composes
  one browser with the token machine and with every other user of the service, and
  `BrowserProgress` shows what a refresh leaves and that it serves every call that waits.
- **Detection.** `Signals` and `Detector` are `testSignal`, `runRule` and `detect`; `RuleMerging`
  is `mergeByName`. `ImpliedNames`, `Provenance`, `DetectionOrder` and `DetectionGrowth` hold what
  two in-place passes find, where inferred names come from, and what order and evidence change.
- **Accounts.** `Accounts`, `LoginLockout`, `AuthService`, `AuthRoutes`, `EmailedTokens` and
  `OAuthAccounts` are login, lockout, emailed links, the token-moving handlers and provider sign-in;
  `OAuthRaces` is provider sign-in statement by statement.
- **Quota.** `ScanQuota`, `QuotaIsExact` and `ScanService` are the sliding 24-hour limit.
- **Addresses.** `ScanTarget` is the public-address test on text, against blocks of numeric values.

Functions give each operation's effect as a value; classes perform the same operation step by step
and are proved to have exactly that effect; state machines reuse the functions as atomic steps; the
theorems are about the functions and the machines.

## Assumptions

- Hashing is injective, so tables are keyed by raw token. New tokens, families, row ids, user ids
  and site ids do not repeat; they are parameters of the step that draws them.
- There is one clock, read by every step, that only moves forward. A SQL statement is atomic and
  does not fail. A serial call reads one time.
- Password checking, hashing and policy, regular-expression search (a function of the printed
  expression and the text), name resolution and locale comparison are abstract parameters; locale
  comparison is taken to be a strict total order where the sort's outcome depends on it.
- Emails are compared as stored. Confidences are natural numbers. `Number` is applied to digits only.
- One browser: refresh responses that the server sends are delivered; its sign-in, sign-out, sign-out
  everywhere and password change happen while no refresh is in flight, and nobody else revokes a live
  row of the family the browser holds (`TokenSafety.SpentTokenTripsReuse` is what its next refresh
  meets otherwise).
  A refresh request that never reaches the handler may fail. The other users of the service are unrestricted.

## Where comments need a condition

- `detectors/index.ts:181-183` says one extra pass covers the depth the rule set actually has.
  `ImpliedNames.TwoPassesExactCondition` is the condition on a rule set: in every listing order two
  passes find everything if and only if no chain of implications is longer than two.
- `detectors/rules.ts:9-10` says ordering does not matter. `DetectionOrder.OrderMattersExactly`: for
  uniquely named rules and evidence aside, if and only if no chain is longer than two.
- `token-service.ts:111-115` says two concurrent refreshes trip reuse detection. At least one is turned
  away in every interleaving (`TokenOverlap.OverlappingRefreshes`), but the session survives it when the
  winner's INSERT comes after the revocation (`TokenOverlap.OrderOfKillAndInsert`, `OverlapCanKeepTheSession`).
- `token-service.ts:109-115` says a replay kills the whole family. `TokenSafety.FamilyDeathExact`: it
  stays dead if and only if every rotation that already claimed one of its tokens runs into its expiry test.
- `auth-service.ts:306-307` says every existing session must die, and `routes/auth.ts:185` that every other
  session is killed. `EmailedTokens.ResetEndsEverySession` and `UserSignOut.RevokeAllEndsEverySession` give
  the exact condition, on rotations and sign-ins mid-flight; `EmailedTokens.ResetCanLeaveASession` and
  `UserSignOut.SignOutCanLeaveASession` are the runs that fail it.
- `oauth-service.ts:251` says identity is (provider, account id), never the email. Between sign-ins that
  overlap, `OAuthRaces.AnswerIsTheLinkedUser` says exactly when, and `OAuthRaces.OneIdentityTwoUsers` is a run
  where the email decides.
- `scan-service.ts:35` says five scans a day. Check and insert are separate steps:
  `ScanQuota.QuotaUnderConcurrency` bounds every window by limit + k - 1, and `QuotaIsExact.BoundIsReached` reaches it.
- `scan-target.ts:108-112` names /24 blocks; the tests refuse the whole /16 of each, and so does the model.
- `scan-target.ts:122-125` names blocks; the prefix tests also refuse a first group that prints in fewer
  than four digits like the start of one. `ScanTarget.PrefixTestsExactly` gives the exact condition.
- `scan-target.ts:127-128` says mapped and compatible forms are judged as v4. That is so for dotted text;
  for the canonical all-hexadecimal text `ScanTarget.HexTextIgnoresTheInner` says exactly when the verdict agrees.

## Model

| member | source | states |
|---|---|---|
| TokenService.TokenStore.IssueRefreshToken | backend/src/services/token-service.ts:38-57 | adds one live row under a new token and changes no other; the row is the user's, in the family asked for, dated now, with user agent and address cut to 512 and 45 characters, and expires one lifetime from now; the user's list of active sessions gains exactly this row and nobody else's list changes |
| TokenService.TokenStore.RevokeFamily | backend/src/services/token-service.ts:60-67 | afterwards exactly the live rows of other families are live; no row is lost or otherwise changed, a spent row keeps its stamp, and the count is the number of live rows that ended |
| TokenService.TokenStore.RevokeAllForUser | backend/src/services/token-service.ts:70-77 | afterwards exactly the live rows of other users are live; no row is lost or otherwise changed, a spent row keeps its stamp, and the count is the number of live rows that ended |
| TokenService.TokenStore.RevokeByRawToken | backend/src/services/token-service.ts:80-87 | stamps the token's row with now, and no other, exactly when it was live, and says so |
| TokenRows.RevokeEnds | backend/src/services/token-service.ts:60-87 | every revoking update ends exactly the live rows its condition selects, as many as it returns, and loses or restamps none |
| TokenService.TokenStore.RotateRefreshToken | backend/src/services/token-service.ts:117-166 | unknown, spent, expired and rotated exclude each other and hold exactly on an absent, a revoked, a live expired and a live unexpired row; a replay ends the live rows of the family, an expired token only itself, and a rotation stamps it and adds the successor of the same user and family with this caller's context; nothing else changes |
| TokenService.TokenStore.ListActiveSessions | backend/src/services/token-service.ts:169-186 | lists exactly the user's unrevoked, unexpired rows, as stored |
| TokenService.TokenStore.RevokeSession | backend/src/services/token-service.ts:189-202 | ends the live row of this id exactly when it is the user's own, touches no other, and says whether there was one |
| TokenService.TokenStore.PruneExpiredTokens | backend/src/services/token-service.ts:208-215 | exactly the rows that expired before now are gone, the others are as stored, and the count is their number |
| TokenMachine.StepKeepsInv | backend/src/services/token-service.ts:38-215 | every step of any process, arrival or clock tick keeps the invariant: rows and processes match the record, at most one live row or holding rotation per family, each token claimed once |
| TokenSafety.RunKeepsInv | backend/src/services/token-service.ts:38-215 | the invariant holds in every state of every interleaving |
| TokenSafety.OneSlotPerFamily | backend/src/services/token-service.ts:117-166 | in every reachable state a family's unrevoked rows plus its claimed-but-unissued rotations number at most one, and all its rows have one owner |
| TokenSafety.OneSuccessorPerToken | backend/src/services/token-service.ts:123-130 | of all concurrent rotations of one raw token at most one wins the claim |
| TokenSafety.DeathIsPermanent | backend/src/services/token-service.ts:60-67 | a family with no live row and no claimed rotation never has a live row again, and none of its tokens rotates again |
| TokenSafety.SpentTokenNeverRotates | backend/src/services/token-service.ts:134-157 | a call that presents a spent token ends, whatever the others do, in reuse detection or with its row pruned, never with a successor |
| TokenSafety.ReplayKillsFamily | backend/src/services/token-service.ts:141-154 | after reuse detection with no rotation of the family mid-flight, every token ever issued in it is refused for the rest of the run and other families' rows are untouched |
| TokenSafety.FamilyDeathExact | backend/src/services/token-service.ts:126-164 | after reuse detection the family stays dead in every continuation if and only if each rotation holding it is still before its expiry test and already expired |
| TokenSafety.NoSessionUntilSignIn | backend/src/services/token-service.ts:38-215 | a user with no live row and no claimed rotation gets neither before the next sign-in inserts a token |
| UserSignOut.RevokeAllEndsEverySession | backend/src/services/token-service.ts:69-77 | revoking all of a user's tokens, under any interleaving: at that moment none is live; none is again before the next sign-in inserts a token if and only if every rotation of the user mid-flight is before its expiry test and already expired; and none before the next sign-in arrives if and only if, besides, no sign-in was under way |
| UserSignOut.SignOutCanLeaveASession | backend/src/http/routes/auth.ts:130-135 | the failing run: a rotation of the user past its expiry test inserts a live token right after the revocation has completed |
| TokenSafety.LiveTokenRotates | backend/src/services/token-service.ts:117-166 | an undisturbed rotation of a live, unexpired token ends with its successor as the family's row and nothing else changed |
| TokenSafety.SpentTokenTripsReuse | backend/src/services/token-service.ts:134-154 | an undisturbed rotation of a spent token ends in reuse detection with no live row in its family |
| TokenSafety.SuccessiveRefreshesLogOut | backend/src/services/token-service.ts:134-154 | a second refresh with a cookie whose first refresh has run to its end, itself uninterrupted, ends in reuse detection with no live row in the family |
| TokenOverlap.OverlappingRefreshes | backend/src/services/token-service.ts:109-130 | whatever the interleaving with each other and with everyone else, of two calls that present one token at most one claims it, and a call that does not ends in reuse detection of the family or, if the row was pruned, as an unknown token |
| TokenOverlap.OrderOfKillAndInsert | backend/src/services/token-service.ts:126-164 | for a winner and a replaying call: if the winner's INSERT precedes revokeFamily its successor is dead for good, and so is the family when no other call holds it; if it follows, the winner was the only holder and its successor is live after the revocation |
| TokenOverlap.KillEndsTheIssued | backend/src/services/token-service.ts:59-67 | without any condition, every token issued in a family before its revocation is refused in every continuation |
| TokenOverlap.OverlapCanKeepTheSession | backend/src/services/token-service.ts:126-164 | the second order happens: with the late call's look and revocation between the winner's claim and its INSERT, one call ends in reuse detection and the other's successor is live |
| TokenSafety.UninterruptedRotationIsRotate | backend/src/services/token-service.ts:117-166 | the steps of one rotation, uninterrupted, leave the table and answer of the serial function |
| TokenSafety.OneStatementCalls | backend/src/services/token-service.ts:38-87 | what each call of one statement leaves in the shared table: an opening adds its row, a revocation ends exactly what it selects, a pruning removes exactly what expired, and no other process moves |
| TokenSessions.RotateRefines | backend/src/services/token-service.ts:117-166 | on a table that represents a ledger (family to owner and at most one current token), rotation does to the table what the ledger says, with the same answer |
| TokenSessions.RotateSucceedsExactly | backend/src/services/token-service.ts:117-166 | rotation succeeds exactly on the current, unexpired token of its family; the successor replaces it there and every other current token stays |
| TokenSessions.ListingShowsCurrent | backend/src/services/token-service.ts:168-186 | the sessions page lists exactly the user's families whose current token has not expired |
| TokenSessions.RevokeRefines | backend/src/services/token-service.ts:60-87 | each of the four revocations clears exactly the ledger's families it names |
| TokenSessions.CallRefines | backend/src/services/token-service.ts:38-215 | every serial call keeps table and ledger together and gives the answer the ledger predicts |
| TokenSessions.ServiceRefinesLedger | backend/src/services/token-service.ts:38-215 | every answer of every serial run is the one the ledger predicts |
| TokenPruning.PruningIsInvisible | backend/src/services/token-service.ts:204-215 | serial calls: a run whose calls name only unexpired rows gives the same answers with pruning between them at arbitrary points as without any |
| TokenPruning.PruningIsInvisibleInEveryInterleaving | backend/src/services/token-service.ts:117-215 | concurrent calls: with DELETEs falling anywhere, also between the statements of one rotation, every other call stands where it stands in the same history without a DELETE, and every list of active sessions is the same, provided each claim and look names no expired row |
| TokenPruning.PruningHidesAnExpiredReplay | backend/src/services/token-service.ts:134-157 | the condition is needed on every table: a replay of an expired spent token ends a session of its family that is still good, and does not when its row was pruned first |
| ApiClient.Client.StartRefresh | frontend/src/lib/api.ts:84-113 | whoever asks while a refresh is in flight gets that one and starts nothing; otherwise the new one carries the cookie; every other refresh is over |
| ApiClient.Client.SettleRefresh | frontend/src/lib/api.ts:92-102 | the slot stays taken; a session leaves an access token, only a refusal drops one, and one that survives without a session was there before a network failure |
| ApiClient.Client.ClearRefresh | frontend/src/lib/api.ts:103-109 | no refresh is left in progress, and every finished one keeps its value for the calls that wait for it |
| ApiClient.Client.RestoreSession | frontend/src/lib/api.ts:115-122 | mounting waits for the refresh in the slot, the one already in flight if there is one, and sends no path and disturbs no other call |
| ApiClient.Client.Request | frontend/src/lib/api.ts:134-150 | the call has sent its path once, no other call has sent anything, and the invariant of one uncleared refresh and at most two sends is kept |
| ApiClient.Client.OnResponse | frontend/src/lib/api.ts:152-166 | a call waits exactly when its first authenticated try came back 401, on the refresh in the slot, and no second refresh starts beside one in flight; otherwise it is over and no refresh is touched |
| ApiClient.Client.OnRefreshed | frontend/src/lib/api.ts:153-157 | the call retries exactly when it waited and got a session, the retry is its second and last send and its answer final; otherwise it is over |
| BrowserSafety.NextKeepsInv | frontend/src/lib/api.ts:75-167 | every step of browser, refresh handler, other processes and clock keeps: one uncleared refresh, its rotation on track, the idle cookie unspent, at most two sends per call |
| BrowserSafety.AfterKeepsInv | frontend/src/lib/api.ts:75-167 | the composed invariant holds along every run |
| BrowserSafety.NeverTripsReuse | frontend/src/lib/api.ts:4-12 | for any number of concurrent calls and any interleaving, no refresh this browser sends reaches reuse detection, and at most one is being served |
| BrowserSafety.IdleCookieIsTheLiveToken | backend/src/http/routes/auth.ts:91-119 | whenever no refresh is in flight the cookie is its family's only live token and nobody is rotating it, unless its row expired and was pruned |
| BrowserSafety.EachCallSendsAtMostTwice | frontend/src/lib/api.ts:134-158 | each call sends its path at most twice |
| BrowserSafety.LostResponseTripsReuse | backend/src/services/token-service.ts:111-115 | why delivery is assumed: after a rotation whose response is lost, the next refresh with the old cookie, in every interleaving, ends in reuse detection or finds the old row pruned, never with a successor |
| BrowserSafety.LostResponseEndsTheSession | backend/src/services/token-service.ts:134-154 | when the old row is still there and that refresh runs uninterrupted, it ends in reuse detection and no row of the family is live |
| BrowserProgress.OneRefreshServesAll | frontend/src/lib/api.ts:75-167 | any number of calls that fail with 401 in a browser whose cookie is live and unexpired share one refresh, which ends with the token its rotation inserted as the cookie and the family's only live one, an access token, and every one of the calls sent for the second time |
| BrowserProgress.DeliveryLeaves | backend/src/http/routes/auth.ts:91-118 | after delivery the successor is the cookie and the answer a session exactly for a rotation of an active account's token; every other end of the handler leaves no cookie and no session; a request without a token leaves the cookie |
| BrowserProgress.UninterruptedRefreshAnswers | backend/src/http/routes/auth.ts:91-118 | an undisturbed refresh is answered with its successor exactly when the serial handler answers 200: the token was live and unexpired and the account active |
| BrowserProgress.FailureLeaves | frontend/src/lib/api.ts:100-102 | a request that fails on its way changes neither cookie nor access token |
| BrowserProgress.SignInLeaves | backend/src/http/routes/auth.ts:52-60 | signing in leaves a new live token of the user as the cookie and every other row as it was |
| BrowserProgress.SignOutLeaves | backend/src/http/routes/auth.ts:123-128 | signing out ends the cookie's token, no other, and forgets the cookie |
| BrowserProgress.SignOutEverywhereLeaves | backend/src/http/routes/auth.ts:130-135 | signing out everywhere ends all of the user's tokens, no other user's, and forgets the cookie |
| BrowserProgress.ChangePasswordLeaves | backend/src/http/routes/auth.ts:181-194 | changing the password leaves the new cookie as the user's only live token |
| AuthRoutes.AuthRoutes.Refresh | backend/src/http/routes/auth.ts:91-119 | 200 exactly for a live, unexpired token of an active account, with the successor as cookie; every other case is 401 without a cookie |
| AuthRoutes.AuthRoutes.Logout | backend/src/http/routes/auth.ts:123-128 | afterwards the cookie's token is dead, every other row is as before and the cookie is gone |
| AuthRoutes.AuthRoutes.LogoutAll | backend/src/http/routes/auth.ts:130-135 | afterwards exactly the other users' live rows are live |
| AuthRoutes.AuthRoutes.PasswordChange | backend/src/http/routes/auth.ts:181-194 | on success the new cookie is the user's only live token and other users' rows are untouched; otherwise nothing changes |
| Signals.TestSignal | backend/src/services/detectors/index.ts:36-140 | a hit exactly when the signal matches (an exact name, or a non-empty haystack holding the pattern), with its confidence and evidence |
| Signals.SearchSignal | backend/src/services/detectors/index.ts:36-140 | the branching and scanning code answers as the specification |
| Signals.Scan | backend/src/services/detectors/index.ts:119-139 | the loop returns the hit of the first haystack that has one |
| Signals.FindsMeans | backend/src/services/detectors/index.ts:119-129 | a text is searched only when it is not empty: a substring must stand in it, an expression must match it |
| Signals.ChannelSearches | backend/src/services/detectors/index.ts:40-117 | for each of the 21 channels, the captured artefact that decides whether a signal matches, exact names and missing artefacts included |
| Signals.HitVersion | backend/src/services/detectors/index.ts:129-136 | a hit carries a version exactly from an expression marked for it: what it captured in the first text that it matches |
| Signals.SortIsStable | backend/src/services/detectors/index.ts:149-150 | the sort is a permutation in descending confidence that keeps signal order among equals |
| Signals.RunRuleMeans | backend/src/services/detectors/index.ts:142-163 | a rule fires exactly when some signal matches, at the confidence of its strongest matching signal, with the evidence of all matching signals and no other, each sentence once and the strongest first, and with the version of the strongest signal that captured a non-empty one, the earliest among equals |
| Signals.SentencesInOrder | backend/src/services/detectors/index.ts:159-161 | evidence sentences stand in the order in which the sorted hits first say them |
| RuleMerging.KeyDeterminesSignal | backend/src/services/detectors/rules.ts:1226-1228 | equal keys mean equal channel, header, pattern and confidence, when header names hold no bar and a printed form names one pattern |
| RuleMerging.KeyIgnoresTheRest | backend/src/services/detectors/rules.ts:1226-1228 | signals that agree in channel, header, pattern and confidence have one key |
| RuleMerging.Merge | backend/src/services/detectors/rules.ts:1201-1224 | the loop over the mutable map computes the specified merge |
| RuleMerging.PushUnseen | backend/src/services/detectors/rules.ts:1211-1219 | the existing signals stay in front; behind them stand, in order, signals of the added rule whose key is new, no key twice, and no key of the added rule is missing |
| RuleMerging.MergePreservesMeaning | backend/src/services/detectors/rules.ts:1191-1224 | names become unique in first-occurrence order; for every capture and confidence a merged rule has a matching signal exactly when a raw rule of its name has; implications are the union |
| RuleMerging.MergedFiresAtTheBest | backend/src/services/detectors/rules.ts:1197-1199 | a name fires after merging exactly when a raw rule of it does, at the maximum of their confidences |
| RuleMerging.MergeKeepsNames | backend/src/services/detectors/rules.ts:1202-1208 | the map's order is the distinct names in order of first occurrence |
| RuleMerging.MergeKeepsCategory | backend/src/services/detectors/rules.ts:1204-1209 | a merged rule keeps the category of the first raw rule of its name |
| RuleMerging.MergedImplyOnce | backend/src/services/detectors/rules.ts:1220 | a rule merged from several says each of its implications once |
| RuleMerging.MergeIsIdempotent | backend/src/services/detectors/rules.ts:1201-1224 | merging merged rules changes nothing |
| Detector.RunDetect | backend/src/services/detectors/index.ts:172-213 | the nested loops on one mutable map compute direct detections, two passes and the sort as specified, and a more confident detection always comes before a less confident one |
| Detector.Conclude | backend/src/services/detectors/index.ts:175-208 | each detected name stands in the map once, in insertion order, under its own name |
| ImpliedNames.PassesBetween | backend/src/services/detectors/index.ts:184-208 | n in-place passes find at least what n steps reach and nothing unreachable, cycles included |
| ImpliedNames.DetectedNames | backend/src/services/detectors/index.ts:175-208 | the detected names lie between two-step and full reachability from the directly detected ones |
| ImpliedNames.TwoPassesAreEnough | backend/src/services/detectors/index.ts:181-184 | with no chain longer than two, detection finds exactly the transitive closure |
| ImpliedNames.TwoPassesExactCondition | backend/src/services/detectors/index.ts:181-184 | every listing order finds the whole closure if and only if no chain is longer than two |
| ImpliedNames.WorstOrderMisses | backend/src/services/detectors/index.ts:184-208 | listing far rules first makes two passes reach two steps and no further |
| Provenance.DirectEvidenceWins | backend/src/services/detectors/index.ts:190-197 | the passes keep a direct detection's name, category, version and confidence, and append at most one sentence, naming a detected source whose rule implies it |
| Provenance.InferredHasOneSource | backend/src/services/detectors/index.ts:199-205 | an inferred detection has confidence 70, no version, the category of the first rule of its name or "other", and one sentence, "Implied by X", for exactly one X, which is detected and implies it |
| Provenance.ImpliedIsNoted | backend/src/services/detectors/index.ts:188-205 | whatever a technology found by the first pass implies carries an "Implied by" sentence at the end, direct or inferred |
| Provenance.LastFiringRuleWins | backend/src/services/detectors/index.ts:175-179 | among rules of one name the last that fires is what is found directly |
| Provenance.ProvenanceIsWellFounded | backend/src/services/detectors/index.ts:184-208 | following the sentences from any detection reaches a direct one in finitely many links, even when implications form cycles |
| DetectionOrder.DetectSorted | backend/src/services/detectors/index.ts:210-212 | the report lists exactly the detections, each once: by falling confidence, and by name among equally confident ones |
| ImpliedNames.BestOrderFinds | backend/src/services/detectors/index.ts:184-208 | listing the rules of detected names first makes the two passes reach at least three steps |
| DetectionOrder.OrderMattersExactly | backend/src/services/detectors/rules.ts:9-10 | all listings of uniquely named rules give the same sorted report, evidence aside, if and only if no chain is longer than two |
| DetectionOrder.OrderDoesNotMatter | backend/src/services/detectors/rules.ts:9-10 | permuting uniquely named rules with chains of at most two leaves the sorted names, categories, versions and confidences unchanged |
| DetectionGrowth.RuleGrows | backend/src/services/detectors/index.ts:142-163 | a rule that fires still fires, at no lower confidence, when URLs, cookies, globals, workers, DNS answers or headers are added |
| DetectionGrowth.NamesGrow | backend/src/services/detectors/index.ts:175-208 | more evidence removes no detected name |
| DetectionGrowth.DirectConfidenceGrows | backend/src/services/detectors/index.ts:175-208 | a direct detection stays direct and never loses confidence when evidence is added |
| LoginLockout.CounterCountsPending | backend/src/services/auth-service.ts:229-245 | the stored counter is the number of wrong attempts since the last success, reset or lock, and stays below the maximum |
| LoginLockout.WrongPasswordRate | backend/src/services/auth-service.ts:190-245 | a window without success or reset holds at most MAX * (floor(length / lockout) + 1) wrong-password checks |
| LoginLockout.RateIsReached | backend/src/services/auth-service.ts:190-245 | for every window and policy some attempts on an open account reach that bound exactly |
| AuthService.AuthService.Login | backend/src/services/auth-service.ts:164-227 | succeeds exactly on the right password of an unlocked, active, verified account; each refusal holds exactly on its condition, in the source's order; a success sets only the login time, the counter and the lock, a checked wrong password only the counter and the lock, and every other refusal nothing |
| AuthService.AuthService.RegisterFailedLogin | backend/src/services/auth-service.ts:229-245 | the account is locked from now exactly when this failure reaches the maximum, and then for exactly one lockout length; the counter goes up by one or restarts and stays below the maximum; nothing else of the row and no other row changes |
| AuthService.AuthService.CreateOneTimeToken | backend/src/services/auth-service.ts:57-70 | the new link belongs to the user and can be spent exactly for its purpose and before that purpose's hours have passed; no other link gains or loses that |
| AuthService.AuthService.PeekOneTimeToken | backend/src/services/auth-service.ts:76-89 | gives the owner exactly of an unused, unexpired link of the purpose, and spends nothing |
| AuthService.AuthService.ConsumeOneTimeToken | backend/src/services/auth-service.ts:92-110 | spends exactly such a link; no link can be spent right after |
| AuthService.AuthService.VerifyEmail | backend/src/services/auth-service.ts:249-256 | succeeds exactly on a spendable link and consumes it; the owner's address is stamped if it was unverified and as it was otherwise, and nothing else changes |
| AuthService.AuthService.ResetPassword | backend/src/services/auth-service.ts:278-310 | succeeds exactly for a spendable link, an existing user and a strong password; a refusal changes nothing; success sets the owner's hash, verifies, unlocks, touches no other account and ends every session |
| AuthService.AuthService.ChangePassword | backend/src/services/auth-service.ts:312-339 | replaces the hash exactly when the account has a password, it verifies and the new one is strong |
| EmailedTokens.RedeemedAtMostOnce | backend/src/services/auth-service.ts:91-110 | under any interleaving of verifications and resets a link is redeemed at most once, for its own purpose, before it expires |
| EmailedTokens.RefusalKeepsLink | backend/src/services/auth-service.ts:279-288 | an unexpired link is spendable if and only if no process has redeemed it |
| EmailedTokens.RedeemedOwnerIsVerified | backend/src/services/auth-service.ts:249-310 | under any interleaving, once a verification or a reset has ended well the link's owner has a verified address, and keeps it |
| EmailedTokens.VerifyRunsThrough | backend/src/services/auth-service.ts:249-256 | the two statements of a verification, uninterrupted, consume the link and stamp the owner if unverified, and do nothing else |
| EmailedTokens.MarkingStampsTheUnverified | backend/src/services/auth-service.ts:251-254 | the second statement stamps an unverified owner, leaves a verified one, and changes no other row |
| EmailedTokens.WritingSetsThePassword | backend/src/services/auth-service.ts:294-304 | the reset's update sets hash, verification and lockout of its user and nothing else |
| EmailedTokens.SendingAddsALink | backend/src/services/auth-service.ts:57-70 | a new link is its user's, unused, and expires its purpose's hours after the call began |
| EmailedTokens.WeakThenStrong | backend/src/services/auth-service.ts:278-310 | two resets on one link, each uninterrupted: the one refused by the password policy changes nothing, and the next with a strong password goes through and signs the user out everywhere |
| EmailedTokens.RefusedThenStrong | backend/src/services/auth-service.ts:279-292 | after any interleaved run in which one reset was refused by the policy and nobody else redeemed the unexpired link, an uninterrupted reset with a strong password goes through on it |
| EmailedTokens.ResetRunsThrough | backend/src/services/auth-service.ts:278-310 | the steps of a reset, uninterrupted, consume the link, write the password and revoke the user's tokens, and do nothing else |
| EmailedTokens.ResetEndsEverySession | backend/src/services/auth-service.ts:294-309 | a completed reset among any other calls: at that moment no token of the user is live; none is again before the next sign-in inserts one if and only if every rotation of the user mid-flight is before its expiry test and already expired; and none before the next sign-in arrives if and only if, besides, no sign-in was under way |
| EmailedTokens.ResetCanLeaveASession | backend/src/services/auth-service.ts:306-308 | the failing run: after the completed reset one further step, not a sign-in, makes a token of the user live |
| OAuthAccounts.OAuthService.ResolveOAuthUser | backend/src/services/oauth-service.ts:233-336 | each answer holds exactly on its condition: a linked user signs in only when active; otherwise an email is needed, its active owner signs in only when the provider verified it, and nobody's email makes a new account; linking back-fills exactly the empty fields, a new account is as the profile says, and a refusal changes nothing |
| OAuthAccounts.RunKeeps | backend/src/services/oauth-service.ts:247-336 | over any run emails and links stay unique and no link or email is ever redirected |
| OAuthAccounts.IdentityIsStable | backend/src/services/oauth-service.ts:251-266 | serial sign-ins: once an identity resolves to a user, every later successful sign-in with it gives that user, whatever email or verified flag it carries |
| OAuthAccounts.RefusalChangesNothing | backend/src/services/oauth-service.ts:276-289 | a refused sign-in leaves users and links as they were |
| OAuthAccounts.LinksAreEarned | backend/src/services/oauth-service.ts:280-333 | every link was created with its user, or by a sign-in whose provider-verified email was that user's |
| OAuthRaces.RunKeepsInv | backend/src/services/oauth-service.ts:247-336 | under any interleaving of sign-ins, registrations and edits, emails and links stay unique and neither is ever redirected |
| OAuthRaces.AnswerIsTheLinkedUser | backend/src/services/oauth-service.ts:291-312 | under any interleaving a successful sign-in answers with the user its identity is linked to if and only if its link INSERT did not run into another user's link; two that pass agree, and one that passes differs from one that does not |
| OAuthRaces.FlagIsTheConflict | backend/src/services/oauth-service.ts:291-298 | the INSERT that may do nothing is where that is decided: it fails exactly when the identity is already linked to another user, whose link stays |
| OAuthRaces.OnlyActiveGoOn | backend/src/services/oauth-service.ts:259-289 | under any interleaving a sign-in goes on with an existing account, by link or by verified email, only when the statement that read it found it active |
| OAuthRaces.ConflictsRefuse | backend/src/services/oauth-service.ts:314-332 | a new account is refused exactly when its email was taken since the search, and its link exactly when the identity was linked since, in both cases without changing a row |
| OAuthRaces.SameEmailSameUser | backend/src/services/oauth-service.ts:247-336 | under any interleaving an identity whose sign-ins all carry one email resolves to one user |
| OAuthRaces.OneIdentityTwoUsers | backend/src/services/oauth-service.ts:272-312 | the failing run: two overlapping sign-ins with one new identity and the verified emails of two accounts answer with two users |
| OAuthRaces.UninterruptedIsResolve | backend/src/services/oauth-service.ts:247-336 | a sign-in whose statements nobody interrupts has the effect and answer of the serial function |
| ScanQuota.QuotaUnderConcurrency | backend/src/services/scan-service.ts:40-113 | with at most k requests between check and insert, every 24-hour window of a free user's history holds at most limit + k - 1 scans |
| ScanQuota.StepKeepsWindows | backend/src/services/scan-service.ts:55-113 | every step keeps, for every window, scans in it plus admitted requests while it is open within that bound |
| ScanQuota.CountIsNumber | backend/src/services/scan-service.ts:40-47 | counting gives the number of the user's scans in the window |
| ScanQuota.QuotaCheck | backend/src/services/scan-service.ts:55-68 | only the free plan is counted, and it is refused exactly at its limit |
| ScanQuota.UninterruptedRequest | backend/src/services/scan-service.ts:98-113 | a request nobody interrupts is refused without any change at the limit or without an address, and otherwise adds one scan of the host's site by the user |
| QuotaIsExact.BoundIsReached | backend/src/services/scan-service.ts:55-113 | for every limit and k some run reaches limit + k - 1 in one window |
| ScanService.ScanService.ScansToday | backend/src/services/scan-service.ts:40-47 | the number of the user's scans queued in the last 86,400,000 milliseconds, failed ones included |
| ScanService.ScanService.AssertScanQuota | backend/src/services/scan-service.ts:55-68 | passes exactly off the free plan or below the limit, and reports limit and use otherwise |
| ScanService.ScanService.UpsertWebsite | backend/src/services/scan-service.ts:73-86 | a known host keeps its row, an unknown one gets a new one |
| ScanService.ScanService.RequestScan | backend/src/services/scan-service.ts:98-128 | queues one scan exactly within quota and with a resolvable address; a refusal changes nothing and names the quota first |
| ScanTarget.IPv4TestsAreBlocks | backend/src/lib/scan-target.ts:88-116 | printing, splitting and testing any dotted quad refuses it exactly when its 32-bit value lies in twelve CIDR blocks, which cover the non-global blocks of section 2.2.2 of RFC 6890 |
| ScanTarget.LargeOctetsAreRefused | backend/src/lib/scan-target.ts:96-99 | a part over 255 refuses the address, dotted mapped text included |
| ScanTarget.OtherCountsAreRefused | backend/src/lib/scan-target.ts:96-99 | anything but four parts is refused |
| ScanTarget.PrefixTestsExactly | backend/src/lib/scan-target.ts:121-125 | on canonical text the prefix tests are fe80::/10, fc00::/7 and ff00::/8 if and only if the first group does not print, in fewer than four digits, like the start of one |
| ScanTarget.CanonicalCompresses | backend/src/lib/scan-target.ts:118-125 | what canonical text is, for the claims on it: the first of the longest runs of zero groups is what "::" stands for, when it has at least two groups (section 4.2 of RFC 5952) |
| ScanTarget.IPv6TestsAreBlocks | backend/src/lib/scan-target.ts:88-133 | for every address, in text whose normal form is canonical, the whole verdict: refused are exactly the values 0 and 1, the blocks fe80::/10, fc00::/7 and ff00::/8, and first groups that print in fewer than four digits like the start of one |
| ScanTarget.AnyCaseAnyZone | backend/src/lib/scan-target.ts:118-125 | that verdict is the verdict on canonical text with letters raised at will, alone or with any zone after it |
| ScanTarget.MappedTextGetsInnerVerdict | backend/src/lib/scan-target.ts:127-130 | IPv4-mapped and IPv4-compatible text in dotted form gets exactly the verdict of the address inside |
| ScanTarget.MappedExactly | backend/src/lib/scan-target.ts:129 | mapped text is exactly "::" or "::ffff:" followed by four runs of digits with dots between them |
| ScanTarget.DottedDigitsAre | backend/src/lib/scan-target.ts:129 | four runs of digits with dots between them are exactly what splits into four parts of digits |
| ScanTarget.HexTextIgnoresTheInner | backend/src/lib/scan-target.ts:127-132 | in canonical, all-hexadecimal text mapped addresses are always accepted and compatible ones exactly above the value 1, so the verdict is the inner one if and only if the inner address is public (or, compatible, 0.0.0.0 or 0.0.0.1) |

## Left out

- TokenPruning.PruningIsInvisible: the counts that revocation by user or family returns are not compared, because a pruned expired row is no longer counted and only the log sees the count.
- TokenPruning.PruningIsInvisibleInEveryInterleaving: processes of `TokenMachine` carry no counts or booleans of revocations, so those answers are compared for serial calls only.
- RuleMerging.MergePreservesMeaning: versions and evidence under merging depend on which of two equally keyed signals is kept, since neither is part of the key; they are not claimed.
- DetectionOrder.OrderDoesNotMatter: evidence is left out of the comparison, because which rule is named after "Implied by" depends on the order.
- DetectionGrowth.DirectConfidenceGrows: an inferred detection may become a direct one of lower confidence, so nothing is claimed for it.
- LoginLockout.WrongPasswordRate: attempts are serial; `registerFailedLogin` writes from the row read earlier, so concurrent failures can be lost.
- OAuthAccounts.IdentityIsStable: sign-ins are serial, and `OAuthRaces` has the overlapping ones; accounts are not deleted from the table (the status field marks them).
- AuthRoutes.AuthRoutes.Refresh: the account is looked up in the same serial call; under concurrency its status is the free choice of the delivery step in `BrowserSafety`.
- EmailedTokens.RedeemedAtMostOnce: sending and resending mail, and the account checks before it, are not modelled.
- Database errors, and a crash between a rotation's statements or between the last one and the response.
- The handler that `api.ts` calls when a session is lost, the headers and bodies of requests, and `setAccessToken` from pages.
- A password reset finished in the browser of `BrowserSafety` is there a dropped cookie beside a step of the service; its sign-out is the subject of `EmailedTokens`.
- Signup, profile edits, access tokens (JWT), cookie attributes and rate limiting, whose counting is in a library.
- Hashing, breach checks, the OAuth code exchange and random generation.
- `derive.ts` and the crawler: the document's parts and the captured artefacts are inputs of detection.
- The rule literals and the semantics of regular expressions: the rule list is a parameter.
- `parseTarget`, DNS lookup and `resolveTarget`: a resolved host, or its absence, is a parameter.
- `isIP` and address texts that are not canonical, apart from letter case, zone index and the mapped forms.
- The queue, the job id written after the insert, `runScan` and storage.
