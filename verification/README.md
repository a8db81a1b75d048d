# dune-admin: a verified model

dune-admin is an operator's dashboard for a game server. This project models the parts of
it whose correctness cannot be seen from one function, and proves what its comments, tests
and incident notes say it is for.

**The battlepass award and delivery protocol.** Four tables keyed by
(server, tier key, account): claims (`baseline`, `earned`, `granted`), watched-unsatisfied
markers, the grant ledger (`pending`, `granted`, `exhausted`, with an attempt count and a
next-attempt time) and the tier catalogue. An evaluation pass turns a player's signals into
claims and markers and may enqueue deliveries; a retry loop delivers due rows under two
failure policies; operators grant by hand, demote, purge, heal and edit the catalogue.
Game-side calls may fail arbitrarily, writes may be lost, and evaluations may be cut off
after any of their writes.

**Five smaller cores.** Timestamp text compared in place of times, with backup retention on
top of it; the login rate limiter and its slices compacted in place; the one-time import of
`config.yaml`, which is not transactional; the watcher that waits for a game update and then
restarts the container; and the permission matrix, which is stored as rows and rebuilt on
restart.

## How it is laid out

| files | what they hold |
|---|---|
| `Options`, `Sums`, `Totals`, `Statements` | presence and errors, totals over finite maps, intel totals, lists of statements cut off by a failure |
| `Timestamps` | calendar, RFC 3339 text, text order |
| `Tables`, `Store` | the tables on values, and the store's SQL statements as methods over them |
| `Evaluation`, `EvaluationLaws`, `Ticks`, `Engine` | one evaluation as a list of writes, its laws, a tick of players, and the engine's methods |
| `Delivery`, `GrantEngine` | one delivery attempt and the manual grants, on values and as methods |
| `Protocol`, `Listing`, `Scenarios` | the state machine: every step an engine, the loop or an operator can take; what the loop may have listed; the steps concrete runs are built from |
| `Outcomes`, `EvaluationOutcomes` | what attempts, grants, resets, heals, evaluations and ticks leave in each cell, in terms of their inputs |
| `PaymentSafety`, `AwardSafety`, `LedgerLaws`, `RetryBound`, `IntelLaws` | theorems over whole runs of it |
| `Backups`, `LoginLimiter`, `UpdateWatcher`, `Permissions` | the smaller cores |
| `ConfigImport`, `ConfigStore` | the import as a list of statements, and as methods |

Code that changes state is a class or a method whose contract gives the whole new state, tied
to a function of the old one; the theorems are about those functions and about runs of steps.
A statement that fails with an error the code returns is an argument of the method; one whose
error the code only logs is a lost write. A run may take any enabled step in any order. An
attempt is one atomic step, and the delivery loop attempts keys it has listed earlier, so other
steps may come between a listing and its attempts.

The constants are the code's: three attempts, a 24 hour backoff and a five minute one while the
player is online (deferred_grant.go), five and ten logins a minute, ten second polls.

## Where the code and its comments disagree

- battlepass_store.go:536-541 says that purging claims alone makes auto-grant re-deliver every
  still-satisfied tier. Marked tiers are re-earned (`AwardSafety.ClaimsPurgeReearnsIff`), but
  ledger rows that were delivered are never deleted, so the loop does not deliver those tiers
  again (`PaymentSafety.AutomaticDeliveryAtMostOnceEver`); it does deliver tiers it never
  delivered, such as hand-granted ones (`AwardSafety.UnpairedPurgeRedelivers`).
- auth_permissions.go:182-185 says that an operator who clears the default row gets
  deny-by-default for everyone. If that leaves the matrix without any capability, the next
  start re-seeds the read-only baseline (`Permissions.RestartKeepsMeaningIffNotEmpty`).
- scheduled_backup.go:208-209 promises that dumps beyond the limit are deleted. A dump whose
  name the delete refuses is listed, counted and never deleted
  (`Backups.RetentionIsExactIffNamesAreValid`, `Backups.MisnamedDumpStays`).

## Model

| member | source | states |
|---|---|---|
| PaymentSafety.AutomaticDeliveryAtMostOnceEver | cmd/dune-admin/battlepass_grant_engine.go:30-94 | on every run from the empty database the loop awards a (tier, account) at most once ever, across purges, demotes, heals, catalogue edits and any other failures; only the paying attempt's own seal has to be written (#291) |
| PaymentSafety.OneLostWriteIsHarmless | cmd/dune-admin/battlepass_grant_engine.go:54-94 | if an award loses its claim flip or its ledger seal, but not both, the loop never awards that key again before a purge, whatever else fails |
| PaymentSafety.TwoLostWritesPayTwice | cmd/dune-admin/battlepass_grant_engine.go:54-66 | losing both records has a run from the empty database with two awards of one claim |
| Listing.ListedKeysArePending | cmd/dune-admin/battlepass_grant_ledger.go:220-243 | in every reachable state a key the loop has listed has a pending row or none: no attempt meets a delivered or an exhausted row |
| Listing.SealedForever | cmd/dune-admin/battlepass_grant_engine.go:59-94 | on every run a delivered row stays delivered, whatever reads and writes fail and whatever operators do |
| Delivery.PaysAgainIffBothRecordsLost | cmd/dune-admin/battlepass_grant_engine.go:54-94 | a faultless attempt right after an award pays again exactly when that award lost both records |
| Delivery.PaysIff | cmd/dune-admin/battlepass_grant_engine.go:30-94 | helper of GrantEngine.AttemptGrant, gathering its branches: an earned, undelivered, catalogued claim, and every read and game call succeeds |
| PaymentSafety.PaidAtMostOncePerPurge | cmd/dune-admin/battlepass_store.go:488-499 | between purges a tier is paid at most once, by the loop or by hand, when the first payment's flip is kept |
| PaymentSafety.GrantedIffPaid | cmd/dune-admin/battlepass_store.go:488-499 | on every run in which the key's payments keep their flips, a claim is granted exactly when its tier was paid since the last purge of it |
| AwardSafety.EarnedClaimsWereWitnessed | cmd/dune-admin/battlepass_engine.go:161-220 | with award-past off a claim becomes earned only in an evaluation that finds the tier satisfied after an earlier one, since the marker purge, saw it unsatisfied and marked it, for that account; with paired purges no purge lies between (#297) |
| AwardSafety.MarkedIffWatched | cmd/dune-admin/battlepass_store.go:638-677 | in every reachable state a marker is there exactly when an evaluation found the unclaimed tier unsatisfied and put it there, and no purge has deleted it since |
| AwardSafety.UnwatchedTierIsOnlyBaselined | cmd/dune-admin/battlepass_engine.go:146-169 | a tier no evaluation has marked unsatisfied since the last marker purge is only ever baselined, whenever it was added |
| AwardSafety.PurgedAccountIsRebaselined | cmd/dune-admin/battlepass_store.go:536-570 | after a paired purge the next award-past-off evaluation of the account earns nothing and adds no ledger row (#293) |
| AwardSafety.ClaimsPurgeReearnsIff | cmd/dune-admin/battlepass_store.go:536-570 | after a purge of the claims, the next complete award-past-off evaluation re-earns a tier if and only if the purge left the markers, the tier was marked and it is satisfied |
| AwardSafety.UnpairedPurgeRedelivers | cmd/dune-admin/battlepass_store.go:536-553 | from the empty database, with award-past off: a tier watched, earned and granted by hand is, after a purge without markers, earned, enqueued and delivered by the loop again |
| AwardSafety.DemotedTierIsNeverDelivered | cmd/dune-admin/battlepass_store.go:516-534 | a tier claimed when a demote completes is not paid by the loop or by hand until a purge, not even from a due list taken before, and granted claims stay granted |
| LedgerLaws.UnsettledRowsHaveLiveClaims | cmd/dune-admin/battlepass_grant_ledger.go:54-66 | in every reachable state a pending or exhausted row has an earned or granted claim behind it, unless a failed read of the settled check was recorded for that key while it had no such claim |
| LedgerLaws.AgreementBrokenOnlyByFailedReads | cmd/dune-admin/battlepass_grant_engine.go:30-47 | exactly which attempts leave an unsettled row with no live claim: a recorded read failure on a key without one |
| LedgerLaws.FailedReadBreaksAgreement | cmd/dune-admin/battlepass_grant_engine.go:30-47 | such an attempt is reachable: a tier is listed, its claim purged, and the attempt's status read fails |
| LedgerLaws.StatusFollowsAttempts | cmd/dune-admin/battlepass_grant_ledger.go:91-124 | in every reachable state pending means fewer than three attempts and exhausted at least three |
| LedgerLaws.AttemptsCountFailures | cmd/dune-admin/battlepass_grant_ledger.go:91-178 | on every run, on every unsettled row, the attempts column is the number of recorded non-online failures of every kind since the row was created or healed |
| LedgerLaws.OnlineDeferralNeverExhausts | cmd/dune-admin/battlepass_grant_ledger.go:126-150 | an online deferral leaves claim, status and attempts alone, and starts a missing row at zero attempts (#259, #280) |
| LedgerLaws.DueListIsExact | cmd/dune-admin/battlepass_grant_ledger.go:216-243 | in every reachable state the text query returns exactly the pending rows whose time is unset or has come; its attempts filter is redundant |
| LedgerLaws.BackoffIsWaitedOut | cmd/dune-admin/battlepass_grant_ledger.go:91-150 | a refused attempt that is recorded and leaves the row pending makes it due again exactly from a day later on, or five minutes later when the player was online |
| LedgerLaws.HealIsIdempotent | cmd/dune-admin/battlepass_grant_ledger.go:152-178 | healing changes a ledger exactly when some exhausted row carries the online marker, and nothing the second time |
| LedgerLaws.HealIsIdleOnEveryRun | cmd/dune-admin/battlepass_grant_ledger.go:152-178 | when only online errors carry the marker, healing is a no-op in every reachable state of the current failure routing |
| RetryBound.SpendingIsPaidFor | cmd/dune-admin/battlepass_grant_ledger.go:91-150 | over any stretch of any run without enqueues, heals or resets that change the ledger, the attempts that spend plus the potential at its end (what pending rows have left, and three for each listed key whose row is gone) do not exceed the potential at its start, under any faults and with any number of servers' loops |
| RetryBound.AttemptSpends | cmd/dune-admin/battlepass_grant_ledger.go:91-150 | in every reachable state, an attempt lowers the attempts left over all pending rows exactly when the key still has its row, it is not an online deferral and its ledger write is made; it raises them exactly when a reset has deleted the row and a failure is recorded |
| RetryBound.StaleListingRaisesTheTotal | cmd/dune-admin/battlepass_grant_ledger.go:91-124 | such a rise is reachable: a tier is listed, its row deleted by a purge, and the attempt's recorded failure creates it again |
| RetryBound.QuietSteps | cmd/dune-admin/battlepass_grant_ledger.go:54-66 | which steps leave the ledger alone: manual grants and catalogue edits always, an evaluation exactly when it creates no row, as with auto-grant off, a heal exactly when nothing carries the marker |
| RetryBound.RetriesAreBounded | cmd/dune-admin/deferred_grant.go:77-88 | from any reachable state, such a stretch makes at most three attempts per pending row, and per listed key whose row is gone, that are neither online deferrals nor lost ledger writes; once the potential is spent the due lists of all servers are empty for the rest of it |
| IntelLaws.GrantMovesWhatItDelivers | cmd/dune-admin/battlepass_store.go:573-605 | each grant step lowers the account's earned total, and raises its granted total, by exactly the intel awarded |
| IntelLaws.DeliveredEqualsGranted | cmd/dune-admin/battlepass_store.go:573-605 | on every run that pays this account as recorded, intel delivered since the last purge is the total of the account's granted claims |
| IntelLaws.ConservedIffTierUnedited | cmd/dune-admin/battlepass_grant_engine.go:36-66 | a paying attempt conserves intel exactly when the tier's intel is still what the claim recorded |
| IntelLaws.UneditedPricesPayAsRecorded | cmd/dune-admin/battlepass_store.go:355-367 | on runs whose catalogues never change a key's intel, the loop pays what the claim recorded |
| EvaluationLaws.CrashesLeaveNoTrace | cmd/dune-admin/battlepass_engine.go:101-144 | however often an evaluation is cut off, after whichever writes, the run that completes leaves the tables one undisturbed run would have left |
| EvaluationLaws.SecondEvaluationIsIdle | cmd/dune-admin/battlepass_engine.go:113-144 | evaluating again with nothing new changes no table |
| EvaluationLaws.EveryEarnedClaimIsEnqueued | cmd/dune-admin/battlepass_engine.go:79-111 | a complete evaluation with auto-grant leaves every earned claim of the account a ledger row, changes no existing claim or row, and adds rows only behind earned claims |
| EvaluationLaws.ClaimsAreCreatedOnSatisfaction | cmd/dune-admin/battlepass_engine.go:146-220 | which claims a complete evaluation creates, with which status and intel, and which markers, in both directions |
| EvaluationOutcomes.ClaimsFollowSignals | cmd/dune-admin/battlepass_engine.go:45-56 | an enabled, unclaimed tier gets a claim exactly when the level is at least its threshold, its journey node is completed, or its tag is held, by its kind of signal, and never for any other kind; otherwise it is marked |
| EvaluationOutcomes.FaultlessEvaluation | cmd/dune-admin/battlepass_engine.go:113-220 | with no fault that matters, each tier's claim, marker and row after an evaluation, from the player's level, the nodes and tags the game returned, the two settings and the cell before |
| EvaluationOutcomes.StalledEvaluation | cmd/dune-admin/battlepass_engine.go:113-193 | when the claims cannot be read nothing changes; when markers or needed signals cannot, no claim and no marker changes and only the rows of earned claims are made up for |
| EvaluationOutcomes.StallsIff | cmd/dune-admin/battlepass_engine.go:177-245 | a failed read matters exactly when some enabled, unclaimed tier needs it |
| EvaluationOutcomes.UnlistedTierKeepsItsClaim | cmd/dune-admin/battlepass_engine.go:113-144 | a tier that left the catalogue keeps its claim and marker |
| EvaluationLaws.TierOrderIsIrrelevant | cmd/dune-admin/battlepass_engine.go:177-193 | any permutation of the tiers, and of the retroactive grants, gives the same tables |
| EvaluationLaws.LazySignalsChangeNothing | cmd/dune-admin/battlepass_engine.go:58-77 | fetching only the signal sets unclaimed enabled tiers need leads to the same writes as fetching all |
| Evaluation.PrefixBetween | cmd/dune-admin/battlepass_engine.go:101-220 | after any prefix of its writes each cell lies between the cell before and the complete one, and no row is ahead of its claim |
| Evaluation.PlanReaches | cmd/dune-admin/battlepass_engine.go:124-220 | the whole list of writes brings every key to the cell read off the player and the old cell |
| Ticks.TickRowByRow | cmd/dune-admin/battlepass_engine.go:247-274 | after a tick each key shows its own player's evaluation of the starting tables, and unvisited keys are unchanged |
| Ticks.PlayerOrderIsIrrelevant | cmd/dune-admin/battlepass_engine.go:247-274 | for distinct players any order of the same evaluations, with any of them failing part-way, gives the same tables |
| Ticks.TickOrderIsIrrelevant | cmd/dune-admin/battlepass_engine.go:177-274 | two complete ticks of the same distinct players leave the same tables, whatever the order of the players, of each one's tiers, and of the retroactive grants |
| Ticks.TickRunsStartTogether | cmd/dune-admin/battlepass_engine.go:247-274 | every evaluation of a tick of distinct players is one of the tables the tick started from |
| EvaluationOutcomes.FaultlessTick | cmd/dune-admin/battlepass_engine.go:247-274 | a tick that reaches all of its distinct players without a fault leaves each tier's cell of every one of them as that player's own level and signals say, and no other account changed |
| Engine.FaultlessTickCompletes | cmd/dune-admin/battlepass_engine.go:247-274 | a tick of distinct players in which nothing fails completes every evaluation, as planned on the starting tables |
| Ticks.FailureStaysWithItsPlayer | cmd/dune-admin/battlepass_engine.go:247-274 | stopping one player's evaluation elsewhere changes only that player's rows |
| Ticks.OtherRowsUntouched | cmd/dune-admin/battlepass_engine.go:124-144 | an evaluation leaves the rows of other accounts and servers alone |
| Protocol.StepOnCell | cmd/dune-admin/battlepass_store.go:355-677 | every step of the protocol acts key by key: an evaluation leaves a cell between the old one and the complete evaluation of it, an attempt is a function of the key's own cell and its catalogued tier, every other step of the cell alone |
| Engine.UnclaimedTiers | cmd/dune-admin/battlepass_engine.go:58-77 | the loop finds the enabled tiers without a claim, in order, and exactly the signals they need |
| Engine.RetroactiveTiers | cmd/dune-admin/battlepass_engine.go:79-93 | the earned tiers of the claim map, each once |
| Engine.EnqueueRetroactive | cmd/dune-admin/battlepass_engine.go:95-111 | makes the planned retroactive writes until they run out or one fails |
| Engine.FetchSignals | cmd/dune-admin/battlepass_engine.go:222-245 | loads a signal set exactly when it is needed; an error of an unneeded one cannot happen |
| Engine.ApplyTierAction | cmd/dune-admin/battlepass_engine.go:146-220 | makes the tier's planned writes, claim before ledger row, stopping at the first failure |
| Engine.RecordTiers | cmd/dune-admin/battlepass_engine.go:182-193 | makes the planned writes of all unclaimed tiers in order, stopping at the first failure |
| Engine.RecordSatisfied | cmd/dune-admin/battlepass_engine.go:171-193 | writes nothing when a signal or marker read fails, and otherwise the plan of the full signal sets |
| Engine.EvaluatePlayer | cmd/dune-admin/battlepass_engine.go:113-144 | leaves the outcome of a run cut off after exactly the writes that succeeded, and reports success exactly when the whole plan was written |
| Engine.EvaluateTick | cmd/dune-admin/battlepass_engine.go:247-274 | evaluates all the players, or those before a cancelled pacing pause, or none when there are no tiers or tiers or players cannot be fetched, with the matching error; each as far as its own reads and writes let it on the tables the earlier ones left; for distinct players every run is one of the starting tables |
| Engine.PerformsPrefix | cmd/dune-admin/battlepass_engine.go:101-111 | writing until one fails leaves a prefix of the writes |
| GrantEngine.AlreadySettled | cmd/dune-admin/battlepass_grant_engine.go:71-94 | settled exactly for a delivered row or a key with no earned claim, which it seals |
| GrantEngine.RecordFailure | cmd/dune-admin/battlepass_grant_engine.go:96-110 | an online cause defers the row, any other counts an attempt |
| GrantEngine.AttemptGrant | cmd/dune-admin/battlepass_grant_engine.go:21-69 | the new tables, the error and the award are those of the attempt's verdict |
| Outcomes.AwardOutcome | cmd/dune-admin/battlepass_grant_engine.go:54-69 | an attempt that gets to award pays the catalogued intel, flips the claim and seals the row, keeping its attempts, each unless its write is lost |
| Outcomes.SettledOutcome | cmd/dune-admin/battlepass_grant_engine.go:71-94 | a delivered row is left alone and a key with nothing earned is sealed unpaid |
| Outcomes.RefusedByFirst | cmd/dune-admin/battlepass_grant_engine.go:30-57 | an attempt is refused for the first thing that goes wrong, in the order status, claim, tier, missing tier, target, award |
| Outcomes.FailureOutcome | cmd/dune-admin/battlepass_grant_ledger.go:87-124 | a failure that is not about an online player, a missing tier among them, counts an attempt and keeps its message; the third exhausts the row, before that it waits 24 hours |
| Outcomes.OnlineOutcome | cmd/dune-admin/battlepass_grant_ledger.go:126-150 | an online player only puts the next attempt five minutes off, with the message kept |
| GrantEngine.ListRetryable | cmd/dune-admin/battlepass_grant_engine.go:144-154 | lists every due row once, each with its own tier key (#291) |
| GrantEngine.ProcessTick | cmd/dune-admin/deferred_grant.go:74-88 | attempts every due key of the server exactly once, also several tiers of one account, and changes nothing else; a failure does not stop the rest |
| GrantEngine.GrantTierByHand | cmd/dune-admin/handlers_battlepass.go:473-508 | pays exactly an earned claim its recorded intel, and flips it unless that write is lost; otherwise says what was missing or failed |
| GrantEngine.GrantAccountByHand | cmd/dune-admin/handlers_battlepass.go:30-75 | one award of exactly the account's earned total, and every earned claim flipped unless that write is lost; otherwise says what was missing or failed |
| Outcomes.HandGrantOutcome | cmd/dune-admin/handlers_battlepass.go:30-75 | a manual grant touches earned claims only: granted when everything succeeds, noted with one more attempt and the message, and still earned, when the award fails |
| GrantEngine.TotalOf | cmd/dune-admin/handlers_battlepass.go:57-61 | the loop's sum over the claims is the account's earned total |
| GrantEngine.ResetClaims | cmd/dune-admin/handlers_battlepass.go:785-835 | cell by cell and by what failed: a demote turns earned claims in scope into baseline and keeps the rest, a purge deletes claims and markers in scope, both drop exactly the unsettled rows in scope; nothing after the first failure; delivered rows and other accounts stay |
| Outcomes.DemoteOutcome | cmd/dune-admin/battlepass_store.go:516-534 | a demote, by how many of its statements were made: row, claim and marker of every key |
| Outcomes.PurgeOutcome | cmd/dune-admin/battlepass_store.go:536-570 | a purge, by how many of its statements were made: row, claim and marker of every key |
| Store.BattlepassStore.WithScope | cmd/dune-admin/battlepass_store.go:135-140 | a view of the same tables bound to another server |
| Store.BattlepassStore.ListTiers | cmd/dune-admin/battlepass_store.go:173-189 | the server's own tiers |
| Store.BattlepassStore.GetTierByKey | cmd/dune-admin/battlepass_store.go:203-215 | the tier of that key on this server, or nothing |
| Store.BattlepassStore.RecordClaim | cmd/dune-admin/battlepass_store.go:350-367 | inserts a claim and leaves an existing one alone |
| Store.BattlepassStore.ClaimedKeys | cmd/dune-admin/battlepass_store.go:369-388 | the map from the account's claimed tiers to their statuses |
| Store.BattlepassStore.EarnedClaims | cmd/dune-admin/battlepass_store.go:417-428 | the account's earned claims, each once |
| Store.BattlepassStore.EarnedClaim | cmd/dune-admin/battlepass_store.go:468-485 | the claim of the key when it is earned |
| Store.BattlepassStore.MarkGrantedForTier | cmd/dune-admin/battlepass_store.go:487-499 | flips that one claim if it is earned |
| Store.BattlepassStore.RecordGrantFailureForTier | cmd/dune-admin/battlepass_store.go:501-514 | notes the error on that one claim if it is earned |
| Store.BattlepassStore.UpdateAccount | cmd/dune-admin/battlepass_store.go:593-620 | applies a claim update to every claim of exactly one account of this server |
| Store.BattlepassStore.DemoteEarnedClaims | cmd/dune-admin/battlepass_store.go:516-534 | earned claims in scope become baseline, all others stay |
| Store.BattlepassStore.PurgeAllClaims | cmd/dune-admin/battlepass_store.go:536-553 | deletes the claims in scope, of every status |
| Store.BattlepassStore.EarnedTotals | cmd/dune-admin/battlepass_store.go:572-591 | one entry for each account with an earned claim, holding the sum of its earned intel |
| Store.BattlepassStore.SeenUnsatisfiedKeys | cmd/dune-admin/battlepass_store.go:638-662 | the tiers marked for the account |
| Store.BattlepassStore.MarkSeenUnsatisfied | cmd/dune-admin/battlepass_store.go:664-677 | adds one marker |
| Store.BattlepassStore.PurgeTierSeen | cmd/dune-admin/battlepass_store.go:555-570 | deletes the markers in scope |
| Store.BattlepassStore.RecordPendingGrant | cmd/dune-admin/battlepass_grant_ledger.go:47-66 | inserts a pending row and leaves an existing one alone |
| Store.BattlepassStore.RecordGrantLedgerSuccess | cmd/dune-admin/battlepass_grant_ledger.go:68-85 | upserts a delivered row, keeping the attempts of an existing one |
| Store.BattlepassStore.RecordGrantLedgerFailure | cmd/dune-admin/battlepass_grant_ledger.go:87-124 | upserts one more attempt, exhausted at the third and otherwise pending with a later time |
| Store.BattlepassStore.RecordGrantLedgerRetryLater | cmd/dune-admin/battlepass_grant_ledger.go:126-150 | moves the next attempt without touching status or attempts |
| Store.BattlepassStore.HealExhaustedOnlineGrantLedger | cmd/dune-admin/battlepass_grant_ledger.go:152-178 | exhausted rows of every server that carry the online marker start over |
| Outcomes.HealOutcome | cmd/dune-admin/battlepass_grant_ledger.go:152-178 | an exhausted row that carries the marker becomes pending with no attempts, keeps its message and is due at every instant; no other cell changes |
| Outcomes.MarkerOutcome | cmd/dune-admin/battlepass_grant_ledger.go:167-171 | a message carries the marker exactly when "player is currently" stands in it, in any case |
| Store.BattlepassStore.DeleteUnsettledGrantLedger | cmd/dune-admin/battlepass_grant_ledger.go:180-197 | deletes pending and exhausted rows in scope and keeps delivered ones |
| Store.BattlepassStore.GrantLedgerStatus | cmd/dune-admin/battlepass_grant_ledger.go:199-214 | the row's status, or nothing |
| Store.BattlepassStore.ListRetryableGrantLedger | cmd/dune-admin/battlepass_grant_ledger.go:216-243 | the due rows of this server, each once |
| Outcomes.DueOutcome | cmd/dune-admin/battlepass_grant_ledger.go:216-243 | the due list holds exactly the server's own pending rows with fewer than three attempts whose time text is not after the present one |
| Timestamps.TextOrderIsTimeOrder | cmd/dune-admin/battlepass_grant_ledger.go:220-227 | for all instants of years 0000 to 9999 the texts compare, and are equal, exactly as the instants, with the empty text least |
| Timestamps.TextReadsBack | cmd/dune-admin/battlepass_grant_ledger.go:220-227 | the text has the layout of section 5.6 of RFC 3339 in UTC, and reading its numbers back gives the instant |
| Timestamps.GregorianYears | cmd/dune-admin/db_backup.go:208 | the calendar is the Gregorian one |
| Timestamps.CivilOf | cmd/dune-admin/db_backup.go:208 | every instant has a valid calendar date whose instant it is |
| Timestamps.CivilOrderIsTimeOrder | cmd/dune-admin/db_backup.go:213-215 | dates ordered by their fields are ordered by time, in both directions |
| Timestamps.TextOrderEndsWithYear9999 | cmd/dune-admin/db_backup.go:213-215 | the texts of year 10000 sort before those of year 9999 |
| Timestamps.BlankComesFirst | cmd/dune-admin/battlepass_grant_ledger.go:220-227 | an unset time is due at every instant |
| Backups.SortNewestFirst | cmd/dune-admin/db_backup.go:213-215 | a permutation, newest text first |
| Backups.Directory.ListBackups | cmd/dune-admin/db_backup.go:194-217 | every readable dump file once, and nothing else, newest text first |
| Backups.Directory.Delete | cmd/dune-admin/db_backup.go:239-249 | removes exactly the named file, and only a valid name |
| Backups.Directory.Prune | cmd/dune-admin/scheduled_backup.go:208-230 | deletes exactly the tail of a newest-first listing, less refused names and failed deletes |
| Backups.RetentionKeepsTheNewest | cmd/dune-admin/db_backup.go:110-117 | pruning keeps exactly the N newest dumps to the second, or all when there are no more or N is not positive |
| Backups.RetentionIsExactIffNamesAreValid | cmd/dune-admin/db_backup.go:97-117 | exactly N dumps are left if and only if every name given up is one the delete accepts |
| Backups.MisnamedDumpStays | cmd/dune-admin/db_backup.go:97-117 | a directory whose older dump has a space in its name: keeping one, every pruning pass gives it up and leaves both |
| Backups.ScheduledNamesAreValid | cmd/dune-admin/db_backup.go:93-122 | every name the scheduler gives a backup can be deleted again |
| Backups.ScheduledNameLayout | cmd/dune-admin/db_backup.go:119-122 | the name is "dune-", the digits of the date and time, and ".dump" |
| Backups.ListedExactly | cmd/dune-admin/db_backup.go:199-212 | a name is listed exactly when it is that of a readable file, not a directory, ending in ".dump", with its size and time |
| Backups.RefusedNames | cmd/dune-admin/db_backup.go:95-108 | separators, "..", spaces and a bare or missing suffix are refused |
| Backups.AcceptedNames | cmd/dune-admin/db_backup.go:95-108 | letters, digits, underscores and hyphens with single dots between them are accepted |
| LoginLimiter.Limiter.Compact | cmd/dune-admin/auth_local.go:105-111 | writing the kept times over the slice being read leaves exactly the times of the last minute, in order |
| LoginLimiter.Limiter.Slide | cmd/dune-admin/auth_local.go:105-113 | the key's slice becomes its whole history filtered to the last minute |
| LoginLimiter.Limiter.Bump | cmd/dune-admin/auth_local.go:103-115 | true exactly when the calls of the last minute are within the limit; other keys keep their slices |
| LoginLimiter.Limiter.Allow | cmd/dune-admin/auth_local.go:92-101 | true exactly when the history of calls is within both budgets, refused calls counted; and every span shorter than a minute of all the limiter's calls so far is within both budgets |
| LoginLimiter.SlidingWindow | cmd/dune-admin/auth_local.go:71-115 | in any span shorter than a minute at most five logins per IP and ten per username are let through |
| LoginLimiter.AllowedExactly | cmd/dune-admin/auth_local.go:71-115 | a call is let through exactly when at most 5 calls of the last 60 seconds, itself and refused ones included, came from its IP and at most 10 named its user |
| LoginLimiter.FiveAndTen | cmd/dune-admin/auth_local.go:71-115 | of the calls in any span shorter than 60 seconds, at most 5 from one IP and at most 10 for one username are let through |
| LoginLimiter.QuietMinuteResets | cmd/dune-admin/auth_local.go:103-115 | after a minute without attempts for the IP and the username the next one is let through |
| LoginLimiter.WithinLater | cmd/dune-admin/auth_local.go:105-111 | filtering what was already filtered is filtering the whole history |
| ConfigImport.WholeImport | cmd/dune-admin/config_import.go:79-137 | a completed import leaves the seed's servers in order with consecutive ids, from 1 (from past the last id given out, were the sequence not reset), the first active, all settings saved and the marker set, whatever rows were there before |
| ConfigImport.ImportedRows | cmd/dune-admin/config_import.go:79-148 | row by row: the listed servers with ids and positions in order, or else the flat one, or none; the first active; every settings table; the marker |
| ConfigImport.CrashesLeaveNoTrace | cmd/dune-admin/config_import.go:79-113 | after any number of starts cut off anywhere, the first complete one leaves exactly what an undisturbed import would |
| ConfigImport.FirstCompleteImportStays | cmd/dune-admin/config_import.go:24-49 | over any starts, with any config.yaml each, what stays in place is the first import that completes: ids 1 to n in order, the first active, the marker set, never cleared again |
| ConfigImport.CutOffImport | cmd/dune-admin/config_import.go:83-113 | an import that stops before its end leaves the marker as it was, and the active server too when there is none to import |
| ConfigImport.ImportedOnce | cmd/dune-admin/config_import.go:37-49 | helper of ConfigImport.FirstCompleteImportStays: with the marker set a start imports nothing |
| ConfigImport.LateConfigStillImports | cmd/dune-admin/config_import.go:38-45 | starts without a config.yaml import nothing and set no marker, and one dropped in later is imported as on a first start |
| ConfigImport.IdsShiftWithoutReset | cmd/dune-admin/config_import.go:87-95 | without the sequence reset a completed import is right if and only if no id was ever given out |
| ConfigImport.OneCrashShiftsIds | cmd/dune-admin/config_import.go:87-95 | without it one crash after the first row makes the retry start at id 2 |
| ConfigStore.ConfigDatabase.NextRowId | cmd/dune-admin/servers_store.go:16-24 | an AUTOINCREMENT id is past every id in the table and every id given out |
| ConfigStore.ConfigDatabase.SaveSettings | cmd/dune-admin/app_config_columns.go:82-169 | six upserts, stopping at the first failure |
| ConfigStore.ConfigDatabase.InsertServer | cmd/dune-admin/servers_store.go:35-55 | the row first, its columns by a second statement |
| ConfigStore.ConfigDatabase.ImportSeedServers | cmd/dune-admin/config_import.go:115-148 | the servers in order, or the flat legacy one; the first one's scope is to be active |
| ConfigStore.ConfigDatabase.ImportConfigYaml | cmd/dune-admin/config_import.go:79-113 | the store an import cut off after the given number of statements leaves, and success exactly when it is not cut off |
| ConfigStore.ConfigDatabase.Hydrate | cmd/dune-admin/config_import.go:24-49 | imports exactly when the marker can be read and is unset and there is a config.yaml |
| UpdateWatcher.WaitForUpdateThenRestart | cmd/dune-admin/control_amp.go:405-436 | ends at the first poll that decides or is cancelled, within 181 polls when every sleep lasts its ten seconds; restarts once if it decided and never if cancelled; a restart before the cap follows a running task that cleared, or a grace period in which no poll found one |
| UpdateWatcher.EarlyRestartIsJustified | cmd/dune-admin/control_amp.go:405-436 | helper of UpdateWatcher.WaitForUpdateThenRestart: what a deciding poll before the cap shows |
| UpdateWatcher.QuietUpdateEndsByGrace | cmd/dune-admin/control_amp.go:305-310 | with no task ever found the thirteenth poll ends the wait |
| UpdateWatcher.ErrorsAreNotClears | cmd/dune-admin/control_amp.go:405-436 | a failed status call never ends the wait of an update that was seen running, before the 30 minutes are over |
| UpdateWatcher.DecidesExactly | cmd/dune-admin/control_amp.go:413-436 | a poll decides exactly on an answer of no tasks after an answer of some, on two minutes without an answer of any, or on thirty minutes |
| UpdateWatcher.SilenceIsNoTask | cmd/dune-admin/control_amp.go:405-436 | while no task was found, replacing every answer by an error changes neither when nor why the wait ends |
| UpdateWatcher.MostPollsIsAttained | cmd/dune-admin/control_amp.go:305-310 | the bound of 181 polls is attained |
| Permissions.RestartKeepsMeaningIffNotEmpty | cmd/dune-admin/auth_permissions.go:196-222 | saving a matrix and restarting keeps the capabilities of every session if and only if some row of it names a capability |
| Permissions.RestartIsInvisibleIff | cmd/dune-admin/auth_permissions.go:196-222 | over any run of edits and restarts, with loads that fail and saves that are lost: a further restart that loads is invisible to every session exactly when an empty table meets the baseline in the cache, or stored rows are served already or grant nothing; one whose load fails, exactly when nothing was granted |
| Permissions.CacheFollowsTable | cmd/dune-admin/auth_permissions.go:313-346 | over any such run the cached matrix has the stored rows, is the baseline whose save was lost, or is empty after a failed load |
| Permissions.MeansNothingIff | cmd/dune-admin/auth_permissions.go:79-88 | a matrix gives every session what the empty one gives exactly when it names no known capability |
| Permissions.RowsDecideMeaning | cmd/dune-admin/app_permissions_store.go:27-45 | matrices with the same rows grant every guest, member and local session the same, whatever the order, repetition and empty rows |
| Permissions.MeaningIsPerRole | cmd/dune-admin/auth_permissions.go:90-130 | two matrices mean the same for all sessions exactly when they do for every single role |
| Permissions.PermissionTable.Save | cmd/dune-admin/app_permissions_store.go:47-68 | the table becomes the matrix's rows, or is unchanged when any statement fails |
| Permissions.PermissionTable.Load | cmd/dune-admin/app_permissions_store.go:25-45 | grouping the rows, in any order, gives a matrix with exactly those rows; ok tells whether there were any |
| Permissions.PermissionsState.ApplyMatrixRow | cmd/dune-admin/auth_permissions.go:79-88 | adds exactly the known capabilities of the row |
| Permissions.PermissionsState.CapsForRoles | cmd/dune-admin/auth_permissions.go:90-103 | the default row and the session's role rows, nothing else |
| Permissions.PermissionsState.CapsForSession | cmd/dune-admin/auth_permissions.go:105-130 | exactly the known capabilities granted by the rows the session inherits or assigned to its local user |
| Permissions.GuestGets | cmd/dune-admin/auth_permissions.go:110-119 | a guest gets exactly the known names of the default and guest rows |
| Permissions.MemberGets | cmd/dune-admin/auth_permissions.go:90-130 | any other session gets exactly the known names of the default row and its roles' rows, and a local user also those assigned to its name |
| Permissions.UserNames | cmd/dune-admin/auth_permissions.go:121-122 | the user's name is the subject without a leading "local:" |
| Permissions.FirstStartGets | cmd/dune-admin/auth_permissions.go:182-222 | on a first start a guest gets exactly the five read-only capabilities |
| Permissions.CapabilityCatalogue | cmd/dune-admin/auth_capabilities.go:15-84 | the thirty capabilities that can be granted, those that look and those that change |
| Permissions.PermissionsState.Put | cmd/dune-admin/auth_permissions.go:313-346 | a matrix with an unknown capability, or whose save fails, changes neither table nor cache; otherwise both |
| Permissions.PermissionsState.Init | cmd/dune-admin/auth_permissions.go:196-222 | caches the stored rows, or seeds and caches the baseline when there are none; a failed load changes nothing |

## Left out

- SQL, SQLite and pgx: each statement is modelled as its effect on a map; drivers, locks and the database files are not part of this model.
- Columns nothing here depends on: `updated_at`, `earned_at`, `granted_at`, labels, categories and reward items; 64-bit width of intel and ids.
- The order of the due list and the row counts that statements return.
- The individual catalogue edits (create, update, bulk enable, delete, reseed, import): the protocol has one step that replaces a server's catalogue by any other with distinct keys.
- Delivery of a tier's items after the award, which is best effort, and the tier and player ids the game side needs.
- `earnedClaimsWithTiers`: its join leaves out `server_id`, so "one row per claim" is not true of it once two servers share a tier key.
- Tickers, boot delay and pacing times; interval clamps; the default catalogue.
- Concurrency: engine instances or delivery loops of one server overlapping during a live re-apply, a manual grant inside an attempt, an evaluation between the statements of one reset request, and a reset or a manual grant between the reads of one evaluation (claims, markers) and its writes, where markers read before a purge can re-earn a tier after it. The code takes no lock there and nothing is claimed for them.
- `markBaselined` and `battlepass_accounts`, which the engine no longer reads; schema migrations.
- Backups.SortNewestFirst: stands for the library sort, as an insertion; only its contract is used, which leaves ties in any order.
- Reading a directory is an enumeration in any order; dump, restore and upload of backups, and the backup schedule itself.
- LoginLimiter.Limiter.Allow: takes the clock reading as an argument that never goes back, as the monotonic clock read under the lock; how far `append` grows a slice is not modelled.
- After the import: the legacy table migration, `backfillAmpContainerRuntime`, and loading and applying the configuration. Typed columns are one text; the active scope is the id itself and not its decimal text.
- Dropping foreign-key dependants when servers are cleared, and edits an operator makes in a running process whose import failed half-way.
- UpdateWatcher.WaitForUpdateThenRestart: requires that a completed sleep lasts at least the interval, as the timer promises; without it the code has no bound.
- Permissions: the legacy `permissions.yaml` fallback, the Discord role list, and owner sessions, which bypass the matrix.
- JWT, passwords, cookies, OAuth, HTTP routing, the read cache, AMP and docker commands, logs, INI files, SSH, the front end.
