# A verified model of the trade-finance backend

A Dafny model of the algorithms, protocols and state machines of a NestJS trade-finance backend, with
proofs of what they promise. `dafny verify dfyconfig.toml` checks all of it.

Code that works by changing things step by step is modelled as classes and methods with loops, each
proved equal to a function of its inputs or of the old state; the properties are then proved of those
functions, over every input, every run or every reachable state. Where a promise does not hold of the
code, the code is kept as it is, and the lemma says exactly when the promise holds.

| files | component |
|---|---|
| `SweepLine`, `Presence`, `PresenceService` | peak concurrency of collaboration sessions; the presence registry |
| `Detectors`, `MonitoringSweep`, `MonitoringService`, `SweepDelivery`, `StructuringSweep` | sliding-window money-laundering detectors; the sweep that turns findings into alerts and cases; what sweeps report and miss |
| `AmlCases`, `AmlCaseProofs`, `AmlCaseClosure`, `AmlCaseEffects`, `AmlCaseService` | the investigation workflow: cases, alerts, feedback, rule tuning, closure, and what each operation changes |
| `TokenRotation`, `AuthService`, `Durations` | refresh-token families, reuse detection, session invalidation (`exp` as in section 4.1.4 of RFC 7519) |
| `CursorPagination` | keyset pagination |
| `Reencrypt` | re-encryption of personal data under a new key |
| `AuditRetention`, `AuditRetentionService`, `RetentionPolicy` | archiving and purging of audit rows under crashes; retention dates |
| `AuditRetrieval`, `AuditRetrievalService` | approved retrieval of archived audit rows |
| `RuleEngine`, `RuleEffects`, `RuleEngineService` | versioned compliance rules and the decision they reach |
| `NameMatch` | name normalisation and similarity for sanctions screening |
| `CounterpartyRisk`, `CounterpartyFactors`, `Herfindahl` | counterparty scores and portfolio diversification |
| `Cidr` | 32-bit address masking for threat-feed ranges |
| `Options`, `Collections`, `Sorting`, `OrderedMaps`, `Buckets`, `Division`, `Decimals` | what the others share: the stable sort, insertion-ordered maps, grouping, sums, division, decimal numerals |

What the environment supplies is a parameter: the clock, fresh ids (a counter, or an id not in use), the
order in which a database returns rows, whether a storage or database call fails, the store's answers to
a HEAD request, and string functions of the runtime such as `Number`, `parseInt` and Unicode folding.

## Main results

- Money-laundering detectors report exactly when some selection of flows qualifies: `Detectors.StructuringIff`, `LayeringIff`, `VelocityIff`.
- A sweep reports structuring exactly when the first qualifying window of a time bucket touches it; sweeps that leave no movement out miss no selection: `StructuringSweep.SweepReportsIff`, `SweepsMissNone`, `SelectionIsAlerted`.
- A live sweep stores the findings that pass, and a case is open wherever a score asks for one: `SweepDelivery.SweepDelivers`.
- Refresh tokens: each is exchanged once, a replay is caught and revokes everything, and both tokens last exactly as long as they should: `TokenRotation.EachTokenExchangedOnce`, `ReplayIsCaught`, `ReuseRevokesEverything`, `AccessLastsIff`, `RefreshLastsIff`.
- Paging under concurrent change, and exactly when it is exact: `CursorPagination.FollowUnderChange`, `ExactIffRoundTrips`.
- Re-encryption moves every plaintext under the new key, and twice is once: `Reencrypt.ProcessTable`, `ProcessTwice`, `RunPreservesPlaintextIff`; its report counts what it says: `CountersTally`.
- Audit rows survive any interleaving of crashing workers: `AuditRetention.EveryRunIsSafe`; releases are authorised, and single exactly without overlap: `AuditRetrieval.EveryReleaseIsAuthorised`, `DoubleReleaseIff`.
- Retention dates keep the order of creation: `RetentionPolicy.MonotoneOnDates`, `MonotoneOnInstantsIff`.
- Case workflow: links, scores, counters and closure over every run: `AmlCaseProofs.RunKeepsInv`, `AmlCaseClosure.ClosedCasesAreSettledIff`; sweeps are idempotent: `MonitoringService.LiveRunIsSafe`, `MonitoringSweep.SecondSweepRaisesNothing`.
- Rule engine: one active version, immutable versions, tests that bind production: `RuleEngine.RunKeepsInv`, `VersionsAreImmutable`, `TestsHoldInProduction`, `DisarmedIff`.
- The presence registry and the peak of sessions: `Presence.RunKeepsOk`, `ListShowsUsersOnce`, `SweepLine.PeakConcurrency`.
- Names, portfolios and addresses: `NameMatch.EqualTokenSetsScore`, `Above100Iff`; `CounterpartyRisk.DiversificationMeans`, `OutOfScaleIff`; `Cidr.InBadRangeIff`, `Ipv4ToLongIsInjective`.

## Findings

Places where the code does less, or other, than its documentation or its names suggest. Each has a lemma that
says exactly when, and a second one, where named, that shows a failing input.

- `StructuringSweep.SweepReportsIff`, `MissedByOneSweep`: a sweep reports one match for each time bucket and drops it when its movements lie outside the sweep's window, so another selection of the bucket that reaches into the window goes unreported by that sweep.
- `TokenRotation.WithoutJtiExchangesRepeat`, `WalletTokenRepeats`: refresh tokens of wallet (SEP-10) logins carry no jti and can be exchanged repeatedly.
- `Durations.FamilyMarkIsRead`, `WeeksAreNotRead`: a refresh lifetime in weeks, say, is read as 0 seconds when a family is revoked, so no mark is left; the version bump is then the only protection.
- `CursorPagination.ExactIffRoundTrips`, `AlteredValueBreaksPaging`: paging repeats or loses rows when a cursor alters the sort value, as JSON dates do to timestamps finer than a millisecond.
- `Reencrypt.RunPreservesPlaintextIff`, `SecondRunIff`, `WrongKeyOverwrites`: CBC without authentication lets the wrong key open a ciphertext by accident; such a cell is overwritten with a wrong plaintext. The format check does not ask for an even number of hexadecimal digits, though its comment says so.
- `RetentionPolicy.MonotoneOnInstantsIff`, `SqueezeExample`: a row of 29 February can expire before a row of the day before.
- `AuditRetrieval.DoubleReleaseIff`, `OverlappingCallsReleaseTwice`: a retrieval request is checked and marked as fulfilled in separate calls, so a call made while another is under way can release the same request again.
- `AmlCaseClosure.ClosedCasesAreSettledIff`, `ClosedByEdit`, `AttachedToClosed`: an edit closes a case without a disposition, and a closed case accepts unreviewed alerts.
- `AmlCaseProofs.AttachExposureIff`, `DoubleCountExample`: attaching an alert to its own case a second time adds its amount to the exposure again.
- `RuleEngine.DisarmedIff`, `LiveRuleDisarmed`: editing the active version of a rule, or deploying it as staged, leaves its code without an active version.
- `RuleEngine.EmptiedIsInert`, `EmptiedGoesLive`: an edit may empty the conditions, which creation refuses; the version can then go live and changes no decision.
- `RuleEngine.RollbackActivatesFailing`: a rollback puts a version into production without running its test cases, also one that a deployment would refuse.
- `RuleEngine.UniqueVersionsIff`, `RepeatedVersions`: creating a code that exists, or editing a version that is not the latest, repeats a version number.
- `NameMatch.EqualTokenSetsScore`, `RepeatedTokenScores65`, `NoiseScores0`, `ForeignScores0`: one token repeated ("ali" and "ali ali") scores 65, although the token sets are equal; a name of legal forms only, or in a script other than Latin, has no token and scores 0 even against itself.
- `NameMatch.Above100Iff`, `ScoreAbove100`: nine or more shared tokens can push the score over 100.
- `CounterpartyRisk.OutOfScaleIff`, `WorthlessScores200`: a portfolio worth nothing, spread over 2 to 201 counterparties, scores over 100.
- `CounterpartyRisk.CompositeInRange`, `CriticalIff`, `SoleDealScores81`: no composite score exceeds 81, so the critical tier spans one value.
- `Cidr.SubnetWithoutAddressIff`, `SubnetOf999`: "999.1.1.1" has a /16 subnet, though it is no address.

## Model

| member | source | states |
|---|---|---|
| `SweepLine.PeakConcurrency` | backend/src/collaboration/collaboration.service.ts:404-418 | the sweep returns the greatest value, over all instants, of the sessions in progress less the inverted ones; nothing is asked of the sessions |
| `SweepLine.SweepFindsMaximum` | backend/src/collaboration/collaboration.service.ts:409-417 | the high-water mark of the running counter over events sorted by time, leaves before joins, is a maximum over all instants, between events too |
| `SweepLine.PeakIsGreatestOverlap` | backend/src/collaboration/collaboration.service.ts:404-418 | when no session ends before it begins, the peak is reached by the sessions with joinedAt <= t < leftAt at some t and exceeded at none, so zero-length sessions count for nothing |
| `SweepLine.PeakIgnoresOrder` | backend/src/collaboration/collaboration.service.ts:404-418 | the peak of a permutation of the sessions is the same |
| `Detectors.Windows` | backend/src/aml/aml-detectors.ts:56-68 | the nested loops build, for each start, the longest run of flows within windowHours of it |
| `Detectors.DetectStructuring` | backend/src/aml/aml-detectors.ts:133-174 | the detector returns one match per key, from the first qualifying window, over the small inflows in time order |
| `Detectors.DetectLayering` | backend/src/aml/aml-detectors.ts:233-276 | the same for layering: enough flows, enough distinct deals and at least two direction changes in one window |
| `Detectors.DetectVelocity` | backend/src/aml/aml-detectors.ts:279-305 | the same for velocity: more than the permitted number of flows in one window |
| `Detectors.StructuringComplete` | backend/src/aml/aml-detectors.ts:133-174 | for every selection of small inflows that is numerous, large and close enough, a match is returned under the key of the bucket of its earliest flow |
| `Detectors.StructuringSound` | backend/src/aml/aml-detectors.ts:133-174 | every match comes from such a selection of the flows given, and its key is the key of that selection |
| `Detectors.StructuringIff` | backend/src/aml/aml-detectors.ts:133-174 | for one account with non-negative amounts, structuring is reported if and only if some selection qualifies, and the keys returned are distinct |
| `Detectors.BucketReports` | backend/src/aml/aml-detectors.ts:133-174 | the one match of a time bucket names exactly the small inflows of the window that opens at the first instant of the bucket from which some selection qualifies |
| `Detectors.ChangesOfSelection` | backend/src/aml/aml-detectors.ts:247-254 | direction changes never decrease from a subsequence to the flows around it |
| `Detectors.SelectionIsPoorer` | backend/src/aml/aml-detectors.ts:233-276 | a subsequence has no more flows, distinct deals or direction changes than the window it is taken from |
| `Detectors.LayeringComplete` | backend/src/aml/aml-detectors.ts:233-276 | every subsequence of the time-sorted flows, ties in input order, that lies within windowHours, is long enough, names enough different deals and goes one way, the other and back yields a match under the key of its first flow |
| `Detectors.LayeringSound` | backend/src/aml/aml-detectors.ts:233-276 | every match is such a subsequence, with its flow ids, its amount and its key |
| `Detectors.LayeringIff` | backend/src/aml/aml-detectors.ts:233-276 | layering is reported if and only if some such subsequence exists, under distinct keys |
| `Detectors.VelocityComplete` | backend/src/aml/aml-detectors.ts:279-305 | every selection of flows within windowHours that is larger than permitted, in any order, yields a match under the key of its earliest flow |
| `Detectors.VelocitySound` | backend/src/aml/aml-detectors.ts:279-305 | every match is such a selection, with its flow ids, its amount and its key |
| `Detectors.VelocityIff` | backend/src/aml/aml-detectors.ts:279-305 | velocity is reported if and only if some such selection exists, under distinct keys |
| `Detectors.BucketMeans` | backend/src/aml/aml-detectors.ts:43-50 | the bucket of a key starts at the last multiple of windowHours, one hour at least, not after the instant |
| `Detectors.RoundsToCents` | backend/src/aml/aml-detectors.ts:124-124 | amounts are whole cents, half a cent off at most |
| `TokenRotation.EachTokenExchangedOnce` | backend/src/auth/auth.service.ts:658-719 | over every run of logins, refreshes, logouts, invalidations and clock steps, no refresh token with a jti is exchanged twice: its mark outlives its exp |
| `TokenRotation.OneAcceptedPerFamily` | backend/src/auth/auth.service.ts:658-719 | in every reachable state at most one token of a family would still be exchanged |
| `TokenRotation.ReplayIsCaught` | backend/src/auth/auth.service.ts:689-716 | a token exchanged before is never exchanged again, and raises the reuse alarm exactly when every earlier check lets it through |
| `TokenRotation.ReuseRevokesEverything` | backend/src/auth/auth.service.ts:693-708 | after reuse is detected, no access or refresh token issued to that user before is accepted in any later state |
| `TokenRotation.InvalidationRevokesEverything` | backend/src/auth/auth.service.ts:728-750 | the same after a logout, a password change, a session revocation or a role change |
| `TokenRotation.RotationContinues` | backend/src/auth/auth.service.ts:710-719 | the pair handed out by a refresh is usable: its refresh token would be exchanged next, and its access token passes the guard unless that very token was blocked before |
| `TokenRotation.HandedOutTokens` | backend/src/auth/auth.service.ts:287-309 | what a login, a wallet login or a refresh hands out: an access token that lives accessTtl from now and a refresh token that lives its own lifetime, both of the user's current version, the family kept across a refresh |
| `TokenRotation.AccessLastsIff` | backend/src/auth/auth.service.ts:287-309 | over any later run that access token opens the guard if and only if fewer than accessTtl seconds have passed, it is not blocked and the version has not moved on; the refresh token never does |
| `TokenRotation.RefreshLastsIff` | backend/src/auth/auth.service.ts:658-719 | over any later run that refresh token is exchanged if and only if its lifetime has not passed, the version has not moved on, its family is not revoked and it was not rotated; the access token never is |
| `TokenRotation.PresentedIsBlocked` | backend/src/auth/auth.service.ts:728-750 | the token presented at a logout never opens the guard again, whosever it is |
| `TokenRotation.MarksLast` | backend/src/auth/token-blocklist.service.ts:99-116 | the marks of an exchanged and of a blocked token expire with the token, to the second |
| `TokenRotation.FamilyRevocationIff` | backend/src/auth/token-blocklist.service.ts:144-178 | the family mark alone keeps a compromised family dead for ever if and only if it is set for at least the refresh lifetime |
| `TokenRotation.ShortMarkIsOutlived` | backend/src/auth/auth.service.ts:693-708 | a run in which a shorter family mark expires while a token of the family is still verified |
| `TokenRotation.WithoutJtiExchangesRepeat` | backend/src/auth/auth.service.ts:1800-1808 | a refresh token without a jti, as wallet logins get, can be exchanged again right after it was exchanged |
| `TokenRotation.WalletTokenRepeats` | backend/src/auth/auth.service.ts:1800-1808 | such a token is handed out: the refresh token of a first wallet login is exchanged twice |
| `Durations.FamilyMarkIsRead` | backend/src/auth/auth.service.ts:268-280 | a family mark set from the configured lifetime outlives the family if and only if the lifetime, trimmed, is in the notation read (digits, blanks, a unit letter or nothing), provided the signing library reads no longer lifetime into it |
| `Durations.ReadsSpelled` | backend/src/auth/auth.service.ts:268-280 | white space around it aside, any such notation reads as its number times the seconds of its unit, bare numbers as seconds |
| `Durations.WeeksAreNotRead` | backend/src/auth/auth.service.ts:268-280 | the lifetime "1w" is read as 0 and leaves no mark that outlives the family |
| `Durations.ReadsBack` | backend/src/auth/auth.service.ts:268-280 | writing n units out and reading them back gives n times the seconds of the unit, and a bare number gives seconds |
| `Durations.UnitsRead` | backend/src/auth/auth.service.ts:268-280 | s, m, h and d, in either case, stand for 1, 60, 3600 and 86400 seconds |
| `AuthSessions.AuthService.IssuePair` | backend/src/auth/auth.service.ts:287-309 | signs the two tokens of the specification and nothing else, and draws fresh ids |
| `AuthSessions.AuthService.Login` | backend/src/auth/auth.service.ts:287-309 | the tail of a login hands out exactly that pair, and nothing to an unknown user |
| `AuthSessions.AuthService.Sep10Login` | backend/src/auth/auth.service.ts:1795-1810 | so does a wallet login, without a jti or a family |
| `AuthSessions.AuthService.RefreshTokens` | backend/src/auth/auth.service.ts:658-719 | the method with its early exits and its Redis writes is the refresh step of the protocol, result and whole state |
| `AuthSessions.AuthService.Logout` | backend/src/auth/auth.service.ts:728-750 | blocks the presented token for the rest of its life, even for a user that does not exist, and bumps the version |
| `AuthSessions.AuthService.InvalidateSessions` | backend/src/auth/auth.service.ts:1324-1350 | the version bump of changePassword, revokeSession and updateUserRole |
| `AuthSessions.AuthService.Validate` | backend/src/auth/jwt.strategy.ts:42-60 | accepts exactly the tokens that are verified, not blocked, not refresh tokens, and of the current version of a known user |
| `AuthSessions.TokenBlocklistService.MarkRefreshTokenRotated` | backend/src/auth/token-blocklist.service.ts:99-116 | writes the jti mark with its expiry, and only that, unless the lifetime is not positive |
| `CursorPagination.ApplyCursorPagination` | backend/src/common/cursor-pagination.ts:43-94 | whatever filters the query already carries, the clauses, the order and the probe row together return the page of the specification over the filtered rows: the first limit rows beyond the cursor |
| `CursorPagination.WhereAnd` | backend/src/common/cursor-pagination.ts:61-74 | conditions added later filter what the earlier ones let through |
| `CursorPagination.PageContents` | backend/src/common/cursor-pagination.ts:76-89 | a page is increasing, holds only rows beyond the cursor, and skips none up to the row its next cursor names |
| `CursorPagination.PageOrder` | backend/src/common/cursor-pagination.ts:59-74 | in terms of the fields: DESC goes down by sort value and then id, ASC goes up; the rows are those after the cursor in that order, the first ones, a full page when there are more |
| `CursorPagination.FollowUnderChange` | backend/src/common/cursor-pagination.ts:43-94 | while rows come and go between requests: no row twice, in order, and every row present throughout is returned once the last page is reached |
| `CursorPagination.FollowOrder` | backend/src/common/cursor-pagination.ts:59-74 | the pages put together go down or up in that sense |
| `CursorPagination.FollowProgress` | backend/src/common/cursor-pagination.ts:76-89 | every page but the last brings at least one row: after n requests either the last page was reached or at least n rows have come |
| `CursorPagination.FollowIsExact` | backend/src/common/cursor-pagination.ts:43-94 | on a table that stays put, the pages put together are the table sorted by (sortField, id), each row once |
| `CursorPagination.FilteredIsExact` | backend/src/common/cursor-pagination.ts:37-94 | the same for a query that was filtered before it is paged |
| `CursorPagination.ExactIffRoundTrips` | backend/src/common/cursor-pagination.ts:23-35 | paging is exact on every table, direction and limit if and only if every sort value survives its trip through a cursor |
| `CursorPagination.AlteredValueBreaksPaging` | backend/src/common/cursor-pagination.ts:79-87 | two rows that share a sort value which the cursor alters, one to a page, are not paged exactly |
| `CursorPagination.NormalizeLimit` | backend/src/common/cursor-pagination.ts:96-107 | the limit ends up between 1 and 100, keeps a value already there, and is left alone by the pager |
| `Reencrypt.CiphertextFormat` | backend/scripts/reencrypt-pii.ts:191-203 | the recogniser accepts exactly two hexadecimal parts around one colon, the first of 32 digits, the second not empty |
| `Reencrypt.ProcessCell` | backend/scripts/reencrypt-pii.ts:403-484 | old key first, then new key, then an error: the value to write, if any, and the counters, in every mode |
| `Reencrypt.ProcessTransformerBatch` | backend/scripts/reencrypt-pii.ts:388-499 | the batch rewrites its rows as specified, once each, leaves the other rows alone, and counts errors, skips and rewrites |
| `Reencrypt.ProcessBatch` | backend/scripts/reencrypt-pii.ts:654-700 | a transaction commits all its rows or none, and an error report is the price of a rollback |
| `Reencrypt.ProcessTable` | backend/scripts/reencrypt-pii.ts:654-713 | the cursor loop ends; at every commit the table is the original with some rows rewritten once, and with an ideal cipher a live run leaves each cell as it was or a new-key ciphertext of its original plaintext, whatever fails; with no error and no locked row every non-null cell beyond the nil UUID is such a ciphertext; when every batch commits and no row is locked, each counter, in every mode, is the number of cells or rows it is named after, and no error is reported exactly when one of the keys opens every ciphertext |
| `Reencrypt.CountersTally` | backend/scripts/reencrypt-pii.ts:388-499 | errors are the ciphertexts neither key opens; verified, in verification mode, those one of them opens; skipped those only the new key opens; a dry run counts the cells, a live run the rows, that it would rewrite or rewrites |
| `Reencrypt.NoErrorIff` | backend/scripts/reencrypt-pii.ts:434-442 | no error is counted if and only if every processed ciphertext opens under one of the keys |
| `Reencrypt.IdealRunIsSound` | backend/scripts/reencrypt-pii.ts:388-499 | with an ideal cipher, no rewriting of any set of rows leaves a cell that is neither its old self nor its own plaintext under the new key |
| `Reencrypt.SelectMissesNone` | backend/scripts/reencrypt-pii.ts:661-672 | SELECT ... SKIP LOCKED passes over no free row below the last one it returns |
| `Reencrypt.OnlyLiveRunsWrite` | backend/scripts/reencrypt-pii.ts:388-499 | a dry run and a verification pass leave every cell as it was |
| `Reencrypt.RunPreservesPlaintextIff` | backend/scripts/reencrypt-pii.ts:388-499 | a live run preserves every plaintext if, and when accidental openings never yield the plaintext only if, no processed cell that looks encrypted and was not sealed under the old key opens under it |
| `Reencrypt.WrongKeyOverwrites` | backend/scripts/reencrypt-pii.ts:403-484 | the failing case: a cell already rotated that the old key happens to open is overwritten with something else |
| `Reencrypt.RunRotates` | backend/scripts/reencrypt-pii.ts:388-499 | a live run without errors leaves every processed cell null or readable with the new key |
| `Reencrypt.IdealRunRotates` | backend/scripts/reencrypt-pii.ts:388-499 | if no wrong key ever opens a ciphertext, a row processed without error holds new-key ciphertexts of its original plaintexts, null where it was null |
| `Reencrypt.CompleteRunRotates` | backend/scripts/reencrypt-pii.ts:388-499 | the same of the whole table when every row beyond the nil UUID was processed without error |
| `Reencrypt.SecondRunWritesNothing` | backend/scripts/reencrypt-pii.ts:654-713 | over a table left like that, a later run with an ideal cipher, in any mode and wherever it stops, changes no cell |
| `Reencrypt.ProcessTwice` | backend/scripts/reencrypt-pii.ts:654-713 | two runs in a row: after a complete first one the second writes nothing |
| `Reencrypt.SecondRunIff` | backend/scripts/reencrypt-pii.ts:388-499 | with different keys, a second run over a rotated table changes nothing if and only if the old key opens none of the cells |
| `AuditRetention.EveryRunIsSafe` | backend/src/audit/audit-retention.service.ts:394-482 | however many workers archive, purge and crash between any two calls, every unexpired audit row is in its source table or indexed with a verified, locked object that holds it |
| `AuditRetention.RunKeepsInv` | backend/src/audit/audit-retention.service.ts:394-482 | the invariant behind it, kept by each database and storage call of each worker |
| `AuditRetention.PurgingTouchesExpiredOnly` | backend/src/audit/audit-retention.service.ts:462-482 | a step removes only expired records, objects of expired rows, and rows that are expired or archived |
| `AuditRetention.LockedObjectsStay` | backend/src/audit/audit-retention.service.ts:462-482 | no step removes an object whose compliance lock has not run out |
| `AuditRetentionJob.AuditRetentionService.ArchiveSourceRow` | backend/src/audit/audit-retention.service.ts:394-460 | copy, verify, index, delete: a run of the protocol that ends with the row archived and gone, or stops before the delete |
| `AuditRetentionJob.AuditRetentionService.PurgeExpiredArchives` | backend/src/audit/audit-retention.service.ts:462-482 | purges at most one batch of records as a run of the protocol; all that went had expired, and none that stays had expired before one that went |
| `AuditRetentionJob.AuditRetentionService.ArchiveTable` | backend/src/audit/audit-retention.service.ts:112-137 | at most ten pages of 100 due rows: every row taken was due and no younger row than those still due was taken, also when the store stops it; fewer rows than ten full pages means none is left due |
| `AuditRetentionJob.AuditRetentionService.RunRetention` | backend/src/audit/audit-retention.service.ts:103-154 | the whole job is a run of the protocol; its counters account for every row and record that left, and an unstopped run leaves no expired row |
| `AuditRetentionJob.DueAfterArchiving` | backend/src/audit/audit-retention.service.ts:114-125 | archiving a row takes it, and no other, off the list of due rows |
| `AuditRetentionJob.DueIff` | backend/src/audit/audit-retention.service.ts:114-125 | the rows that are due: of the table, unexpired, no debug logs, older than the hot period in days, not archived under their table and id |
| `AuditRetentionJob.AuditRetentionService.DeleteExpiredRows` | backend/src/audit/audit-retention.service.ts:138-146 | deletes exactly the expired rows of the one table and counts them |
| `AuditRetrieval.EveryReleaseIsAuthorised` | backend/src/audit/audit-retention.service.ts:185-343 | in every run, however calls interleave or break off, released content was approved by a second administrator, logged before, and is exactly what was archived |
| `AuditRetrieval.RunKeepsInv` | backend/src/audit/audit-retention.service.ts:185-343 | the invariant behind it; requests only move from pending to approved to fulfilled and change nothing else |
| `AuditRetrieval.SerialCallsReleaseOnce` | backend/src/audit/audit-retention.service.ts:234-343 | while calls for one request do not overlap, an approved request is released at most once |
| `AuditRetrieval.DoubleReleaseIff` | backend/src/audit/audit-retention.service.ts:234-343 | in every state reached without overlapping calls, a further call can end in two releases of its request if and only if the request is retrievable and another call for it is under way |
| `AuditRetrieval.OverlapCanReleaseTwice` | backend/src/audit/audit-retention.service.ts:241-343 | in every reachable state, overlaps behind it or not, a call that overlaps another can end in a second release |
| `AuditRetrieval.OverlappingCallsReleaseTwice` | backend/src/audit/audit-retention.service.ts:241-248 | the failing state is reachable: one approved request, one call under way, and the next call can release the row again |
| `AuditRetrievalJob.RetrievalOutcome` | backend/src/audit/audit-retention.service.ts:234-343 | a call nothing interferes with either leaves no trace or logs, fulfils and releases, exactly when the request is approved, the archive retained and intact, and the event persisted |
| `AuditRetrievalJob.AuditRetrievalService.RequestRetrieval` | backend/src/audit/audit-retention.service.ts:185-209 | the checks on reason and archive, and the pending request |
| `AuditRetrievalJob.AuditRetrievalService.ApproveRetrieval` | backend/src/audit/audit-retention.service.ts:211-232 | approves exactly a pending request of somebody else |
| `AuditRetrievalJob.AuditRetrievalService.RetrieveApproved` | backend/src/audit/audit-retention.service.ts:234-343 | the method is three steps of the transition system, and releases content only when it reports it |
| `RetentionPolicy.AuditRetentionUntil` | backend/src/audit/audit-retention-policy.ts:33-57 | through the Date setters and Date.UTC: month and time of day kept, the policy years added, the day clamped to the month and never rolled over; 90 days for debug logs |
| `RetentionPolicy.UntilIsUnique` | backend/src/audit/audit-retention-policy.ts:33-57 | that promise leaves one date |
| `RetentionPolicy.LastDayOfMonth` | backend/src/audit/audit-retention-policy.ts:49-51 | day 0 of the next month is the last day of the month, in every year but year 0, which Date.UTC takes for 1900 |
| `RetentionPolicy.UtcDate.SetUTCDate` | backend/src/audit/audit-retention-policy.ts:33-57 | the setter names the day n days from the start of the month, whatever months and years that runs into, forwards or backwards |
| `RetentionPolicy.DateOrder` | backend/src/audit/audit-retention-policy.ts:33-57 | the calendar order is the order of day numbers, over leap and century years |
| `RetentionPolicy.PoliciesAreOrdered` | backend/src/audit/audit-retention-policy.ts:33-57 | for one creation date, debug expires before operational, before KYC, before financial |
| `RetentionPolicy.PolicyPeriods` | backend/src/audit/audit-retention-policy.ts:33-57 | seven years for financial rows, five for KYC documents, one for operational rows, to the same day, or to 28 February for the 29th; ninety days for debug rows |
| `RetentionPolicy.MonthsBegin` | backend/src/audit/audit-retention-policy.ts:45-55 | the first days of the months of 2023, and February in 1900, 2000 and 2024 |
| `RetentionPolicy.MonotoneOnDates` | backend/src/audit/audit-retention-policy.ts:33-57 | a later creation date never has an earlier retention date |
| `RetentionPolicy.MonotoneOnInstantsIff` | backend/src/audit/audit-retention-policy.ts:33-57 | to the millisecond the order is kept except, exactly, for a later time of day on the 28th and an earlier one on the 29th of February squeezed onto one day |
| `RetentionPolicy.SqueezeExample` | backend/src/audit/audit-retention-policy.ts:45-55 | that case occurs: noon of 28 February 2024 and midnight of the 29th, kept one year |
| `AmlCaseProofs.RunKeepsInv` | backend/src/aml/aml-case.service.ts:105-423 | the case workflow's invariant over every run of its operations |
| `AmlCaseProofs.LinksAgree` | backend/src/aml/aml-case.service.ts:105-225 | in every reachable state an alert points to a case exactly when that case lists it, once, so cases share no alert |
| `AmlCaseProofs.CaseScoreIsMaximum` | backend/src/aml/aml-case.service.ts:139-142 | a case's risk score is the greatest of its alerts' scores |
| `AmlCaseProofs.CountersAreFeedback` | backend/src/aml/aml-case.service.ts:373-423 | a rule's false and true positive counters equal its feedback rows, and its sensitivity is what those counters call for |
| `AmlCaseProofs.TriagedAtMostOnce` | backend/src/aml/aml-case.service.ts:310-336 | an alert is judged at most once, and exactly when it is marked reviewed |
| `AmlCaseProofs.CaseNumbersAreUnique` | backend/src/aml/aml-case.service.ts:72-81 | two cases never share a number |
| `AmlCaseProofs.RunGrows` | backend/src/aml/aml-case.service.ts:83-98 | timelines and feedback only grow, closed cases stay closed with their disposition, reviews are not undone |
| `AmlCaseProofs.CloseReviewsAll` | backend/src/aml/aml-case.service.ts:338-366 | closing a case leaves no alert of it unreviewed and always adds feedback |
| `AmlCaseClosure.ClosedCasesAreSettledIff` | backend/src/aml/aml-case.service.ts:189-366 | over every run of operations, each closed case has a disposition and only reviewed alerts all along, if and only if no edit sets the status to closed and no unreviewed alert is attached to a closed case |
| `AmlCaseClosure.ApplySettlesIff` | backend/src/aml/aml-case.service.ts:189-307 | the same for one operation from any such state |
| `AmlCaseClosure.ClosedByEdit` | backend/src/aml/aml-case.service.ts:241-243 | the first exception occurs: an edit closes a case without a disposition |
| `AmlCaseClosure.AttachedToClosed` | backend/src/aml/aml-case.service.ts:189-217 | so does the second: a closed case accepts an alert nobody has reviewed |
| `AmlCaseProofs.CreateExposure` | backend/src/aml/aml-case.service.ts:143-146 | a new case starts with exactly the exposure of its alerts |
| `AmlCaseProofs.AttachExposureIff` | backend/src/aml/aml-case.service.ts:215-217 | attaching keeps the exposure exact if and only if the alerts attached a second time carry no net amount |
| `AmlCaseProofs.DoubleCountExample` | backend/src/aml/aml-case.service.ts:215-217 | a run in which a case counts the ten dollars of one alert twice |
| `AmlCaseProofs.CreatePriority` | backend/src/aml/aml-case.service.ts:119-124 | without a priority given, a new case takes the gravest severity of its alerts, and MEDIUM without any |
| `AmlCaseEffects.PriorityByAlerts` | backend/src/aml/aml-case.service.ts:119-124 | CRITICAL if an alert is, else HIGH, else MEDIUM, else LOW; MEDIUM without alerts |
| `AmlCaseProofs.UpdateSetsGivenFields` | backend/src/aml/aml-case.service.ts:227-272 | an edit sets the fields it gives, leaves the others and every other row alone, and notes each change once and in order |
| `AmlCaseEffects.CreateSets` | backend/src/aml/aml-case.service.ts:105-187 | a new case is open, undecided and lists the ids; its subject is the one given or the account of the first alert that has one; its alerts are linked and triaged and nothing else changes |
| `AmlCaseEffects.AttachSets` | backend/src/aml/aml-case.service.ts:189-225 | attaching appends the new alerts, links and triages them, and leaves the rest of the case and all other rows alone |
| `AmlCaseEffects.CloseSets` | backend/src/aml/aml-case.service.ts:274-307 | closing sets status and disposition, keeps notes that are not replaced, and leaves the rest of the case alone |
| `AmlCaseEffects.TriageMarks` | backend/src/aml/aml-case.service.ts:310-423 | a judgement marks the alert reviewed with the status its disposition stands for, and adds one to the counter of its rule that the disposition stands for |
| `AmlCaseProofs.TuningFollowsFeedback` | backend/src/aml/aml.constants.ts:115-127 | once five judgements are in, a false positive never raises a rule's sensitivity and a true one never lowers it |
| `AmlCaseEffects.SensitivityBands` | backend/src/aml/aml.constants.ts:115-127 | the multiplier by false-positive rate: 0.4 from 90 per cent, 0.6 from 75, 0.8 from 50, 1 from 25, 1.25 below, and 1 with fewer than five judgements |
| `AmlCases.CountedIds` | backend/src/aml/aml-case.service.ts:106-120 | a row count equal to the number of ids means that they are distinct and all exist |
| `AmlCaseRepositories.AmlCaseService.OpenCase` | backend/src/aml/aml-case.service.ts:105-187 | the method's checks and saves are the specified operation: whole new state or the error and no change |
| `AmlCaseRepositories.AmlCaseService.Attach` | backend/src/aml/aml-case.service.ts:189-225 | the same for attaching alerts |
| `AmlCaseRepositories.AmlCaseService.Edit` | backend/src/aml/aml-case.service.ts:227-272 | the same for editing a case, one timeline entry for each field given |
| `AmlCaseRepositories.AmlCaseService.Close` | backend/src/aml/aml-case.service.ts:274-307 | the same for closing a case with a disposition |
| `AmlCaseRepositories.AmlCaseService.Triage` | backend/src/aml/aml-case.service.ts:310-336 | the same for judging one alert |
| `AmlCaseRepositories.AmlCaseService.RecordDisposition` | backend/src/aml/aml-case.service.ts:338-366 | the loop over the alerts not reviewed yet, or one row for the case when there are none |
| `AmlCaseRepositories.AmlCaseService.SaveFeedback` | backend/src/aml/aml-case.service.ts:373-423 | the counters, the sensitivity of the bands and the feedback row |
| `MonitoringSweep.CountersAddUp` | backend/src/aml/transaction-monitoring.service.ts:374-390 | raised, duplicate and below-threshold findings add up to the candidates |
| `MonitoringSweep.TablesMatchCounters` | backend/src/aml/transaction-monitoring.service.ts:374-433 | a live sweep stores exactly one alert for each finding it reports as raised and one case for each it reports as opened |
| `MonitoringSweep.DryRunPredicts` | backend/src/aml/transaction-monitoring.service.ts:387-390 | a dry run from the same state reports the same three counts as a live run and writes nothing |
| `MonitoringSweep.SweepKeepsStore` | backend/src/aml/transaction-monitoring.service.ts:364-433 | a live sweep keeps the case workflow's invariant and never stores two alerts with one key |
| `MonitoringSweep.AtMostOneCaseEach` | backend/src/aml/transaction-monitoring.service.ts:420-432 | the sweep reports at most one opened case per account and rule code, and none where one was open |
| `MonitoringSweep.OneNewCaseEach` | backend/src/aml/transaction-monitoring.service.ts:420-432 | each case the sweep stores belongs to one account and rule code with no open case before, and no two new cases share them |
| `MonitoringSweep.SecondSweepRaisesNothing` | backend/src/aml/transaction-monitoring.service.ts:357-448 | an identical second sweep raises nothing, opens nothing and writes nothing |
| `MonitoringSweep.EveryFindingIsStored` | backend/src/aml/transaction-monitoring.service.ts:374-433 | after a live sweep every finding has an alert under its key, unless it scores below the threshold of its rule |
| `SweepDelivery.SweepDelivers` | backend/src/aml/transaction-monitoring.service.ts:374-433 | a live sweep stores alerts that carry findings, column by column, not below their thresholds, and no others; wherever the score of a new alert asks for a case one is open for its account and rule afterwards; each new case is open and was opened for one such alert; rows stored before stay as they were |
| `SweepDelivery.CountersMean` | backend/src/aml/transaction-monitoring.service.ts:374-391 | duplicates are the findings whose key had an alert or gets one earlier in the sweep, the others are below their threshold or raised, each counted once |
| `MonitoringService.FlowsAreSplitByAccount` | backend/src/aml/transaction-monitoring.service.ts:180-191 | each account appears once, with exactly its own flows in time order |
| `MonitoringService.GroupByUser` | backend/src/aml/transaction-monitoring.service.ts:180-191 | the two loops compute that grouping |
| `MonitoringService.QuietAccount` | backend/src/aml/transaction-monitoring.service.ts:271-274 | skipping an account without a movement in the window loses no candidate |
| `MonitoringService.Evaluate` | backend/src/aml/transaction-monitoring.service.ts:262-293 | the nested loops collect the specified candidates in order |
| `MonitoringService.CandidatesAre` | backend/src/aml/transaction-monitoring.service.ts:262-293 | a finding is a candidate exactly when some rule made it for some account and a movement behind it lies in the window |
| `MonitoringService.HistoryIsLoaded` | backend/src/aml/transaction-monitoring.service.ts:321-330 | a window of any rule that ends inside the sweep's window is loaded whole, first flow to last |
| `StructuringSweep.TouchingMatchIff` | backend/src/aml/transaction-monitoring.service.ts:276-290 | for one account, a match of a bucket touches the sweep's window exactly when the bucket's first qualifying window has a movement in it |
| `StructuringSweep.SweepReportsIff` | backend/src/aml/transaction-monitoring.service.ts:262-330 | from rows to candidates: a sweep reports structuring of an account in a bucket if and only if the first window of the bucket that qualifies among the loaded movements has one inside the sweep's window |
| `StructuringSweep.MissedByOneSweep` | backend/src/aml/transaction-monitoring.service.ts:276-290 | a qualifying selection that reaches into the sweep's window and is not reported: the match of its bucket was made from earlier movements |
| `StructuringSweep.FirstWindowIsReported` | backend/src/aml/transaction-monitoring.service.ts:318-330 | the sweep over the last movement of a bucket's first qualifying window has loaded that window whole and reports the bucket |
| `StructuringSweep.SweepsMissNone` | backend/src/aml/transaction-monitoring.service.ts:262-330 | when the windows of the sweeps leave out no movement of an account, every qualifying selection has its bucket reported by one of them |
| `StructuringSweep.SelectionIsAlerted` | backend/src/aml/transaction-monitoring.service.ts:296-485 | and when that sweep is live, an alert is stored under the key of the bucket, unless the finding scores below the threshold |
| `MonitoringService.TransactionMonitoringService.Handle` | backend/src/aml/transaction-monitoring.service.ts:374-433 | one turn of the loop is one step of the specified fold, alert and case tables and counters included |
| `MonitoringService.TransactionMonitoringService.RunSweep` | backend/src/aml/transaction-monitoring.service.ts:296-485 | the whole sweep: skipped without effect when disabled, otherwise history is loaded as far back as the longest rule window, and tables and counts are those of the specification |
| `MonitoringService.LiveRunIsSafe` | backend/src/aml/transaction-monitoring.service.ts:296-485 | whatever the detectors find, a live run from rows to tables keeps the invariants, opens at most one case each, and is idempotent |
| `Presence.RunKeepsOk` | backend/src/collaboration/presence.service.ts:80-214 | in every reachable registry no room is empty and each entry sits under its own socketId, once |
| `Presence.ListShowsUsersOnce` | backend/src/collaboration/presence.service.ts:168-192 | the listing shows every user with a visible socket and nobody else, with exactly one entry each: the best ranked, and the earliest of the best |
| `Presence.ShownStatus` | backend/src/collaboration/presence.service.ts:168-192 | a user with any visible socket typing is shown as typing, with all of them idle as idle, otherwise as active, with the data of the first socket of that status |
| `Presence.BestIsChosen` | backend/src/collaboration/presence.service.ts:172-181 | the de-duplicating loop keeps that entry for every user |
| `Presence.SweepEffect` | backend/src/collaboration/presence.service.ts:151-162 | a sweep turns exactly the stale entries idle, changes nothing else about any entry, and leaves none stale |
| `Presence.MarkedAreTheChanged` | backend/src/collaboration/presence.service.ts:151-162 | the sweep returns an entry if and only if it changed it |
| `Presence.MarkedOnce` | backend/src/collaboration/presence.service.ts:151-162 | and no entry is returned twice |
| `Presence.ActivityLasts` | backend/src/collaboration/presence.service.ts:116-162 | after a touch, a cursor move or typing, a sweep marks the socket idle exactly when more than the idle time has passed |
| `Presence.EditsAddUp` | backend/src/collaboration/presence.service.ts:116-148 | whatever is edited an entry keeps its identity, and its counters are the numbers of cursor moves and typing events |
| `Presence.LastEdit` | backend/src/collaboration/presence.service.ts:116-148 | the last edit decides when the socket was seen, its status, its cursor or whether it hides |
| `Presence.LaterSweepAbsorbs` | backend/src/collaboration/presence.service.ts:151-162 | a later sweep does all that an earlier one did |
| `Presence.RemoveEverywhereEffect` | backend/src/collaboration/presence.service.ts:103-114 | afterwards the socket is in no room, every other entry is where it was, and no empty room stays |
| `Presence.EntriesAreThose` | backend/src/collaboration/presence.service.ts:103-114 | what removeEverywhere returns is exactly what it removed |
| `Presence.LeaveUndoesJoin` | backend/src/collaboration/presence.service.ts:80-100 | joining and leaving again restores the registry, insertion order included |
| `PresenceRegistry.PresenceService.LeaveAll` | backend/src/collaboration/presence.service.ts:103-114 | the loop over the live Map, deleting rooms under its own iterator, computes that removal |
| `PresenceRegistry.PresenceService.SweepIdle` | backend/src/collaboration/presence.service.ts:151-162 | the nested loops compute the sweep and its result |
| `PresenceRegistry.PresenceService.ListVisible` | backend/src/collaboration/presence.service.ts:168-192 | the loop computes the listing |
| `PresenceRegistry.PresenceService.JoinRoom` | backend/src/collaboration/presence.service.ts:80-87 | sets the entry and creates the room when missing |
| `PresenceRegistry.PresenceService.Leave` | backend/src/collaboration/presence.service.ts:93-100 | removes the entry, returns it, and drops a room that becomes empty |
| `PresenceRegistry.PresenceService.EditFound` | backend/src/collaboration/presence.service.ts:116-148 | touch, setCursor, setTyping and setHidden change the entry they find and no other |
| `PresenceRegistry.PresenceService.Clear` | backend/src/collaboration/presence.service.ts:210-212 | leaves the registry empty |
| `RuleEngine.RunKeepsInv` | backend/src/compliance/regulatory-rule-engine.service.ts:145-438 | in every reachable state each code has at most one active version, and an active version passes its own test cases unless a rollback put it there |
| `RuleEngine.VersionsAreImmutable` | backend/src/compliance/regulatory-rule-engine.service.ts:176-226 | no call changes the code, number, conditions, action or test cases of a stored version |
| `RuleEngine.DeployedIff` | backend/src/compliance/regulatory-rule-engine.service.ts:398-438 | going live succeeds exactly when the version exists and passes its test cases; then it alone is active for its code, and its stored results are the earlier ones |
| `RuleEngine.TestsHoldInProduction` | backend/src/compliance/regulatory-rule-engine.service.ts:443-535 | while a version deployed that way is active, the facts of each of its test cases are decided at least as severely as the case expects |
| `RuleEngine.TestIsProduction` | backend/src/compliance/regulatory-rule-engine.service.ts:327-393 | a test case passes exactly when the version, alone in production, would decide and report what the case expects |
| `RuleEngine.ListedIff` | backend/src/compliance/regulatory-rule-engine.service.ts:443-470 | the rules read for a jurisdiction are the active ones of that jurisdiction and the global ones |
| `RuleEngine.RollbackPassesIff` | backend/src/compliance/regulatory-rule-engine.service.ts:266-322 | a version activated by rollback passes its test cases exactly when the version it copies does |
| `RuleEngine.RollbackActivatesFailing` | backend/src/compliance/regulatory-rule-engine.service.ts:266-322 | a rollback activates a version that fails its test cases and that a deployment refuses |
| `RuleEngine.DisarmedIff` | backend/src/compliance/regulatory-rule-engine.service.ts:191-438 | a code that has an active version is left without one if and only if the call edits that version or deploys it as staged |
| `RuleEngine.LiveRuleDisarmed` | backend/src/compliance/regulatory-rule-engine.service.ts:145-438 | both occur: a rule created and deployed is disarmed by an edit, and by staging it |
| `RuleEngine.EmptiedIsInert` | backend/src/compliance/regulatory-rule-engine.service.ts:206-206 | a version whose conditions an edit emptied can go live exactly when its test cases expect nothing of it, and then no decision on any facts changes by it |
| `RuleEngine.EmptiedGoesLive` | backend/src/compliance/regulatory-rule-engine.service.ts:176-438 | it occurs: the emptied version of a live rule without test cases becomes the only active one |
| `RuleEngine.UniqueVersionsIff` | backend/src/compliance/regulatory-rule-engine.service.ts:145-322 | a call leaves code and version unique if and only if the number it gives is free: creating an existing code or editing a version that is not the latest repeats one, a rollback never does |
| `RuleEngine.RepeatedVersions` | backend/src/compliance/regulatory-rule-engine.service.ts:145-214 | both ways to repeat a number occur: one code created twice, and the first of two versions edited again |
| `RuleEffects.CreateSets` | backend/src/compliance/regulatory-rule-engine.service.ts:145-174 | creation refuses a rule without conditions and stores any other as version 1, an untested draft |
| `RuleEffects.EditSets` | backend/src/compliance/regulatory-rule-engine.service.ts:180-226 | an edit stores a draft with the next number, each column given or kept, and deprecates the edited version if it was active or staged |
| `RuleEffects.RollbackSets` | backend/src/compliance/regulatory-rule-engine.service.ts:266-322 | a rollback stores the old definition under the number after the latest, as the active version, and deprecates the ones that were active |
| `RuleEffects.TestSets` | backend/src/compliance/regulatory-rule-engine.service.ts:327-393 | a test run records how many cases passed and whether all did, and moves a draft that passes to testing |
| `RuleEffects.DeploySets` | backend/src/compliance/regulatory-rule-engine.service.ts:398-438 | staging changes the status alone; going live deprecates the other active versions of the code; a refusal leaves the test run behind |
| `RuleEngine.EvaluateFacts` | backend/src/compliance/regulatory-rule-engine.service.ts:443-535 | the loop returns the decision, the matches and the violations of the specification, and is compliant exactly without violations |
| `RuleEngine.DecisionIsGravest` | backend/src/compliance/regulatory-rule-engine.service.ts:481-512 | the decision is the action of a matched rule, or ALLOW, and no matched rule asks for a graver one |
| `RuleEngine.DecisionByAction` | backend/src/compliance/regulatory-rule-engine.service.ts:481-512 | REJECT if a matched rule asks for it, else enhanced due diligence, else review, else a cap, else ALLOW |
| `RuleEngine.ReportIs` | backend/src/compliance/regulatory-rule-engine.service.ts:481-512 | the matches are the rules that match, the violations the codes of those that ask for anything but ALLOW |
| `RuleEngine.DecisionIgnoresOrder` | backend/src/compliance/regulatory-rule-engine.service.ts:481-512 | the order and repetition of the rules do not matter |
| `RuleEngine.DecisionIsMonotone` | backend/src/compliance/regulatory-rule-engine.service.ts:481-512 | more rules never make the decision milder |
| `RuleEngine.OppositesDisagreeIff` | backend/src/compliance/regulatory-rule-engine.service.ts:575-633 | an operator and its opposite give opposite answers if and only if the fact is present, and numeric where numbers are compared; equality and inequality always do, and CONTAINS has no opposite |
| `RuleEngine.NumbersCompare` | backend/src/compliance/regulatory-rule-engine.service.ts:601-611 | on numbers the four operators mean >, >=, < and <= |
| `RuleEngine.TextsCompare` | backend/src/compliance/regulatory-rule-engine.service.ts:591-628 | otherwise text is compared in lower case; IN holds when the fact equals an item, CONTAINS when it has the value as a part |
| `RuleEngine.MissingFact` | backend/src/compliance/regulatory-rule-engine.service.ts:579-588 | about a missing fact only equality with null holds, and inequality with anything else |
| `RuleEngine.OneMoreCondition` | backend/src/compliance/regulatory-rule-engine.service.ts:561-573 | one condition more narrows an AND rule and widens an OR rule, exactly by that condition |
| `RuleEngineRepositories.RegulatoryRuleEngineService.Deploy` | backend/src/compliance/regulatory-rule-engine.service.ts:398-438 | the reads and saves of a deployment are the specified operation, also when its test cases fail |
| `RuleEngineRepositories.RegulatoryRuleEngineService.Rollback` | backend/src/compliance/regulatory-rule-engine.service.ts:266-322 | the same for a rollback |
| `RuleEngineRepositories.RegulatoryRuleEngineService.Test` | backend/src/compliance/regulatory-rule-engine.service.ts:327-393 | the loop over the test cases counts those that pass and saves the result |
| `RuleEngineRepositories.RegulatoryRuleEngineService.Edit` | backend/src/compliance/regulatory-rule-engine.service.ts:180-226 | the same for an edit |
| `NameMatch.NormalisingTwice` | backend/src/aml/aml-name-match.ts:29-45 | normalising a normalised name changes neither it nor its token set |
| `NameMatch.SplitOfJoin` | backend/src/aml/aml-name-match.ts:35-37 | splitting undoes joining |
| `NameMatch.StoredNamesScoreTheSame` | backend/src/aml/sanctions-list.service.ts:108-111 | scoring against an entry as stored, its name trimmed and its aliases normalised, gives the very result of scoring against the raw names |
| `NameMatch.PairScoreIsSymmetric` | backend/src/aml/aml-name-match.ts:75-113 | which of two names is the subject makes no difference to the score |
| `NameMatch.EqualTokenSetsScore` | backend/src/aml/aml-name-match.ts:59-108 | equal token sets score 100 if and only if there is a token and the normalised names are equal, or there are two or more; one token repeated scores 65, and names without tokens score 0 even when they are equal |
| `NameMatch.PairScoreBySets` | backend/src/aml/aml-name-match.ts:75-113 | the score from the two token sets: 100 for equal names, 90 at least when a set of two or more is contained, 60 + 5k at least for k shared, 65 at most for one shared token among short names, 0 for none |
| `NameMatch.PairDetails` | backend/src/aml/aml-name-match.ts:75-113 | the tokens reported are the shared ones, and the method names the comparison that decided |
| `NameMatch.PercentRounds` | backend/src/aml/aml-name-match.ts:78-82 | percentages are rounded to the nearest whole number, halves up |
| `NameMatch.RepeatedTokenScores65` | backend/src/aml/aml-name-match.ts:86-108 | "ali" and "ali ali" score 65 |
| `NameMatch.NoiseScores0` | backend/src/aml/aml-name-match.ts:63-77 | "ltd" scores 0 against itself |
| `NameMatch.ForeignScores0` | backend/src/aml/aml-name-match.ts:29-63 | so does any name that keeps no Latin letter or digit |
| `NameMatch.Above100Iff` | backend/src/aml/aml-name-match.ts:97-99 | a score exceeds 100 if and only if nine tokens or more are shared and each name has others besides |
| `NameMatch.ScoreAbove100` | backend/src/aml/aml-name-match.ts:97-99 | two names of ten one-letter words that share nine score over 100 |
| `NameMatch.ScoreNameSimilarity` | backend/src/aml/aml-name-match.ts:59-120 | the loop keeps the first candidate with the highest score, with its shared tokens and method |
| `NameMatch.BestIsTop` | backend/src/aml/aml-name-match.ts:74-119 | its score is reached by a candidate and exceeded by none |
| `NameMatch.AliasesOnlyRaise` | backend/src/aml/aml-name-match.ts:66-119 | more aliases never lower the score; order and repetition do not count |
| `Herfindahl.EvenIsLeast` | backend/src/counterparty-risk/counterparty-risk.service.ts:252-257 | the index of n shares is at least 1/n, and equal to it exactly at an even spread |
| `Herfindahl.ConcentratedIsGreatest` | backend/src/counterparty-risk/counterparty-risk.service.ts:252-257 | it is at most 1, and equal to it exactly at full concentration |
| `CounterpartyRisk.ExposureIsConserved` | backend/src/counterparty-risk/counterparty-risk.service.ts:218-245 | the exposures of the groups sum to the portfolio total |
| `CounterpartyRisk.SharesSumToOne` | backend/src/counterparty-risk/counterparty-risk.service.ts:238-240 | when the total is positive the shares are not negative and sum to 1 |
| `CounterpartyRisk.DiversificationMeans` | backend/src/counterparty-risk/counterparty-risk.service.ts:252-257 | with a positive total the score is in 0..100; before rounding it is 100 exactly on an even spread and 0 exactly on full concentration |
| `CounterpartyRisk.OutOfScaleIff` | backend/src/counterparty-risk/counterparty-risk.service.ts:252-257 | for non-negative amounts the score leaves 0..100 if and only if the total is 0 and there are 2 to 201 counterparties |
| `CounterpartyRisk.WorthlessScores200` | backend/src/counterparty-risk/counterparty-risk.service.ts:252-257 | two worthless investments in two deals score 200 |
| `CounterpartyRisk.CompositeInRange` | backend/src/counterparty-risk/counterparty-risk.service.ts:111-206 | composite scores lie between 0 and 81 |
| `CounterpartyFactors.VolumeFactor` | backend/src/counterparty-risk/counterparty-risk.service.ts:118-130 | 80, 60, 40, 20 and 10 for no deal, one, up to 3, up to 7, and more |
| `CounterpartyFactors.ConcentrationFactors` | backend/src/counterparty-risk/counterparty-risk.service.ts:132-188 | a hundred times the share of the commonest commodity and eighty times that of the commonest region, rounded; over half asks for diversification |
| `CounterpartyFactors.ActivityAndExposureFactors` | backend/src/counterparty-risk/counterparty-risk.service.ts:148-172 | sixty times the share of deals not completed, cancelled or refunded, and two hundred times the share of the portfolio, at most 100 |
| `CounterpartyFactors.NoDeals` | backend/src/counterparty-risk/counterparty-risk.service.ts:111-206 | a counterparty without deals scores 52, of medium tier |
| `CounterpartyFactors.ScoreAndLimit` | backend/src/counterparty-risk/counterparty-risk.service.ts:48-202 | the composite weighs the factors 25, 20, 25, 15 and 15 per cent, rounded; up to 20, 40, 60, 80 and beyond, the limit is 30, 25, 20, 10 and 5 per cent of the portfolio |
| `CounterpartyRisk.CriticalIff` | backend/src/counterparty-risk/counterparty-risk.service.ts:111-206 | the critical tier is reached if and only if there is one deal, it is active, and its exposure scores 98 or more |
| `CounterpartyRisk.SoleDealScores81` | backend/src/counterparty-risk/counterparty-risk.service.ts:111-206 | one active deal that is the whole portfolio scores 81 and is critical |
| `CounterpartyRisk.LimitsTighten` | backend/src/counterparty-risk/counterparty-risk.service.ts:48-75 | a higher score never gets a higher exposure limit |
| `CounterpartyRisk.FewAlwaysBreach` | backend/src/counterparty-risk/counterparty-risk.service.ts:241-247 | a portfolio of up to three counterparties worth something always raises an exposure alert |
| `CounterpartyRisk.ComputeScore` | backend/src/counterparty-risk/counterparty-risk.service.ts:111-206 | the counting loops compute the five factors and the score |
| `CounterpartyRisk.GetPortfolioView` | backend/src/counterparty-risk/counterparty-risk.service.ts:212-260 | the grouping and the loop over the groups compute the view |
| `CounterpartyFactors.EntryMeans` | backend/src/counterparty-risk/counterparty-risk.service.ts:212-247 | each entry scores exactly the deals of its own counterparty against the whole portfolio |
| `CounterpartyFactors.AlertedIff` | backend/src/counterparty-risk/counterparty-risk.service.ts:241-247 | an alert is raised for exactly the counterparties whose exposure exceeds their limit |
| `CounterpartyRisk.LargestIs` | backend/src/counterparty-risk/counterparty-risk.service.ts:139-141 | the largest count belongs to a label and no label occurs more often |
| `Buckets.GroupsPartition` | backend/src/counterparty-risk/counterparty-risk.service.ts:224-228 | grouping into a Map keeps keys distinct and buckets non-empty, each with exactly its own elements in order |
| `Buckets.GroupTotals` | backend/src/counterparty-risk/counterparty-risk.service.ts:224-237 | grouping loses nothing and counts nothing twice |
| `Cidr.MaskMeans` | backend/src/auth/security-threat.service.ts:485-488 | masking with the signed 32-bit operators rounds the address down to a multiple of 2^(32 - prefix), for prefixes 0 to 32 |
| `Cidr.MasksAgreeIff` | backend/src/auth/security-threat.service.ts:462-466 | two masked addresses are equal exactly when the addresses agree after division by 2^(32 - prefix) |
| `Cidr.MaskIsIdempotent` | backend/src/auth/security-threat.service.ts:482-488 | masking a stored, possibly negative, network again changes nothing |
| `Cidr.AndClearsLowBits` | backend/src/auth/security-threat.service.ts:487-487 | the bitwise and of n bits with ones above s zeros clears the low s bits |
| `Cidr.InBadRangeIff` | backend/src/auth/security-threat.service.ts:449-483 | an address is in a bad range if and only if it parses and some entry of the setting agrees with it after that division |
| `Cidr.ParseIpv4` | backend/src/auth/security-threat.service.ts:490-500 | the accumulating loop computes the number of the four octets, or nothing when a part is not an octet |
| `Cidr.Ipv4ToLongIsInjective` | backend/src/auth/security-threat.service.ts:490-500 | two canonical dotted quads with one number are the same address |
| `Cidr.DottedParsesIff` | backend/src/auth/security-threat.service.ts:490-500 | four decimal numbers with dots between them parse to their number if all four are bytes, and to nothing otherwise |
| `Cidr.NumeralsParseIff` | backend/src/auth/security-threat.service.ts:490-500 | the same of any four numerals, leading zeros or not |
| `Cidr.SpelledQuad` | backend/src/auth/security-threat.service.ts:490-500 | an address that spells four octets parses to their number |
| `Cidr.Subnet16Covers` | backend/src/auth/security-threat.service.ts:470-474 | read back as a range, the subnet text of one address covers another exactly when both have the same subnet text |
| `Cidr.SubnetWithoutAddressIff` | backend/src/auth/security-threat.service.ts:470-474 | an address with a subnet text has no number if and only if one of its four numerals, leading zeros or not, exceeds 255 |
| `Cidr.SubnetOf999` | backend/src/auth/security-threat.service.ts:470-474 | "999.1.1.1" has the subnet "999.1.0.0/16" and no number |

## Left out

- SweepLine.PeakConcurrency: reads the clock once, where the code reads it once for each open session.
- `byDay`, `summarize` and the session rows of the collaboration service, which would add easy members.
- PresenceRegistry.PresenceService.EditFound: entries are values, so the model does not capture that callers hold the very entry object that later operations change; `colorForUser` and the small counting queries are left out.
- Detectors.LayeringComplete: flows of one instant are taken in the order the stable sort leaves them in; a group that qualifies only in another order of such flows is not covered.
- Detectors.DetectStructuring: the risk score, its logarithmic magnitude boost, titles and evidence of a match; the colon-separated key is a tuple. The rapid-movement, high-value, jurisdiction and behavioural detectors are left out.
- StructuringSweep.SweepReportsIff: the same for layering and velocity; movements recorded late, after the sweep over their time; flow ids repeated between the three tables, and negative amounts.
- MonitoringService.Evaluate: `runDetector` is a parameter; a run for one account only is a run over its rows; the regulatory decision attached to an alert, audit events and the table of runs are left out.
- MonitoringSweep.SweepKeepsStore: a sweep is one atomic step, while the code saves alerts and cases one by one, so two sweeps at once, or one that breaks off between an alert and its case, are not covered.
- MonitoringSweep.CountersAddUp: opened cases are listed by account and rule code, where the code lists their case numbers.
- AmlCaseProofs.RunKeepsInv: each operation is one atomic step, while the code makes several awaited saves without a transaction; alert rows are taken in the order of the ids given; due dates, titles, audit events and the text of timeline entries; the sensitivity bands are compared without dividing.
- TokenRotation.EachTokenExchangedOnce: signing is unforgeable, one `refresh` is atomic, and Redis is reachable; the code fails open otherwise.
- AuthSessions.AuthService.Validate: the behavioural-risk part of the guard.
- AuthSessions.AuthService.Login: password, two-factor and Google checks, lockouts and e-mail tokens.
- Durations.FamilyMarkIsRead: how the signing library reads a lifetime is the parameter refreshTtl; white space is ASCII.
- CursorPagination.FollowIsExact: sort values that are null, and a limit below 1 that did not pass through `normalizeCursorQuery`.
- Reencrypt.ProcessTable: the KMS tables, the list of verification results, progress output, and application writes while a batch is open, beyond the row locks; the row with the nil UUID is never processed.
- AuditRetention.EveryRunIsSafe: checksums are injective; metrics and the compliance report are left out.
- AuditRetrieval.DoubleReleaseIff: an approval is one atomic step, while the code reads the request and saves it in two calls; two approvals that overlap each other and a retrieval are not covered.
- AuditRetrieval.RunKeepsInv: a call is three atomic steps; the two reads of the first and the store calls and the audit write of the second are not taken apart.
- AuditRetrieval.EveryReleaseIsAuthorised: equal checksums stand for equal bytes; storage classes and the restore call are one answer of the store, and listing requests is left out.
- RetentionPolicy.AuditRetentionUntil: instants beyond the range of the Date object; `classifyAuditLog`.
- RuleEngine.RunKeepsInv: each call is one atomic step, while `deployRule`, `rollbackRule` and `editRule` make several awaited saves without a transaction; names, descriptions, severities, authors, notes and effective dates; rule codes come trimmed and upper-cased, and nested facts are a map of dotted paths.
- RuleEngine.EvaluateFacts: execution rows, the audit hash, monitoring metrics, reports and alerts.
- NameMatch.NormalisingTwice: Unicode decomposition and lower-casing are one function that leaves lower-case ASCII letters, digits and spaces alone; white space is ASCII; agreement of birth dates and the clamping by `bestNameHit` are left out.
- CounterpartyRisk.ComputeScore: real numbers instead of floating point; explanations and the order of integer-like object keys.
- Cidr.InBadRangeIff: the deny set in Redis, blocks, captchas and rate limits of the same service.
- Controllers, guards, cron wrappers, configuration, SQL text, the front end, the contracts and all other services.
