# Verified model of the portal's state protocols

The portal keeps its state in one SQLite-compatible database (D1) that any number of worker processes
share. This project models, in Dafny 4.11, the parts of it whose correctness depends on more than one
function, and proves what they are relied on for:

- **Schema migrations** (`Migration*.dfy`, `Managed*.dfy`): the journal and its validation, the
  lease row, the ensure run as a transition system of statements and batches under arbitrary
  interleaving, delay, failure and crash, its safety, fencing and progress, and the split into automatic
  and controlled migrations.
- **Settings** (`Settings*.dfy`): what the database overrides and what is inherited from the
  environment, drafts from the request to the row, and the whole life cycle (validate, apply, cancel,
  synchronise, direct update, rollback) as concurrent requests over one optimistic revision: what every
  run keeps, what stands behind every status and outcome, and what each request achieves undisturbed.
- **Login rate limiting** (`LoginRateLimit.dfy`, `LoginStatements.dfy`): counters, cooldowns, jitter and retention
  over whole runs, with the statements of any number of logins interleaved.
- **Bulk pool and CSV export** (`BulkPool.dfy`, `CsvExport.dfy`) and **schema text and drift**
  (`SqlList.dfy`, `Schema*.dfy`).

Concurrency is modelled by labelled steps: one step is one SQL statement, one batch or one read (the few
coarser steps are named under "Left out"), and a run is any sequence of them. Objects and loops of the source are classes and methods here, each proved against
a function, and the theorems are about those functions and about all runs. Cryptography is abstract: a
checksum is compared, an encryption is a fresh `seal`, an identifier is fresh.

`dafny verify dfyconfig.toml` checks everything.

## Where the code differs from what one might expect

Each of these is proved by the members named, with a run or input that shows it; where a promise fails,
one of them says exactly when it holds.

- A reset draft that takes the FreeIPA password from the environment and sets (or resets earlier in the
  list) an XYOps key is sent back from every apply. The refresh before apply compares JSON texts, and it
  writes the password behind the key while reading puts it in front. `SettingsRefresh.RefreshComesToRest`
  gives the exact condition, `SettingsRequests.RestlessDraftIsAccepted` an accepted request.
- `inspectPortalSchemaWithManagedRegistry` can report `ready` while an automatic migration is pending
  (`ManagedRegistry.InspectionMayReportReadyTooEarly`). Its answer can be trusted exactly when it is not built
  on a `ready` inspection or lists at least as many applied versions as there are automatic migrations
  (`ManagedRegistry.InspectionIsHonestExactly`); the managed ensure can always be trusted
  (`ManagedRegistry.EnsureManagedIsHonest`).
- An ensure run that lost its lease ends busy or failed, except when it lost it while reading the schema: in
  one of the two checks of a migration it can still end `incompatible`, in the final inspection `ready`. These
  are all the exceptions (`MigrationFencedEnds.FencedEndsExactly`), and each is reached by a run
  (`FencedPreflightMayEndIncompatible`, `FencedSecondaryPreflightMayEndIncompatible`,
  `FencedInspectionMayReportReady`).
- The hardened preflight calls a future version a gap (`MigrationJournal.PreflightHidesFutureVersion`); it names
  the problem as the inspection does exactly for a gap (`MigrationJournal.PreflightNamesExactly`).
- Logins that pass their checks together can count past the ceilings of 17 and 25
  (`LoginStatements.ConcurrentFailuresAllCount`). In every run the ceilings hold throughout exactly when no failure
  is counted on a row that is at its ceiling in a running window (`LoginStatements.CeilingsHoldExactly`), which
  the row's own block prevents wherever each failure is counted in a window that has begun, while its subjects are
  unblocked and no earlier block is still to be written, whatever else overlaps (`LoginStatements.InTurnStaysBelowCeiling`).
- A statement that comes a day late can let retention delete a row that still blocks
  (`LoginStatements.RetentionMayLiftBlock`), one that comes a millisecond earlier cannot
  (`LoginStatements.RetentionKeepsActiveBlocks`).
- A rollback puts back what was captured before the source lock was taken. An override list attached to the
  same revision in between is lost (`SettingsWitnesses.RollbackLosesOverrideList`), and a captured row that was
  itself rolled back in between comes back (`SettingsWitnesses.RollbackRevivesRow`). While no row is removed,
  everything but the override list is what the commit had replaced (`SettingsOutcomes.RolledBackOutcome`);
  removals or not, with the fresh stamps described next, it is so exactly when the captured revision is the
  draft's base revision, which the code does not compare (`SettingsOutcomes.RolledBackExactly`), and the list is
  back as well exactly when the captured list reads like the replaced one
  (`SettingsOutcomes.RolledBackWholeExactly`), as it does without an attachment in between
  (`SettingsOutcomes.RolledBackWithoutAttachment`).
- A validation marks the draft as it finds it when its checks are done. A refresh that comes in between gives it
  material that the checks have not seen (`SettingsProgress.ValidationMayMarkOtherMaterial`); without one its
  material is the one that was read, as nothing else brings new material (`SettingsTransitions.DraftMoved`). What
  is committed is always material that was marked validated as it is (`SettingsApprovals.OnlyApprovedIsCommitted`).
- A failure between a commit and the draft being marked applied hands the draft back as validated, although
  its changes are in the row; from then on only its base revision keeps it from being committed again: a commit
  batch writes exactly when the row in place has the draft's base revision (`SettingsOnce.CommitsExactly`). That
  a draft is committed at most once is therefore proved three ways: in every run while the row is not removed
  (`SettingsSafety.CommittedOncePerLife`), in every run without such a failure
  (`SettingsOnce.CommittedAtMostOnce`), and in every run, failures and removals included, in which a row
  inserted into the empty table gets a revision above every earlier one
  (`SettingsFreshStamps.CommittedOnceWithFreshStamps`). A row that goes and comes back within the same
  millisecond breaks that last condition, and then a draft can be committed twice
  (`SettingsWitnesses.DraftCommittedTwice`).

## Model

| member | source | states |
|---|---|---|
| LoginRateLimit.LoginLimiter.CheckLogin | login-rate-limit.ts:117-129 | limited exactly when one of the two subjects is blocked, and then for the least whole number of seconds after which both are free |
| LoginRateLimit.LoginLimiter.RecordSubjectFailure | login-rate-limit.ts:131-158 | the two statements on one counter, tied to the specification of the table |
| LoginRateLimit.LoginLimiter.RecordLoginFailure | login-rate-limit.ts:160-173 | retention, then client and username counters, in this order |
| LoginRateLimit.LoginLimiter.RecordLoginSuccess | login-rate-limit.ts:175-182 | afterwards the username's key is not in the table, and every other key is there exactly when it was, with the same row |
| LoginRateLimit.SuccessForgetsUsername | login-rate-limit.ts:175-182 | after a success the username has no row, and every other row is there as it was |
| LoginRateLimit.RetentionExactly | login-rate-limit.ts:166-167 | retention drops exactly the rows last written more than a day ago |
| LoginRateLimit.RecordedFailure | login-rate-limit.ts:131-158 | a failure is the first of its subject exactly without a row or after its window, otherwise the next; from the limit on it blocks for at least the cooldown and never shortens a block |
| LoginRateLimit.RecordedAnswer | login-rate-limit.ts:160-173 | a failure is answered as limited exactly when one of its two counters has reached its limit, for at least that counter's cooldown |
| LoginRateLimit.CooldownBounds | login-rate-limit.ts:77-88 | cooldowns are zero below the limit and 1 to 60 seconds from it on, jitter only adds and never exceeds the cap |
| LoginRateLimit.JitterEnds | login-rate-limit.ts:83-88 | the least draw adds nothing and the largest a quarter of the cooldown, at most 250 ms and at most up to the cap |
| LoginRateLimit.JitterGrows | login-rate-limit.ts:83-88 | a larger draw never gives a shorter cooldown |
| LoginRateLimit.CooldownLadder | login-rate-limit.ts:77-81 | cooldowns run 1, 2, 4, 8, 16, 32, 60, 60, ... seconds |
| LoginRateLimit.CooldownsFillWindow | login-rate-limit.ts:13-18 | the cooldowns fill each scope's window at its ceiling and not one failure earlier |
| LoginRateLimit.CeilingIsReached | login-rate-limit.ts:131-158 | both ceilings are attained by some sequential run |
| LoginRateLimit.RecordFailureHorizon | login-rate-limit.ts:153-173 | a block ends within a minute of its row's last update, only lengthens, and a limited answer is 1 to 60 seconds |
| LoginStatements.CeilingsHoldExactly | login-rate-limit.ts:140-149 | in every run of interleaved statements, the ceilings 17 and 25 hold throughout exactly when no failure is counted on a row at its ceiling in a running window |
| LoginStatements.FullIsBlocked | login-rate-limit.ts:77-158 | while failures are counted in turn, such a row is blocked at that stamp unless its block is still to be written |
| LoginStatements.InTurnStaysBelowCeiling | login-rate-limit.ts:77-158 | however logins overlap, if each failure finds its subjects' windows begun, no block and no earlier block to be written, a username is never counted beyond 17 nor a client beyond 25 |
| LoginStatements.SequentialIsInterleaved | login-rate-limit.ts:117-182 | sequential logins are one interleaving of their statements, with the same table, and count every failure in turn |
| LoginStatements.SuccessAndClearForget | login-rate-limit.ts:175-190 | a successful login's statement and a reset both take away the username's row and nothing else |
| LoginStatements.CountersStayBelowCeiling | login-rate-limit.ts:77-158 | so no sequential run counts a username beyond 17 or a client beyond 25 |
| LoginStatements.ConcurrentFailuresAllCount | login-rate-limit.ts:117-173 | any number of logins pass their checks together and all their failures count |
| LoginStatements.HorizonHolds | login-rate-limit.ts:131-173 | in every run of interleaved statements, whatever their order, no block reaches more than a minute beyond the newest stamp |
| LoginStatements.RetentionKeepsActiveBlocks | login-rate-limit.ts:166-167 | deleting old rows never lifts an active block while no statement lags a retention period less a minute behind the newest stamp |
| LoginStatements.RetentionMayLiftBlock | login-rate-limit.ts:166-167 | one millisecond more, and there is a run in which it does |
| LoginStatements.WaitingClearsBothSubjects | login-rate-limit.ts:90-129 | whatever the two reads of a check see, waiting the answer's time ends both blocks, and it is at most a minute counted from the newest stamp |
| MigrationJournal.AcceptedExactlyPrefixes | db/portal-migrations.ts:529-551 | validation accepts exactly the journals whose sorted rows are the first registry entries in version, name and checksum |
| MigrationJournal.PreflightAgreesWithValidation | db/portal-migrations-hardened.ts:17-24 | the preflight stops exactly the journals that validation calls future version or gap |
| MigrationJournal.PreflightHidesFutureVersion | db/portal-migrations-hardened.ts:153-159 | a future version that the preflight reports as a gap |
| MigrationJournal.PreflightNamesExactly | db/portal-migrations-hardened.ts:137-159 | where the preflight stops, it names the problem as the inspection does exactly when that is a gap |
| MigrationJournal.SortRowsSorts | db/portal-migrations.ts:534 | sorting rows and sorting their versions agree, and no row is lost |
| MigrationStatuses.VerdictsExactly | db/portal-migrations.ts:529-551 | each verdict exactly: a version that is not registered, versions that are not the first ones, rows that differ, or none of these |
| MigrationStatuses.InspectionStates | db/portal-migrations.ts:570-599 | an inspection's state, from the rows it saw and the drift alone |
| MigrationStatuses.InspectionErrors | db/portal-migrations.ts:529-599 | and its error, each exactly when it applies |
| MigrationStatuses.InspectionLists | db/portal-migrations.ts:99-128 | the applied versions ascend, the current one is the last of them, the pending ones are the registered ones that lack |
| MigrationStatuses.MissingExactly | db/portal-migrations.ts:103-106 | a version is pending exactly when registered and not applied |
| MigrationLock.BoundedTtl | db/portal-migration-lock.ts:32-36 | the TTL is a minute by default, otherwise the truncated request clamped to 1 s to 10 min |
| MigrationLock.Attempts | db/portal-migration-lock.ts:71 | five attempts by default, otherwise the requested number clamped to 1 to 20 |
| MigrationLock.InspectionPredictsAttempt | db/portal-migration-lock.ts:42-84 | inspection says non-blocking exactly when a fresh owner's attempt at that instant would succeed |
| MigrationLock.InspectionMeans | db/portal-migration-lock.ts:42-64 | each of the four answers exactly, which of them block and which have an age |
| MigrationLock.PortalSchemaLock.Inspect | db/portal-migration-lock.ts:42-64 | the four inspection answers by row, clock and TTL |
| MigrationLock.PortalSchemaLock.Acquire | db/portal-migration-lock.ts:66-88 | succeeds exactly when some attempt finds the row free, under any interference between attempts, and leaves that attempt's row |
| MigrationLock.PortalSchemaLock.Renew | db/portal-migration-lock.ts:90-99 | renews exactly the owner's row and touches no other |
| MigrationLock.PortalSchemaLock.Release | db/portal-migration-lock.ts:101-108 | removes only the owner's row |
| MigrationEnsure.PortalDatabase.Commit | db/portal-migrations.ts:649-652 | the batch takes effect as a whole or, on the primary key, not at all |
| MigrationEnsure.PortalDatabase.ApplyMigration | db/portal-migrations.ts:620-662 | applies one migration under renewals, or stops busy or incompatible with the journal untouched |
| MigrationEnsure.PortalDatabase.ApplyPending | db/portal-migrations.ts:679-685 | applies exactly the missing migrations in order, or fails with a prefix of them |
| MigrationEnsure.PortalDatabase.EnsureLocked | db/portal-migrations.ts:676-688 | an undisturbed run on a valid journal ends ready with the whole registry journaled |
| MigrationEnsure.PortalDatabase.Ensure | db/portal-migrations.ts:664-694 | acquire, run and release: busy with nothing changed, or the run's outcome with the lock given back |
| MigrationSafety.CommitKeepsPrefix | db/portal-migrations.ts:649-652 | a commit batch adds the next registry row or, for any other migration, nothing |
| MigrationSafety.RunStepSafe | db/portal-migrations.ts:620-694 | each step of each process keeps the journal a prefix and the process's own view behind it |
| MigrationSafety.RunStepAppends | db/portal-migrations.ts:620-662 | a step adds at most one row, the next one, and only within the process's own registry |
| MigrationSafety.RunStepSchema | db/portal-migrations.ts:629-659 | each step keeps the objects in step with the journal: those of the start, those of every migration journaled since, and at most the next one's tables |
| MigrationSafety.JournalIsAlwaysAPrefix | db/portal-migrations.ts:664-694 | from any valid journal, whatever objects exist, and over every interleaving, expiry, steal, stall, fault and crash, the journal is the first registry entries, each once |
| MigrationSafety.SchemaIsAlwaysInStep | db/portal-migrations.ts:629-659 | from any valid start and in every run, the schema never lags behind what is journaled since and leads it by at most one migration's tables |
| MigrationSafety.CompleteSchemaStaysComplete | db/portal-migrations.ts:629-659 | a schema that has every object of its journal has them in every later state |
| MigrationSafety.ReachableJournalIsAccepted | db/portal-migrations.ts:529-551 | every reachable journal is accepted by validation |
| MigrationSafety.ReadyRunCoversRegistry | db/portal-migrations.ts:687-688 | a run that ends ready has its whole registry journaled and reports nothing pending |
| MigrationSafety.BoundedRunsStayBounded | db/portal-migrations.ts:680-685 | processes limited to a part of the registry never journal beyond it, or beyond what was there already |
| MigrationProgress.AloneGetsThrough | db/portal-migrations.ts:664-694 | a process that starts anywhere in any run and is then left alone ends: on a free lock ready, with its registry journaled, exactly the missing objects added and the lock given back (or failed on a journal that is longer than its registry), on a lock that is still not free busy with nothing changed |
| MigrationProgress.StopsExactly | db/portal-migrations.ts:629-692 | a step decides on the answer exactly when a statement fails, the lock is lost or not acquired, the journal is rejected, a check sees drift, the version is journaled already or the end is inspected, and on the answer for that |
| MigrationProgress.FaultEffects | db/portal-migrations.ts:632-659 | a statement that is reported as failed has taken effect in full or not at all |
| MigrationFencing.LeasesHoldThroughout | db/portal-migration-lock.ts:66-108 | a working process's lease stays on the row until the TTL after its renewal has passed |
| MigrationFencing.LeaseIsExclusive | db/portal-migration-lock.ts:76-99 | a renewal excludes every other acquire up to and including the TTL, so batches begun within it belong to the sole holder |
| MigrationFencing.FencedForever | db/portal-migration-lock.ts:90-108 | a process that lost its lock never owns it again and leaves the row alone |
| MigrationFencing.FencedRunIsHarmless | db/portal-migrations.ts:629-661 | a fenced run sends at most one more batch and, unless it was reading the schema, has no ends left but busy and failed |
| MigrationFencing.FencedCannotTouchOwnersRow | db/portal-migration-lock.ts:90-108 | its renewal fails and its release removes nothing of the new owner's |
| MigrationFencedEnds.FencedEndsExactly | db/portal-migrations.ts:629-694 | in every reachable state, a fenced run's only possible ends are busy and failed exactly when it is not reading the schema, or finds more versions journaled than it knows |
| MigrationFencedEnds.FencedPreflightMayEndIncompatible | db/portal-migrations.ts:634-635 | a run fenced in the check after its tables, ending incompatible |
| MigrationFencedEnds.FencedSecondaryPreflightMayEndIncompatible | db/portal-migrations.ts:638-645 | the same in the check before its commit |
| MigrationFencedEnds.FencedInspectionMayReportReady | db/portal-migrations.ts:687-688 | a run fenced in the final inspection, ending ready |
| ManagedRegistry.ValidateRegistry | db/portal-migration-registry.ts:58-81 | accepts exactly the valid registries and splits them by mode |
| ManagedRegistry.AppliedPrefixLength | db/portal-migration-registry.ts:83-92 | the length of an applied prefix, or the exception |
| ManagedRegistry.PendingMigrations | db/portal-migration-registry.ts:94-110 | the pending migrations of a mode, or the exception |
| ManagedRegistry.ValidatedIsAutomaticThenControlled | db/portal-migration-registry.ts:58-81 | a validated registry is its automatic part followed by its controlled part |
| ManagedRegistry.ReadyListsPrefix | db/portal-controlled-migrations.ts:62-76 | for a ready inspection the prefix check of the pending functions cannot fail |
| ManagedRegistry.ProjectionIsHonest | db/portal-controlled-migrations.ts:62-76 | for a ready source, the projection is honest (ready only when all is applied, pending only for a controlled suffix) exactly when all automatic migrations are applied |
| ManagedRegistry.InspectionIsHonestExactly | db/portal-controlled-migrations.ts:88-98 | the inspection's answer is honest exactly when its source is not ready or the answer itself lists at least as many applied versions as there are automatic migrations |
| ManagedRegistry.EnsureManagedPaths | db/portal-controlled-migrations.ts:100-125 | every path of the managed ensure is honest when its last inspection is; what it answers on each path is `ManagedAnswers.EnsureManagedAnswers` |
| ManagedRegistry.EnsureManagedIsHonest | db/portal-controlled-migrations.ts:100-125 | in every run, whether its last inspection reads the journal, finds no database or throws, the managed ensure returns ready only with every version applied and pending only with a controlled suffix missing; `ManagedAnswers.EnsureManagedAnswers` is the converse |
| ManagedAnswers.EnsureManagedAnswers | db/portal-controlled-migrations.ts:100-125 | the converse, in the same runs: which inspection or run is answered, ready exactly when every version is journaled, pending with exactly the controlled rest, and any other end with its own state and error against the whole registry |
| ManagedAnswers.InspectManagedAnswers | db/portal-controlled-migrations.ts:88-98 | the managed inspection's answer for everything it can see |
| ManagedAnswers.RegistryFailureExactly | db/portal-controlled-migrations.ts:36-94 | a registry failure is answered exactly for an invalid registry |
| ManagedRegistry.ControlledIsNeverJournaled | db/portal-controlled-migrations.ts:121-124 | from any valid journal, every row that managed ensures add is an automatic migration's |
| ManagedRegistry.InspectionMayReportReadyTooEarly | db/portal-controlled-migrations.ts:88-98 | inspection alone reports ready on an empty journal |
| SettingsFields.OverridesRoundTrip | worker/settings-source-entry.ts:98-102 | the normalised override list reads back as the same overrides |
| SettingsFields.OverridesRead | worker/settings-source-entry.ts:98-102 | a row without a list overrides every field, one with a list those it names, one with anything else in its place none |
| SettingsFields.NamesInOrder | worker/settings-source-entry.ts:234 | the stored list names the overrides in the order of the fields, each once |
| SettingsFields.InheritFields | worker/settings-source-entry.ts:234-240 | the loop that assigns inherited values, against its specification |
| SettingsFields.SynchronizedMeans | worker/settings-source-entry.ts:226-251 | synchronising keeps overridden fields, sets every other field to its environment value and touches nothing else |
| SettingsFields.EachFieldInherits | worker/settings-source-entry.ts:75-82 | each field that is not overridden has its own environment variable's value, a secret of nothing but white space none |
| SettingsFields.SynchronizedList | worker/settings-source-entry.ts:226-235 | a row without a list stays as it is, any other that does not override everything gets its list |
| SettingsFields.SynchronizedIsIdempotent | worker/settings-source-entry.ts:242-245 | a second synchronisation reproduces the stored text exactly |
| SettingsFields.SynchronizedRowSettles | worker/settings-source-entry.ts:244-250 | it writes at most once, and only another content, under a revision that is the clock or the next one, whichever is larger |
| SettingsFields.OverlayIsSynchronization | worker/settings-source-safe-entry.ts:226-246 | the virtual row shows what a synchronisation would store, but for the override list |
| SettingsFields.SettingsTable.Synchronize | worker/settings-source-entry.ts:226-251 | the row after a synchronisation, none without a row or with all fields overridden |
| SettingsFields.SettingsTable.ReadInherited | worker/settings-source-safe-entry.ts:226-259 | the overlaid row, with the table unchanged |
| SettingsDrafts.ResolveResetMaterial | worker/settings-source-safe-entry.ts:457-480 | the refreshed draft and whether its text changed |
| SettingsDrafts.RefreshedMeans | worker/settings-source-safe-entry.ts:457-480 | a refresh sets each reset field to what it inherits and keeps the value of every other field |
| SettingsDrafts.DesiredOverrides | worker/settings-source-entry.ts:403-435 | old overrides minus resets plus changed plus secret fields, by the loops of the source |
| SettingsDrafts.CommittedMeans | worker/settings-lifecycle-entry.ts:463-481 | a commit gives a field the draft's value where it has one and keeps it where not |
| SettingsDrafts.AppliedMeans | worker/settings-source-entry.ts:403-451 | applying an up-to-date draft: overrides, changed, reset and untouched fields and keys |
| SettingsDrafts.ResetFieldsAreSettled | worker/settings-source-entry.ts:226-251 | reset fields are at rest after an apply: neither synchronisation nor overlay changes them |
| SettingsDrafts.Apply | worker/settings-lifecycle-entry.ts:463-512 | one apply on the table: refused on another base revision, otherwise the applied row under a larger revision |
| SettingsDrafts.ApplyWithRollback | worker/settings-lifecycle-root-entry.ts:228-334 | the whole apply, undisturbed: refused, kept, or the captured content back under a revision larger than the applied one |
| SettingsFields.SettingsTable.RestoreCas | worker/settings-lifecycle-root-entry.ts:176-186 | puts the captured row back or takes the row away, only while the attempted revision is in place |
| SettingsRefresh.ChangesComeToRest | worker/settings-source-safe-entry.ts:457-480 | after one refresh the changes read the same to the next, key order included |
| SettingsRefresh.RefreshComesToRest | worker/settings-source-safe-entry.ts:457-519 | a stored refresh is a fixed point, and the next refresh reports a change exactly for a restless draft |
| SettingsRequests.TransformBody | worker/settings-source-entry.ts:288-308 | resets written into the request as ordinary changes |
| SettingsRequests.TransformedMeans | worker/settings-source-entry.ts:288-308 | key by key, reset fields are asked for as the environment has them and everything else as it came |
| SettingsRequests.CleanFieldMeans | worker/settings-lifecycle-entry.ts:151-193 | what each plain field becomes, from the request's value alone: a boolean as it is, trimmed printable text of at most 256 characters, blank or parsed text of at most 2048 without one last slash; refused in exactly the remaining cases |
| SettingsRequests.AcceptedExactly | worker/settings-lifecycle-entry.ts:174-210 | a request is accepted exactly when every key is supported and its value fit, no secret is both set and cleared and something is asked for; a refusal gives a reason that is true of the request |
| SettingsRequests.CreatedExactly | worker/settings-source-safe-entry.ts:329-356 | with resets, exactly when besides no reset field is touched, each is overridden and its environment value could be asked for; the two reset refusals name exactly the fields concerned |
| SettingsRequests.NormalizedMeans | worker/settings-lifecycle-entry.ts:174-210 | an accepted request's draft holds exactly what was asked for, cleaned |
| SettingsRequests.DraftOfRequest | worker/settings-source-safe-entry.ts:329-356 | a created draft holds the requested and the reset values; a reset field was overridden and not asked for |
| SettingsRequests.CreatedDraftHoldsResets | worker/settings-lifecycle-entry.ts:581-585 | a created draft holds an entry for every plain reset field |
| SettingsRequests.RequestReachesRow | worker/settings-source-entry.ts:273-308 | from request to row, over any refreshes in between: overrides are old minus resets plus requested, and every field's value follows |
| SettingsRequests.StaysRestless | worker/settings-source-safe-entry.ts:493-519 | however often a restless draft is refreshed, never included, the next refresh sends it back |
| SettingsRequests.RestlessDraftIsAccepted | worker/settings-source-safe-entry.ts:466-479 | a request that is accepted and whose draft is restless |
| SettingsHistory.RevisionsRise | worker/settings-lifecycle-entry.ts:482-490 | between removals revisions never fall and rise with every write but attachments |
| SettingsHistory.RevisionIdentifiesRow | worker/settings-source-entry.ts:437-463 | between removals one revision stands for one content, up to the override list |
| SettingsHistory.NoUpdateIsLost | worker/settings-lifecycle-entry.ts:482-500 | a commit or synchronisation replaces the row it read, with nobody else's write in between |
| SettingsHistory.RollbackRestores | worker/settings-lifecycle-root-entry.ts:176-186 | a rollback takes back exactly its own commit and restores what it replaced under a larger revision |
| SettingsHistory.CommitsDifferInBase | worker/settings-lifecycle-entry.ts:463-466 | between removals no two commits start from the same base |
| SettingsSafety.AlwaysSound | worker/settings-lifecycle-entry.ts:463-543 | in every run the history is one chain of writes, each replacing the row it may, and every request's locals are true of it |
| SettingsSafety.CommitsReplaceTheirBase | worker/settings-lifecycle-entry.ts:463-500 | a commit replaces exactly its draft's base revision, so a stale draft never reaches the row |
| SettingsSafety.CommittedOncePerLife | worker/settings-lifecycle-entry.ts:463-500 | two commits of one draft have a removal of the row between them, in every run |
| SettingsClaims.OneClaimPerDraft | worker/settings-lifecycle-entry.ts:514-543 | at most one apply holds a draft, and the draft's status shows it |
| SettingsClaims.StepLasts | worker/settings-lifecycle-entry.ts:423-455 | no step takes a draft out of a settled or the cancelled status |
| SettingsTransitions.DraftMoved | worker/settings-lifecycle-entry.ts:423-553 | every step gives a draft a status exactly when it is the step for it: validated by checks that passed, by promotion of an invalid draft or handed back by a failed apply, invalid by checks that did not, and so on for all nine; new material only by a refresh, and a cancellation drops the secrets |
| SettingsTransitions.DraftAppears | worker/settings-lifecycle-entry.ts:569-587 | the only new draft is the one a creation inserts, with what it brings and the base it read |
| SettingsApprovals.StatusHasCause | worker/settings-lifecycle-entry.ts:423-553 | in every run a draft that is not as created got its status by the step for it and has kept it since |
| SettingsApprovals.ValidatedWasApproved | worker/settings-lifecycle-entry.ts:447-454 | in every run a validated draft, or one in an apply's hands, was marked by passed checks or promoted, and has had its present material ever since |
| SettingsApprovals.OnlyApprovedIsCommitted | worker/settings-lifecycle-entry.ts:514-543 | in every run each commit writes the material of a draft that was validated when it was read and had been approved with exactly this material |
| SettingsProgress.ValidateAlone | worker/settings-lifecycle-entry.ts:423-455 | an undisturbed validation makes an open draft a conflict on another base, otherwise validated when the checks passed and invalid when not; any other draft it leaves alone |
| SettingsProgress.ValidationMayMarkOtherMaterial | worker/settings-lifecycle-entry.ts:449-451 | a draft that a refresh changed during the checks is marked validated with material the checks have not seen |
| SettingsClaims.CancelledIsFinal | worker/settings-lifecycle-entry.ts:545-553 | a cancelled draft stays as it is, whatever happens next |
| SettingsOnce.CommitsExactly | worker/settings-lifecycle-entry.ts:482-512 | in every reachable state, a commit batch writes its draft exactly when the row in place, or its absence, has the draft's base revision |
| SettingsOnce.CommittedAtMostOnce | worker/settings-lifecycle-entry.ts:514-543 | without a late failure a draft is committed at most once, and one that was committed is never cancelled |
| SettingsOnce.CancelledNeverCommits | worker/settings-lifecycle-entry.ts:514-553 | in every run, a draft that is cancelled is not committed from then on |
| SettingsFreshStamps.NoUpdateIsEverLost | worker/settings-lifecycle-entry.ts:482-500 | with fresh insertion stamps, a commit or synchronisation that read a row replaces that row, removals or not |
| SettingsFreshStamps.OnlyItsOwnRollbackRemoves | worker/settings-lifecycle-root-entry.ts:176-181 | with fresh insertion stamps, only a commit's own rollback takes away the row it inserted |
| SettingsFreshStamps.AlwaysQuits | worker/settings-lifecycle-root-entry.ts:228-334 | in every run no commit of a draft follows a rollback of it |
| SettingsFreshStamps.CommittedOnceWithFreshStamps | worker/settings-lifecycle-entry.ts:463-543 | with fresh insertion stamps every draft is committed at most once, in every run, late failures and removals included |
| SettingsOutcomes.ReceiptExactlyWhenWritten | worker/settings-lifecycle-entry.ts:486-501 | a receipt is inserted exactly when the settings write takes effect, and holds that row |
| SettingsOutcomes.ConsumeReceipts | worker/settings-lifecycle-root-entry.ts:114-120 | the receipt of a successful commit is always found and consumed |
| SettingsApprovals.EndsExactly | worker/settings-lifecycle-root-entry.ts:228-334 | an apply ends with each of its five outcomes exactly in the step for it; with success exactly when a health check passes and the list is attached |
| SettingsApprovals.SuccessWasEarned | worker/settings-lifecycle-root-entry.ts:255-289 | in every run an apply that succeeded had attached its override list to the row it committed and then passed its health check |
| SettingsProgress.ApplyAlone | worker/settings-lifecycle-root-entry.ts:228-334 | an apply of a validated draft that is left alone ends after eleven steps: refused with nothing else changed on another base, otherwise with the draft committed over the row in place, its list attached and its receipt consumed, or with the captured row back |
| SettingsProgress.FailureHandsBack | worker/settings-lifecycle-entry.ts:538-542 | a failure inside the claim leaves the row alone and gives the draft back as validated, unless it is marked already |
| SettingsProgress.LateFailureLeaves | worker/settings-lifecycle-root-entry.ts:247-334 | a failure after the commit changes nothing |
| SettingsProgress.SyncAlone | worker/settings-source-entry.ts:226-251 | an undisturbed synchronisation as requests leaves the row that its specification on contents says |
| SettingsProgress.PutAlone | worker/settings-source-entry.ts:523-534 | an undisturbed direct update stores its content with its override list under the time of the write |
| SettingsProgress.PutCompensates | worker/settings-source-entry.ts:465-476 | its compensation puts the captured row back, or none, exactly where its own row is in place |
| SettingsProgress.CreateAlone | worker/settings-lifecycle-entry.ts:569-587 | an undisturbed creation adds one draft on the row in place with what the request brings |
| SettingsProgress.RefreshAlone | worker/settings-source-safe-entry.ts:493-519 | an undisturbed refresh gives an open draft its new material and sends it back to be validated; any other draft it leaves alone |
| SettingsOutcomes.RolledBackOutcome | worker/settings-lifecycle-root-entry.ts:228-334 | in every run, an apply that ended rolled back put the captured content back under a larger revision, or no row where none was captured; without a removal that is what its commit had replaced, but for the override list |
| SettingsOutcomes.RolledBackExactly | worker/settings-lifecycle-root-entry.ts:228-334 | with fresh insertion stamps, removals or not, a rollback undoes only its own commit, and restores what that had replaced exactly when the captured row has the draft's base revision |
| SettingsOutcomes.RolledBackWholeExactly | worker/settings-lifecycle-root-entry.ts:228-334 | and the whole row is restored, override list included, exactly when besides the captured list reads like the replaced one |
| SettingsOutcomes.RolledBackWithoutAttachment | worker/settings-lifecycle-root-entry.ts:228-334 | with no list attached since the capture, the captured row is the replaced one as it stands |
| SettingsWitnesses.RollbackRevivesRow | worker/settings-lifecycle-root-entry.ts:228-334 | a run with fresh stamps in which a rollback brings back a row that was rolled back before |
| SettingsWitnesses.DraftCommittedTwice | worker/settings-lifecycle-entry.ts:463-543 | a draft committed twice within one millisecond: failed late, its row removed by another apply's rollback, applied again |
| SettingsWitnesses.RollbackLosesOverrideList | worker/settings-lifecycle-root-entry.ts:228-334 | a rollback that puts back a row without the override list that the replaced row had |
| SettingsOutcomes.RollbackConflictOutcome | worker/settings-lifecycle-root-entry.ts:188-226 | an apply that ended in a rollback conflict was overtaken by somebody else; since its commit it has written at most its own list on its own revision, with fresh insertion stamps before anybody else wrote |
| BulkPool.NormalizeUsers | worker/freeipa-http-entry.ts:114-128 | the distinct users in order, or the first error that is due |
| BulkPool.UsersAreDistinct | worker/freeipa-http-entry.ts:117-125 | no user twice, none lost or invented |
| BulkPool.UsersInOrder | worker/freeipa-http-entry.ts:118-125 | users keep the order of their first occurrences |
| BulkPool.BulkRun.TakeNext | worker/freeipa-http-entry.ts:224-229 | a worker takes the cursor's index and advances it, or finishes |
| BulkPool.BulkRun.StoreResult | worker/freeipa-http-entry.ts:242-249 | a worker stores its result under its own index |
| BulkPool.InvHolds | worker/freeipa-http-entry.ts:221-252 | in every reachable pool state each index below the cursor is running or done, once |
| BulkPool.PoolTerminates | worker/freeipa-http-entry.ts:224-252 | every interleaving ends after exactly twice the users plus the workers steps and never gets stuck before |
| BulkPool.AtMostThreeInFlight | worker/freeipa-http-entry.ts:252 | at most three actions are in flight |
| BulkPool.FinishedPoolIsComplete | worker/freeipa-http-entry.ts:252-262 | a finished pool has every result in its user's place, each action begun once, and counts that add up |
| BulkPool.ResultIsAnswer | worker/freeipa-http-entry.ts:242-249 | in every run a stored result is the answer that its action gave, for its own user |
| BulkPool.CountsAreAnswers | worker/freeipa-http-entry.ts:253-262 | the counts of a run are those of the answers given in it |
| BulkPool.NoUserActedOnTwice | worker/freeipa-http-entry.ts:114-252 | with the normalised list no user is acted on twice |
| CsvExport.ExportRoundTrip | worker/freeipa-http-entry.ts:266-290 | a reader with the quoting rules of section 2 of RFC 4180 recovers exactly the cleaned cells |
| CsvExport.CleanedCell | worker/freeipa-http-entry.ts:266-269 | a cleaned cell has no CR, LF or TAB, is trimmed and does not start like a formula |
| CsvExport.FlattenRun | worker/freeipa-http-entry.ts:266-269 | every run of CR, LF and TAB becomes exactly one space, wherever it stands |
| CsvExport.PlainCellsSurvive | worker/freeipa-http-entry.ts:266-269 | a trimmed cell without breaks that does not start like a formula is exported as it is |
| CsvExport.CleanIsIdempotent | worker/freeipa-http-entry.ts:266-269 | cleaning twice is cleaning once |
| CsvExport.ExportIsStable | worker/freeipa-http-entry.ts:281-290 | exporting what a reader recovered reads back as itself |
| SqlList.SplitSqlList | db/portal-migrations.ts:146-172 | the quote and parenthesis automaton, against the cut at top-level commas |
| SqlList.DepthCountsParentheses | db/portal-migrations.ts:146-172 | in text without quotes the depth is the number of parentheses opened less those closed |
| SqlList.QuoteLasts | db/portal-migrations.ts:153-162 | a quote keeps the depth and everything inside it up to the first equal character that does not follow a backslash |
| SqlList.QuoteCloses | db/portal-migrations.ts:153-157 | and there the scan is back in the state in which the quote began |
| SqlList.RawPiecesPartition | db/portal-migrations-hardened.ts:30-56 | the raw pieces rejoin to the input, hide no top-level comma, and all but the last are closed |
| SqlList.RawPiecesUnique | db/portal-migrations.ts:146-172 | and they are the only such pieces |
| SqlList.NoPieceHasTopComma | db/portal-migrations.ts:165-170 | no output piece holds a top-level comma, for any input |
| SqlList.SplitRoundTrip | db/portal-migrations.ts:146-172 | splitting what was joined from non-empty, trimmed, closed, comma-free pieces returns them |
| SchemaDrift.InspectTable | db/portal-migrations.ts:401-466 | the checks of one required table |
| SchemaDrift.InspectExtras | db/portal-migrations.ts:503-524 | the extra indexes and triggers that are incompatible |
| SchemaDrift.InspectSnapshot | db/portal-migrations.ts:380-527 | the incompatible differences, against their specification |
| SchemaDrift.BenignGrowthIsInvisible | db/portal-migrations.ts:432-524 | extra tables, harmless columns, non-unique indexes and triggers on other tables never change the incompatible set |
| SchemaDrift.TableMissingExactly | db/portal-migrations.ts:401-407 | a table is reported missing exactly when required and absent |
| SchemaDrift.ColumnMissingExactly | db/portal-migrations.ts:423-431 | a column is reported missing exactly when an existing table must have it and has not |
| SchemaDrift.IndexMissingExactly | db/portal-migrations.ts:469-476 | an index is reported missing exactly when required, absent and not tolerated |
| SchemaDrift.TriggerMissingExactly | db/portal-migrations.ts:489-494 | a trigger is reported missing exactly when required, absent and not tolerated |
| SchemaDrift.RemovalIsReported | db/portal-migrations.ts:401-494 | losing a required table, column, index or trigger always adds to the incompatible set |
| SchemaReports.ReportedExactly | db/portal-migrations.ts:380-527 | for every kind of difference, it is reported exactly when it is there, stated of the database and the snapshot alone |
| SchemaReports.TableReportExactly | db/portal-migrations.ts:401-466 | the same for one required table: constraints, primary key, columns with the first mismatch, extra columns, unique constraints and their conflict policy |
| SchemaReports.PrimaryKeyInOrder | db/portal-migrations.ts:416-422 | the primary key read off the columns names every key column once, by its position in the key |

## Left out

- HTTP routing, JSON transport, cookies, UI, FreeIPA and XYOps calls, audit events and revision records: plumbing around the modelled decisions.
- Cryptography: SHA-256, AES-GCM and UUIDs are opaque equalities and fresh values; the URL parser is a parameter.
- Storage failures in the settings protocol other than as an exception at a step of an apply; `activeSnapshot` reading a failure as no row is not modelled.
- The source lock: it expires after a minute, so the settings protocol is proved without it.
- SettingsProtocol.Step: the direct settings update stamps the clock without comparing; the model assumes its stamp lies past the stored revision, and the routes update is not modelled. A refresh brings any material here (what it is, `SettingsDrafts.RefreshedMeans` says), and no draft disappears, while the source deletes one whose resets could not be stored. A revision stamp is taken in the step that reads the row, and an attachment's reads and its batch are one step; the source does these one after the other.
- SettingsOnce.CommittedAtMostOnce: assumes no failure between commit and mark; the other two forms of the claim cover the runs with one.
- SettingsOutcomes.RolledBackOutcome: that the captured row is the one the commit replaced is stated for runs without a removal since the draft read its base; `SettingsOutcomes.RolledBackExactly` covers the others with fresh stamps, and with repeated stamps nothing is claimed.
- SettingsDrafts.Apply: the commit and the attachment are one call on the table; as separate steps they are in `SettingsProtocol`.
- SettingsRequests.CreateDraft: the choice between a nested and a flat request body and the input normaliser before it are left out, and the base revision check is in `SettingsProtocol`.
- Which services a validation checks, and the promotion rule for intentionally disabled services: a promotion may happen to any invalid draft here, which covers the rule.
- Journal columns `applied_at` and `execution_ms`, the status cache, in-flight sharing and retry delays of the ensure functions.
- SchemaDrift.InspectSnapshot: the compatible differences, the extraction of constraints and columns from SQL text, and the additional drift of the hardened layer are left out; messages are values, not strings.
- Liveness of the managed ensure after a crash in the first migration: an incompatible inspection is returned as it is.
- Subject normalisation and hashing of the rate limiter: a subject is a key; jitter is a real between 0 and 1.
- Exceptions inside a bulk action: the action is assumed to answer.
- Approval gates, maintenance, backup and restore, the permission registry: their deciding code is elsewhere and is not part of this model.
