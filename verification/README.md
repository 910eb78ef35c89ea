# A verified model of the control plane's crash-safe core

The repository is the control plane of a GitHub Actions runner fleet. Most of what it
promises has to survive crashes, retries, lost answers and clocks. This project models the
parts where such a promise spans many steps, and proves it for every run of the model.
`dafny verify dfyconfig.toml` checks everything.

| Component | Files | What is proved |
|---|---|---|
| Diagnostic export (write-ahead spool to object store) | `Spool`, `Export`, `ExportSafety`, `ExportLog`, `Exporter`, `Drain`, `ExportFailures`, `Archive` | nothing is lost across crashes at any step; every published status and progress says exactly what the log of steps says; how many runs empty a spool; an accepted archive matches its manifest exactly |
| One-time cache claims | `Claims`, `ClaimRuns`, `ClaimMeaning` | lazy pruning answers like eager pruning exactly while the clock does not descend; one token, one repository; every grant is what was added, for exactly 15 minutes |
| CI feedback issues | `Markers`, `Feedback` | at most one issue per job marker, whatever happens to the uploads; exactly which listings are accepted, what is deferred and what is published |
| GARM reconciler | `Reconcile`, `ReconcileProofs`, `ReconcilePlan`, `ReconcileFields`, `Reconciler` | exactly when an apply succeeds and which fields it may change; when the plan is what apply does; idempotence; convergence after a cut; nothing enabled unverified |
| Image promotion | `Promote` | convergence after any lost request; rollback targets were once current |
| Fleet observer | `Grace`, `Inventory` | what "outside grace" means over a run of samples; every name counted exactly once |
| Worker lifecycle | `Lifecycle` | whole-life accounting, a tight length bound, no worker is ever stuck |
| Build-script region | `Splice`, `Render` | splicing is a projection; the region determines the manifest |
| Cache namespace | `Namespace` | printer and parser are inverse; keys are injective; roots are apart |
| Admission and disk share | `Admission`, `HostDisk` | ledger invariant and monotonicity; exact 128-bit ceiling percentage |

The exporter is described twice: `Export` is a transition system over (spool, object store,
saved state, progress file, process), with a crash possible between any two steps, and
`Exporter` is the imperative drain loop. Every effect of the loop is entered into a ghost log
of transitions, so the invariants of the transition system hold at every point of every run
of the loop. An exporter can be set up from the state any step of an earlier one left
(`Exporter.Exporter.Recover`), so runs cut short anywhere, outages and recoveries are all
runs of the class. The reconciler, the alias
orchestrator, the claim journal, the renderer, the tracker and the collector are imperative
too, each tied to a specification function about which the properties are proved.

Where a promise does not hold of the code on all inputs, the code is kept as it is, the
failing case is shown by a lemma, and the condition under which the promise holds is proved
to be exact:

- *Plan equals apply* (`ReconcilePlan.PlanIsApplyIff`): without its credential the plan is
  written blind. It is right exactly when the entity's kind is supported, the entity does not
  exist yet and a repository to be created is named owner/name (`ReconcilePlan.BlindPlan`).
- *Splicing keeps the surrounding text* (`Splice.OutsideIsKeptIff`): the one character after
  the end marker is dropped whatever it is, so the text is kept exactly when the manifest is
  valid, the markers are in order and a line break follows (`Splice.DroppedCharacter`); when
  nothing follows the marker the slice is out of range, exactly then (`Splice.SpliceOutcome`,
  `Splice.PanicAtTheEnd`).
- *The progress report is never refused* (`ExportSafety.ProgressRefusedIffClockWentBack`): it
  is refused exactly when the clock is behind a time that was kept from an earlier run
  (`ExportFailures.RefusedAfterClockWentBack`).
- *Drain* (`Drain.DrainsIffNotBlocked`): a good bundle leaves the spool exactly when fewer
  than 256 rejected bundles are older (`ExportFailures.BlockedForever`).
- *Lazy pruning* (`ClaimRuns.LazyIsEagerIffForward`): no run at given clock readings tells
  lazy from eager pruning, exactly when the readings never descend
  (`ClaimRuns.BackwardClockDiffers`).
- *A removed claim stays removed* (`ClaimMeaning.RemovalHoldsIff`): a remove that finds only a
  stale claim writes nothing, so the claim comes back if the clock does; a removal holds
  exactly when no later reading lies before its own (`ClaimMeaning.RemovalUndone`).
- *A subject says published if its issue is new* (`Feedback.Repository.PublishJobs`): an issue
  that was stored although its answer was lost is reported as already published; otherwise
  exactly the new ones are.
- *Staging leaves the aliases alone* (`Promote.StagingLeavesAliasesIff`): the manifest check
  does not compare the source alias with the moving ones (`Promote.SourceTakesPrevious`).
- *More memory never refuses* (`Admission.TotalMemoryAloneIff`): memory that is installed but
  not available can refuse, exactly when the grown reserve no longer fits
  (`Admission.TotalMemoryAloneCanRefuse`).
- *The ledger stays within the host* (`Admission.AdmitKeepsFitIff`): nothing rejects a
  negative CPU allowance, which is admitted for less than it is booked with
  (`Admission.NegativeAllowanceOverruns`).

## Model

| member | source | states |
|---|---|---|
| `Spool.ListBundleBatch` | internal/diagnosticexport/bundle.go:83-143 | for every directory order, the batch is the least `limit` candidates by (modification time, name), oldest first, with the count and bytes of all candidates |
| `Spool.OlderIff` | internal/diagnosticexport/bundle.go:128-133 | older means an earlier time, or the same time and a name that is smaller at the first difference |
| `Spool.BatchUnique` | internal/diagnosticexport/bundle.go:128-143 | a directory has only one such batch, whatever order it was read in |
| `ExportSafety.RunKeepsInv` | internal/diagnosticexport/exporter.go:69-258 | every step of every interleaving of runs, crashes, arrivals and withdrawals keeps no-loss, held records, process soundness and bookkeeping |
| `ExportSafety.NothingIsLost` | internal/diagnosticexport/exporter.go:105-208 | every bundle ever spooled and not withdrawn by others is still spooled, or the store holds an object with its exact key, size, digest and schema; and every saved export record names such an object |
| `ExportSafety.RemovedOnlyWhenConfirmed` | internal/diagnosticexport/exporter.go:181-208 | the step that removes a spooled bundle finds its confirmation saved durably and its object held, on the fast path too |
| `ExportSafety.StoreOnlyGrows` | internal/diagnosticexport/s3.go:120-146 | over any run the store keeps every object it had |
| `ExportSafety.PublishedStateIsSound` | internal/diagnosticexport/state.go:251-271 | at any time the saved status passes the observer's counter checks, an error code is present exactly while failures are counted, at most 512 records are saved, and the progress file validates |
| `ExportSafety.ProgressRefusedIffClockWentBack` | internal/diagnosticexport/state.go:232-271 | saving progress is refused exactly when a kept timestamp lies after the present one |
| `ExportSafety.MonotoneClockNeverRefused` | internal/diagnosticexport/state.go:232-271 | under a monotone clock progress is never refused, over any run |
| `ExportSafety.EveryPointIsSafe` | internal/diagnosticexport/exporter.go:189-203 | a recorded trace of steps from a fresh system satisfies the invariant at each of its points |
| `ExportLog.PublishedIsLogged` | internal/diagnosticexport/exporter.go:216-249 | over every run the saved status and progress, in every field, and what a process has counted, are what its steps amount to |
| `ExportLog.LastSuccessIsTrue` | internal/diagnosticexport/exporter.go:218-228 | the saved last success is the instant of the last published run in which no step failed and whose count found the spool empty, and None if there is none |
| `ExportLog.FastPathIff` | internal/diagnosticexport/exporter.go:124-128 | the store is not asked if and only if a record of exactly this bundle was verified within the past hour |
| `ExportLog.SavedRecordIs` | internal/diagnosticexport/exporter.go:181-193 | what a saved confirmation says, and that every other record is kept |
| `Exporter.Exporter.WhatIsTold` | internal/diagnosticexport/exporter.go:216-249 | at any time of the class's life the saved files say what the log of its steps says |
| `Exporter.Exporter.Head` | internal/diagnosticexport/exporter.go:260-286 | an answer is the stored object; it gives up only when cancelled or after the fourth attempt |
| `Exporter.Exporter.RemoveBundle` | internal/diagnosticexport/bundle.go:147-165 | unlinks only the verified inode, drops the record and counts the deletion, or counts one failure |
| `Exporter.Exporter.CommitBundle` | internal/diagnosticexport/exporter.go:181-208 | the confirmation is saved before the source is unlinked |
| `Exporter.Exporter.ConfirmRemote` | internal/diagnosticexport/exporter.go:144-180 | confirms only an object that matches the bundle; healthy, it confirms exactly the acceptable bundles |
| `Exporter.Exporter.UploadBundle` | internal/diagnosticexport/exporter.go:164-171 | a conditional upload followed by a confirming probe |
| `Exporter.Exporter.ExportNext` | internal/diagnosticexport/exporter.go:113-208 | one bundle: each exit is a state of the protocol, and with a healthy store the bundle leaves exactly if acceptable |
| `Exporter.Exporter.DrainBatch` | internal/diagnosticexport/exporter.go:101-208 | the batch loop removes exactly the acceptable bundles of the batch when the store is healthy |
| `Exporter.Exporter.PublishRun` | internal/diagnosticexport/exporter.go:209-258 | the published counters are the tally's; the outcome is completion if and only if nothing failed; in a calm run only a kept time in the future aborts |
| `Exporter.Exporter.Run` | internal/diagnosticexport/exporter.go:69-258 | a whole run follows the protocol step by step; a calm run takes the oldest 256, removes and counts exactly the acceptable ones, counts every other as failed, and completes if and only if there is no other |
| `Drain.EachRunRemoves` | internal/diagnosticexport/exporter.go:91-208 | a run removes at least min(h, 256 - r) of h good bundles among r rejected ones |
| `Drain.DrainBound` | internal/diagnosticexport/exporter.go:91-208 | with r < 256, k runs with k(256 - r) >= h leave exactly the rejected set |
| `Drain.DrainsIffNotBlocked` | internal/diagnosticexport/bundle.go:128-143 | a good bundle drains if and only if fewer than 256 rejected bundles are older |
| `Drain.RunRepeatedly` | internal/diagnosticexport/exporter.go:69-258 | from any state an exporter can be in, repeated calm runs produce exactly the runs the drain lemmas speak of |
| `Drain.RunThroughOutage` | internal/diagnosticexport/exporter.go:144-155 | after any number of runs under any failures, calm runs drain what the outage left |
| `Exporter.Exporter.Recover` | internal/diagnosticexport/exporter.go:189-194 | after a kill following any step of an earlier exporter, the next process starts from exactly what was durable, and the log of both is one legal run |
| `Drain.RunAfterCrash` | internal/diagnosticexport/exporter.go:189-203 | calm runs after such a crash drain the spool as the crash left it |
| `ExportFailures.RefusedAfterClockWentBack` | internal/diagnosticexport/state.go:251-271 | for any two instants in the wrong order, a legal run whose progress report is refused |
| `ExportFailures.BlockedForever` | internal/diagnosticexport/bundle.go:128-143 | behind 256 or more rejected bundles a good one stays after any number of runs |
| `Archive.VerifyArchive` | internal/diagnosticexport/bundle.go:253-340 | accepts exactly the archives whose entries are manifest.json first and then precisely the declared artifacts with declared size and digest: both directions |
| `Archive.ReadEntries` | internal/diagnosticexport/bundle.go:253-297 | accepts exactly well-framed, duplicate-free entry lists and indexes them completely |
| `Archive.CheckArtifacts` | internal/diagnosticexport/bundle.go:322-340 | holds exactly when the artifacts ascend strictly and each is present with its size and digest |
| `Archive.EveryEntryDeclared` | internal/diagnosticexport/bundle.go:322-340 | ascending paths, presence and equal counts force every entry to be declared |
| `Claims.Store.Update` | internal/cachebroker/journal.go:183-213 | one transaction: prune, mutate, write only on change, with the write landing, failing, or failing after it landed |
| `Claims.Store.PruneClaims` | internal/cachebroker/journal.go:193-197 | the loop keeps exactly the retained claims |
| `Claims.TransactIsSound` | internal/cachebroker/journal.go:183-213 | a transaction keeps the journal valid and the generation grows by one exactly when something was written |
| `Claims.ConsumeAgainWritesNothing` | internal/cachebroker/journal.go:82-118 | consuming again for the same repository succeeds and leaves the journal as it was |
| `ClaimRuns.LazyRefinesEager` | internal/cachebroker/journal.go:120-220 | under a forward clock the stored, lazily pruned journal gives every reply that a map pruned at every instant gives |
| `ClaimRuns.LazyIsEagerIffForward` | internal/cachebroker/journal.go:120-220 | for every sequence of clock readings: no valid journal and no run at them tells lazy from eager pruning if and only if the readings never descend |
| `ClaimRuns.BackwardClockDiffers` | internal/cachebroker/journal.go:215-220 | every descent of the clock, adjacent or not, has a journal and a run that tell the two apart |
| `ClaimRuns.StaleHasNoToken` | internal/cachebroker/journal.go:330-357 | a valid claim that is no longer retained has an expired token, by the validated lifetimes |
| `ClaimRuns.RunIsSound` | internal/cachebroker/journal.go:183-213 | over any run and clock every journal is valid and its generation counts the writes |
| `ClaimRuns.OneTokenOneRepository` | internal/cachebroker/handler.go:152-259 | with fresh tokens, any two grants of a token, at any clock and interleaving, agree on pool, role and repository |
| `ClaimRuns.GrantsAgree` | internal/cachebroker/journal.go:82-152 | the same from any journal with distinct tokens: a later grant continues the earlier claim |
| `ClaimMeaning.AddMeans` | internal/cachebroker/journal.go:63-80 | an add is done if and only if no live bound claim exists and its write lands; the instance then has exactly that claim and no other instance notices |
| `ClaimMeaning.ConsumeMeans` | internal/cachebroker/journal.go:82-118 | a consume is granted if and only if the live claim's token matches and is in time and its repository is this or none; the instance then has the granted claim |
| `ClaimMeaning.RemoveMeans` | internal/cachebroker/journal.go:173-175 | a remove is done if and only if its write lands or nothing was live; the instance then has no claim |
| `ClaimMeaning.LookMeans` | internal/cachebroker/journal.go:120-171 | verify and correlation show exactly the live claim |
| `ClaimMeaning.GrantIsItsAdd` | internal/cachebroker/journal.go:63-118 | over any run and clock with fresh tokens, a granted claim has the instance, pool and role of its token's add, its instant, and 15 minutes to live, within which it is granted |
| `ClaimMeaning.EveryGrantWasAdded` | internal/cachebroker/journal.go:63-118 | nothing is granted that was not added earlier |
| `ClaimMeaning.TokenIsGoodFor15Minutes` | internal/cachebroker/journal.go:120-152 | under a forward clock a verify is granted if and only if it comes within 15 minutes of the add, whatever happens to other instances |
| `ClaimMeaning.RemovalHoldsIff` | internal/cachebroker/journal.go:173-213 | for every journal and run at given readings a removal holds if and only if no later reading lies before it |
| `ClaimMeaning.RemovalUndone` | internal/cachebroker/journal.go:193-206 | a reading before the removal brings a stale claim back |
| `Markers.MarkerTextIs` | actions/ci-feedback/feedback.py:323 | the marker names repository, run, attempt and job in this order |
| `Markers.PositiveIdIff` | actions/ci-feedback/feedback.py:22-25 | identities are the positive numbers of at most twenty digits |
| `Markers.MarkerRoundTrip` | actions/ci-feedback/feedback.py:161-208 | the job parsed back from a printed marker is the job |
| `Markers.MarkerCanonical` | actions/ci-feedback/feedback.py:186-189 | a first line that parses is the printed marker of what it parses to |
| `Markers.MarkerInjective` | actions/ci-feedback/feedback.py:323 | markers agree only for equal repository, run, attempt and job |
| `Markers.MarkersOfOtherRuns` | actions/ci-feedback/feedback.py:170-189 | a marker of another attempt never parses as one of this attempt |
| `Feedback.ReadJobs` | actions/ci-feedback/feedback.py:129-158 | accepted if and only if some first pages are an inventory: one total, adding up to it, no page but the last empty, unique ids, of this run, attempt and commit; the shortest such is returned |
| `Feedback.FailedJobs` | actions/ci-feedback/feedback.py:90-103 | exactly the ids in a failure conclusion; refused if and only if the run is active and one of them is not completed |
| `Feedback.FailedUnique` | actions/ci-feedback/feedback.py:90-103 | the selected failed jobs are unique, of the listing, and in a failure conclusion |
| `Feedback.Repository.FindJobPublications` | actions/ci-feedback/feedback.py:161-208 | although pages shift while others publish, a returned map misses no issue that existed at the start and names only existing ones; a calm listing within its bound returns one |
| `Feedback.Repository.FindPublished` | actions/ci-feedback/feedback.py:105-126 | what is found exists; what is missing was not there at the start |
| `Feedback.Repository.CreateIssue` | actions/ci-feedback/feedback.py:273-308 | adds at most one issue, for this job only, although the upload may fail after taking effect; reported as published if and only if it was stored and answered |
| `Feedback.Repository.PublishJobs` | actions/ci-feedback/feedback.py:310-330 | keeps at most one issue per job marker; subjects, in ascending order, and deferred ids split the failed jobs; deferred if and only if exhausted and not covered, published if and only if neither covered nor unanswered; calm and bounded it does not raise |
| `Feedback.Publish` | actions/ci-feedback/feedback.py:211-332 | a whole early-mode call: at most one issue per marker, every failed job of a genuine listing reported; calm, it publishes exactly what no issue covered, and does not raise on an inventory within bounds |
| `Feedback.PublishRepeatedly` | actions/ci-feedback/feedback.py:211-332 | any serialized sequence of calls, each of which may raise anywhere, keeps at most one issue per marker |
| `ReconcilePlan.PlanIsApplyIff` | internal/garmbootstrap/reconcile.go:128-217 | dry run and apply agree on the verdict and on every action if and only if the plan is not blind |
| `ReconcilePlan.BlindPlan` | internal/garmbootstrap/reconcile.go:132-146 | an entity that outlived its credential: the plan succeeds and disagrees |
| `ReconcilePlan.DryRunWritesNothing` | internal/garmbootstrap/reconcile.go:175-217 | a dry run leaves the server as it was |
| `ReconcileProofs.ApplyConverges` | internal/garmbootstrap/reconcile.go:175-482 | an apply cut after any number of writes and run again ends with the server and verdict of an uncut one |
| `ReconcileProofs.ApplyIsIdempotent` | internal/garmbootstrap/reconcile.go:362-482 | after a successful apply the next one reports no action and writes nothing |
| `ReconcileProofs.EnabledOnlyWhenVerified` | internal/garmbootstrap/reconcile.go:391-482 | at every moment a newly enabled scale set existed before the run, was asked for, and validates against the spec |
| `ReconcileProofs.ScaleSetResumes` | internal/garmbootstrap/reconcile.go:362-482 | create, migrate and enable can be cut and resumed |
| `ReconcileFields.RunChangesAsAsked` | internal/garmbootstrap/reconcile.go:389-466 | at every moment of every run, field by field: capacity, image and activation change only if that migration was asked for and to the spec's value, activation only from the other known form; disabled only with such a change, enabled only if asked; nothing else changes |
| `ReconcileFields.ScaleSetTells` | internal/garmbootstrap/reconcile.go:419-432 | a reported migration names exactly the fields that differed |
| `ReconcileFields.ApplySucceedsIff` | internal/garmbootstrap/reconcile.go:128-482 | an uninterrupted apply on an honest server succeeds if and only if the server is ready, spelled out field by field |
| `ReconcileFields.SuccessIsInForce` | internal/garmbootstrap/reconcile.go:362-482 | after a success the server has the scale set as specified in every field, enabled as asked |
| `ReconcileFields.SpecsMatchIff` | internal/garmbootstrap/reconcile.go:597-617 | extra specs match a mode if and only if they are what the mode writes |
| `Reconciler.Reconciler.Run` | internal/garmbootstrap/reconcile.go:128-173 | with the connection lost at any write: a dry run writes nothing, a newly enabled scale set was asked for, existed before and validates, changes are only those asked for, it succeeds if and only if the server was ready, leaves the scale set in force, and after that no later run reports or writes anything |
| `Reconciler.Reconciler.ReconcileCredential` | internal/garmbootstrap/reconcile.go:175-217 | a found credential is valid and the only one of its name; credentials are only added, never by a dry or an enabling run; nothing else changes |
| `Reconciler.Reconciler.ReconcileEntity` | internal/garmbootstrap/reconcile.go:236-253 | a found entity is of the kind asked for, listed, valid and bound to the credential; a failed step wrote nothing |
| `Reconciler.Reconciler.ReconcileOrganization` | internal/garmbootstrap/reconcile.go:260-304 | the same for organizations: listed and valid, only added, never by a dry or an enabling run |
| `Reconciler.Reconciler.ReconcileRepository` | internal/garmbootstrap/reconcile.go:306-360 | the same for repositories: the created owner and name spell the tenant's repository |
| `Reconciler.Reconciler.ReconcileScaleSet` | internal/garmbootstrap/reconcile.go:362-482 | a found scale set validates and, once applied, is on the server, as specified in every field, and enabled exactly as asked; only permitted fields of others' scale sets change; found if and only if ready; actions name what differed |
| `Reconciler.Reconciler.ListScaleSets` | internal/garmbootstrap/reconcile.go:666-674 | the matching loop yields every match in order |
| `Promote.Orchestrator.Promote` | internal/imagebuild/orchestrator.go:889-922 | for any fates of its requests: success means the target is current and the old current is previous; undisturbed it succeeds if and only if there is no previous without a current |
| `Promote.Orchestrator.SetAlias` | internal/imagebuild/orchestrator.go:924-943 | success means the alias has the value asked for; whatever happens no other alias is touched, and undisturbed it succeeds |
| `Promote.Orchestrator.Apply` | internal/imagebuild/orchestrator.go:217-293 | with every request possibly lost: unless the source alias is an absent moving alias, a staged or failed apply leaves current and previous alone; success without staging means the image is current and the old current previous; undisturbed on paired aliases it succeeds |
| `Promote.StopsAtAStage` | internal/imagebuild/orchestrator.go:889-922 | a promotion stops at one of three alias maps; success means the last one and the right rollback target |
| `Promote.PromotionConverges` | internal/imagebuild/orchestrator.go:889-943 | stopped after any request and run again, it ends with the same aliases and result as uninterrupted |
| `Promote.RetriesConverge` | internal/imagebuild/orchestrator.go:889-943 | the same after any number of interrupted attempts |
| `Promote.FinishedIsFixed` | internal/imagebuild/orchestrator.go:899-901 | a finished promotion run again changes nothing and reports the same rollback target |
| `Promote.EveryMoment` | internal/imagebuild/orchestrator.go:902-910 | current is the old current or the target, and moves only after previous holds the old current; no other alias moves |
| `Promote.PromotionsStayPaired` | internal/imagebuild/orchestrator.go:896-898 | over any attempts and targets, previous without current is unreachable, and previous is the initial one or was current before |
| `Promote.StagingLeavesAliasesIff` | internal/imagebuild/orchestrator.go:284-286 | staging leaves current and previous alone, for all fates of its requests, if and only if the source alias exists or is neither of them |
| `Promote.SourceTakesPrevious` | internal/imagemanifest/validate.go:183-185 | a manifest with the source alias named as previous passes, and its first apply is then refused promotion |
| `Grace.Tracker.Observe` | internal/fleetobserve/observe.go:216-247 | the memory afterwards, the verdict on every name, and the greatest age within grace |
| `Grace.MemoryIsEarliest` | internal/fleetobserve/observe.go:221-236 | after any samples the memory has exactly the last sample's names, each with the earliest clock of its unbroken final stretch |
| `Grace.OutsideGraceIff` | internal/fleetobserve/observe.go:216-247 | outside grace if and only if present in every sample of a final stretch that began more than the grace ago, on any clock |
| `Grace.AbsenceRestarts` | internal/fleetobserve/observe.go:232-236 | one absent sample starts the grace again |
| `Inventory.Collector.Collect` | internal/fleetobserve/observe.go:591-672 | the counters are the sizes of the classes, both trackers take exactly their sample, and nothing is counted or tracked without a listing and a journal |
| `Inventory.CollectRepeatedly` | internal/fleetobserve/observe.go:591-672 | over a collector's whole life, unreadable collections included, every tally is the one judged by all sweeps so far |
| `Inventory.Collector.HeldOut` | internal/fleetobserve/observe.go:520-545 | degraded exactly when a drained member is offline |
| `Inventory.Collector.Sides` | internal/fleetobserve/observe.go:547-571 | covered, expected and maintenance names of a journal |
| `Inventory.Collector.ValidateNames` | internal/fleetobserve/observe.go:1133-1145 | a listing is accepted exactly when safe and free of duplicates |
| `Inventory.Collector.CountOrphans` | internal/fleetobserve/observe.go:641-651 | each uncovered name is counted in its class |
| `Inventory.Collector.CountAbsent` | internal/fleetobserve/observe.go:652-665 | each absent lease is counted in its class |
| `Inventory.TallyConserves` | internal/fleetobserve/observe.go:606-671 | both sums are conserved for every input and tracker state, orphans of all kinds are the uncovered names; orphan and missing are zero while degraded |
| `Inventory.OrphanMeans` | internal/fleetobserve/observe.go:622-651 | over any run of sweeps an instance counts as orphan if and only if visibility is whole and it was uncovered in every sweep of a stretch longer than a minute |
| `Inventory.MissingMeans` | internal/fleetobserve/observe.go:608-665 | the same for created leases and 30 seconds |
| `Inventory.AbsentMeans` | internal/fleetobserve/observe.go:652-665 | an absent deleting lease is waited for exactly during 30 seconds after its update, a warm one not at all, and none is blamed while degraded |
| `Lifecycle.TableByEvent` | internal/lifecycle/lifecycle.go:75-98 | where an event leads depends on the event alone, and it is accepted from exactly its states |
| `Lifecycle.LifeIsExplained` | internal/lifecycle/lifecycle.go:101-155 | the outcome is that of the one event that stands for one; the stage is the number of steps forward; destruction follows diagnostics, and quarantine an unretried failure |
| `Lifecycle.RunIsAccounted` | internal/lifecycle/lifecycle.go:101-173 | admissions, starts and outcomes in an accepted trace are counted exactly by the worker's fields |
| `Lifecycle.LifeOfAWorker` | internal/lifecycle/lifecycle.go:75-173 | at most one admission, start and outcome; a destroyed worker lacks an outcome iff never admitted; length at most 9 + 2 per failed destruction |
| `Lifecycle.WrittenOnce` | internal/lifecycle/lifecycle.go:113-155 | job key, run mark and outcome never change once written |
| `Lifecycle.EveryEventCarriesTheKey` | internal/lifecycle/lifecycle.go:119-135 | events carry no key before, and the admitted key from, the admission |
| `Lifecycle.AcceptedIff` | internal/lifecycle/lifecycle.go:113-155 | for reachable workers the table and the key decide alone |
| `Lifecycle.WarmGuardNeverFires` | internal/lifecycle/lifecycle.go:151-153 | the final warm-pool guard never rejects a reachable worker |
| `Lifecycle.CanAlwaysBeDestroyed` | internal/lifecycle/lifecycle.go:75-98 | from every reachable worker at most three events reach the end |
| `Lifecycle.BoundIsTight` | internal/lifecycle/lifecycle.go:75-98 | the length bound is reached for every number of failed destructions |
| `Splice.SpliceOutcome` | internal/garmderivative/script.go:195-209 | a splice succeeds if and only if the manifest is valid, the markers are in order and something follows the end marker; it panics if and only if the end marker ends the script |
| `Splice.SpliceIsAProjection` | internal/garmderivative/script.go:195-209 | under that condition the result is spliceable again and a fixpoint, and a later splice of any manifest forgets it |
| `Splice.SpliceReplacesRegion` | internal/garmderivative/script.go:200-208 | under that condition the result is the text before, the rendered region, and the text after but for one character |
| `Splice.OutsideIsKeptIff` | internal/garmderivative/script.go:200-208 | for every manifest and script, the splice succeeds and keeps all text outside the region if and only if the manifest is valid, the markers are in order and a line break follows the end marker |
| `Splice.DroppedCharacter` | internal/garmderivative/script.go:208 | every valid manifest has a script whose splice loses a character |
| `Splice.PanicAtTheEnd` | internal/garmderivative/script.go:208 | every valid manifest has a script on which the slice is out of range |
| `Splice.BodyIsClear` | internal/garmderivative/validate.go:172-180 | no end marker can begin inside a rendered region, since no shell-safe value holds a number sign |
| `Splice.SafeStaysAValue` | internal/garmderivative/validate.go:13-17 | an accepted value holds no quote, escape, expansion, comment, blank or line break |
| `Splice.Index` | internal/garmderivative/script.go:199-205 | the first occurrence, or none |
| `Render.RenderRegion` | internal/garmderivative/script.go:135-190 | renders exactly the region, for valid manifests only: begin marker first, and the only end marker at its end |
| `Render.RenderList` | internal/garmderivative/script.go:175-181 | one array assignment |
| `Render.IdentityIsAssigned` | internal/garmderivative/script.go:153-170 | the region assigns version, repository, commit, digest, image, compiler and cgo each to its own name |
| `Render.BuildIsAssigned` | internal/garmderivative/script.go:153-170 | and platform, network, module mode, tags, rebuilds and library bound to theirs |
| `Render.SourcesAreAssigned` | internal/garmderivative/script.go:175-186 | and the paths, digests and targets to theirs |
| `Render.NamesAre` | internal/garmderivative/script.go:156-186 | the names the build script reads |
| `Render.TargetsAreBelow` | internal/garmderivative/validate.go:182-186 | a target is the overlay's path below the overlay directory |
| `Render.RegionDeterminesManifest` | internal/garmderivative/script.go:135-190 | equal regions come from equal build inputs |
| `Namespace.PrintsIffParses` | internal/cachenamespace/namespace.go:40-105 | a root is printed for a repository and class if and only if it is parsed as them |
| `Namespace.RootsAreApart` | internal/cachenamespace/namespace.go:40-49 | the trees below two roots meet only if the roots are equal |
| `Namespace.NoRootBelowAnother` | internal/cachenamespace/namespace.go:40-49 | no root is a path prefix of a root |
| `Namespace.KeysAreInjective` | internal/cachenamespace/namespace.go:179-208 | equal keys name equal objects in every component, across repositories too |
| `Namespace.KeyStaysInItsClass` | internal/cachenamespace/namespace.go:179-208 | a key lies below the root of its own class and no other |
| `Namespace.RootExistsIff` | internal/cachenamespace/namespace.go:40-49 | a root exists for exactly the three classes and repositories of two plain segments |
| `Namespace.RootPathIs` | internal/cachenamespace/namespace.go:40-49 | the root is repository, trust, class |
| `Namespace.KeyExistsIff` | internal/cachenamespace/namespace.go:179-208 | a key exists for exactly the objects of plain segments and a name that neither starts at the top nor climbs |
| `Namespace.KeyPathIs` | internal/cachenamespace/namespace.go:179-208 | the key is root, platform, architecture, toolchain, lock digest, ref class, name |
| `Namespace.Key` | internal/cachenamespace/namespace.go:179-208 | the segment loop builds exactly that key, or refuses |
| `Admission.AdmitsIff` | internal/admission/admission.go:126-150 | admitted if and only if healthy, disk and pressure in bounds, and CPUs, allowance and memory fit with their reserves |
| `Admission.ReasonMeans` | internal/admission/admission.go:116-150 | each refusal is given exactly when its test is the first to fail, and the reported remainders add up |
| `Admission.ReservesAre` | internal/admission/admission.go:94-103 | the reserves are the larger of minimum and percentage, the limit the floored share times the overcommit |
| `Admission.LedgerFits` | internal/admission/admission.go:94-150 | over any run of evaluated admissions and releases memory, CPU and allowance stay within reserves and limit, unless a request declares a negative allowance |
| `Admission.AdmitKeepsFitIff` | internal/provideradmission/controller.go:1006-1033 | one admission keeps the ledger within the host if and only if its allowance is not negative or its CPUs happen to fit |
| `Admission.NegativeAllowanceOverruns` | internal/admission/admission.go:108-111 | a negative allowance overruns the limit |
| `Admission.AdmitThenRelease` | internal/provideradmission/controller.go:1006-1026 | a release undoes its admission whatever was admitted in between, and takes exactly its demand out of every sum |
| `Admission.MoreCpuKeepsAdmission` | internal/admission/admission.go:99-113 | more CPU units keep an admission, although the reserve grows |
| `Admission.MoreMemoryKeepsAdmission` | internal/admission/admission.go:103-115 | more total and available memory keep an admission |
| `Admission.TotalMemoryAloneIff` | internal/admission/admission.go:145-146 | total memory alone keeps it if and only if the grown reserve still fits what is available |
| `Admission.LessIsAdmitted` | internal/admission/admission.go:94-150 | a smaller demand on a host with less allocated is admitted |
| `Admission.CeilingIs` | internal/admission/admission.go:194-196 | the reserve is the least whole number not below the percentage |
| `HostDisk.PercentIsCeilingIff` | internal/hostdisk/hostdisk.go:85-97 | for any part and total the result is the exact ceiling if and only if that fits a signed word; the 128-bit division never panics |
| `HostDisk.PercentOfShare` | internal/hostdisk/hostdisk.go:85-97 | for a share it is the ceiling, within 0 to 100 |
| `HostDisk.UsableIsCeiling` | internal/hostdisk/hostdisk.go:35-44 | exactly the ceiling of what is available, at most all, in the total without the loop file |
| `HostDisk.UsableIsAboveRaw` | internal/hostdisk/hostdisk.go:35-44 | within 0 to 100 and never below the raw share |
| `HostDisk.UsableGrowsWithLoop` | internal/hostdisk/hostdisk.go:35-44 | non-decreasing in the loop size below the total |
| `HostDisk.UsableGrowsWithAvailable` | internal/hostdisk/hostdisk.go:35-44 | non-decreasing in the available space |

## Left out

Assumptions the properties rest on:

- Inode numbers are not reused and a spooled file's content does not change in place; stored objects do not change once created; SHA-256 is injective.
- Saving state is an atomic durable replace, and the claim journal's lock makes each update one transaction: descriptors, fsync, flock, modes and ownership are not modelled.
- Only the publisher's own calls post trusted issues with this attempt's job markers, calls are serialized, and the listing shows newest issues first; the listing's `since` filter is not modelled, as no such issue precedes its run.
- GARM hands out fresh identifiers, stores what it is sent, and answers a create with the stored entity; nobody else writes during a run. Pending checks of fields the reconciler never writes are folded into verdicts (`app`, `bounded`, `fixed`).
- Integers are unbounded except in `HostDisk`; 64-bit overflow of byte counters, totals and products in admission is not modelled.

Not modelled:

- Exporter.Exporter.Run: tool-cache events, the deployment stage field and the schema version of the status are not carried; the configuration checks before the run are left out.
- Archive.VerifyArchive: decompression, tar framing, size limits per entry and JSON decoding are given; the model starts from entries and a decoded manifest.
- Feedback.Publish: only early mode; a call without failed jobs reports pending, where the source tells pending, not-a-failure and, for a finished failed run, the attempt-level publication apart. Run metadata checks before the job listing are left out.
- Promote.Orchestrator.Apply: inspection of existing images, build and smoke test are verdicts; publication and import are each one request that writes one alias.
- Lifecycle: the worker's identifier and digest checks on creation are modelled, persistence of workers is not.
- Splice.Manifest: schema, prose, path cleanliness and version-shape checks are one verdict, since they concern no rendered character.
- Namespace.Key: the configured repository is a parameter; registry and actions-cache prefixes and lifecycle identifiers are left out, being one-line variants.
- Admission.LedgerFits: the ledger moves only by evaluated admissions and by releases. The controller also books observed instances without evaluating them (internal/provideradmission/controller.go:781), and admits against sums that leave out warm workers it marks for preemption but still books (internal/provideradmission/controller.go:180, 222-302), once even where the evaluation refuses; with those the booked sums can pass the limits although no allowance is negative.
- Admission: pressure averages are compared in floating point in the source; here each comparison is a given truth value.
- Inventory: error texts, queue summaries, execution correlation and service health are left out, each settled by reading one branch.
- HTTP, object-store and Incus clients, command-line programs, GitHub App bootstrap, guest scripts, host probing and field-by-field validators.
