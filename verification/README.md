# Verified model of cluster-profile

The controller of this repository upgrades the features of a managed cluster in several reconciles: one rewrites
HelmRelease manifests inside ManifestWorks and records, on a ConfigMap, which releases to wait for; later ones watch
feedback that lags behind the spoke until every release is ready or 30 minutes pass. This project models that
protocol, the null-pruned comparison of specs it relies on, and the computation of the feature lists that feed it,
and proves their properties. `dafny verify dfyconfig.toml` checks everything.

## How the model is built

- **Specs and nulls.** `JsonValue` holds JSON trees, null pruning and the merge patch of section 2 of RFC 7396;
  `JsonHeap` runs `pruneNulls` in place on maps and slices in memory and is proved against it. `SpecEquality` says
  field by field when two specs compare as equal.
- **One apply.** `Cluster`, `Feedback`, `Render`, `Rewrite` and `Apply` give the objects on the hub, how feedback reads, what an upgrade renders, the
  two rewrite loops, and the sequence of hub states that the API writes of one `applyUpgrade` go through. A failure
  after any API call is a stop at one of those states. `ApplyEffect`, `ApplyFixpoint`, `ApplyOutcome` and
  `ApplyAgain` say when an apply completes, what it leaves, and what another one does there; `RunRecord` is the
  ConfigMap as record of a run.
- **The protocol.** `Protocol` is the state machine: hub, spoke objects, remembered snapshots, clock, and the steps
  reconcile, agent apply, agent prune, flux, feedback sync, nulls dropped or kept by the API server, and tick.
  `ProtocolStore`, `ProtocolRun`, `ProtocolSafety`, `ProtocolGate` and `ProtocolMarks` prove its theorems over whole
  histories. `Pinning` isolates one release; `ProtocolExact` says exactly when the readiness test can be trusted,
  `ProtocolRetry` builds the histories in which it cannot, and `ProtocolProgress` says exactly when a run can be
  completed; `ProtocolExample` has concrete instances.
- **The code.** `Server`, `Upgrader` and `Controller` are the imperative controller over an API server of which any
  call may fail, be refused, or take effect unnoticed; `Controller.Reconcile` is proved to be a step of the state
  machine, so the theorems are about this code, and to go through to its end when no call fails.
- **The features.** `Features`, `Sanitize`, `Dependencies` and `Removal` are the feature lists: gathering, closure
  under requirements, exclusion groups, dependsOn, and the removal pass. `Install` composes them, from binding and
  profile to the ManifestWorks.

## Environment contracts

- The work agent applies the manifest the hub holds and bumps the generation exactly when the spec differs modulo
  nulls (`Pinning.Applied`).
- Flux reporting Ready with `observedGeneration` equal to the generation has released that generation
  (`Pinning.FluxContract`).
- Feedback for a release is a snapshot of one spoke object; it holds every field when the ManifestWork carries the
  feedback rules, and possibly fewer otherwise (`Protocol.Reports`).
- The controller reads its own writes. Binding, profile, catalog and charts stay the same over a history. Names of
  ManifestWorks are unique.
- For the safety theorems, every watched manifest is a HelmRelease with a name, and no other manifest on the hub
  stands for the same object on the spoke (`ProtocolSafety.Watchable`).
- No HelmRelease is named like the status entry of the ConfigMap, which it would overwrite: assumed of marks, and
  where an apply is shown to record its run (`ApplyOutcome.StatusFree`).

## Where the code falls short of its comments

- `helmReleaseReady` says the generation proves that the object is the one the upgrade wrote. For a target of a
  pending run that holds for the rest of the run if and only if no spoke object of another spec has reached the
  generation awaited, and feedback that passes already is of the spec written (`ProtocolExact.SafeTargetIff`; before
  the apply, `ProtocolExact.SafeRecordingIff`). Feedback in sync at the recording apply establishes this. A retry
  after an apply that failed at its last write does not (`ProtocolRetry.RetryBeforeSync`, from any state in sync;
  `ProtocolExample.RetryHappens` is an instance), nor does an apply on a ManifestWork that does not report the
  generation yet (`ProtocolRetry.GenerationNotReported`, with the instance `ProtocolExample.UnreportedHappens`): one
  flux status and one feedback sync later the old release passes.
- Likewise a run can be completed if and only if each target passes or awaits a generation within reach
  (`ProtocolProgress.CanAllPassIff`); feedback in sync establishes that too (`ProtocolProgress.NeverHangs`).
- A closed run ends the upgrade if and only if the status is written, opscenter-core can be read for it where a
  version is wanted, and the binding can settle (`ProtocolGate.NoUpgradeLoopIff`). A read that fails just then stores
  a blank version, and the whole upgrade starts over (`ProtocolGate.UnreadableCoreRestarts`;
  `ProtocolExample.RestartHappens` is an instance). The binding cannot settle with a force-upgrade stamp that has a
  fraction of a second, which the parser accepts but the status stores in whole seconds, so every later reconcile
  upgrades again (`ProtocolGate.FractionNeverSettles`), nor with a version and no manifest named opscenter-features to
  read it from. The same failed read unsettles a binding that was settled (`ProtocolGate.StaysSettledIff`).
- Exclusion groups hold within one call. The calls for the feature sets of one installation do not share them, so a
  group gets at most one new member if and only if at most one list starts it (`Sanitize.GroupExclusiveIff`); two
  lists of one feature each can both (`Sanitize.TwoSetsAdmitBoth`).
- `pruneNulls` also prunes inside lists, which a merge patch does not; the two agree after pruning
  (`JsonValue.StoredByMergePatch`).
- The removal pass leaves every unlisted HelmRelease of a ManifestWork in place if one HelmRelease there has no name
  (`Removal.NamelessKeepsAll`).

## Model

| member | source | states |
|---|---|---|
| JsonValue.PruneRemovesNulls | pkg/cluster_upgrade/upgrader.go:71-87 | pruning leaves no null member in any object at any depth, inside lists too |
| JsonValue.PruneFixpoint | pkg/cluster_upgrade/upgrader.go:71-87 | pruning changes a document if and only if it holds a null member somewhere |
| JsonValue.PruneIdempotent | pkg/cluster_upgrade/upgrader.go:71-87 | pruning twice is pruning once |
| JsonValue.PruneForm | pkg/cluster_upgrade/upgrader.go:71-87 | the pruned tree is the one in which, at every depth, objects lack exactly their null members and lists keep length and every element in place |
| JsonValue.StoredByMergePatch | pkg/cluster_upgrade/upgrader.go:67-70 | a document created by an RFC 7396 merge patch equals the one written, up to pruned nulls |
| JsonValue.PatchedByDiff | pkg/cluster_upgrade/upgrader.go:67-70 | sending only the difference of two objects as a merge patch leaves the new one, up to pruned nulls |
| JsonHeap.PruneNulls | pkg/cluster_upgrade/upgrader.go:71-87 | run in place on an unshared tree in memory, it leaves exactly the pruned tree and touches nothing else |
| JsonHeap.PruneMap | pkg/cluster_upgrade/upgrader.go:73-80 | the map case in any ranging order: null entries deleted, the others pruned in place |
| JsonHeap.PruneList | pkg/cluster_upgrade/upgrader.go:81-84 | the slice case: every element pruned in place |
| Render.NullsDoNotCount | pkg/cluster_upgrade/upgrader.go:94-111 | specs that differ only in nulls of their values never compare as changed |
| SpecEquality.UnchangedIff | pkg/cluster_upgrade/upgrader.go:94-111 | a spec compares as unchanged if and only if it agrees in every field, and in the untyped parts at every key, up to nulls |
| SpecEquality.ValuesChangedIff | pkg/cluster_upgrade/upgrader.go:94-111 | new values count as a change exactly if they differ in more than nulls |
| Render.RenderIdempotent | pkg/cluster_upgrade/upgrader.go:244-258 | rendering an already rendered spec, of either loop, gives the same spec |
| Render.RenderCongruent | pkg/cluster_upgrade/upgrader.go:336-403 | rendering does not depend on nulls in the stored values, and fails for the same inputs |
| Render.RenderCoreWrites | pkg/cluster_upgrade/upgrader.go:244-258 | opscenter-features gets the binding's version, the prepared valuesFrom and, if any, the prepared values; nothing else moves |
| Render.RenderFailsIff | pkg/cluster_upgrade/upgrader.go:336-384 | rendering a feature fails exactly if the catalog does not have it or values that are read do not decode |
| Render.BindingValuesStand | pkg/cluster_upgrade/upgrader.go:336-346 | values that the binding lists replace everything |
| Render.OtherValuesMerge | pkg/cluster_upgrade/upgrader.go:348-384 | without them the profile's values are merged over the catalog's and those over the chart's, each from its own source |
| Render.RenderKeeps | pkg/cluster_upgrade/upgrader.go:355-403 | the catalog's chart version even where the profile names a chart and so decides the namespaces and their creation; empty namespaces and an absent install leave what is there; nothing else moves |
| Cluster.CarriesIff | pkg/cluster_upgrade/upgrader_helper.go:113-156 | carrying the rules means that the first option for the release lists just Ready, Released, Generation and ObservedGeneration with their paths |
| Cluster.EnsureAllCarries | pkg/cluster_upgrade/upgrader_helper.go:113-156 | after ensuring the rules of any list of targets, the option governing each target reports every path readiness reads |
| Cluster.EnsureRulesKeeps | pkg/cluster_upgrade/upgrader_helper.go:138-145 | ensuring one release never undoes the rules of another |
| Cluster.EnsureAllKeepsOthers | pkg/cluster_upgrade/upgrader_helper.go:138-155 | options of other releases stay unchanged and in place; new options are only appended |
| Cluster.EnsureAllIdempotent | pkg/cluster_upgrade/upgrader_helper.go:113-156 | ensuring the same list twice changes nothing more |
| Server.ManifestWork.EnsureFeedbackRules | pkg/cluster_upgrade/upgrader_helper.go:113-156 | the in-place loop computes the option list the lemmas above are about |
| Feedback.FindConditionIff | pkg/cluster_upgrade/upgrader_helper.go:33-54 | the condition read is the first of that kind, namespace and name |
| Feedback.FeedbackIntIff | pkg/cluster_upgrade/upgrader_helper.go:56-63 | the integer read is that of the first entry of that name that has one |
| Feedback.FeedbackStringIff | pkg/cluster_upgrade/upgrader_helper.go:65-73 | the same for strings |
| Feedback.GenerationIff | pkg/cluster_upgrade/upgrader_helper.go:75-81 | the generation read is the one reported by the first condition, or 0 |
| Feedback.ReadyIff | pkg/cluster_upgrade/upgrader_helper.go:83-107 | a release is ready if and only if its first condition is applied, Ready is True, and Generation is high enough and equal to ObservedGeneration |
| Rewrite.SelectedIff | pkg/cluster_upgrade/upgrader.go:316-334 | the second loop selects labelled HelmReleases other than opscenter-features |
| Rewrite.ScanCoreIff | pkg/cluster_upgrade/upgrader.go:227-243 | the first loop finds the first manifest named opscenter-features if that decodes and nothing before it is unreadable |
| Rewrite.WatchedIff | pkg/cluster_upgrade/upgrader.go:227-417 | exactly these positions, the latter in managed works, are rewritten and watched |
| Rewrite.RewriteAllEffect | pkg/cluster_upgrade/upgrader.go:313-417 | the loop over one ManifestWork edits exactly the selected manifests, each to its rendering, and appends their targets in order |
| ApplyFixpoint.UpgradedAt | pkg/cluster_upgrade/upgrader.go:227-417 | over both loops, exactly the watched positions change, each to its rendered spec; all other manifests stay |
| ApplyFixpoint.RulesCarried | pkg/cluster_upgrade/upgrader.go:273-273 | after an apply the ManifestWork of every watched release carries its feedback rules |
| ApplyEffect.LoopsComplete | pkg/cluster_upgrade/upgrader.go:227-436 | completed loops store the upgraded works and yield one target per watched position, in the same order |
| Apply.RecordComesLast | pkg/cluster_upgrade/upgrader.go:220-445 | no state before the last write of an apply with targets records the run: nothing carries new targets and at most one new ConfigMap exists |
| Apply.PutSpecReaches | pkg/cluster_upgrade/upgrader.go:274-283 | storing a work replaces manifests and feedback options of that work and nothing else |
| Apply.PatchReaches | pkg/cluster_upgrade/upgrader_helper.go:278-295 | patching the ConfigMap replaces its data, sets or drops its targets and merges its other annotations, and reaches nothing else |
| ApplyOutcome.ApplyCompletes | pkg/cluster_upgrade/upgrader.go:170-447 | a completed apply ends with one ConfigMap, stamped with version, time and force-upgrade stamp, whose list matches the rewritten manifests and whose entries are those of its creation with every target False; with none to watch it is closed at once |
| ApplyOutcome.ReapplyIdempotent | pkg/cluster_upgrade/upgrader_helper.go:202-206 | applying again on the state left by an apply changes no work at any point, and every target waits for just the generation now reported |
| ApplyFixpoint.ReapplyUnchanged | pkg/cluster_upgrade/upgrader.go:244-273 | on settled works an apply, complete or cut short anywhere, writes each work back as it was |
| ApplyOutcome.InitialMarks | pkg/cluster_upgrade/upgrader_helper.go:302-344 | the loop over manifests marks False exactly the labelled feature releases of managed works |
| ApplyOutcome.CreatedEntries | pkg/cluster_upgrade/upgrader_helper.go:297-344 | the entries of a new ConfigMap, with opscenter-features False, the version, and pending as status |
| ApplyAgain.CompletesIff | pkg/cluster_upgrade/upgrader.go:170-447 | an apply runs to its end if and only if values and opscenter-core are there, the scan of opscenter-core is not stopped, and everything in managed works can be read and rendered |
| ApplyAgain.ReapplyWaits | pkg/cluster_upgrade/upgrader.go:170-447 | on the works that an apply with targets left, another one completes and has targets too |
| Rewrite.WatchedOnce | pkg/cluster_upgrade/upgrader.go:227-417 | no position is rewritten twice |
| RunRecord.FindAfterRecord | pkg/cluster_upgrade/upgrader_helper.go:207-251 | what was recorded is found again, with the full list, exactly by a binding with the same version and stamp while it is pending |
| RunRecord.SweepMarks | pkg/cluster_upgrade/upgrader_helper.go:162-192 | after a sweep a mark is True if and only if it was before or a release of that name was seen ready; other data stays |
| RunRecord.SweepChanges | pkg/cluster_upgrade/upgrader_helper.go:185-189 | the ConfigMap is patched exactly when a mark changed |
| RunRecord.SweepPending | pkg/cluster_upgrade/upgrader_helper.go:162-192 | nothing is pending exactly when every target was seen ready; whatever is pending was not |
| RunRecord.SweepKeeps | pkg/cluster_upgrade/upgrader_helper.go:162-183 | every target not seen ready stays pending |
| RunRecord.VerdictIff | pkg/cluster_upgrade/upgrader.go:150-168 | an observation succeeds exactly when all targets are seen ready, and times out exactly past the deadline otherwise |
| RunRecord.GivesUpIff | pkg/cluster_upgrade/upgrader.go:160-164 | a run is given up exactly if some target is not ready more than 30 minutes after its creation |
| RunRecord.SuccessMarksAll | pkg/cluster_upgrade/upgrader.go:156-158 | a run closed without error shows True for every target and completed as status |
| Pinning.SafeIffPinned | pkg/cluster_upgrade/upgrader_helper.go:83-107 | for one release, in every interleaving of agent, flux and full or partial sync, feedback that passes is of the wanted spec, if and only if the guard held at the start |
| Pinning.PinnedRun | pkg/cluster_upgrade/upgrader_helper.go:83-107 | the guard, and with it honesty, is kept by every run of agent, flux and sync |
| Pinning.UnpinnedRun | pkg/cluster_upgrade/upgrader.go:113-130 | without the guard a run of at most two moves passes an old release |
| Pinning.NoHangIff | pkg/cluster_upgrade/upgrader.go:113-130 | a release that does not pass yet comes to pass in some run exactly when the awaited generation is at most 1 if it is to be created, its own if it carries the spec, one more otherwise |
| Pinning.InSyncTracks | pkg/cluster_upgrade/upgrader.go:117-121 | with feedback in sync, the awaited generation tells the new spec from the old, changed or not |
| Pinning.TracksStep | pkg/cluster_upgrade/upgrader.go:113-130 | agent, flux and sync keep generations telling the specs apart |
| Pinning.TracksPins | pkg/cluster_upgrade/upgrader_helper.go:83-107 | that implies the guard, and the generation of an object carrying the new spec is exactly the awaited one |
| ProtocolStore.StepKeepsStore | pkg/cluster_upgrade/upgrader_helper.go:47-73 | every step keeps stored feedback consistent with the snapshots it was read from |
| ProtocolRun.StepKeepsRun | pkg/cluster_upgrade/upgrader.go:137-146 | every step, with a failure after any API call, keeps the record of a run truthful |
| ProtocolRun.CommitRecord | pkg/cluster_upgrade/upgrader.go:220-445 | in every reachable state a resumable ConfigMap is the only one, its run is still due, every rewrite is stored, and its list watches all of them in order |
| ProtocolRun.ApplyKeepsRun | pkg/cluster_upgrade/upgrader.go:170-447 | at whatever point an apply stops, the run is on record complete or not at all |
| ProtocolRun.ObserveRecord | pkg/cluster_upgrade/upgrader_helper.go:256-260 | an observation keeps the record apart from marks, or ends the run with its targets removed and the status completed |
| ProtocolSafety.NoOtherWriter | pkg/controller/managedclusterprofilebinding_controller.go:104-123 | while a run is pending a reconcile leaves all works alone and keeps the target list, or ends the run |
| ProtocolSafety.StepMoves | pkg/cluster_upgrade/upgrader_helper.go:83-107 | each step of the system is, for every watched release, a move of its link or nothing |
| ProtocolSafety.GuardHolds | pkg/cluster_upgrade/upgrader.go:113-130 | over any history whose recorded applies started guarded, the guard holds for every target of the pending run |
| ProtocolSafety.SafeHistory | pkg/cluster_upgrade/upgrader_helper.go:83-107 | in any such history a target that passes was snapshotted with the spec this run rendered, and flux had released just that generation of it |
| ProtocolExact.SafeTargetIff | pkg/cluster_upgrade/upgrader_helper.go:83-107 | of a pending run, on every continuation a target passes only when released as rendered, if and only if the guard holds now |
| ProtocolExact.SafeRecordingIff | pkg/cluster_upgrade/upgrader.go:113-130 | an apply records a run whose target can be trusted if and only if the guard holds before it |
| ProtocolExact.UnguardedPath | pkg/cluster_upgrade/upgrader.go:117-121 | from any pending state without the guard at most one flux status and one sync make an old release pass |
| ProtocolRetry.RetryBeforeSync | pkg/cluster_upgrade/upgrader.go:117-121 | from a state with feedback in sync, an apply that changes a release and fails at its last write, a retry, one flux status and one sync: the old release passes |
| ProtocolRetry.GenerationNotReported | pkg/cluster_upgrade/upgrader_helper.go:75-81 | an apply that reads generation 0 because it is not reported, one flux status and one sync: the old release passes |
| ProtocolExample.RetryHappens | pkg/cluster_upgrade/upgrader.go:117-121 | instance: opscenter-features moves from v1 to v2, everything in sync, and v1 passes for v2 |
| ProtocolExample.UnreportedHappens | pkg/cluster_upgrade/upgrader_helper.go:75-81 | instance: the same with a ManifestWork that reports nothing yet |
| ProtocolProgress.CaughtUpIsReady | pkg/cluster_upgrade/upgrader_helper.go:90-107 | after agent and flux have caught up with a target any full sync makes it pass, and the generation reported is the awaited one (1 against 0 for a new object) |
| ProtocolProgress.CanAllPassIff | pkg/cluster_upgrade/upgrader.go:113-130 | the targets of a pending run can be made ready, all at once, if and only if each passes or its generation is within reach |
| ProtocolProgress.AllPassCloses | pkg/cluster_upgrade/upgrader.go:150-158 | one reconcile that meets all targets ready closes the run; no upgrade is due after it if and only if opscenter-core was readable where a version is wanted and the binding can settle |
| ProtocolProgress.NeverHangs | pkg/cluster_upgrade/upgrader.go:113-168 | in a history whose recorded applies were in sync, every pending state can be brought to a closed run by agent, flux, sync and one reconcile |
| ProtocolGate.UpgradeDueIff | pkg/controller/managedclusterprofilebinding_controller.go:127-144 | no upgrade is due exactly when the version wanted was observed and a stamp that parses is the one stored |
| ProtocolGate.EnablesIff | pkg/controller/managedclusterprofilebinding_controller.go:147-149 | with no upgrade due, works can change exactly if the profile has the binding's version or the binding leaves it open |
| ProtocolGate.StatusNeedsClosedRun | pkg/controller/managedclusterprofilebinding_controller.go:104-123 | on the upgrade branch the status changes only with a run closed as completed, all targets seen ready in that one observation, or none to watch |
| ProtocolGate.StatusMeansReleased | pkg/controller/managedclusterprofilebinding_controller.go:181-187 | when the status moves on in a guarded history, every watched release was released from exactly the rendered spec |
| ProtocolExample.RestartHappens | pkg/controller/managedclusterprofilebinding_controller.go:210-214 | instance: a run closed with all targets ready whose status is written while opscenter-core is unreadable, and which is due again |
| ProtocolGate.VersionReadBack | pkg/controller/managedclusterprofilebinding_controller.go:210-235 | reader and rewriter pick the same manifest: while a run stands recorded the version read back is the binding's |
| ProtocolGate.CanonVersion | pkg/cluster_upgrade/upgrader.go:94-111 | specs that compare as unchanged name the same chart version |
| ProtocolGate.NoUpgradeLoopIff | pkg/controller/managedclusterprofilebinding_controller.go:127-144 | after a run closed as completed no upgrade is due, if and only if the status was written, opscenter-core was readable where a version is wanted, and the binding can settle |
| ProtocolGate.UnreadableCoreRestarts | pkg/controller/managedclusterprofilebinding_controller.go:210-214 | a failed read of opscenter-core blanks the stored version, so that the upgrade of a completed run is due again with nothing on record |
| ProtocolGate.StaysSettledIff | pkg/controller/managedclusterprofilebinding_controller.go:181-208 | over a history a settled binding stays settled exactly as long as no reconcile stores another version than the binding's or a stamp that lost its fraction |
| ProtocolGate.ClosedStaysIff | pkg/controller/managedclusterprofilebinding_controller.go:104-144 | from the closing reconcile of a history on, no upgrade is due exactly if that one settled the binding and nothing unsettles it |
| ProtocolGate.FractionNeverSettles | pkg/controller/managedclusterprofilebinding_controller.go:196-203 | with a stamp that has a fraction of a second every reachable state asks for an upgrade |
| ProtocolGate.SingleRecordHistory | pkg/cluster_upgrade/upgrader_helper.go:262-276 | once at most one upgrader ConfigMap exists, every later state has at most one |
| ProtocolGate.CreatedAlone | pkg/cluster_upgrade/upgrader_helper.go:297-361 | the step that creates an upgrader ConfigMap leaves it the only one |
| ProtocolMarks.MarksLatched | pkg/cluster_upgrade/upgrader_helper.go:162-192 | from a pending state up to and including the write that closes the run, a mark is True if a stored observation in between saw the release ready, and else what it was |
| ProtocolMarks.MarksTell | pkg/cluster_upgrade/upgrader.go:156-164 | in the ConfigMap of a run, also one closed on timeout, a target is marked True if some stored observation saw its release ready and False if none did |
| ProtocolMarks.RecordStartsUnmarked | pkg/cluster_upgrade/upgrader.go:271-271 | a run goes on record with every target marked False, created as the clock stood |
| ProtocolMarks.BoundedWaitHistory | pkg/cluster_upgrade/upgrader.go:160-167 | over a history, timer-driven observations of one run wait at most 300 times |
| RunRecord.WaitsFit | pkg/cluster_upgrade/upgrader.go:50-53 | 300 polls do fit into the wait, so that the bound is sharp |
| Upgrader.FinishUpgrade | pkg/cluster_upgrade/upgrader_helper.go:256-260 | completed is set, the targets annotation dropped, the ConfigMap patched; it succeeds exactly if the patch does and it is given no error |
| Upgrader.RecordPendingUpgrade | pkg/cluster_upgrade/upgrader_helper.go:238-251 | targets, and the stamp when there is one, are set and the ConfigMap patched; it succeeds when the patch does |
| Upgrader.RewriteFeatures | pkg/cluster_upgrade/upgrader.go:313-418 | the inner loop over local objects computes the specified edit, or fails exactly when that does |
| Upgrader.DeleteStale | pkg/cluster_upgrade/upgrader_helper.go:265-276 | deletes in list order; a failure leaves a suffix of the list |
| Upgrader.CreateRecord | pkg/cluster_upgrade/upgrader_helper.go:297-362 | every stop is a state of the apply's trace; success leaves exactly the new ConfigMap |
| Upgrader.UpgradeCore | pkg/cluster_upgrade/upgrader.go:227-294 | the first loop, with both of its writes |
| Upgrader.UpgradeFeatures | pkg/cluster_upgrade/upgrader.go:296-436 | the second loop over the works listed after the first, with two writes for each managed work |
| Upgrader.ApplyUpgrade | pkg/cluster_upgrade/upgrader.go:170-447 | wherever an API call fails the hub is in a state of the specified trace; if none fails it ends with an error only if something cannot be read or rendered, and else all works are upgraded, the ConfigMap records it, and it requeues exactly if there is something to watch |
| Upgrader.FindPendingUpgrade | pkg/cluster_upgrade/upgrader_helper.go:207-234 | the scan returns the first resumable ConfigMap, or reports a malformed one |
| Upgrader.SweepTargets | pkg/cluster_upgrade/upgrader_helper.go:162-183 | the loop over targets, with unreadable works kept pending, computes the specified sweep |
| Upgrader.ObserveUpgrade | pkg/cluster_upgrade/upgrader.go:150-168 | patches and closing write of an observation; if no call fails it finishes exactly if all targets are ready and requeues exactly if not and within 30 minutes |
| Controller.ReadVersion | pkg/controller/managedclusterprofilebinding_controller.go:210-235 | reads the version of the first manifest named opscenter-features, or none |
| Controller.SetVersion | pkg/controller/managedclusterprofilebinding_controller.go:181-208 | the status write, with a failed read blanking the version and an invalid stamp refusing it; if no call fails the status is stored |
| Controller.Reconcile | pkg/controller/managedclusterprofilebinding_controller.go:66-124 | whatever calls fail, one reconcile is a step of the protocol; if none fails it comes to the end of its apply or observation, reads every target, and stores the status of a finished one |
| Features.FeatureTable.AddFeatures | pkg/controller/managedclusterprofilebinding_controller.go:86-95 | in any ranging order, each new name is listed once, at the end of its own feature set, and known names stay where they are |
| Features.FeatureTable.Gather | pkg/controller/managedclusterprofilebinding_controller.go:86-98 | every name of binding and profile is listed exactly once, and the binding's feature set wins |
| Features.Installer.AddRequiredFeatures | pkg/feature_installer/enable_featureset.go:147-204 | terminates on every graph and lists the least set closed under requirements, each new name once under its own feature set; fails exactly when a needed feature is unknown or a needed claim does not parse |
| Features.ClosureUnique | pkg/feature_installer/enable_featureset.go:151-203 | the closure is the set of names every closed set holds, so no ranging order can change the outcome |
| Features.WaivedIff | pkg/feature_installer/enable_featureset.go:169-190 | waived are license-proxyserver and what a claim that parses lists as disabled or externally managed; a missing claim waives nothing else |
| Sanitize.SanitizeFeatures | pkg/feature_installer/helpers.go:335-392 | the code with its per-group lists needs the claim, sorts its slice in place and returns the specified selection |
| Sanitize.FailsIff | pkg/feature_installer/helpers.go:335-378 | it fails exactly when the claim is missing or does not parse, or a listed feature is unknown or its ManifestWork does not decode |
| Sanitize.ExistInIff | pkg/feature_installer/helpers.go:411-431 | a feature is installed if and only if the work of its own feature set has a manifest of its name with all before it decoding |
| Sanitize.AdmittedNext | pkg/feature_installer/helpers.go:363-389 | a feature is admitted if and only if it is not disabled or externally managed and is installed already or not blocked by an enabled or earlier admitted member of its group |
| Sanitize.GroupsExclusive | pkg/feature_installer/helpers.go:380-388 | of two admitted members of a group, the later one was in its ManifestWork already |
| Sanitize.TakenStayOut | pkg/feature_installer/helpers.go:351-382 | of a group taken at the start only members already installed are admitted |
| Sanitize.AdmitsNewIff | pkg/feature_installer/helpers.go:346-389 | a list admits a new member of a group if and only if the group is free and its first member there that is not dropped is not installed |
| Sanitize.GroupExclusiveIff | pkg/feature_installer/enable_featureset.go:118-126 | over the calls for all feature sets a group gets at most one new member if and only if at most one list starts it |
| Sanitize.TwoSetsAdmitBoth | pkg/feature_installer/helpers.go:346-346 | two features of a free group, each alone in its list, are both admitted |
| Sanitize.SanitizedLeavesOut | pkg/feature_installer/helpers.go:369-382 | a listed feature is left out only as disabled, externally managed, or blocked by its group |
| Sanitize.SanitizedOrder | pkg/feature_installer/helpers.go:361-363 | the result is sorted and depends only on which features are listed |
| Sanitize.SanitizedAgain | pkg/feature_installer/helpers.go:335-392 | sanitizing the result again changes nothing |
| Strings.SortedUnique | pkg/feature_installer/helpers.go:361-361 | in the order of sort.Strings a sorted list is determined by its elements |
| Strings.LeIff | pkg/feature_installer/helpers.go:361-361 | the order is lexicographic |
| Dependencies.UpdateDependency | pkg/feature_installer/enable_featureset.go:687-731 | the loop computes the specified dependsOn, or its error |
| Dependencies.DependsOnFailsIff | pkg/feature_installer/enable_featureset.go:687-713 | it fails exactly without a claim outside opscenter-core or with a requirement that is unknown |
| Dependencies.DependsOnFixed | pkg/feature_installer/enable_featureset.go:697-730 | kube-ui-server waits for opscenter-features alone; without requirements there is no field |
| Dependencies.DependsOnRequires | pkg/feature_installer/enable_featureset.go:145-147 | the dependencies of a feature are exactly the requirements the closure follows |
| Dependencies.EnableCore | pkg/feature_installer/enable_featureset.go:267-281 | the core branch computes the dependencies of opscenter-features and the other features to apply |
| Dependencies.CoreDependenciesPass | pkg/feature_installer/enable_featureset.go:267-281 | within opscenter-core kube-ui-server waits for opscenter-features and that for a listed akp-crd-manager, which the filter lets pass; nothing else waits |
| Dependencies.NoDanglingDependency | pkg/feature_installer/enable_featureset.go:145-147 | on a validated profile, everything any listed feature waits for is listed, opscenter-features included |
| Dependencies.DependencyInstalledOrGroupBlocked | pkg/feature_installer/helpers.go:369-382 | a dependency that sanitizing leaves out is blocked by its exclusion group, by no other rule |
| Removal.RemoveReleases | pkg/feature_installer/enable_featureset.go:373-407 | the loop with its early returns computes the specified list |
| Removal.ListedKeeps | pkg/feature_installer/enable_featureset.go:377-401 | exactly the unlisted HelmReleases go; the rest keeps its order and every manifest its number |
| Removal.RemovalComplete | pkg/feature_installer/enable_featureset.go:383-393 | no unlisted HelmRelease remains, if and only if no manifest without kind or name cuts the pass short or there was none |
| Removal.NamelessKeepsAll | pkg/feature_installer/enable_featureset.go:390-393 | one HelmRelease without a name, anywhere in a work, keeps all of its manifests |
| Removal.RemovalPass | pkg/feature_installer/enable_featureset.go:133-141 | in any ranging order every listed feature set's work is filtered and all others stay; after an error each is filtered or as it was, and one that does not decode is as it was |
| Removal.NoSharedRelease | pkg/feature_installer/enable_featureset.go:133-141 | afterwards no HelmRelease name stands in the works of two feature sets |
| Install.CompleteLists | pkg/controller/managedclusterprofilebinding_controller.go:86-98 | from binding and profile to the completed lists: what they name and require, each name once, in the feature set the binding, else the profile, else the catalog gives it; it fails exactly when a needed feature is unknown or a needed claim does not parse |
| Install.EnableFeatures | pkg/feature_installer/enable_featureset.go:84-143 | end to end, whatever the feature set loops wrote: of each listed set's work whose manifests have kind and name exactly the releases outside its completed list go, the rest in order and number, and no release name is left in two such works |

## Left out

- Interleaving inside one reconcile: agent, flux, feedback sync and clock move between reconciles, not between two API calls of one; failures and crashes may come after any call.
- `EnableFeatures` as part of a reconcile: its rendering is one write of arbitrary works with unique names; feedback stays.
- Editing binding, profile or catalog during a history: they are constants of a history.
- The namespace of objects: the hub store is that of one cluster namespace with one binding, so keys carry no namespace of the ManifestWork.
- List order of ManifestWorks: a fixed sequence; the cache may return another order at each listing.
- The fake API server, chart rendering and CRD registration: `CoreValues`, the catalog and the chart values stand for their results, and `values.MergeMaps` is any function.
- JSON text of annotations and manifests: decoded values; bytes that do not decode are `Corrupt`, `Unreadable`, `Foreign` or `Undecodable`.
- The typed round trip of a HelmRelease: a manifest is its kind, name, namespace, labels and spec; other fields are not part of this model.
- Sharing between the values of one JSON tree in memory: `JsonHeap` takes trees without sharing, as decoding produces them.
- Library constants that change with the vendored version: `hub.ChartOpscenterFeatures`, `hub.ChartFluxCD` and `hub.ChartLicenseProxyServer` are taken as vendored, opscenter-features, flux2 and license-proxyserver (vendor/kmodules.xyz/resource-metadata/hub/helm.go:50-55).
- A HelmRelease without a chart (a nil pointer in the original): every spec has one.
- `CreateOrPatch` of a work that the removal pass has just emptied and deleted.
- The skip of self-managed features (pkg/feature_installer/enable_featureset.go:503-505), and flux2 and license-proxyserver, which the filter of opscenter-core leaves out (lines 276-281): exceptions to the dependency theorems.
- `calculateFeatureStatus`, `GetOverrideValues`, `CreateHelmRelease`, `FeatureValuesFrom`, `updateManifestWork` and the ManagedClusterSetProfile reconciler: field filling and per-item loops.
- API errors other than not found on catalog reads in `addRequiredFeatures`, `sanitizeFeatures` and `updateHelmReleaseDependency`: the call ends with an error and its partial result is discarded.
