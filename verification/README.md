# Verification of the MCP lifecycle module operator

A Dafny model of the parts of the MCP lifecycle module operator whose correctness depends on
state, failures and interleavings, with proofs about all inputs, all runs and all failure
patterns. `dafny verify dfyconfig.toml` checks the whole project.

## What is modelled

**The transactional updater** (`FileTree`, `FileSystem`, `Install`, `Update`, `TreeDiff`). The
file system is a mutable object holding a tree of files (content and mode) and directories.
`rename` is atomic or fails without effect; `RemoveAll` and copies may fail half way and leave
an arbitrary partial tree; every other call may fail too. Which calls fail is arbitrary. The file
system also keeps a ghost history of every state it has been in, so that a contract can speak of
each moment at which the process might be killed, and a ghost record of every call that failed
although the tree permitted it. What an operation reports is tied to that record: a complaint needs
a failure of its own call, and without failures the work must have been done. On top of it run the methods of the source:
staging, swap, rollback and cleanup of the three targets, and the outer transaction over go.mod,
go.sum and the workflow output. The predicates `Tracks`, `Safe` and `Undone` say what
`backedUp` and `installed` mean for the place of each original.

**The storage-version migration** (`Migration`, `MigrationController`, `Decimal`). A run is a
sequence of steps on one shared object: the operator's single API calls (each may fail, before or
after taking effect), restarts of the operator, reports of the migrator, writes and deletes by
others. The retry limit is a potential argument over epochs. `MigrationController` has the source's
methods against an API object that records the steps it takes, so every execution of them is one
of those runs.

**The reconciler** (`Api`, `Conversion`, `Reconcile`, `Handshake`). The resource and its conditions
manager are objects; `ReconcileResource` is the source's branching step with its deferred status
write, and `Cluster.ReconcileRequest` adds the read before and the patch after it, each of which may
fail. `After` describes one step, and `Handshake` proves invariants of whole runs that mix these
steps with spec changes and with an older controller that has no conversion gate.

**The manifest transformers** (`Manifests`, `DnsNames`). YAML documents are JSON values. The rewrites
of the manager container are proved idempotent, commuting and confined to their field; the DNS
name rewrite is compared with a rewrite label by label (section 2.3.1 of RFC 1035).

**Image provenance** (`Provenance`). The walk from index to manifest to config over a registry that
answers arbitrarily, following the image index and the descriptor digests of the OCI Image Format
Specification.

The lemmas whose names end in `Means` tie the functions the contracts are written with to the source's own
paths, names, reasons and limits, so that a contract does not depend on how such a function is written.

## Where the code and its own comments disagree

The model follows the code in each case.

- `internal/controller/mcplifecycleoperator_reconciler.go:494-497` says one conversion check does
  bounded work regardless of how many objects are stored. Only restarts are bounded; the number of
  LIST calls is at most four times the number of pages of one listing, which is what `ListAll` proves,
  and a passed check has made a call for every five hundred stored objects (`PassGrows`), which no
  number of calls bounds (`WorkUnbounded`).
- `internal/controller/storage_migration.go:155-160` and `251-254` say the retry budget survives
  the delete and recreate. It is lost exactly when the delete takes effect and the following create does
  not (`RetryKeepsCounter`), and then no number of creates is a limit (`CounterCanBeLost` has a run with n
  creates for every n); what holds in every run is five creates per epoch.
  The comment at lines 89-90, which says the object is created at most once, is also too strong.
- `internal/controller/mcplifecycleoperator_reconciler.go:378-387` says an ungated controller cannot
  make this one skip its check. That holds for an upgrade; after a rollback to the older controller
  and back it does not: `CheckCanBeSkipped` has a run in which a version is never checked, and
  `HandshakeExactly` gives the exact condition.
- `strings.ReplaceAll` at `internal/manifests/kustomize.go:147` misses the second of two
  neighbouring labels equal to the old namespace (`OverlapMissed`). `RewriteExactly` and
  `RewriteIdempotent` say exactly when the rewrite is the intended one and when it is idempotent, and
  `RewriteReverses` when the reverse rewrite undoes it.
- The workflow output file must already exist: `tools/source-update/update.go:225` opens it without
  creating it, so an update with a missing output file fails and is rolled back, although the
  snapshot provides for an absent file.

## Model

| member | source | states |
|---|---|---|
| Install.StageItem | tools/source-update/install.go:34-50 | Staging one target leaves a complete copy of the staged output in a fresh workspace beside the target. It fails only when a call of its own failed or the inputs cannot be staged, and then every workspace it made is gone or reported; in every state on the way each target is as before. |
| Install.StageAll | tools/source-update/install.go:25-51 | After staging, all three workspaces hold complete copies and are pairwise apart; or one item was stopped by a failing call or by its inputs, and every workspace made so far is gone or reported with a failed removal of its own. No target is touched at any moment. |
| Install.SwapEntry | tools/source-update/install.go:53-65 | One swap keeps the flags exact: `backedUp` if and only if the original lies at the backup and not at the target, `installed` if and only if the staged copy is at the target; in every intermediate state the original is whole at one of the two places. Only a failed call on this entry stops it. |
| Install.SwapAll | tools/source-update/install.go:52-66 | The loop stops at the first failing call with every entry's flags exact, or ends with every target holding its staged copy; every intermediate state keeps all originals safe. |
| Install.BackUp | tools/source-update/install.go:54-61 | An existing original is moved to the backup and an absent one is not; a stat or a rename that failed is the only reason to stop. |
| Install.UndoEntry | tools/source-update/install.go:76-93 | Undoing one entry restores its original and empties its backup, or leaves the original whole at the backup with `backedUp` still set and a complaint about this entry's own target or backup, or reports a new target that could not be removed; every complaint stems from a failure of its own removal or rename. |
| Install.RollbackInstall | tools/source-update/install.go:73-106 | After a rollback with arbitrary failures of its own, an entry is `backedUp` exactly when its original is at its backup, and then its workspace is not deleted and the report names that backup because this entry's own removal or rename failed; all others are restored or reported and their workspaces gone or reported. So no failure on one entry keeps another from being undone; with no failed call the report is empty, every target restored and every workspace gone; no intermediate state loses an original. |
| Install.EmptyReportMeansRestored | tools/source-update/install.go:102-105 | Corollary of the outcome of a rollback: nothing to report means every target is back, absence included. |
| Install.NoFaultNoComplaint | tools/source-update/install.go:76-106 | A report in which every complaint has a failed call of its own is empty when no call failed. |
| Install.CleanupRestored | tools/source-update/install.go:95-101 | Cleanup after a rollback removes or reports exactly the workspaces of entries that are not `backedUp`, so it never takes a retained original, and keeps the outcome of every entry. |
| Install.CleanupHarmless | tools/source-update/install.go:108-116 | Removing another entry's workspace, even partly, changes neither the outcome recorded for an entry nor the safety of its original. |
| Install.CleanupEntries | tools/source-update/install.go:108-116 | Every workspace is gone or reported, even when earlier removals failed, each report stems from a failed removal of that workspace, nothing is added anywhere and nothing outside the workspaces changes. |
| Install.InstallOutputs | tools/source-update/install.go:24-71 | All or nothing under any failures: success means the config tree is the copied directory of the staged config, and the installer and the pin are the copied files of the staged installer and the staged pin; a staging error or a rollback with an empty report means all three are exactly as before; otherwise each original is at its target or at its backup, which the report names because a call on that target or backup failed. At every moment in between each original is whole somewhere, or all new outputs are in place. Every failure and every complaint stems from a failed call of its own, and with stageable outputs and no failed call the result is an install without warnings. Every workspace made is gone, reported, or keeps an original. Everything else in the tree is untouched. |
| Install.StageableMeans | tools/source-update/install.go:29-50 | The outputs that an install without failures must accept: a directory and two files, with no file in the way of any target's directory. |
| FileSystems.CopiedTreeAt | tools/source-update/generate.go:172-174 | A copied tree has the same directories and the same files with the same bytes at every path; a file keeps its execute bits and may be read and written by all, less the umask. |
| Update.RestoreFile | tools/source-update/install.go:118-137 | The file is the old one or the complete new one with its mode, at the end and in every state a crash could leave; the temporary file is gone afterwards unless its own removal failed; nothing else changes; where a file can be put, only a failed call of this restore stops it. |
| Update.Restore | tools/source-update/update.go:94-105 | A snapshot is put back with content, mode and existence, or a call of this restore failed and the file is as it was; the temporary file is gone unless its removal failed, and everything else is as it was; an unset output is a no-op. |
| Update.RestoreModules | tools/source-update/update.go:140-152 | Every module file is tried, whatever happened to the other one: a file that is not back is reported, unchanged, and was stopped by a failed call among those of its own restore, and a file whose restore had no such failure is back as remembered. Every path apart from them is left alone, backups of an earlier rollback included. |
| Update.SnapshotModuleFiles | tools/source-update/update.go:116-138 | The snapshots remember exactly what is there, a missing go.sum as missing; the only errors are a missing or unreadable go.mod and an unreadable go.sum. |
| Update.TakeSnapshot | tools/source-update/update.go:74-92 | The snapshot remembers content, mode and existence of the file; the only errors are a directory in its place and a failed read. |
| Update.SynchronizeModule | tools/source-update/update.go:202-218 | Success means the pin read back from go.mod equals the wanted version after tidying; failure means the go tool failed or left another pin, or go.mod could not be read; only go.mod and go.sum can have changed either way. |
| Update.WriteOutput | tools/source-update/update.go:224-234 | The report is appended to an existing output file; otherwise the output is restored, unless a call of its own restore failed. |
| Update.Rollback | tools/source-update/update.go:199-201 | After a failure every module file not reported equals the start; the output and the targets stay as they were unwound, an original that could only be kept at its backup is still whole there; each file not put back was stopped by a failed call of its own restore. |
| Update.ApplyUpdate | tools/source-update/update.go:194-240 | Atomic over go.mod, go.sum, the workflow output, the config tree, the installer and the pin: success puts each staged output at its own target, leaves a go.mod whose pin reads back as the version, and appends the report to the output; when every call of undoing succeeds, a failure leaves content, modes and existence of all six as at the start. When some undoing fails, go.mod, go.sum or the output that is not back was stopped by a failed call of its own restore, and each target is back or reported with a failed call on it, its original then whole at the backup the report names, which the later restores leave alone. With good inputs, a go tool that does its work and no failed call, the update is applied. Whatever happens, nothing the updater does not own changes. |
| Update.ReportReads | tools/source-update/update.go:229 | The report reads back as three lines, each value under its own key, when no value contains a line end. |
| Update.FailedMeans | tools/source-update/update.go:199-237 | From what a failed update guarantees: a clean failure has restored all six, and a failure is clean whenever no call of the undoing failed. |
| TreeDiff.TreeDiff | tools/source-update/update.go:36-65 | The result is strictly sorted; it says `missing:` of exactly the wanted paths that are not there, `changed:` of exactly those whose bytes differ, `added:` of exactly the unwanted ones, and nothing else; it is empty exactly when the two trees are equal, for every order in which the maps are walked. |
| TreeDiff.LessMeans | tools/source-update/update.go:63 | The order is byte order: a proper prefix comes first, otherwise the first differing byte decides. |
| TreeDiff.SortedUnique | tools/source-update/update.go:63-64 | Two strictly sorted lists with the same members are the same list, so the result does not depend on map order. |
| TreeDiff.TagsDiffer | tools/source-update/update.go:51-62 | Lines for different paths are never the same text, so a line identifies its path and tag. |
| Migration.StepKeepsBudget | internal/controller/storage_migration.go:161-269 | The potential: no step of the operator, the migrator or anyone else lets the creates made plus those still possible exceed the budget granted. |
| Migration.RetryBudget | internal/controller/storage_migration.go:236-263 | Along every interleaving, with API calls that fail before or after taking effect, the creates made so far plus those still to come stay within the budget the epochs brought. |
| Migration.CreatesPerEpoch | internal/controller/storage_migration.go:70-75 | With non-negative annotations there are at most five creates per epoch; an epoch starts with an object found at the start, an object not found, or an object written by someone else. |
| Migration.EpochsAre | internal/controller/storage_migration.go:70-75 | The epochs of a run are exactly an object found at the start, each write from outside, and each read that found nothing. |
| Migration.ChurnRisesAndEnds | internal/controller/storage_migration.go:244-263 | While no new epoch starts, the attempts created rise strictly, lie above the floor and at most at five, so at most five minus the floor are made and the churn ends. |
| Migration.ExhaustedIsFixed | internal/controller/storage_migration.go:240-249 | A failed migration at its last attempt is a fixed point while the resource is managed: no sequence of the steps the operator then takes creates, deletes or changes anything. |
| Migration.ExhaustedMeans | internal/controller/storage_migration.go:240-249 | Spent is exactly: nothing under way, and an object that reports failure, no success, at attempt five or later. |
| Migration.RetryKeepsCounter | internal/controller/storage_migration.go:255-262 | A retry loses the counter if and only if its delete takes effect and its create does not; otherwise the object carries the next attempt, or the same one when nothing was deleted. |
| Migration.CounterCanBeLost | internal/controller/storage_migration.go:251-262 | For every n there is a run of operator steps and migrator reports, with nobody else on the object, that creates it n times, always as attempt 1: no flat limit on creates holds. |
| Migration.FreshAttempt | internal/controller/storage_migration.go:281-293 | The attempt read from an object just created is the attempt it was created with. |
| Migration.AttemptMeans | internal/controller/storage_migration.go:281-293 | The attempt is n exactly when the annotation writes n in decimal; it is 0 when the annotation is absent or writes no 64-bit number. |
| Migration.FirstOfMeans | internal/controller/storage_migration.go:334-351 | A condition of the type is found exactly when some map entry has it, and it is the one at the least such position. |
| Migration.ReportsMeans | internal/controller/storage_migration.go:318-332 | A type is reported exactly when the first map entry of that type says "True". |
| Decimal.RoundTrip | internal/controller/storage_migration.go:172-174 | Every 64-bit attempt number survives printing into the annotation and parsing it back, and is printed without leading zeros and with a sign only when negative. |
| Decimal.AtoiExactly | internal/controller/storage_migration.go:288-291 | A text parses as n exactly when it is an optional sign, any zeros, and the decimal digits of n, and n fits in 64 bits. |
| Decimal.ValueConcat | internal/controller/storage_migration.go:288-291 | Digits are positional to base ten: those of a text in front of k others count ten to the k as much. |
| MigrationController.FindMigrationCondition | internal/controller/storage_migration.go:334-351 | Something is found if and only if some map entry has the type, and it is the first such entry; entries that are not maps are skipped. |
| MigrationController.ApiServed | internal/controller/storage_migration.go:140-153 | True exactly when discovery answered and lists the resource. |
| MigrationController.SvmApi.Get | internal/controller/storage_migration.go:119-133 | What the operator may do next follows from the object read: create attempt 1 when absent, delete when failed below the limit, nothing otherwise. |
| MigrationController.PcMeans | internal/controller/storage_migration.go:119-133 | After a read the operator creates attempt 1 where nothing is, deletes exactly a failure, not a success, below attempt five, and otherwise does nothing. |
| MigrationController.SvmApi.Create | internal/controller/storage_migration.go:199-210 | A create never replaces an object; where none was, the object made is the fresh one for its attempt, or none when the call failed; a create that reported success is on record with its attempt. |
| MigrationController.SvmApi.Delete | internal/controller/storage_migration.go:255-260 | A delete that succeeded, or found nothing, leads to the next attempt; a failed one stops the retry although it may have taken effect. |
| MigrationController.CreateStorageMigration | internal/controller/storage_migration.go:161-216 | Always ends waiting sixty seconds, as StorageMigrationRunning when the create succeeded or found an object, as StorageMigrationFailed exactly when the call failed. |
| MigrationController.ObserveStorageMigration | internal/controller/storage_migration.go:224-269 | Completion is reported if and only if the first map entry of type Succeeded says True, giving up if and only if it does not, the first of type Failed does, and the attempt is five or more; these two make no API call; below five a failure is retried; a state that reports neither waits as StorageMigrationRunning; only waiting asks for a requeue, of sixty seconds. |
| MigrationController.EffectMeans | internal/controller/storage_migration.go:224-269 | What each verdict writes: True with StorageMigrationSucceeded, False with StorageMigrationFailed when given up, False with the reason when waiting, nothing when settled; no other condition changes. |
| MigrationController.VerdictsMean | internal/controller/storage_migration.go:96-134 | Which verdicts an object read allows: done, given up and running are fixed by the object; after an absence or a failure below five the last call decides between StorageMigrationRunning and StorageMigrationFailed. |
| MigrationController.ReconcileStorageMigration | internal/controller/storage_migration.go:96-134 | Once completed, or while the resource is not served (then waiting as StorageMigrationPending), it makes no call at all; otherwise it reads the object and its verdict follows from what was read and from the answers of the retry; giving up leaves the run exhausted; only the migration's own condition changes; a requeue is asked exactly while waiting. |
| MigrationController.ServerStaysInBudget | internal/controller/storage_migration.go:236-263 | Whatever the controller's methods did against an API object, the creates on its record are within the run's budget. |
| Conversion.NextPage | internal/controller/mcplifecycleoperator_reconciler.go:504-507 | One LIST extends the uninterrupted listing by the page asked for and uses up one of the pages left, or is an error answer. |
| Conversion.ListAll | internal/controller/mcplifecycleoperator_reconciler.go:498-570 | Healthy implies one uninterrupted pass from the empty token to the empty token whose pages together are the whole snapshot; it gives up on expiry exactly after a fourth expired token; at most four times the page count LIST calls are made, by a lexicographic measure. |
| Conversion.FullPassMeans | internal/controller/mcplifecycleoperator_reconciler.go:498-570 | A full pass, spelled out: pages of one snapshot, the first asked for with no token and each other with the token of the page before, the last with no token to follow, together the whole snapshot. |
| Conversion.CheckConversionHealth | internal/controller/mcplifecycleoperator_reconciler.go:498-570 | The same with its effect on the conditions: untouched when healthy; otherwise Available is False with ConversionCheckFailed when the last answer was a plain error and ConversionCheckPending when the API was not served or tokens kept expiring, readiness is aggregated, and a requeue after ten seconds is asked. At most four times the page count LIST calls are made, each for at most five hundred objects. |
| Conversion.PassGrows | internal/controller/mcplifecycleoperator_reconciler.go:494-507 | A pass that returned everything has made at least one call for every five hundred objects stored, so the work is not bounded regardless of their number. |
| Conversion.WorkUnbounded | internal/controller/mcplifecycleoperator_reconciler.go:494-507 | For every n there is a pass over five hundred times n objects in n calls, and no pass over them makes fewer: no number of calls bounds a passed check. |
| Api.ConditionsManager.AggregateReady | api/v1alpha1/mcplifecycleoperator_lifecycle.go:104-145 | The loop over all conditions leaves what the loop-free description `Aggregated` says, in each of its four cases. |
| Api.AggregatedDown | api/v1alpha1/mcplifecycleoperator_lifecycle.go:104-113 | Without a true Available, Ready and ProvisioningSucceeded are False with OperandDeploymentFailed and Degraded is False. |
| Api.AggregatedUp | api/v1alpha1/mcplifecycleoperator_lifecycle.go:115-144 | With one, ProvisioningSucceeded is True; Ready is Unknown with Progressing exactly when some Available condition is Unknown and none reports a failure, else True; Degraded is True exactly when one reports a failure. |
| Api.Upsert | api/v1alpha1/mcplifecycleoperator_lifecycle.go:64-102 | What each Mark method does to the list: afterwards its type has exactly the condition set, every other type has the one it had, and types that were unique stay unique. |
| Api.UpsertAt | api/v1alpha1/mcplifecycleoperator_lifecycle.go:64-102 | Setting a condition replaces the first of its type in its place, or appends it when there is none. |
| Api.FindIsFirst | api/v1alpha1/mcplifecycleoperator_lifecycle.go:104-106 | A condition is found exactly when there is one of its type, and it is the first of them. |
| Api.TrueMeans | api/v1alpha1/mcplifecycleoperator_lifecycle.go:104-106 | A type counts as true exactly when the first condition of that type has status True. |
| Api.UniqueConditionsAgree | api/v1alpha1/mcplifecycleoperator_lifecycle.go:104-145 | With one condition per type, the failing and unknown branches are unreachable: Ready and ProvisioningSucceeded follow Available and Degraded is false. |
| Api.DegradedExactly | api/v1alpha1/mcplifecycleoperator_lifecycle.go:132-136 | Degraded is raised if and only if a second Available condition reports a failure beside a true first one. |
| Reconcile.CheckDeploymentsReady | internal/controller/mcplifecycleoperator_reconciler.go:436-483 | Ready if and only if every rendered Deployment can be read and has at least as many available replicas as it wants, at least one when it does not say; otherwise the reason is DeploymentNotFound or DeploymentNotReady for the first that has not, Available is False for it, and a requeue is asked. |
| Reconcile.FirstUnreadyMeans | internal/controller/mcplifecycleoperator_reconciler.go:436-483 | The reason is that of the first Deployment that is missing or short of replicas: DeploymentNotFound when it cannot be read, DeploymentNotReady when it is short. |
| Reconcile.FindDeployments | internal/controller/mcplifecycleoperator_reconciler.go:585-603 | Finds exactly the resources of kind Deployment, in order. |
| Reconcile.DeploymentsConcat | internal/controller/mcplifecycleoperator_reconciler.go:585-596 | Selecting the Deployments drops, adds and moves nothing: it distributes over joined lists. |
| Reconcile.HandleRemoved | internal/controller/mcplifecycleoperator_reconciler.go:395-425 | Reports Removed only after the owned resources and the migration object are gone. It changes no condition and asks for a retry only when deleting the owned resources failed, and then it does not touch the migration object, or when its own delete of the migration object, the last step on record, failed. |
| Reconcile.RemovalMeans | internal/controller/mcplifecycleoperator_reconciler.go:419-424 | A finished removal leaves Available, Ready and ProvisioningSucceeded False with reason Removed, Degraded False, and every other condition as it was. |
| Reconcile.DeployOperand | internal/controller/mcplifecycleoperator_reconciler.go:222-280 | Ends early exactly when one of its steps failed, for the first that did: unavailable with that step's reason, an error for a failed step and a requeue for a Deployment that is not ready. |
| Reconcile.EarlyExitMeans | internal/controller/mcplifecycleoperator_reconciler.go:222-280 | Which failed step gives which reason: TLSConfigFetchFailed, ManifestRenderFailed, DeployFailed, GarbageCollectionFailed, each exactly when it is the first step to fail; not ready means all four succeeded. |
| Reconcile.UnavailableMeans | internal/controller/mcplifecycleoperator_reconciler.go:222-300 | A course that ends before or at the gate leaves Available False with the reason of what failed, Ready and ProvisioningSucceeded False, Degraded False, and every other condition as it was. |
| Reconcile.GateMeansReady | internal/controller/mcplifecycleoperator_reconciler.go:222-280 | The gate is reached if and only if TLS settings were resolved, manifests rendered, applied and collected, and every rendered Deployment can be read and has the replicas it wants, one when it does not say. |
| Reconcile.ReconcileManaged | internal/controller/mcplifecycleoperator_reconciler.go:214-324 | A reconcile that is not a removal takes the course its surroundings lead to, changes the distribution only past the gate, and keeps the gateways when they could not be discovered. |
| Reconcile.GateAndMigrate | internal/controller/mcplifecycleoperator_reconciler.go:282-323 | No LIST call is made exactly when the recorded distribution is the configured one and the marker is true; a failed check holds back marker, distribution and migration; a passed one ends in a full pass over the stored objects. |
| Reconcile.AdvanceAndMigrate | internal/controller/mcplifecycleoperator_reconciler.go:302-323 | Past the gate the distribution becomes the wanted one when it is known, and completion or giving up is backed by the migration run. |
| Reconcile.SuccessMeans | internal/controller/mcplifecycleoperator_reconciler.go:302-309 | Past the gate Available is True, the marker is set exactly when this reconcile did the checking and otherwise kept, and the migration's own condition is untouched by the aggregation. |
| Reconcile.ConfigMeans | internal/controller/mcplifecycleoperator_reconciler.go:663-699 | A missing ConfigMap means standalone and the operator's version; otherwise the distribution's version comes first, then the platform's, then the operator's own, and no name means Standalone; only an unreadable one is unavailable. |
| Reconcile.SetReleases | internal/controller/mcplifecycleoperator_reconciler.go:348-365 | The releases list the operator, and the platform exactly when a distribution version is recorded, with that version. |
| Reconcile.UpdateBaseStatus | internal/controller/mcplifecycleoperator_reconciler.go:328-335 | Phase and observed generation are written on every exit; releases only when the configuration could be read. |
| Reconcile.ReconcileResource | internal/controller/mcplifecycleoperator_reconciler.go:204-324 | One reconcile, on every path, is an allowed course whose whole effect on the status is `After` for the configuration and gateways the cluster answered, which follows the answers of the cluster, whose verdicts and failed removal are backed by the LIST calls and migration steps it made, and whose requeue and error are those of the course. |
| Reconcile.StepMeans | internal/controller/mcplifecycleoperator_reconciler.go:328-365 | The rest of the status after a reconcile: observed generation, phase Ready exactly with the Ready condition, the distribution, the operator's own release and the platform's exactly when a version is recorded, and the gateways. |
| Reconcile.RetryMeans | internal/controller/mcplifecycleoperator_reconciler.go:204-324 | When a course is retried: ten seconds after a failed removal, a Deployment that is not ready or a held gate, sixty while the migration waits, ten on a transient TLS fallback, otherwise not; only failed removals and failed steps are errors. |
| Reconcile.Cluster.ReconcileRequest | internal/controller/mcplifecycleoperator_reconciler.go:165-202 | A request reconciles if and only if it could read a stored resource; it fails when it could not read, returns quietly when there is none, and then nothing happens. Otherwise the stored status changes by exactly one allowed step for what the cluster answered if the patch landed, and not at all if it did not, and it fails exactly when the patch or the course did. |
| Handshake.StepEffects | internal/controller/mcplifecycleoperator_reconciler.go:292-309 | The distribution changes only in a reconcile whose own conversion check passed; marker and completion become true only through a check or an observed success, and never become false. |
| Handshake.UnmarkedAlwaysLists | internal/controller/mcplifecycleoperator_reconciler.go:378-393 | Corollary of the allowed courses: without the marker, a reconcile that gets past the gate has run the LIST itself. |
| Handshake.HonestStep | internal/controller/mcplifecycleoperator_reconciler.go:292-309 | One step keeps the marker honest if and only if it is not an older controller moving the distribution under a set marker. |
| Handshake.HandshakeExactly | internal/controller/mcplifecycleoperator_reconciler.go:378-393 | In every state of a run a true marker means a check passed at or after the last change of the distribution, if and only if no older controller moves the distribution once the marker is set. |
| Handshake.OvertakenSkips | internal/controller/mcplifecycleoperator_reconciler.go:378-393 | Whenever an older controller moves the distribution to the wanted one under a set marker, every reconcile that finishes for it skips the check, and the marker is no longer honest. |
| Handshake.CheckCanBeSkipped | internal/controller/mcplifecycleoperator_reconciler.go:378-393 | A concrete run of three steps from a fresh resource: this controller verifies version 1, an older one records version 2 under the marker, and this one finishes a reconcile for version 2 that was never checked. |
| Handshake.HandshakeAfterUpgrade | internal/controller/mcplifecycleoperator_reconciler.go:378-393 | In any run that starts with an ungated controller that never writes the marker and continues with this one, the marker is honest throughout. |
| Handshake.StepAgrees | internal/controller/mcplifecycleoperator_reconciler.go:325-335 | Every reconcile leaves Available, Ready and ProvisioningSucceeded equal, Degraded never true, Phase equal to Ready, and one condition per type. It restores this from any status with one condition per type, whoever wrote it; only a removal that failed leaves the status as it found it. |
| Handshake.MigrationStandsAlone | internal/controller/mcplifecycleoperator_reconciler.go:312-319 | The migration changes no condition but its own. |
| Handshake.StepLockstep | internal/controller/mcplifecycleoperator_reconciler.go:337-365 | Every reconcile keeps the platform release present exactly when a distribution version is recorded, and equal to it, and restores this from any status when it can read its configuration. |
| Handshake.FreshIsInvariant | internal/controller/mcplifecycleoperator_reconciler.go:165-202 | A resource nobody has reconciled satisfies the run invariant. |
| Handshake.RunInvariant | internal/controller/mcplifecycleoperator_reconciler.go:165-202 | In every run of this controller from a state of the invariant, conditions agree, the platform release is in lockstep, the marker is honest, and completion was preceded by an observed success and is never taken back, Removed included. |
| Handshake.NoSilentStall | internal/controller/mcplifecycleoperator_reconciler.go:204-324 | A managed reconcile with no error and no requeue has left the resource Ready without a transient TLS fallback, on the wanted distribution whenever it was known, with the migration complete or given up. |
| Handshake.ObservedRequest | internal/controller/mcplifecycleoperator_reconciler.go:165-202 | A request as the code runs it is one step of these runs, taken exactly when the resource could be read and landing exactly when the patch did, for the configuration the cluster answered. It keeps their invariant; a course that checked has executed a LIST whose calls end in a full pass, and a completion it remembers is a success the migration run recorded. When it returns no error and no requeue for a managed resource, every rendered Deployment has the replicas it wants, there is no transient TLS fallback, the resource is Ready on the wanted distribution, and the migration is complete or its object is left failed at the last attempt. |
| DnsNames.RewriteIsGreedy | internal/manifests/kustomize.go:147 | On every name, replacing all occurrences is the greedy rewrite of the labels in which a match shields the label after it. |
| DnsNames.RewriteExactly | internal/manifests/kustomize.go:124-163 | The rewrite is the label-wise one if and only if no two neighbouring interior labels equal the old namespace. |
| DnsNames.OverlapMissed | internal/manifests/kustomize.go:147 | With from "a" and to "b", ".a.a." becomes ".b.a." although label-wise it would be ".b.b.". |
| DnsNames.RewriteIdempotent | internal/manifests/kustomize.go:147 | Rewriting twice is rewriting once if and only if no two neighbouring interior labels equal the old namespace. |
| DnsNames.RewriteReverses | internal/manifests/kustomize.go:147 | The reverse rewrite undoes it if and only if every interior label that already was the new namespace stands right behind a rewritten one, whose match uses up the dot before it. |
| DnsNames.AbsentReverses | internal/manifests/kustomize.go:147 | In particular it is undone whenever the new namespace was no interior label before. |
| DnsNames.SplitJoin | internal/manifests/kustomize.go:147 | Splitting a joined list of dot-free labels gives the list back. |
| Manifests.SetEnvVar | internal/manifests/kustomize.go:247-266 | The first entry of the name gets the value and loses `valueFrom`, or an entry is appended. |
| Manifests.WithEnvEffect | internal/manifests/kustomize.go:247-266 | Afterwards the name's first entry has the value and no other source, settings of all other names survive, and setting it again changes nothing. |
| Manifests.WithEnvFrame | internal/manifests/kustomize.go:247-266 | Only that entry differs, only in its value and source, and every other name keeps its first entry. |
| Manifests.EnvIsMeans | internal/manifests/kustomize.go:247-266 | A setting holds exactly when the first entry of its name has the value and no other source. |
| Manifests.TlsSet | internal/manifests/kustomize.go:227-245 | All four names carry their values at once, each its own: TLS_MIN_VERSION, TLS_CIPHER_SUITES, TLS_GROUPS and PROPAGATE_TLS_ENV_VARS, and injecting again changes nothing. |
| Manifests.TlsTouches | internal/manifests/kustomize.go:227-245 | Injecting the TLS settings leaves every entry that is not the first of one of the four names in place, whatever the values. |
| Manifests.WithEnvsTouches | internal/manifests/kustomize.go:227-245 | Every env entry that is not the first of one of the set names keeps its place and content, whatever is set. |
| Manifests.SetFlagArg | internal/manifests/kustomize.go:304-313 | The first entry of the flag, bare or with a value, is replaced, or the flag is appended. |
| Manifests.IsFlagMeans | internal/manifests/kustomize.go:304-309 | An argument is the flag when it is the bare flag or the flag, an equals sign and any value. |
| Manifests.WithFlagEffect | internal/manifests/kustomize.go:301-313 | Afterwards the first flag entry is the wanted one, the number of flag entries is max(1, before), every other argument is unchanged and in order, and doing it again changes nothing. |
| Manifests.PatchContainer | internal/manifests/kustomize.go:231-243 | The callbacks for image, TLS environment and posture each write their own field, and only the posture fails, on unreadable arguments. |
| Manifests.PatchContainers | internal/manifests/kustomize.go:204-222 | Exactly the containers named manager are patched; fails when there is none or one cannot be read. |
| Manifests.GetContainers | internal/manifests/kustomize.go:196-199 | The containers are those at spec.template.spec.containers, found only through objects. |
| Manifests.Transform | internal/manifests/kustomize.go:191-225 | A no-op on other kinds and with nothing to set; fails on a Deployment without readable containers. |
| Manifests.TransformFailsExactly | internal/manifests/kustomize.go:191-225 | A document that is no Deployment, or a transformer with nothing to set, is left alone; otherwise it succeeds if and only if the containers can be read, one is named manager, and for the posture the arguments of every manager are absent or all strings. |
| Manifests.TransformTouchesOneField | internal/manifests/kustomize.go:191-225 | Success means a manager container exists; every other container, every other field of it, and the rest of the document are unchanged. |
| Manifests.TransformEstablishes | internal/manifests/kustomize.go:227-325 | After success every container named manager holds the wanted image, each of the four TLS values under its own name, or the wanted posture as its first posture flag. |
| Manifests.TransformIdempotent | internal/manifests/kustomize.go:227-325 | Each of the three transformers, applied to its own result, returns it unchanged. |
| Manifests.TransformsCommute | internal/manifests/kustomize.go:227-325 | Any two of the three give the same document in either order, and fail on the same documents. |
| Manifests.RewriteNames | internal/manifests/kustomize.go:144-152 | The loop rewrites every DNS name and reports a change exactly when there is one. |
| Manifests.RewriteCertManagerNamespace | internal/manifests/kustomize.go:124-163 | Retargets the annotation and a Certificate's names; malformed names fail, missing ones do not, and equal or empty namespaces are a no-op. |
| Manifests.RetargetedMeans | internal/manifests/kustomize.go:127-136 | The annotation keeps what stands behind the old namespace and its slash; any other value is left alone. |
| Manifests.RenamespacedAnnotations | internal/manifests/kustomize.go:127-136 | Of the annotations exactly cert-manager.io/inject-ca-from is retargeted, when they can be read as strings and it is there; otherwise they are as before. |
| Manifests.RenamespacedNames | internal/manifests/kustomize.go:137-160 | Exactly a Certificate's spec.dnsNames are rewritten, each by itself and in order; it fails exactly when they are there and no list of strings. |
| Manifests.RenamespaceTouches | internal/manifests/kustomize.go:124-163 | Nothing but the annotation and the DNS names changes, and the names keep number and order. |
| Manifests.RenamespaceIdempotent | internal/manifests/kustomize.go:124-163 | Rewriting a document twice equals rewriting it once if and only if none of its DNS names has neighbouring interior labels equal to the old namespace. |
| Provenance.CheckLabels | tools/source-update/image.go:248-264 | Accepts exactly the labels in which every recognized source label names the commit, at least one is present, and the repository is the expected one. |
| Provenance.ValidatePlatformImage | tools/source-update/image.go:211-265 | Asks for the manifest by the digest in the index and for the config blob that manifest names; accepts the child only when both answers are the bytes their digests name and vouch for platform and commit, and refuses only what no further answer could have saved. |
| Provenance.CheckChildren | tools/source-update/image.go:178-193 | Succeeds if and only if every child not marked unknown/unknown passes through manifest and config on the answers received, and at least one such child exists; every request made is the one for the next child. |
| Provenance.ResolveOperandImage | tools/source-update/image.go:146-195 | Against a registry that answers arbitrarily, a reference is returned if and only if the answers on its log, each asked for by the right name or digest, support it for the commit; the reference is the digest of the index received. And then, for every child of that index not marked unknown/unknown, the log shows a manifest and a config, requested by digest and being the bytes of those digests, whose config is for the child's os and architecture (x86_64 read as amd64, aarch64 as arm64), whose source labels all equal the commit with at least one present, and whose repository label is ours. |
| Provenance.ReferenceMeans | tools/source-update/image.go:194 | The reference is the fixed repository and the digest of the index. |
| Provenance.SupportsMeans | tools/source-update/image.go:146-195 | What supports a reference, spelled out: a full commit, an index of a known type with one to 128 children and the bytes of its digest, at least one runnable child, and every child passing. |
| Provenance.ChildPassesMeans | tools/source-update/image.go:178-190 | Attestations pass; any other child must name its os and architecture and be vouched for. |
| Provenance.ChildVouchesMeans | tools/source-update/image.go:211-265 | What makes a child acceptable, spelled out on its descriptor and the two answers: media types, digests, os, architecture up to the two spellings, each source label, the repository label. |
| Provenance.NamesMean | tools/source-update/image.go:146-149 | A digest is `sha256:` and 64 lower-case hexadecimal digits; a commit is 40 or 64 hexadecimal digits of either case. |
| Provenance.SameChildSameBytes | tools/source-update/image.go:215-240 | A child that two walks accepted has the same manifest and config bytes in both, hence the same commit. |
| Provenance.ReferenceDeterminesSource | tools/source-update/image.go:146-195 | Two successful resolutions with the same reference, against arbitrary and differing answers, were made for the same commit, when no two of the received bodies collide. |
| Provenance.ResolveTwice | tools/source-update/image.go:146-195 | Two executed resolutions against two registries that answer arbitrarily and end in the same reference were made for the same commit, when no two bodies the registries sent collide. |

## Left out

- Install.InstallOutputs: assumes the staged outputs lie outside the root, as the caller's temporary directory does; does not cover symbolic links, directory modes, or parent directories made on the way, which a rollback leaves behind.
- Update.ApplyUpdate: assumes the workflow output is none of the updater's own files and that no path component is named like the updater's temporary files; what the go tool and `sourcePin` read from go.mod is a given function, and the go tool leaves a go.mod file in place, whatever it writes to it; crash states of the outer transaction are not promised, because the source restores only on an error return.
- Install.SwapEntry: entries are a sequence that the methods reassign, so the aliasing of pointers into the slice is not captured.
- Conversion.CheckConversionHealth: the bound is relative to the number of pages; the server's snapshots, page sizes and expiries are otherwise arbitrary.
- Provenance.ReferenceDeterminesSource: collision freedom is assumed only of the bodies the two resolutions received.
- Manifests.PatchContainer: the callback passed to `withManagerContainer` is one of three values of a datatype; annotations with a value that is not a string are read as none.
- Concurrent writers of the status: a single writer that reads the latest stored status and one atomic patch are assumed; stale reads are not modelled.
- Symlinked files, file-system error texts, byte-level encodings: bytes are characters, and an error is a value without text.
- The directory walk of `treeFiles`: the two trees that `treeDiff` compares are given maps from path to bytes.
- HTTP, tokens, URL parsing, response size limits, JSON and YAML decoding: answers are arbitrary and decoders are given functions.
- The migrator is any sequence of reports; its own progress is not modelled.
- Condition messages and transition times; setting a condition is an upsert by type.
- Gateway discovery, TLS options, watches, garbage collection and the deployer: their results are inputs of a reconcile.
- Label injection, `InjectNamespace` and resource loading: easy members or unseen libraries.
- Command-line parsing, generation of the staged outputs, `verify` beyond `treeDiff`, generated code and end-to-end wiring.
