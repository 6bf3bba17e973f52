# A verified model of mariadb-operator's stateful controllers

mariadb-operator is a Kubernetes operator: controllers that repeatedly compare what a user asked for with what the
cluster holds, and write one small difference at a time. Its hard promises are about whole runs of such passes, with
the operator crashing between any two writes while Pods, volumes, clocks and users move on their own. This project
models the controllers for which that matters most and proves what their runs keep.

Each protocol is a transition system (`State`, `Event`, `Enabled`, `Apply`, `Reaches`) whose operator events are single
API writes and whose other events are everything the environment may do, with an inductive invariant and theorems about
every reachable state. Beside it stands the code in its own form: a class with the loops, early returns and writes of
the Go functions, proved to be a run of that system.

| file | what it models |
|---|---|
| `Prelude.dfy` | options, digests, phase outcomes |
| `Pki.dfy`, `TlsRotation.dfy`, `TlsReconciler.dfy`, `TlsStuck.dfy` | CA bundles, certificate rotation and who trusts whom |
| `RollingUpdate.dfy` | the ReplicasFirstPrimaryLast update |
| `PhysicalInit.dfy` | bootstrapping from a physical backup |
| `Operations.dfy`, `StorageResize.dfy`, `Interruptions.dfy`, `OperationsReconciler.dfy` | restore, resize and update as operations that exclude each other, and what interruptions do to them |
| `SpecDefaults.dfy` | defaults and admission of the storage size and the bootstrap source |
| `GaleraInit.dfy` | the Galera init containers |
| `MaxScaleSync.dfy`, `MaxScaleReconciler.dfy`, `HashGate.dfy` | convergence of the MaxScale API and the hashes that gate it |
| `PrimaryIdentity.dfy` | MaxScale servers, Pod indices and the recorded primary |
| `Names.dfy`, `BackupObjects.dfy`, `Scheduler.dfy` | Pod and backup object names, sorting by them, the backup schedule |
| `Grants.dfy` | privileges tracked by the Grant status |

`dafny verify dfyconfig.toml` checks everything.

## Where a promise does not hold

Each of these has a lemma with the failing family and one with the exact condition under which the promise holds.

- Trust: `ShouldRenewCert` compares serial numbers only, although section 4.1.2.2 of RFC 5280 makes them unique per
  issuer only (`SerialCollisionOpensGate`, `GateExactCondition`); an expired leaf is replaced without the gate, which is safe
  exactly when the current CA is trusted everywhere already or has expired (`UngatedReplacementBreaksClosure`,
  `UngatedReplacementKeepsInvIff`, `LiveLeafIsNeverReplacedUngated`).
- Certificate renewal: a leaf that waits ends the pass before the bundle is merged and before Pods are rolled onto it.
  When a CA and its leaf come due in the same pass (`BothDueArises`), the leaf waits for a CA that never gets into the
  bundle (`ServerBothDueEndsStuck`, `ClientBothDueEndsStuck`); when a merged bundle was not annotated before the leaf
  came due (`RollStuckArises`), it waits for Pods that are never rolled. A pass merges exactly when neither certificate
  waits or fails (`ReconcileTLS`), so both waits last as long as the MariaDB stays ready and neither the leaf nor a CA
  comes to its end (`StuckPersists`, `RollStuckPersists`); a pass while it is not ready gets to the merge and beyond
  (`NotReadyFrees`). If instead the leaf expires, it is reissued without the gate and trust closure is lost
  (`ClosureLostAfterBothDue`).
- Physical init: a crash after the first Job deletion and before the final status patch makes the next pass restore
  over a Pod that has started (`CrashInCleanupOverwrites`); without one nothing is overwritten
  (`NothingIsOverwritten`).
- Storage: PVCs can end up smaller than the StatefulSet says when the size is edited while the StatefulSet is absent or
  after the pass has read it, or when a PVC appears behind the listing (`EditWhileAbsent`, `EditBeforeAnnouncement`,
  `PVCAddedBehindTheList`); `PVCsCoverStatefulSet` and `RecreatedIsCoveredIff` say when they cannot. The admission
  webhook lets a size decrease by way of a template without a size (`SizeLoweredThroughNoSize`, `SizeNeverDecreases`).
- Interrupted operations: between passes, an announced resize can still be finished if and only if the StatefulSet is
  there and smaller than the spec (`ResizeFinishesIff`, `InterruptedResizeFinishesIff`). A pass that ends after the
  orphaning delete or after the recreation leaves it announced, and the other operations out (`DeletedIsStuck`,
  `RecreatedIsStuck`, `ResizeStaysStuck`), until the size is raised again (`RaisedSizeFreesIff`). An announced restore
  can be finished if and only if its Restore object exists (`RestoreFinishesIff`, `InterruptedRestoreFinishesIff`); if
  not it stays announced for good (`InterruptedRestoreIsStuck`, `RestoreStaysStuck`).
- Galera: with a volume snapshot, restarting Pod 0 before GaleraConfigured bootstraps again
  (`SnapshotRestartRebootstraps`, `ServedPodIsNotBootstrapped`); GaleraConfigured is read once per container
  (`StaleReadBootstraps`); a failed lookup skips the queue exactly if a configuration file is
  left (`FailedLookupFinishesIff`, `FailedLookupJumpsTheQueue`).
- MaxScale: a failed attempt, or an init pass, followed by a revert of the spec goes unnoticed (`RevertGoesUnnoticed`,
  `GateIsRightIff`); two services that declare one listener share it (`ListenerOfDeclarations`).
- Scheduler: VolumeSnapshots are created before the schedule is recorded, so after an interruption or a timeout the
  next pass in a later second creates another one without a tick in between (`UnrecordedFiringRepeats`);
  `NextPassFiresIff` and `TickBetweenFirings` say exactly when that happens.
- Grants: a grant that was not recorded before the list changed is never revoked (`UnrecordedGrantStays`,
  `InterruptedGrantLeaks`, `CompletedReconcileIsExactIff`).
- Names: times beyond the year 9999 do not survive formatting (`ParseFormatRoundTrip`).
- Bootstrap source: a reference that is not to a PhysicalBackup together with a snapshot passes validation, but not
  after defaulting (`BootstrapDefaults`).

## Assumptions

- `hash.Hash` does not collide (`Digest`); a certificate is its issuer, serial number and validity; serial numbers that
  the operator draws are new (needed for trust closure, see above).
- Reads see the operator's own earlier writes, there is one worker per object, and only the operator writes the
  conditions, hashes and MaxScale objects modelled here.
- The bootstrap source does not change once it is defaulted; only the operator deletes init Jobs and creates the
  bootstrap Restore.
- A status patch refreshes the object in memory with the server's answer, so a spec edited in the meantime becomes
  visible there.
- A StatefulSet that is being deleted creates no Pods or PVCs; a new PVC gets the size of the template.
- A Pod is ready only after its init containers have finished; the MariaDB server writes `grastate.dat` when it starts.
- A MaxScale PATCH sets the attributes and relationships it sends. Revoking a privilege that is not held succeeds.
- Cron's Next is the first tick strictly after its argument, and reconcile times do not decrease.

## Model

| member | source | states |
|---|---|---|
| `Pki.BundleCertificatePEMs` | pkg/pki/pem.go:46-105 | The loop over PEM blocks yields the deduplicated concatenation without expired certificates, and fails exactly when nothing is left |
| `Pki.MergedBundleIsLiveUnion` | internal/controller/mariadb_controller_tls.go:103-158 | Merging keeps exactly the unexpired certificates of the old bundle and the two current CAs, when serials identify CAs |
| `Pki.MergeIsIdempotent` | internal/controller/mariadb_controller_tls.go:103-158 | Merging again at once gives the same sequence, so Pods are not rolled twice |
| `Pki.AppendPemMembers` | pkg/pki/pem.go:71-105 | What appendPEM adds: nothing expired, nothing already identified, and nothing else is dropped |
| `Pki.LeafNeverOutlivesOperatorCA` | pkg/pki/renewal.go:25-38 | A leaf issued by a CA that is not yet due for renewal expires before that CA |
| `TlsRotation.GateImpliesTrust` | internal/controller/mariadb_controller_tls.go:312-354 | A CA that passes ShouldRenewCert is in the bundle of every running Pod |
| `TlsRotation.StepKeepsInv` | internal/controller/mariadb_controller_tls.go:103-158 | Every write of the operator and every move of the environment keeps the trust invariant |
| `TlsRotation.TrustClosure` | internal/controller/mariadb_controller_tls.go:312-412 | In every reachable state each running Pod trusts the CA behind every live leaf that any running Pod has loaded |
| `TlsRotation.UnexpiredTrustClosure` | pkg/pki/x509.go:14-16 | Along runs whose signing CAs are operator-issued and not due when they sign, trust closure holds for every unexpired leaf |
| `TlsRotation.GateExactCondition` | internal/controller/mariadb_controller_tls.go:333-338 | With no assumption on serials, a CA that passes the gate is trusted exactly when it is itself in the bundle |
| `TlsRotation.SerialCollisionOpensGate` | internal/controller/mariadb_controller_tls.go:333-338 | Two CAs with one serial open the gate for a CA no Pod trusts |
| `TlsRotation.UngatedReplacementKeepsInvIff` | pkg/controller/certificate/controller.go:185-196 | Replacing a leaf without the gate keeps the trust invariant if and only if the CA is trusted everywhere or has expired |
| `TlsRotation.UngatedReplacementBreaksClosure` | pkg/controller/certificate/controller.go:185-196 | Otherwise, for every running Pod that lacks the CA, the next Pod to start presents a live leaf that it does not trust |
| `TlsRotation.LiveLeafIsNeverReplacedUngated` | pkg/controller/certificate/controller.go:145-226 | In every reachable state a live leaf validates, so the ungated branch is closed for it |
| `TlsReconciler.Reconciler.EnsureAllPodsTrustingCABundle` | internal/controller/mariadb_controller_tls.go:371-412 | True exactly when all replicas are there, ready and annotated with the bundle's hash; an error when some are missing |
| `TlsReconciler.Reconciler.ShouldRenew` | internal/controller/mariadb_controller_tls.go:312-354 | Renews, skips, waits or fails, each exactly under its condition |
| `TlsReconciler.Reconciler.ReconcileCA` | pkg/controller/certificate/controller.go:95-143 | A CA is replaced exactly when absent, outside its validity or past its renewal time; with a shared Secret both kinds get the new one, otherwise only the given kind |
| `TlsReconciler.SharedPassIssuesAtMostOneCA` | api/v1alpha1/mariadb_keys.go:96-138 | With one CA Secret a pass issues at most one CA, for both kinds, and they go on sharing it |
| `TlsStuck.RunKeepsShared` | api/v1alpha1/mariadb_keys.go:96-138 | Over any run of passes, dying passes and other events the two kinds never come to have different CAs |
| `Pki.RenewalTimeMeaning` | pkg/pki/renewal.go:13-38 | The renewal time is a whole second, and what is left from there is the given share of the lifetime |
| `Pki.AppendPemKeepsNames` | pkg/pki/pem.go:107-112 | A certificate gives way only to one with the same common name and serial |
| `TlsReconciler.Reconciler.ReconcileCert` | pkg/controller/certificate/controller.go:145-226 | Waits if and only if MariaDB is ready, the leaf due, and its CA not in the bundle or the Pods not all on it; fails if and only if bundle or Pods are missing then; a leaf is replaced exactly when invalid or behind the open gate |
| `TlsReconciler.Reconciler.ReconcileCABundle` | internal/controller/mariadb_controller_tls.go:103-158 | The bundle becomes the merge, or the phase fails and nothing changes when the merge would be empty |
| `TlsReconciler.Reconciler.ReconcileTLSCerts` | internal/controller/mariadb_controller_tls.go:48-101 | Server pair, then client pair; proceeds if and only if neither waits or fails |
| `TlsReconciler.Reconciler.ReconcileTLS` | internal/controller/mariadb_controller_tls.go:32-46 | The bundle is merged if and only if neither pair waits or fails, and then holds both current CAs; a gated pass is a run of the rotation system |
| `TlsReconciler.MergeGetsCurrentCAs` | internal/controller/mariadb_controller_tls.go:103-158 | A pass that gets to the merge never finds it empty, and both current CAs are in the bundle afterwards |
| `TlsReconciler.FirstPassInitializes` | internal/controller/mariadb_controller_tls.go:32-46 | A first pass ends in an initial state of the rotation system |
| `TlsStuck.ServerBothDueEndsStuck` | pkg/controller/certificate/controller.go:210-214 | A pass that finds the server CA and leaf both due replaces the CA and ends with the leaf waiting for it |
| `TlsStuck.ClientBothDueEndsStuck` | internal/controller/mariadb_controller_tls.go:75-98 | The same for the client, with a CA of its own or a shared one just replaced |
| `TlsStuck.PassKeepsStuck` | internal/controller/mariadb_controller_tls.go:68-98 | A pass over a stuck certificate of either kind, waiting for the bundle or for the Pods, does not merge and leaves it as it is |
| `TlsStuck.HeldPass` | internal/controller/mariadb_controller_tls.go:48-101 | The same of every part of a pass, however far it gets before it dies |
| `TlsStuck.StuckPersists` | internal/controller/mariadb_controller_tls.go:32-101 | Over any run of passes, dying passes and other events, while the MariaDB stays ready and nothing expires, a certificate of either kind whose CA is not in the bundle stays stuck |
| `TlsStuck.RollStuckPersists` | internal/controller/mariadb_controller.go:349-370 | The same for a CA that is in the bundle under a template that was not annotated with it, which only the later StatefulSet phase does |
| `TlsStuck.RollStuckArises` | internal/controller/mariadb_controller_tls.go:344-351 | A run with default lifetimes into that second wait: a merge without its annotation a day before the leaf is due |
| `TlsStuck.MergeWithoutAnnotation` | internal/controller/mariadb_controller_tls.go:344-351 | In general: any merge that changes the bundle and is not annotated before the leaf is due |
| `TlsStuck.NotReadyFrees` | internal/controller/mariadb_controller_tls.go:313-315 | A pass of a MariaDB that is not ready always merges, and afterwards neither kind is stuck |
| `TlsStuck.BothDueArises` | pkg/pki/renewal.go:25-38 | A run with default lifetimes to a state with nothing due, in which both are due five minutes later, for both kinds |
| `TlsStuck.ExpiryBreaksClosure` | pkg/controller/certificate/controller.go:185-196 | A pass over a leaf that has expired under a CA some Pod does not know reissues it, and the next Pod to start is not trusted by that Pod |
| `TlsStuck.ClosureLostAfterBothDue` | internal/controller/mariadb_controller_tls.go:32-101 | A whole run from an initial state into that loss: both due, a pass, the leaf's end, a second pass, a new Pod |
| `RollingUpdate.Updater.GetPodsByRole` | internal/controller/mariadb_controller_update.go:259-317 | Succeeds exactly when all replicas and the primary are listed; then primary and replicas partition the Pods, replicas by descending name |
| `RollingUpdate.Updater.ReplicaPodHealthyIndex` | pkg/health/health.go:129-167 | The first ready, configured replica by name, or none exactly when there is none |
| `RollingUpdate.Updater.HasConfiguredReplica` | api/v1alpha1/mariadb_replication_types.go:300-307 | The loop finds a replica exactly when some Pod's recorded state is Slave |
| `RollingUpdate.Updater.ShouldTriggerSwitchover` | internal/controller/mariadb_controller_update.go:348-354 | Exactly with replication, automatic failover, a configured replica and no MaxScale |
| `RollingUpdate.Updater.PlanUpdate` | internal/controller/mariadb_controller_update.go:32-103 | Nothing while another operation is under way or under another strategy; otherwise an allowed action, always one when the cluster is ready and a Pod is stale, and a stop only for its reason and with its result |
| `RollingUpdate.StringLessMeaning` | internal/controller/mariadb_controller_update.go:304-306 | The order of names: the first difference decides and a proper prefix comes first |
| `RollingUpdate.Updater.ReconcileUpdates` | internal/controller/mariadb_controller_update.go:39-103 | The pass performs the planned action and no more: at most one Pod is deleted |
| `RollingUpdate.PrimaryIsDeletedLast` | internal/controller/mariadb_controller_update.go:66-102 | The primary goes only when the other replicas-1 Pods are there and updated and all replicas are ready |
| `RollingUpdate.PrimaryIsNeverDeletedUnderFailover` | internal/controller/mariadb_controller_update.go:88-99 | With replication, automatic failover and no MaxScale no pass deletes the current primary |
| `RollingUpdate.PrimaryLastInEveryRun` | internal/controller/mariadb_controller_update.go:32-102 | Every deletion in every run, with failovers, spec edits, scaling and new revisions in between, is of a stale Pod, while nothing is locked and the strategy asks for it, after all replicas were seen ready; and of the primary last |
| `RollingUpdate.SwitchoverTargetIsUpdated` | internal/controller/mariadb_controller_update.go:319-354 | A switchover is requested only under its conditions and only to a ready, updated replica |
| `RollingUpdate.StaleOnlyShrinks` | internal/controller/mariadb_controller_update.go:213-225 | At a fixed revision no event makes a Pod stale |
| `RollingUpdate.EachStalePodIsDeletedAtMostOnce` | internal/controller/mariadb_controller_update.go:60-102 | Along any run the updater deletes stale Pods only, each at most once |
| `RollingUpdate.AtMostOneSwitchover` | internal/controller/mariadb_controller_update.go:319-354 | Along any run at a fixed revision at most one switchover completes, and only away from a stale primary |
| `RollingUpdate.RoundDecreases` | internal/controller/mariadb_controller_update.go:60-102 | Each action with the recovery that follows decreases (stale Pods, primary stale) lexicographically |
| `RollingUpdate.Rollout` | internal/controller/mariadb_controller_update.go:39-103 | From a settled cluster, with replication, Galera or neither, the update finishes with every Pod at the update revision |
| `PhysicalInit.RunKeepsInv` | internal/controller/mariadb_controller_init.go:159-292 | Every run keeps the init invariant, through crashes after any write |
| `PhysicalInit.RestoreBeforeStart` | internal/controller/mariadb_controller_init.go:159-252 | Until the Job clean-up, StatefulSet replicas never exceed the prefix of completed Jobs and every Pod that ever started was restored |
| `PhysicalInit.InitializedOnlyAfterAllJobs` | internal/controller/mariadb_controller_init.go:77-96 | Without a snapshot, Initialized is set only after every Job completed and every Pod was scheduled |
| `PhysicalInit.JobsNeedEmptyStorage` | internal/controller/mariadb_controller_init.go:41-73 | A Job is created only while initializing, in a run that has seen no storage PVCs |
| `PhysicalInit.InitializedIsFinal` | internal/controller/mariadb_controller_init.go:41-43 | Once Initialized, no later event creates a Job or takes the condition back |
| `PhysicalInit.NothingIsOverwritten` | internal/controller/mariadb_controller_init.go:77-96 | With no crash between the first Job deletion and the final patch, no Job is created under a Pod that has started |
| `PhysicalInit.CrashInCleanupOverwrites` | internal/controller/mariadb_controller_init.go:82-96 | In every reachable state in that window, a crash leads the next undisturbed pass to restore over a started Pod |
| `PhysicalInit.StepsAreRuns` | internal/controller/mariadb_controller_init.go:40-98 | Undisturbed passes are runs of the system, so what holds of runs holds of them |
| `PhysicalInit.Initializer.ReconcilePVCs` | internal/controller/mariadb_controller_init.go:100-157 | Exactly the PVCs of all replicas are added, or the pass waits for the snapshot |
| `PhysicalInit.Initializer.InitIndex` | internal/controller/mariadb_controller_init.go:160-174 | Proceeds exactly when the index is restored and scheduled, the StatefulSet asks for it only once its Job is complete, and a missing Job is created |
| `PhysicalInit.Initializer.ReconcileRollingInit` | internal/controller/mariadb_controller_init.go:159-252 | Gets through exactly when every index is restored and scheduled; otherwise it stops at the first that is not and creates its Job if missing |
| `PhysicalInit.Initializer.CleanupInitJobs` | internal/controller/mariadb_controller_init.go:254-267 | The Jobs of the replicas are gone, others are untouched |
| `PhysicalInit.Initializer.ReconcilePhysicalBackupInit` | internal/controller/mariadb_controller_init.go:40-98 | The result of a pass, case by case: already initialized, leftover PVCs, snapshot, rolling init |
| `Operations.OperationExclusion` | internal/controller/mariadb_controller_storage.go:26-70 | In every reachable state at most one of restoring, resizing and updating holds |
| `Operations.EventKeepsExclusion` | internal/controller/mariadb_controller_status.go:72-79 | Exclusion is inductive over the writes of all phases and any environment step |
| `Operations.ResizeBeginsOnlyWhenFree` | internal/controller/mariadb_controller_storage.go:26-35 | No event announces a resize while something is restoring, updating or switching over, Galera is not ready or the storage ephemeral |
| `Operations.UpdateBeginsOnlyWhenFree` | internal/controller/mariadb_controller_status.go:68-79 | No event changes the Updated condition while something is restoring, resizing or switching over, Galera is not ready or the MaxScale missing |
| `Operations.RestoreBeginsOnlyWhenFree` | internal/controller/mariadb_controller.go:448-459 | No event announces a restore while something is updating, resizing or switching over, or Galera is not ready, nor for another source or a second time |
| `Operations.AtMostOneRestore` | internal/controller/mariadb_controller.go:448-515 | Over any run at most one bootstrap Restore is created, and never in a run that initializes physically |
| `Interruptions.ResizeFinishesIff` | internal/controller/mariadb_controller_storage.go:45-89 | Between passes, some run finishes an announced resize at the current size if and only if the StatefulSet is there and smaller |
| `Interruptions.InterruptedResizeFinishesIff` | internal/controller/mariadb_controller_storage.go:67-86 | The same for a pass that ends anywhere between the announcement and the wait |
| `Interruptions.DeletedIsStuck` | internal/controller/mariadb_controller_storage.go:111-117 | A pass that ends after the orphaning delete loses the resize when the deletion finishes; the next pass recreates the StatefulSet and leaves it announced |
| `Interruptions.RecreatedIsStuck` | internal/controller/mariadb_controller_storage.go:77-86 | So does a pass that ends after the recreation |
| `Interruptions.NextPassResumesIff` | internal/controller/mariadb_controller_storage.go:58-74 | The next undisturbed pass announces the resize again under exactly that condition |
| `Interruptions.ResizeStaysStuck` | internal/controller/mariadb_controller_storage.go:58-62 | Such a resize stays announced, and keeps restore and update out, over any run until the size is raised again |
| `Interruptions.RaisedSizeFreesIff` | internal/controller/mariadb_controller_storage.go:58-89 | Raising the size lets a stuck resize be finished if and only if the StatefulSet exists |
| `Interruptions.InterruptedRestoreIsStuck` | internal/controller/mariadb_controller.go:470-514 | A pass that ends between announcement and create, or between delete and final patch, leaves a stuck restore |
| `Interruptions.RestoreFinishesIff` | internal/controller/mariadb_controller.go:465-482 | Between passes, some run finishes an announced restore if and only if its Restore object exists |
| `Interruptions.InterruptedRestoreFinishesIff` | internal/controller/mariadb_controller.go:470-514 | The same for a pass that ends in the middle of a restore |
| `Interruptions.RestoreStaysStuck` | internal/controller/mariadb_controller.go:465-482 | A restore announced without a Restore object stays announced for good |
| `OperationsReconciler.CountUpdatedIsCardinality` | internal/controller/mariadb_controller_status.go:171-176 | The counter is the number of listed Pods with the update revision |
| `OperationsReconciler.UpdateConditionMeaning` | internal/controller/mariadb_controller_status.go:180-189 | Updated, Updating and PendingUpdate hold exactly for enough, some and no updated Pods |
| `OperationsReconciler.MariaDBReconciler.SetUpdatedCondition` | internal/controller/mariadb_controller_status.go:149-191 | The loop computes that condition, and leaves it alone without a StatefulSet or revision |
| `OperationsReconciler.MariaDBReconciler.ReconcileStatus` | internal/controller/mariadb_controller_status.go:25-82 | Only the Updated condition may change, only while nothing else is under way, and then by the number of updated Pods |
| `OperationsReconciler.MariaDBReconciler.ResizeInUsePVCs` | internal/controller/mariadb_controller_storage.go:91-109 | Every PVC requests the desired size, or none is touched when in-use resizing is off |
| `OperationsReconciler.MariaDBReconciler.ResizeStatefulSet` | internal/controller/mariadb_controller_storage.go:111-117 | The StatefulSet is recreated with the size in memory, or left deleting |
| `OperationsReconciler.MariaDBReconciler.PVCResizing` | internal/controller/mariadb_controller_storage.go:123-134 | The scan finds a resizing PVC exactly when there is one |
| `OperationsReconciler.MariaDBReconciler.WaitForStorageResize` | internal/controller/mariadb_controller_storage.go:119-157 | Resized is announced exactly when no PVC to wait for is resizing and all replicas are ready |
| `OperationsReconciler.MariaDBReconciler.ReconcileStorage` | internal/controller/mariadb_controller_storage.go:26-89 | Nothing while something else is under way; skipped without a StatefulSet, an error for a smaller size, nothing for an equal one; and all that a resize that is due changes |
| `OperationsReconciler.MariaDBReconciler.ReconcileRestore` | internal/controller/mariadb_controller.go:448-515 | A Restore is created exactly when one is due and nothing else is under way; Restored is set exactly when the one under way is complete; otherwise nothing |
| `OperationsReconciler.MariaDBReconciler.ReconcileInit` | internal/controller/mariadb_controller_init.go:29-38 | A physical init that has not finished ends the pass, anything else lets it go on |
| `OperationsReconciler.MariaDBReconciler.ReconcileStatefulSet` | pkg/controller/statefulset/statefulset.go:27-55 | Creates the StatefulSet if there is none; an existing one keeps its size |
| `OperationsReconciler.MariaDBReconciler.Reconcile` | internal/controller/mariadb_controller.go:126-242 | The phase loop is a run of the system and leaves a settled MariaDB as it is |
| `OperationsReconciler.ResizeToCompletion` | internal/controller/mariadb_controller_storage.go:37-157 | An uninterrupted resize and a cluster that settles end with StorageResized and the desired size everywhere |
| `StorageResize.StatefulSetNeverShrinks` | internal/controller/mariadb_controller_storage.go:45-117 | For non-decreasing sizes the StatefulSet's size never decreases over any run, and the "cannot decrease" error is never met |
| `StorageResize.PVCsCoverStatefulSet` | internal/controller/mariadb_controller_storage.go:91-117 | In undisturbed runs no PVC requests less than the StatefulSet's size |
| `StorageResize.ResizedAfterScanAndReady` | internal/controller/mariadb_controller_storage.go:119-157 | In every run, when StorageResized is set all replicas are ready, and the same pass has earlier seen no resizing PVC that it has to wait for |
| `StorageResize.EditWhileAbsent` | internal/controller/mariadb_controller_storage.go:45-49 | After an edit while the StatefulSet is absent, the next pass is covered exactly if no PVC is smaller than the new size |
| `StorageResize.RecreatedIsCoveredIff` | internal/controller/mariadb_controller_storage.go:74-79 | After patching the listed PVCs, recreation is covered exactly if every PVC has the size in memory |
| `StorageResize.PVCAddedBehindTheList` | internal/controller/mariadb_controller_storage.go:97-117 | A PVC added behind the listing is left smaller than the StatefulSet |
| `StorageResize.EditBeforeAnnouncement` | internal/controller/mariadb_controller_storage.go:51-79 | A size raised after it was read goes to the StatefulSet but not to the PVCs: the run to the recreation ends covered only if there are no PVCs |
| `SpecDefaults.SetDefaults` | api/v1alpha1/mariadb_types.go:128-187 | Not ephemeral, resizing and waiting by default; the template requests the given size and class, and stays as it is when no size is given |
| `SpecDefaults.StorageValidIff` | api/v1alpha1/mariadb_types.go:97-126 | What makes storage valid |
| `SpecDefaults.AdmittedIff` | internal/webhook/v1alpha1/mariadb_webhook.go:310-325 | The webhook compares the template's requests, and sizes only without them |
| `SpecDefaults.DefaultsSettle` | api/v1alpha1/mariadb_types.go:97-158 | Defaulting is idempotent and the webhook admits its result |
| `SpecDefaults.SizeNeverDecreases` | internal/webhook/v1alpha1/mariadb_webhook.go:310-325 | Over any history of admitted edits and defaults in which the spec always has a size, the size never decreases |
| `SpecDefaults.SizeLoweredThroughNoSize` | internal/webhook/v1alpha1/mariadb_webhook.go:317-323 | Any size can be lowered to any positive size by two admitted edits through a spec without a size |
| `SpecDefaults.Bootstrap.SetDefaults` | api/v1alpha1/mariadb_types.go:358-377 | The content type is the explicit one, else that of the reference's kind, else of the snapshot, else logical |
| `SpecDefaults.Bootstrap.Validate` | api/v1alpha1/mariadb_types.go:307-352 | The checks one by one decide validity |
| `SpecDefaults.Bootstrap.SetSpecDefaults` | internal/controller/mariadb_controller.go:885-920 | The content type is settled once; a PhysicalBackup on snapshots gives a snapshot, any other one a volume and its S3; nothing else is resolved |
| `SpecDefaults.BootstrapDefaults` | api/v1alpha1/mariadb_types.go:307-352 | Defaulting is idempotent and keeps a source valid exactly unless it names both a snapshot and a reference of another kind |
| `GaleraInit.OnlyPodZeroBootstraps` | cmd/init/main.go:188-202 | Whatever happens, the bootstrap file appears only on Pod 0, in a container that read GaleraConfigured as unset and has no Galera state left |
| `GaleraInit.EventKeepsOrder` | cmd/init/main.go:204-228 | Until GaleraConfigured, getting past the wait implies that all lower Pods have been ready |
| `GaleraInit.PodsJoinInOrder` | cmd/init/main.go:204-287 | In a fresh cluster, before GaleraConfigured and with lookups that succeed, Pod i finishes init only after each of Pods 0..i-1 was ready |
| `GaleraInit.ServedPodIsNotBootstrapped` | cmd/init/main.go:188-243 | Without a snapshot the bootstrap file is never written for a Pod whose server has run |
| `GaleraInit.SnapshotRestartRebootstraps` | cmd/init/main.go:230-243 | With a snapshot, every restart of such a Pod 0 before GaleraConfigured writes it |
| `GaleraInit.StaleReadBootstraps` | cmd/init/main.go:96-126 | A container that read the object before GaleraConfigured was set still bootstraps after |
| `GaleraInit.FailedLookupFinishesIff` | cmd/init/main.go:97-106 | A failed lookup finishes the container if and only if a configuration file is left, whoever is ready |
| `GaleraInit.FailedLookupJumpsTheQueue` | cmd/init/main.go:97-106 | In a fresh cluster that breaks the order |
| `GaleraInit.InitContainer.CleanupStateForVolumeSnapshot` | cmd/init/main.go:230-243 | Both Galera state files go exactly with a snapshot and before GaleraConfigured; other files stay |
| `GaleraInit.InitContainer.ConfigureGalera` | cmd/init/main.go:157-202 | Writes the configuration, and the bootstrap file exactly on Pod 0 before GaleraConfigured without state |
| `GaleraInit.InitContainer.WaitForPreviousPod` | cmd/init/main.go:204-276 | Succeeds exactly when exempt or when a poll sees the previous Pod ready |
| `GaleraInit.InitContainer.DeleteStateFiles` | cmd/init/main.go:237-250 | The loop deletes exactly the given files |
| `GaleraInit.InitContainer.CleanupPreviousSST` | cmd/init/main.go:245-252 | Exactly the two SST files go |
| `GaleraInit.InitContainer.Run` | cmd/init/main.go:108-126 | Exit code and bootstrap file of the whole container, as a sequence of protocol steps |
| `MaxScaleSync.NewIndex` | pkg/datastructures/datastructures.go:13-19 | The loop builds the keyed index |
| `MaxScaleSync.IndexHoldsLast` | pkg/datastructures/datastructures.go:13-19 | The index has exactly the items' keys, each with the last item that has it |
| `MaxScaleSync.Diff` | pkg/datastructures/datastructures.go:75-105 | Added, deleted and rest are the two differences and the intersection of the keys |
| `MaxScaleSync.ApplyDiff` | internal/controller/maxscale_controller.go:1321-1352 | For any contents, success leaves exactly what is wanted; a failure leaves each key as before or as wanted, and loses nothing wanted |
| `MaxScaleSync.PutServers` | internal/controller/maxscale_controller.go:1159-1171 | Create or patch and then state: both for each key, or the first failing call ends it |
| `MaxScaleSync.ApplyServers` | internal/controller/maxscale_controller.go:1136-1198 | For any contents, success leaves exactly the wanted servers with attributes and maintenance states |
| `MaxScaleReconciler.ServerHasItsOwnEntry` | api/v1alpha1/maxscale_types.go:998-1002 | With unique names, every server of the spec is wanted with its own attributes and maintenance flag |
| `MaxScaleReconciler.ServiceHasItsOwnEntry` | api/v1alpha1/maxscale_types.go:1010-1014 | With unique names, every service of the spec is wanted with its own attributes |
| `MaxScaleReconciler.ServiceForListenerFindsFirst` | api/v1alpha1/maxscale_types.go:1022-1029 | The first service that declares the listener, or none exactly when none does |
| `MaxScaleReconciler.ListenerOfDeclarations` | api/v1alpha1/maxscale_types.go:1022-1045 | A listener gets the attributes of its last declaration under the service of its first, and none is dropped |
| `MaxScaleReconciler.ListenerBelongsToItsService` | api/v1alpha1/maxscale_types.go:1022-1045 | With unique names each listener is tied to the service that declares it |
| `MaxScaleReconciler.Controller.ReconcileServers` | internal/controller/maxscale_controller.go:1136-1198 | Success leaves exactly the spec's servers; failure leaves the API between before and wanted |
| `MaxScaleReconciler.Controller.ServerRelationships` | internal/controller/maxscale_controller_api.go:143-154 | Links exactly the listed servers that are in the spec |
| `MaxScaleReconciler.Controller.ReconcileMonitor` | internal/controller/maxscale_controller.go:1221-1251 | The monitor has the spec's attributes and those links; failure changes nothing |
| `MaxScaleReconciler.Controller.ReconcileServices` | internal/controller/maxscale_controller.go:1292-1353 | Exactly the spec's services, linked to the listed servers of the spec |
| `MaxScaleReconciler.Controller.ReconcileListeners` | internal/controller/maxscale_controller.go:1372-1438 | Exactly the declared listeners, each tied to its service |
| `MaxScaleReconciler.Controller.ReconcileChangedServers` | internal/controller/maxscale_controller.go:1115-1134 | Skips exactly on an equal hash, and stores the hash only after the servers are as wanted |
| `MaxScaleReconciler.Controller.ReconcileChangedMonitor` | internal/controller/maxscale_controller.go:1200-1219 | The same for the monitor |
| `MaxScaleReconciler.Controller.ReconcileChangedServicesAndListeners` | internal/controller/maxscale_controller.go:1268-1290 | The same for services and listeners, in this order |
| `MaxScaleReconciler.Controller.Reconcile` | internal/controller/maxscale_controller.go:1115-1290 | A pass that gets through leaves each changed part as the spec wants it and each unchanged part alone; with all parts changed it converges from any contents |
| `MaxScaleReconciler.Controller.ReconcileUngated` | internal/controller/maxscale_controller.go:1136-1438 | The four reconciles in a row converge from any contents, links included |
| `MaxScaleReconciler.Controller.ReconcileTwice` | internal/controller/maxscale_controller.go:1136-1438 | Repeating them changes nothing |
| `MaxScaleReconciler.Controller.ReconcileInitInPod` | internal/controller/maxscale_controller.go:1018-1070 | Servers and monitor as wanted if something was missing, else nothing; the hashes are not involved |
| `HashGate.GateRefinesReconcile` | internal/controller/maxscale_controller.go:1115-1134 | With no failed attempt or init write since the hash was stored, a gated pass and an ungated one leave the same servers |
| `HashGate.GateIsRightIff` | internal/controller/maxscale_controller.go:1121-1124 | The gate is right for every next spec exactly when the API agrees with the spec that was hashed |
| `HashGate.RevertGoesUnnoticed` | internal/controller/maxscale_controller.go:1126-1133 | After an attempt at another spec that was not recorded, reverting leaves the other's servers in place |
| `HashGate.GatedPass` | internal/controller/maxscale_controller.go:1115-1134 | The controller's method is a step of the gate model |
| `PrimaryIdentity.SetMariadbDefaults` | internal/controller/maxscale_controller.go:337-353 | One server per replica, existing ones kept by position, new ones with the name and address of their Pod, spelled out |
| `PrimaryIdentity.AddressLeadsToPod` | pkg/statefulset/statefulset.go:39-57 | The address of server i parses back to Pod i, the MariaDB, its Service and namespace |
| `PrimaryIdentity.ScaleRepeatedly` | internal/controller/maxscale_controller.go:332-374 | From an empty list, over any scale changes, server i has Pod i's name and address |
| `PrimaryIdentity.PodIndexForServer` | internal/controller/mariadb_controller_status.go:201-220 | On such a list the name of Pod i's server gives i exactly when i is listed and below replicas |
| `PrimaryIdentity.PrimaryRoundTrip` | internal/controller/mariadb_controller_status.go:130-147 | The two compose to the identity on every index below replicas |
| `PrimaryIdentity.PrimaryStatus.DefaultPrimary` | internal/controller/mariadb_controller_status.go:222-237 | Sets the configured index once and keeps name and index in step |
| `PrimaryIdentity.PrimaryStatus.SetMaxScalePrimary` | internal/controller/mariadb_controller_status.go:239-245 | Follows MaxScale and keeps name and index in step |
| `PrimaryIdentity.PrimaryStatus.UpdateCurrentPrimary` | api/v1alpha1/mariadb_types.go:757-761 | Sets both |
| `PrimaryIdentity.PrimaryStatus.IndexOfPrimary` | pkg/statefulset/statefulset.go:63-73 | The recorded name parses back to the recorded index |
| `Names.PodIndexRoundTrip` | pkg/statefulset/statefulset.go:51-73 | PodIndex inverts PodName for every name, hyphens included, and the rest of the name is the MariaDB's |
| `Names.PodFQDNLabels` | pkg/statefulset/statefulset.go:39-57 | The labels of an address are Pod, Service, namespace, "svc" and the cluster's |
| `Names.PodFQDNRoundTrip` | pkg/statefulset/statefulset.go:39-57 | An address parses back to index, MariaDB, Service and namespace |
| `Names.PodNameInjective` | pkg/statefulset/statefulset.go:51-53 | Different indices have different Pod names |
| `Names.PodFQDNInjective` | pkg/statefulset/statefulset.go:55-57 | Different indices have different addresses |
| `Names.SplitJoin` | api/v1alpha1/physicalbackup_types.go:332-335 | No part has the separator, and joining the parts gives the string back |
| `Names.ParseFormatRoundTrip` | pkg/time/time.go:12-23 | Parsing a formatted time gives it back to the second exactly for years up to 9999 |
| `Names.FormatOfParsed` | pkg/time/time.go:12-23 | Formatting a parsed time gives the string back |
| `Names.ParsesIffFormatted` | pkg/time/time.go:12-23 | Of the strings of the layout's length exactly the formatted times parse |
| `Names.FormatLayout` | pkg/time/time.go:9-14 | Year, month, day, hour, minute and second, in this order and with these widths |
| `Names.ObjectNameRoundTrip` | internal/controller/physicalbackup_controller.go:221-227 | Time and base name are read back from a generated object name, for any base name |
| `BackupObjects.InstantOrdersTimes` | internal/controller/physicalbackup_controller.go:229-250 | The order used for sorting is the order of times |
| `BackupObjects.SortByTime` | internal/controller/physicalbackup_controller.go:229-250 | In place: a permutation, newest first; with two or more objects it fails exactly when some time does not parse |
| `BackupObjects.SortByObjectTime` | internal/controller/physicalbackup_controller.go:229-250 | The same for names: no object has an earlier time in its name than one after it |
| `Scheduler.PhysicalBackup.ReconcileScheduled` | internal/controller/physicalbackup_controller.go:129-168 | Nothing when suspended, a recorded check at first without `immediate`, a requeue before the next tick, and the callback otherwise |
| `Scheduler.SuspendedPassesDoNothing` | internal/controller/physicalbackup_controller.go:133-135 | Nowhere in a run does a suspended pass fire or leave anything behind |
| `Scheduler.FirstCheck` | internal/controller/physicalbackup_controller.go:143-160 | The first pass that is not suspended fires with `immediate`, and only records its time without |
| `Scheduler.PhysicalBackup.RunCallback` | internal/controller/physicalbackup_controller_snapshot.go:229-320 | The object and the status, with an interruption between the two writes; an object named after this second is found and not created again |
| `Scheduler.CheckNondecreasing` | internal/controller/physicalbackup_controller.go:146-160 | The recorded time never moves back or ahead of the clock |
| `Scheduler.CallsExactlyAfterATick` | internal/controller/physicalbackup_controller.go:162-167 | An unsuspended pass fires exactly when a tick has passed since the recorded time, so missed ticks count once |
| `Scheduler.TickBetweenFirings` | internal/controller/physicalbackup_controller.go:129-168 | Any two firings have a tick between them if the earlier one was recorded |
| `Scheduler.NextPassFiresIff` | internal/controller/physicalbackup_controller.go:129-168 | The pass after a firing creates another object if and only if it is in a later second and a tick has passed or the firing was not recorded |
| `Scheduler.UnrecordedFiringRepeats` | internal/controller/physicalbackup_controller_snapshot.go:243-262 | After any snapshot that was created but not recorded, every pass in a later second before the next tick creates another one |
| `Scheduler.RequeueEndsAtNextTick` | internal/controller/physicalbackup_controller.go:146-166 | Every delay of a waiting branch is positive and ends exactly at the next tick |
| `Grants.CompletedReconcileIsExactIff` | internal/controller/grant_controller.go:86-126 | A completed reconcile leaves exactly the listed privileges if and only if each one held was recorded or is listed |
| `Grants.GrantsFollowTheList` | internal/controller/grant_controller.go:86-126 | From an empty database, if the list never changes between a grant and its recording, every completed reconcile leaves exactly the list, over any lists and interruptions |
| `Grants.UnrecordedGrantStays` | internal/controller/grant_controller.go:116-124 | A grant that was not recorded before the list changed stays until a list names it again |
| `Grants.InterruptedGrantLeaks` | internal/controller/grant_controller.go:104-124 | Such a state arises for any privilege and any next list without it |
| `Grants.GrantReconciler.PrivilegesToRevoke` | internal/controller/grant_controller.go:144-155 | The loop collects exactly the recorded privileges that are not listed |
| `Grants.GrantReconciler.Reconcile` | internal/controller/grant_controller.go:86-126 | An attempt in which any of the three calls may fail is a step of the model |

## Left out

- Kubernetes client calls, caches, merge patches, events, metrics, RBAC, Services and labels: single-branch plumbing; reads and writes are atomic steps that may fail.
- The Ready condition and its many messages: no modelled decision but the certificate gate reads it, and there it is an environment flag.
- Certificate parsing, issuing and cryptography, cert-manager, and user-provided CAs: a certificate is its issuer, serial and validity.
- HandleExpiredCert: trust closure covers the renewals that pass ShouldRenewCert; what an expired leaf does is shown by `UngatedReplacementBreaksClosure`.
- Galera recovery, replication switchover internals, backup retention and target selection, and health checks: environment steps.
- The Galera agent's own writes of the bootstrap file during recovery: only the init containers' writes are modelled.
- Service-to-server links after a server is added: services are linked again only when the services hash changes, so links are claimed at the moment a services pass succeeds.
- MaxScale config sync between Pods and the suspend states of monitors, services and listeners: one Pod's API is modelled.
- The order of the API calls within one diff: the model applies the keys in any order, the code in sorted order.
- Privileges that overlap, such as `ALL PRIVILEGES`, and the grant option: privileges are opaque names.
- Sizes as Kubernetes quantities with units: sizes are numbers of bytes.
- SortByTime: the insertion sort that `sort.Slice` uses for up to twelve objects; its contract does not depend on it.
- Retention of Jobs and snapshots, and the wait for those under way: only passes that get to the schedule are modelled, and names stay taken.
- TickBetweenFirings: not claimed for a snapshot that was created but not recorded, since it is false there.
- The Connection, Backup, Restore, Database, User and ExternalMariaDB controllers: little state of their own.
