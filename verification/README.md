# Fencing protocols of the operator, verified

This project models the operator's fencing protocols as steps over durable
objects and proves what holds in every run of them. A write to a stored object
is one atomic compare-and-swap; a crash may fall between any two writes; the
response to a write may be lost. Clocks, random identifiers, hashes and the
answers of the API server, the token provider, the kubelet and the user are
parameters of the operations or actions of the runs.

| file | what it models |
|---|---|
| `Lifecycle.dfy` | the lifecycle decision: hold policy, sequenced suspend requests, scoped wakes, activity receipts |
| `EnvironmentSteps.dfy`, `EnvironmentController.dfy` | what each Environment reconcile operation does, as a function and as the in-place operation proved equal to it |
| `EnvironmentRuns.dfy` | all runs of one Environment, and the invariant of its reachable states |
| `EnvironmentSafety.dfy` | what holds in all of them: suspension, release, execution identities, the adapter fence, the recovery budget |
| `EnvironmentConnections.dfy` | what a reachable, a fenced, a created and a charged execution tell about the run before |
| `EnvironmentExamples.dfy` | runs, built for every new Environment, in which a plausible claim about requests fails |
| `RepositoryCredential.dfy`, `RepositoryReconciler.dfy` | rotation record, active Secret and revocation log of a Run's repository token; the controller's passes over them |
| `PortalRoutes.dfy`, `PortalGateway.dfy` | the bounded portal route table, its in-place operations and its runs |
| `ServicePorts.dfy`, `ServiceConvergence.dfy` | the wrapped port search and the merge of repository services into declarations |
| `Provisioning.dfy` | capture, verification and gating of the provisioning snapshot |
| `WarmPool.dfy` | one pass over a warm pool, and all runs of passes, claims and releases |
| `InstallationIsolation.dfy` | isolation status, its scan of a changing world call by call, and when execution is allowed |
| `ChangesStore.dfy`, `ChangesCapture.dfy` | the two Changes stores, runs of capture requests, paging |

`dafny verify dfyconfig.toml` checks the whole project.

## How the runs are modelled

- Environment runs cover one incarnation of an Environment. The reconciler is a
  single worker; `Controller` is its position inside the creation of an
  execution and is all a crash loses. Users, the Run controller, the kubelet
  and the clock act between any two of its writes. `Withdraw` stands for every
  status write that only takes a connection away (failures, invalid
  configuration, Pod replacement, warm promotion) and may happen at any time,
  so the theorems cover more runs than the operator has. A fence may be
  computed from any earlier, arbitrarily stale read. A recovery write is decided
  on a Pod and a time read earlier; spec edits and changes of the Pod may fall
  in between.
- A published suspend request whose identifier has the form of a Run
  controller's fence names its own sequence; other identifiers are arbitrary.
- Repository token runs let the cached Run lag behind the stored one and catch
  up to any version in between; Secrets are read directly
  (`cmd/operator/main.go:127-131`). The Environment is read directly while a
  lease is kept (`internal/controllers/run_controller.go:1252-1263`) and from the
  cache when cleaning up (`internal/controllers/run_controller.go:1373-1375`);
  that cache too lags by any amount. The Pod that received a lease may come and
  go, and a creation with it may begin or end, at any step. Cleanup begins only on a Run that is
  terminal, deleting, or without its Environment, which are permanent, so no
  token is issued after it began.
- The isolation scan makes one call at a time: the lists, then for each
  Environment its Pod and its credential. The world may change between any two
  calls, so its meaning is about when each Environment was looked at, and not
  about one instant. Provisioning reads the Environment, the Project and the
  Template one after another, and each again before a write.
- Changes runs have concurrent requests. Deletion waits for admitted requests
  and needs a deleting Run (`internal/controlplane/transcript_gate.go:116-140`,
  `internal/controlplane/server.go:516-538`), as in a single control-plane
  process.

## Where a plausible claim is false

- `allocateServicePort` does not exclude sandboxd's control port 50051:
  `ServicePorts.AllocatesControlPort` says exactly when it is returned,
  `ServiceConvergence.NamesControlPortIff` when a converged result names it,
  `ServiceConvergence.ConvergesOntoControlPort` gives an input.
- Wakes are not once-only: `EnvironmentExamples.WakeReplayed` is a run in which
  one wake resumes the Environment twice; `EnvironmentSafety.WakeTakenAgain` says
  that another wake must have been taken in between.
- A suspend request does not outlive a hold it was acknowledged under:
  `EnvironmentExamples.HoldReleaseResumes` is such a run. `Lifecycle.ReleasedIff`
  is the exact rule.
- The lifecycle step does not settle for every list of activity requests:
  `Lifecycle.IntentSettlesIff` is the exact condition, and the requests offered
  to it always meet it: `Lifecycle.ActivityRequestsSettle`.
- A clean isolation scan does not mean that at some instant nothing was live:
  `InstallationIsolation.CleanScanIsNoInstant` is one during which something in
  scope is live at every call. `InstallationIsolation.LiveAfterCleanScanIff` says
  when exactly something is live after it, `InstallationIsolation.CleanScanEndsQuiet`
  that nothing is if nothing starts meanwhile.
- The fence that precedes revocation in a waking rotation need not be one under
  that rotation when the Run is cleaned up from an old cache:
  `RepositoryCredential.RevokedUnfenced` is such a run, and
  `RepositoryCredential.CleanupFenceUnderRotationIff` the exact condition.
- Route discovery is idempotent exactly when it asks for no route or for a
  declaration under that declaration's own identity:
  `PortalRoutes.DiscoverIdempotent`.
- The provisioning gate by itself would let a named but unresolved Project
  through: `Provisioning.GateNeedsProject`; the earlier gates exclude it.
- The membership bound of a warm pool, twice the minimum, is one of a pass:
  `WarmPool.BoundExceeded` is a run that exceeds it,
  `WarmPool.ReleaseExceedsBound` says when exactly a release does, and
  `WarmPool.MembershipBound` is what holds over every run.
- The comment on the recovery status says exhaustion lasts until sandboxd
  becomes ready (`api/v1alpha1/environment_types.go:475-478`). The code never
  lets an exhausted Environment become ready again:
  `EnvironmentSafety.ExhaustedIsFinal`. The model follows the code.

## Model

| member | source | states |
|---|---|---|
| `Lifecycle.ActivityRequestsDistinct` | internal/lifecycle/intent.go:105-132 | the requests offered to a decision never name one source twice, whatever legacy list and metadata slots hold |
| `Lifecycle.DecideFixpoint` | internal/controllers/environment_lifecycle.go:51-113 | a second decision on the same spec and phase changes nothing, for every status |
| `Lifecycle.IntentFixpoint` | internal/controllers/environment_lifecycle.go:15-126 | a second application of the whole step, receipts included, changes nothing and sees no activity when the requests agree source by source |
| `Lifecycle.IntentSettlesIff` | internal/controllers/environment_lifecycle.go:39-49 | an application is followed by one that sees no activity exactly when no two current requests name one source with different identifiers |
| `Lifecycle.ActivityRequestsSettle` | internal/controllers/environment_lifecycle.go:136-154 | the requests actually offered always settle in one application |
| `Lifecycle.ReleasedIff` | internal/controllers/environment_lifecycle.go:77-113 | a suspension ends exactly when nothing holds, nothing is pending or acceptable, the backend is gone, and it was the hold's own or a new wake names its reason |
| `Lifecycle.SuspendedIff` | internal/controllers/environment_lifecycle.go:51-94 | a decision begins a suspension exactly for an enabled hold or a pending or acceptable suspend request |
| `Lifecycle.DecisionRecords` | internal/controllers/environment_lifecycle.go:51-113 | a hold is recorded as a hold under no request, an accepted or pending request as requested under its own identifier, anything else stays what it was, and a release clears reason and request |
| `Lifecycle.WakeTakenIff` | internal/controllers/environment_lifecycle.go:60-81 | a wake is taken exactly when it is valid and not the last one taken, and finds a hold, or something else than it asks for, or what it asks for with the backend gone and no request being answered |
| `Lifecycle.ActivityRequestsOffered` | internal/lifecycle/intent.go:105-132 | of each source the metadata slot is offered when it is well formed and current, else the legacy request, and nothing else |
| `Lifecycle.LegacySlotIs` | internal/lifecycle/intent.go:105-132 | of the legacy requests of a source the last well-formed one counts |
| `Lifecycle.ActivityRenews` | internal/controllers/environment_lifecycle.go:39-49 | taking up activity makes the Environment active now, never earlier than it was, and taking up none leaves that alone |
| `EnvironmentController.EnvironmentReconciler.ReconcileLifecycleIntent` | internal/controllers/environment_lifecycle.go:15-126 | the in-place update of the status equals the decision and reports a change exactly when there is one; a hold is recorded as Hold, a pending request as Requested under its identifier, a release clears both, and new receipts renew the last activity |
| `EnvironmentController.EnvironmentReconciler.ReconcilePaused` | internal/controllers/environment_controller.go:603-645 | the Pod goes only without a connection, the credential only without a Pod, Paused is written only with both gone, the acknowledgement only in Paused, one of these a pass; no pass leaves a connection published, one that finds none goes on, and a pass without effect waits for the kubelet or is done |
| `EnvironmentController.EnvironmentReconciler.ReconcileIdle` | internal/controllers/environment_controller.go:482-519 | suspends exactly when the timeout has passed with nobody using it, raising the epoch by one, and leaves connection, execution and recovery alone |
| `EnvironmentController.EnvironmentReconciler.ReserveExecutionGeneration` | internal/controllers/environment_controller.go:1713-1743 | reserves the next execution exactly on an unchanged, unsuspended Environment below the largest number, withdraws what was published and keeps a resuming Environment resuming |
| `EnvironmentController.EnvironmentReconciler.ReconcilePendingPodRecovery` | internal/controllers/environment_recovery.go:69-118 | charges one replacement exactly when its deadline has come, changes the budget in no other case, lets a reconcile on exactly without deadline or exhaustion, and reports the reason it waits once; a retained workspace resumes, a new one is created |
| `EnvironmentController.EnvironmentReconciler.ReconcileTerminalPod` | internal/controllers/environment_recovery.go:120-182 | a failure is put on record once per execution, with its deadline or as exhaustion and spending nothing; the Pod that was read goes only when its own failure is on record with no deadline left |
| `EnvironmentController.EnvironmentReconciler.SyncPodStatus` | internal/controllers/environment_status.go:20-66 | publishes nothing of a Pod of another execution or read under another spec; a ready Pod gets its connection, clears the recovery budget and counts as active from when it became ready |
| `EnvironmentSafety.FenceBeforeRelease` | internal/controllers/environment_lifecycle.go:77-113 | in every run suspension ends only in Paused with Pod and credential gone, no hold enabled and no request pending |
| `EnvironmentSafety.RequestedEndsByItsWake` | internal/controllers/environment_lifecycle.go:77-113 | over every run a suspension that an accepted request began, with no hold taken up since, is recorded as requested and ends only by a wake published for Requested |
| `EnvironmentSafety.IdleEndsByItsWake` | internal/controllers/environment_lifecycle.go:77-113 | over every run a suspension for idleness, taken over by no hold or request, ends only by a wake published for Idle |
| `EnvironmentSafety.PendingKeepsSuspended` | internal/controllers/environment_controller.go:636-642 | in every reachable state a pending request means suspended, and Paused means no Pod and no credential |
| `EnvironmentSafety.AcceptedOnce` | internal/controllers/environment_lifecycle.go:51-59 | accepted sequences strictly increase over a run |
| `EnvironmentSafety.FenceAccepted` | internal/controllers/run_controller.go:1760-1772 | a fence written while none is pending, from however stale a read, is never discarded and is accepted by the next decision, through any repetition of the request and any other edit, unless a step changes the policy or replaces the request |
| `EnvironmentSafety.NewestFenceAccepted` | internal/lifecycle/intent.go:58-75 | of any number of fences written before the next decision, that decision accepts the last |
| `EnvironmentSafety.ExecutionsNeverReused` | internal/controllers/environment_controller.go:1094-1155 | over crashes, failed creates and replacements, later Pods carry greater executions |
| `EnvironmentSafety.ReuseUnreachable` | internal/controllers/environment_controller.go:1094-1155 | the branch that would use the current execution again is never taken |
| `EnvironmentSafety.EpochStep` | internal/controllers/environment_lifecycle.go:107-112 | the epoch rises by one on entering suspension and never otherwise |
| `EnvironmentSafety.WakeTakenAgain` | internal/controllers/environment_lifecycle.go:60-81 | one wake is taken twice only if another was taken in between |
| `EnvironmentExamples.WakeReplayed` | internal/controllers/environment_lifecycle.go:78-81 | in a run of every new Environment, a wake resumes it, another does, and the first resumes it again |
| `EnvironmentExamples.HoldReleaseResumes` | internal/controllers/environment_lifecycle.go:95-101 | in a run of every new Environment, a suspend request is accepted and acknowledged under a hold, and disabling the hold resumes |
| `EnvironmentSafety.FenceHasNoAba` | internal/controllers/run_controller.go:2221-2287 | equal fences on reachable Environments before and after a call mean no suspension, no new Pod and no policy change at any point between |
| `EnvironmentSafety.RecoveryBudget` | internal/controllers/environment_recovery.go:69-193 | between two observations of readiness at most 3 replacements are charged, whatever is edited and whatever becomes of the Pod between a read and its write |
| `EnvironmentSafety.ChargedOnce` | internal/controllers/environment_recovery.go:120-160 | over a whole run each failed execution is charged at most once |
| `EnvironmentSafety.ChargesWaitedOut` | internal/controllers/environment_recovery.go:191-193 | the k-th charge since readiness waited out 5·2^k seconds |
| `EnvironmentSafety.ExhaustedIsFinal` | internal/controllers/environment_reconcile.go:550-556 | once exhausted, no later step creates a Pod |
| `EnvironmentSafety.DeletedAfterCharge` | internal/controllers/environment_recovery.go:170-181 | recovery deletes a Pod only after the replacement of that execution was charged |
| `EnvironmentConnections.PastGateIsClear` | internal/controllers/environment_reconcile.go:162-196 | a reconcile passes the lifecycle gate only when nothing published asks for suspension and every valid wake has been taken up |
| `EnvironmentConnections.CreatedAsDecided` | internal/controllers/environment_controller.go:874-888 | a Pod is created only by a reconcile that began, and after reserving its identity confirmed, on one spec in which nothing asks for suspension; meanwhile there was no other Pod and no suspension |
| `EnvironmentConnections.ConfirmedOrStopped` | internal/controllers/environment_controller.go:874-888 | after its creation a Pod stands only if the spec is still the one the reconcile began on, with nothing asking for suspension; otherwise it is being deleted |
| `EnvironmentConnections.ReachableMeans` | internal/controllers/run_controller.go:1683-1685 | a reachable Environment's own execution was read running and ready under the spec that still stands, this was published, and the connection stood ever since without suspension |
| `EnvironmentConnections.ReadyIsReachable` | internal/controllers/environment_status.go:20-66 | publishing a ready Pod makes the Environment reachable, in every run |
| `EnvironmentConnections.FencedMeans` | internal/controllers/run_controller.go:1711-1717 | in every run a fenced Environment has no Pod, no credential, no connection and is not ready |
| `EnvironmentConnections.ChargedHasFailed` | internal/controllers/environment_recovery.go:120-160 | a replacement is charged only for an execution whose Pod was read failed or ended at an earlier step |
| `EnvironmentConnections.PauseConverges` | internal/controllers/environment_controller.go:603-645 | once the Pod is gone four passes reach Paused with the credential revoked and the request acknowledged, and a fifth changes nothing |
| `EnvironmentConnections.MigrationHolds` | internal/controllers/environment_reconcile.go:164-178 | the deprecated pause becomes an enabled hold under a new revision unless one is enabled already, and the next decision suspends as Hold |
| `EnvironmentConnections.RequestAnswered` | internal/controllers/environment_reconcile.go:179-188 | with nothing pending a published request is discarded exactly when the next decision would not accept it, the one being answered never is, and after a decision it is one or the other |
| `EnvironmentConnections.FenceWrittenIff` | internal/lifecycle/intent.go:58-75 | a fence is written exactly under the policy it was computed for, with a sequence not taken yet and ahead of the request published, and changes only that request |
| `EnvironmentConnections.FreshFenceSuspends` | internal/controllers/run_controller.go:1760-1772 | a fence computed from the Environment as it stands is written under the next number and makes the next decision suspend, as requested under its identifier |
| `RepositoryCredential.ObjectsAgree` | internal/controllers/run_controller.go:83-113 | under a rotation the active Secret is absent, the old one below the target or a fresh one at it, and a pending record carries the expected generation |
| `RepositoryCredential.MismatchUnreachable` | internal/controllers/run_controller.go:806-834 | with any lost response or crash, and a cached Run lagging at any version, no mismatch branch is reachable |
| `RepositoryCredential.DeletedOnlySpent` | internal/controllers/run_controller.go:916-1009 | a Secret or a record is deleted only once its token is revoked or expired, a record only last and with its failure recorded |
| `RepositoryCredential.StoredUntilSpent` | internal/controllers/run_controller.go:1178-1244 | a token written to either Secret stays in one of them until revoked or expired |
| `RepositoryCredential.FenceBeforeRevocation` | internal/controllers/run_controller.go:1093-1123 | in a waking rotation the old token is revoked only after the Environment was fenced, or is gone: under that very rotation when a lease is kept, as the cache held it when cleaning up |
| `RepositoryCredential.CleanupFenceUnderRotationIff` | internal/controllers/run_controller.go:1979-1986 | the fence a cleanup acts on was one under the rotation exactly when the cached Environment is no older than the rotation record |
| `RepositoryCredential.RevokedUnfenced` | internal/controllers/run_controller.go:1373-1375 | a run in which a cleanup revokes the old token of a waking rotation under which the Environment was never fenced |
| `RepositoryCredential.RotationHasCause` | internal/controllers/run_controller.go:1126-1158 | a rotation names the lease that was active at an earlier step: without a wake one bound to an execution whose Pod was then gone, with a wake one about to expire |
| `RepositoryCredential.ActiveRevokedOnly` | internal/controllers/run_controller.go:1093-1123 | over every run the active token is revoked only after a fence under the standing rotation, or with the Pod that received it found gone, or when cleaning up on a fenced or lost Environment, or when its storing was never confirmed |
| `RepositoryCredential.LeaseWasIssued` | internal/controllers/run_controller.go:1178-1244 | a lease is made only of a token issued at an earlier step, not reported unusable, under the generation then due and with no other token stored, and is bound to no execution yet |
| `RepositoryCredential.RotationEndsOnly` | internal/controllers/run_controller.go:1050-1092 | a rotation ends only with its fresh lease in place, or in cleanup with no lease left, and with no revocation outstanding; it is never replaced by another |
| `RepositoryReconciler.PassContinuesRun` | internal/controllers/run_controller.go:1011-1245 | the actions of a pass extend any run it starts from, so the run theorems hold inside it |
| `RepositoryReconciler.RepositoryCredentials.CleanupPending` | internal/controllers/run_controller.go:916-1009 | drives the log one write further, is done exactly without a record, and never blocks in a reachable state |
| `RepositoryReconciler.RepositoryCredentials.Rotate` | internal/controllers/run_controller.go:1050-1123 | reports a changed Secret only on a real mismatch and revokes in a waking rotation only when fenced |
| `RepositoryReconciler.RepositoryCredentials.IssueLease` | internal/controllers/run_controller.go:1178-1244 | a token received is in one of the two Secrets unless neither could be written |
| `RepositoryReconciler.RepositoryCredentials.Ensure` | internal/controllers/run_controller.go:1011-1245 | keeps the invariant, never fails on a mismatch, is ready only with a usable lease and no revocation outstanding; a rotation it records names the lease it found and is without a wake exactly when that was bound, its Pod gone and provisioning not current |
| `RepositoryReconciler.RepositoryCredentials.Cleanup` | internal/controllers/run_controller.go:1979-2080 | completes only with both Secrets gone and the active token revoked or expired, on a cached Environment that is fenced or on none |
| `PortalRoutes.DiscoverKeeps` | internal/controlplane/portal.go:650-698 | keeps the table in order and within 64, leaves only matching routes active, returns an active route that is in the table, and loses no matching route |
| `PortalRoutes.DiscoverPublishes` | internal/controlplane/portal.go:674-682 | a new route carries the request's own identity, the locator it was given and the next generation; otherwise the route returned was active in the table |
| `PortalRoutes.DisableKeeps` | internal/controlplane/portal.go:581-630 | leaves nothing active, keeps the table in order and within 64, and the denial returned is in it |
| `PortalRoutes.DisablePublishes` | internal/controlplane/portal.go:609-616 | a new denial carries the locator it was given and the next generation; otherwise nothing changes |
| `PortalRoutes.PruneFits` | internal/controlplane/portal.go:682-695 | with at most 32 declared names pruning always reaches 64 routes |
| `PortalRoutes.DiscoverIdempotent` | internal/controlplane/portal.go:650-698 | repeating discovery changes nothing exactly for no name or a declaration's own identity |
| `PortalRoutes.DisableIdempotent` | internal/controlplane/portal.go:581-630 | repeating a denial changes nothing and returns the same route |
| `PortalGateway.TableAlways` | internal/controlplane/portal.go:581-698 | in every run generations increase along the list up to the counter, one route per service is active, and there are at most 64 |
| `PortalGateway.NeverActiveAgain` | internal/controlplane/portal.go:954-977 | a generation once inactive or pruned is never active again |
| `PortalGateway.LocatorResolvesToOne` | internal/controlplane/portal.go:581-698 | if no locator is drawn twice, a locator resolves to at most one route of any reachable table |
| `PortalGateway.RouteTable.ReconcilePortalRoutes` | internal/controlplane/portal.go:650-698 | the in-place operation equals discovery, reports a change exactly when there is one, and a route it publishes carries the locator it was given and the new generation |
| `PortalGateway.RouteTable.ReconcileDisabledPortalRoute` | internal/controlplane/portal.go:581-630 | the in-place operation equals denial, reports a change exactly when there is one, and a denial it publishes carries the locator it was given and the new generation |
| `PortalGateway.RouteTable.ExactPortalDeclaration` | internal/controlplane/portal.go:632-648 | found exactly when one declaration has the name and it is exposed with an instance; it is the one discovery compares with |
| `PortalGateway.RouteTable.TombstoneStaleRoute` | internal/controlplane/portal.go:954-977 | withdraws the first active route of that generation and locator, and nothing else |
| `PortalGateway.RouteTable.ExactRoute` | internal/controllers/declared_service_controller.go:215-225 | finds the exact route whenever there is one; there are never two |
| `PortalGateway.RouteTable.ActiveExactRoute` | internal/controlplane/portal.go:1026-1033 | says whether exactly this route is in the table and active |
| `ServicePorts.ProbeOnce` | internal/controllers/declared_service_controller.go:325-337 | each dynamic port is probed at exactly one place of the search |
| `ServicePorts.AllocateMeaning` | internal/controllers/declared_service_controller.go:325-337 | a port is returned exactly when it is free and all probed before it are occupied |
| `ServicePorts.AllocateFails` | internal/controllers/declared_service_controller.go:330-336 | 0 is returned exactly when all 16384 ports are occupied |
| `ServicePorts.AllocateSucceeds` | internal/controllers/declared_service_controller.go:325-337 | with a port left, an unoccupied one in 49152-65535 is returned for every hash |
| `ServicePorts.AllocatesControlPort` | internal/controllers/declared_service_controller.go:325-337 | when exactly port 50051 is handed out |
| `ServicePorts.AllocateServicePort` | internal/controllers/declared_service_controller.go:325-337 | the counting loop computes the search |
| `ServiceConvergence.AlwaysRoomy` | internal/controllers/declared_service_controller.go:255-290 | at most 64 ports are ever occupied during a convergence |
| `ServiceConvergence.ConvergesIff` | internal/controllers/declared_service_controller.go:244-315 | convergence succeeds exactly without API clash, within 32, without a port claimed twice and without an exhausted revision |
| `ServiceConvergence.ConvergeMerges` | internal/controllers/declared_service_controller.go:273-314 | API declarations are unchanged, the other names are the desired ones, ports are distinct, and a revision rises exactly when launch or port changed |
| `ServiceConvergence.ConvergeAdmissible` | api/v1alpha1/environment_types.go:280-283 | every resulting declaration, exposure included, satisfies the transition rules |
| `ServiceConvergence.NamesControlPortIff` | internal/controllers/declared_service_controller.go:273-290 | a repository service lands on 50051 exactly when it claims it or its search ends there |
| `ServiceConvergence.PortsAdmittedIff` | api/v1alpha1/environment_types.go:314-319 | admission accepts every port of the result exactly when no search ends at the reserved port |
| `ServiceConvergence.ConvergeIdempotent` | internal/controllers/declared_service_controller.go:244-315 | converging the result again returns the identical list |
| `ServiceConvergence.ConvergesOntoControlPort` | api/v1alpha1/environment_types.go:318-319 | a convergence whose result names the reserved port |
| `ServiceConvergence.ConvergeRepositoryDeclarations` | internal/controllers/declared_service_controller.go:244-315 | the loops over maps and slices compute the merge |
| `Provisioning.ResolvedIsValidIff` | api/v1alpha1/environment_provisioning.go:25-93 | which sources resolve to a valid snapshot, exactly |
| `Provisioning.ResolvedFrom` | api/v1alpha1/environment_provisioning.go:25-46 | resources are those of the resolved size, which is medium unless the Template names one of the four; the backend is the Environment's, else the Template's, else a Pod; a Project needs exactly one repository |
| `Provisioning.GatePassesIff` | internal/controllers/environment_reconcile.go:347-382 | the gate passes exactly for a fully valid snapshot of the incarnations that were read |
| `Provisioning.PassedIsWhole` | api/v1alpha1/environment_provisioning.go:50-99 | what passes the gate has every input filled in with a known value, is verified, and has the named Project exactly when one is named |
| `Provisioning.WaitsIff` | internal/controllers/environment_reconcile.go:347-475 | a pass is left for another try exactly when its sources changed before anything of them was published |
| `Provisioning.WritesMean` | internal/controllers/environment_reconcile.go:347-505 | a pass writes only on sources read again unchanged: what they resolve to, their Project bound once, or a verification of a snapshot equal to what they resolve to |
| `Provisioning.GateNeedsProject` | internal/controllers/environment_reconcile.go:369-371 | what the gate would do without the earlier gates |
| `Provisioning.PublishAdmissible` | api/v1alpha1/environment_types.go:513-518 | every planned write satisfies the transition rules |
| `Provisioning.SnapshotStable` | internal/controllers/environment_reconcile.go:347-475 | over any edits inputs never change, flags never reset, and a Project is added at most once |
| `Provisioning.StartsUnverified` | api/v1alpha1/environment_types.go:678 | a snapshot and a Project first appear unverified |
| `Provisioning.VerifiedWasConfirmed` | internal/controllers/environment_reconcile.go:477-505 | a verified snapshot had been published before a step that read the live Template again, unchanged and resolving to the same inputs |
| `Provisioning.ProjectWasConfirmed` | internal/controllers/environment_reconcile.go:507-548 | a verified Project was read again live, at a step of its own, unchanged since it was captured |
| `Provisioning.PolicyEditsKeepCurrent` | api/v1alpha1/environment_provisioning.go:140-154 | exactly the edits that leave the provisioning inputs alone keep a warm snapshot current |
| `Provisioning.CurrentTemplateIff` | api/v1alpha1/environment_provisioning.go:140-154 | a warm snapshot is current exactly when it is verified, without Project, and holds what the Template of that incarnation resolves to now |
| `Provisioning.ProvisionsUndisturbed` | internal/controllers/environment_reconcile.go:347-548 | left alone, passes over fit sources capture them, verify the Template, verify the Project, and then pass the gate |
| `Provisioning.ProvisioningStatus.PublishProvisioningSnapshot` | internal/controllers/environment_reconcile.go:347-475 | the operation writes what is planned, and binding a Project withdraws the connection in the same write |
| `Provisioning.ProvisioningStatus.VerifyProvisioningSnapshot` | internal/controllers/environment_reconcile.go:477-505 | the operation sets only verification flags, on an exact match |
| `WarmPool.ReconcilePool` | internal/controllers/warmpool_controller.go:148-280 | at every point of a pass others are untouched, a usable member goes only from a surplus and an unusable one only after five marked minutes, the newest are trimmed, membership is at most max(before, 2·min); a completed pass has attended to every member and ends balanced |
| `WarmPool.Sweep` | internal/controllers/warmpool_controller.go:148-217 | every listed member is marked, unmarked, deleted or left as prescribed, and counted |
| `WarmPool.Surge` | internal/controllers/warmpool_controller.go:218-258 | replacements stop at the minimum or at twice it with the quarantined |
| `WarmPool.Trim` | internal/controllers/warmpool_controller.go:260-278 | exactly the surplus is deleted and nothing kept is newer than anything deleted |
| `WarmPool.ReleaseExceedsBound` | internal/controllers/run_controller.go:2082-2088 | a release adds one unclaimed member, and exceeds twice the minimum exactly when the pool was at it |
| `WarmPool.MembershipBound` | internal/controllers/warmpool_controller.go:217-258 | over every run of passes, claims and releases, also within passes, membership is at most twice the largest minimum plus the releases |
| `WarmPool.BoundExceeded` | internal/controllers/run_controller.go:1574-1583 | a run in which a ready member is claimed and released, and three members are unclaimed at a minimum of one |
| `InstallationIsolation.WithdrawnDisallows` | internal/controllers/installation_isolation_controller.go:476-510 | no selection allows execution in Fencing or Blocked |
| `InstallationIsolation.SelectionDisallows` | internal/controllers/installation_isolation_controller.go:476-510 | a restricted or invalid selection refuses execution whatever the status |
| `InstallationIsolation.AuthorityIsExact` | internal/controllers/installation_isolation_controller.go:476-510 | an Active status allows execution only for the very selection, revision and generation it was written for |
| `InstallationIsolation.LegacyAllowsOnlyUnobserved` | internal/controllers/installation_isolation_controller.go:476-510 | any other status allows execution only unclassified, with nothing observed and no selection but a valid unrestricted one |
| `InstallationIsolation.RestrictedRefusesAtOnce` | internal/controllers/installation_isolation_controller.go:505-506 | over every run execution is refused from the step that selects restricted mode until the selection is edited again |
| `InstallationIsolation.PlanSettles` | internal/controllers/installation_isolation_controller.go:97-164 | a settled status allows execution for the selection it was written for |
| `InstallationIsolation.PassesConverge` | internal/controllers/installation_isolation_controller.go:58-290 | from every status three passes with clean scans reach what the selection asks for, conditions included: unclassified, Active, or Blocked; a fourth changes nothing |
| `InstallationIsolation.NotCleanKeepsFencing` | internal/controllers/installation_isolation_controller.go:97-290 | a status without its selection's authority is Fencing after a pass, and stays so while a scan finds something live or fails |
| `InstallationIsolation.CleanScanMeans` | internal/controllers/installation_isolation_controller.go:388-447 | a clean scan listed each namespace in scope at one call, nobody in it connected, and later found each Environment without Pod and then without credential |
| `InstallationIsolation.LiveAfterCleanScanIff` | internal/controllers/installation_isolation_controller.go:388-447 | after a clean scan something in scope is live exactly when a connection came up after its list call, a Pod or credential after the call that looked for it, or an Environment with one after the list |
| `InstallationIsolation.CleanScanEndsQuiet` | internal/controllers/installation_isolation_controller.go:388-447 | if nothing in scope starts while it runs, a clean scan ends with nothing in scope live |
| `InstallationIsolation.CleanScanIsNoInstant` | internal/controllers/installation_isolation_controller.go:425-447 | a clean scan during which an Environment in scope is live at every call |
| `InstallationIsolation.AlwaysExplained` | internal/controllers/installation_isolation_controller.go:388-447 | a scan says live only of what it saw, and fails only on a failed call, an uncertain owner or no tenancy |
| `InstallationIsolation.UncertainOwnerFails` | internal/controllers/installation_isolation_controller.go:388-424 | the list over all namespaces is refused exactly when it fails or shows an Environment whose owner is uncertain |
| `InstallationIsolation.TurnsAfterScan` | internal/controllers/installation_isolation_controller.go:250-290 | Blocked is entered, and Fencing or Blocked left, only at the end of a pass whose own calls, each at its step of the run, found every Environment in scope quiet, with authority withdrawn from the first of them to the end |
| `InstallationIsolation.TurnsWithNothingLive` | internal/controllers/installation_isolation_controller.go:97-164 | if nothing in scope starts from the first call of the deciding pass on, nothing in scope is live when the status turns |
| `InstallationIsolation.ReactivatedAfterScan` | internal/controllers/installation_isolation_controller.go:97-164 | between withdrawal and the next allowed execution a pass ended whose calls found every Environment in scope quiet |
| `InstallationIsolation.AllEnvironmentExecutionsFenced` | internal/controllers/installation_isolation_controller.go:388-447 | the loops over namespaces, Environments and children, in a world that changes between calls, compute the scan of the runs |
| `InstallationIsolation.IsolationReconciler.Reconcile` | internal/controllers/installation_isolation_controller.go:58-164 | a pass writes its plan, and blocks or gives authority back only after a clean scan |
| `ChangesStore.SaveToMeaning` | internal/controlplane/changes_store.go:73-96 | a save raises the revision by one, never replaces a final record and touches no other Run |
| `ChangesStore.TotalWithout` | internal/controlplane/changes_store.go:56-60 | the byte total is the sum of the records in any order |
| `ChangesStore.MemoryChangesStore.Save` | internal/controlplane/changes_store.go:73-96 | refines the register up to capacity and keeps bytes equal to the sum, within 128 MiB and 1024 records |
| `ChangesStore.MemoryChangesStore.Delete` | internal/controlplane/changes_store.go:97-103 | removes the record and its bytes |
| `ChangesStore.PostgresChangesStore.Save` | internal/controlplane/changes_store.go:120-146 | the insert and update statements refine the same register |
| `ChangesStore.PostgresChangesStore.Delete` | internal/controlplane/changes_store.go:147-150 | removes the row |
| `ChangesCapture.UpdateRecord` | internal/controlplane/changes.go:211-271 | keeps the first baseline and Environment and the content of the last available capture; refuses exactly another Environment on a started open record, saves nothing exactly when the record is final, has its baseline or already says what was captured, and a final capture closes an open record |
| `ChangesCapture.RecordContinues` | internal/controlplane/changes.go:238-283 | each stored change is the next revision of the same history, and an unavailable capture replaces no content |
| `ChangesCapture.RecordFixed` | internal/controlplane/changes.go:238-283 | over a whole run of concurrent requests baseline and Environment are those of the first save, and final is final |
| `ChangesCapture.DeletedForGood` | internal/controlplane/server.go:516-538 | nothing is stored after a deletion |
| `ChangesCapture.WritePage` | internal/controlplane/changes.go:317-334 | a page is at most 50 consecutive files without diffs, and names the next offset |
| `ChangesCapture.PagesPartition` | internal/controlplane/changes.go:317-334 | following the pages yields every file once, in order |
| `ChangesCapture.FindFile` | internal/controlplane/changes.go:306-316 | finds the first file of the path whenever there is one |

## Left out

- Legacy state: flat recovery fields, provisioning migration of old executions beyond the captured workspace identity, records written before the revocation log had states.
- Deletion of an Environment and of a Run beyond the repository token and the Changes record: one-way teardown with no further invariant.
- Objects of other owners under the fixed child names: the source only returns an error for them.
- Terminal Run states, adapter acceptance and claims: their guards are the fence proved here; the rest is bookkeeping.
- Malformed Secrets and the cleanup branch for an expired malformed one: nobody but the operator writes these Secrets in the model.
- A cached client that has not yet seen an Environment its Run already refers to: the source then cleans up as if the Environment were lost; in the model an Environment is absent only when it is gone.
- Overlapping reconciles of one object (two leaders at once): the operator runs one worker per key.
- The requeue delays, conditions' messages, metrics and the warm pool's ready count: no decision of the model reads them.
- 64-bit wrap-around of epochs, sequences, route generations and hold revisions, which the source does not guard either; execution and service revisions, which it guards, stop at the largest value as in the source.
- The retry loops around conflicting writes: a retry is a later step of the run.
- Failure of the random source: the operation is then abandoned without a write.
- Pod, volume, certificate and network policy construction, HTTP, sessions, authorization, the console, the CLI, snapshot comparison and selection validation: inputs of the modelled decisions.
- EnvironmentSafety.FenceAccepted: says nothing of a fence under a hold policy that changes, or a request somebody other than a fence replaces, before the next decision, because the source then discards or replaces it by design.
- RepositoryCredential.FenceBeforeRevocation: when cleaning up it does not promise a fence under the rotation itself, because the source reads the Environment from a cache there; `RepositoryCredential.RevokedUnfenced` shows that the promise would be false.
- WarmPool.MembershipBound: members created under the Template's exact ownership by anybody but the pool are not part of its runs.
- Namespace ownership is constant during an isolation scan; a namespace whose ownership cannot be established fails the scan.
- RepositoryReconciler.RepositoryCredentials.Ensure: the pass is uninterrupted; what may happen between its calls is covered by the runs of RepositoryCredential.
