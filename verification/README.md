# Keda Manager reconciler: a verified model

Keda Manager is the operator of the Kyma Keda module. Its reconciler turns a `Keda` custom resource
(CR) into three Deployments and their companions, keeps the CR's status, elects the one CR that is
served, tears the module down behind an orphan check, and manages the optional HTTP add-on whose only
memory between runs are two annotations on the CR. One reconciliation is a state machine: state
functions that call the Kubernetes API, edit shared objects in place, and name their successor.

This project models that state machine, the cluster behind it with every call allowed to fail, and the
controller that runs it again and again between arbitrary actions of users and other controllers. It
proves what holds over all runs and all histories.

## How the model is built

- **Values.** `StateMachine.dfy` gives each state function as a function from run state to run state,
  and the loop as `Run(v, n)`, where the context is cancelled after `n` state functions. `Cluster.dfy`
  gives the cluster and the API calls. A call takes one entry from a list of faults fixed in advance:
  no fault, refused (an error, no effect) or lost (the effect, and an error); the empty list is a run
  without faults. Every call leaves an entry in a trace.
- **Objects.** `KedaTypes.Keda`, `Cluster.Client`, `Fsm.Fsm` and `Controller.KedaReconciler` are classes
  whose methods update their fields in place, with the loops of the source. Each method is proved to
  compute exactly the function on values that specifies it, up to `Fsm.Run` and `Reconcile`. The shared
  module objects are an array that every run edits.
- **Lemmas.** `Transitions.dfy` says what each transition may do. On it rest the invariants of single
  runs (`RunLoop`, `StatusTable`, `Election`, `OwnCr`, `Events`, `Deletion`, `LiveRuns`,
  `ReadySoundness`, `AddonRecords`, `ModuleObjects`), the fault-free run as one function (`FaultFree`,
  `Settled`, `Progress`, `Convergence`), and the theorems over all histories (`Histories`, `AddonHistory`).
  `AddonMoves` and `AddonRetry` say what failures can leave of the add-on and when the next run repairs it.
  `AddonConfig`, `OrphanGuard`, `DesiredState`, `DesiredCluster`, `ModuleHealth`, `AddonContents`, `LiveReport`,
  `VersionRuns`, `Answers` and `Failures` restate the main results on the raw fields of the CR, the objects and the
  calls, without the selectors that the state machine uses.
  `Logging`, `EnvVars`, `UpdateChain`, `AddonManifest` and `AddonPlacement` hold the transformations of
  arguments, environments, objects and manifests.

`dafny verify dfyconfig.toml` checks the whole project.

## Where the code differs from what one would expect

Each point names the lemmas that exhibit it or say exactly when the expected property holds; the last
one needs none.

- A CR that is not served compares its conditions with an empty snapshot, so a waiting duplicate emits
  its unchanged condition in every run (`Events.UnservedEventsRepeat`).
- `Installed=True` can stand beside `Error` when a Deployment reports a replica failure; `Ready` is the
  state to trust (`ReadySoundness.ReadyMeans`, `Settled.StaleInstalled`).
- If only the CR update after an installation fails, the add-on is in the cluster without a record, and
  disabling it later deletes nothing (`AddonRecords.RecordCanBeLost`, `UnrecordedIsNotRemoved`).
- `docs/user/07-10-http-add-on.md:68-72` promises that deleting the Keda CR is refused while
  HTTPScaledObjects exist. A run started by the controller never knows the add-on objects of an earlier
  run, so it neither counts HTTPScaledObjects nor removes the add-on, except for one PeerAuthentication
  (`Deletion.DeletionScope`); deletion is blocked exactly by resources of the module's own kinds
  (`Progress.CheckDecides`, `OrphansBlock`, `ThreeRunsDelete`).
- The same document protects workloads from losing their scaling controller, but the guard stands only
  before a removal: moving the add-on to another namespace or upgrading it deletes the old objects
  while HTTPScaledObjects exist (`AddonMoves.MoveIgnoresUse`).
- A move drops the errors of the cleanup, so an old object can stay without a trace in status and records
  (`AddonMoves.LeftoverIsForgotten`). It stays exactly if the cleanup did not begin or its deletions did
  not land (`AddonMoves.LeftoverMeaning`); every other failed attempt is repaired by the next clean one
  with the same configuration (`AddonRetry.RetryHeals`, `RemovalRetryHeals`).
- Disabling an installed add-on takes two runs to settle: the first reports it removed, the second as
  disabled with one more event (`Settled.RemovalIsReportedTwice`). A repeated run is silent exactly if the
  first one does not remove the add-on (`Settled.SecondRunIsSilent`).
- A selector that asks for another value of the Kyma module label loses its pods when the add-on's pod
  template is labelled (`AddonManifest.SelectorStaysContained`).
- The documentation calls the reason `DeploymentUpdateErr` (`docs/user/05-01-conditions.md:16`); the
  code writes `KedaDeploymentUpdateErr`. It also says that the add-on's namespace is created with
  `istio-injection=enabled` (`docs/user/07-10-http-add-on.md:56`); the code creates it without labels.
  The model follows the code.

## Model

| member | source | states |
|---|---|---|
| Histories.StatusesInTable | api/v1alpha1/keda_types.go:334-420 | In every state reachable by any users, faults, cancellations and restarts, every stored status has at most one condition per type, only allowed status/reason pairs, and the condition that explains its state |
| Histories.OneServed | pkg/reconciler/served_filter.go:12-50 | In every reachable state at most one CR is served, and a CR that carries the finalizer is that one |
| Histories.ServedForever | pkg/reconciler/served_filter.go:13-28 | A CR (by uid) that is served at some moment is served at every later moment at which it still exists |
| Histories.VacancyRecovers | controllers/keda_controller.go:157-174 | When nobody is served, one fault-free run for each queued CR leaves exactly one served |
| Histories.TwoPassDeletion | pkg/reconciler/delete_resources.go:119-143 | In every history, each CR update that takes the finalizer away follows a full delete pass of its own run on a served CR marked for deletion, and an earlier run for the same uid had made a full pass and stored Deleted=True |
| Histories.GuardsDominateDeletes | pkg/reconciler/delete_resources.go:181-203 | In every history and run: no delete before every module CRD was found empty (deletion) or the HTTPScaledObjects were found gone (add-on disabled); once something blocks, no delete at all and a Warning |
| AddonHistory.AddonStaysExact | pkg/reconciler/addon.go:298-437 | Over every history of fault-free runs on a live served CR, with any configuration, version and restart changes between them, the add-on objects in the cluster are exactly those that the configuration asked for when a run last applied or removed them (a fold over the actions): the recorded version and namespace, the PeerAuthentication iff sidecars were on at that run, and none without a record |
| AddonHistory.ActPlaces | pkg/reconciler/addon.go:298-369 | One action leaves the add-on where the configuration wants it (PeerAuthentication iff sidecars are on) if it is a run on the served CR whose calls show that an add-on state fetched a manifest and its record update landed, and where it was if not |
| Convergence.Converges | pkg/reconciler/fsm.go:284-311 | A healthy fault-free run on a live served CR, whatever was installed before: the add-on is exactly where the annotations want it and recorded there, this is the placement that the history counts on with, and the cluster holds the module objects as the chain makes them from the spec |
| Convergence.BeginsInPlace | pkg/reconciler/served_filter.go:12-29 | On a cluster without add-on objects the agreement of records and objects holds as soon as a fresh CR is served |
| Convergence.ApplyOnlyAddon | pkg/reconciler/addon.go:298-369 | Under any faults, installing touches no object that could not belong to the add-on |
| Convergence.DeleteOnlyAddon | pkg/reconciler/addon.go:371-427 | Under any faults, removing touches no object that could not belong to the add-on |
| AddonExactness.RunPlaces | pkg/reconciler/addon.go:245-369 | A fault-free run, cancelled anywhere, keeps objects and records in agreement; it ends at the wanted placement if its calls show an add-on state at work, and at the old one if not |
| AddonPlacement.InstallIsExact | pkg/reconciler/addon.go:193-232 | Applying a version over nothing, or over the same version and namespace with the other sidecar setting, leaves exactly its objects |
| AddonPlacement.RemovalLeavesNothing | pkg/reconciler/addon.go:429-437 | Deleting the manifest fetched without sidecars and the PeerAuthentication removes all of an installation, whichever sidecar setting it was applied with |
| AddonRecords.ApplyReports | pkg/reconciler/addon.go:298-369 | For every outcome of every call: AddonInstalled=True and the two records are set in memory exactly when namespace, fetch, every patch and any required PeerAuthentication delete succeeded, in this order; otherwise the CR is not updated at all |
| AddonRecords.InstallationMeaning | pkg/reconciler/addon.go:335-368 | The two outcomes exclude each other: AddonInstalled is True after the state iff the calls show a successful installation |
| AddonRecords.DeleteReports | pkg/reconciler/addon.go:371-427 | For every outcome of every call: the records are cleared only after every object and the PeerAuthentication were deleted or already gone; otherwise the CR stays untouched |
| AddonRecords.AddonStatusIsWritten | pkg/reconciler/addon.go:354-368 | The status write after an add-on state carries the old status with the add-on condition set before the metadata update: success iff that update was sent, else the failure, by the calls of the state; what the update answers does not matter |
| AddonRecords.RecordFollowsUpdate | pkg/reconciler/addon.go:356-364 | The stored record changes exactly if the metadata update reached the server |
| AddonRecords.RecordCanBeLost | pkg/reconciler/addon.go:354-364 | Refusing just that update leaves the complete add-on in the cluster, AddonInstalled=True, and a stored CR without a record |
| AddonRecords.UnrecordedIsNotRemoved | pkg/reconciler/addon.go:383-396 | Disabling then calls nothing and reports the add-on as never installed; it calls something iff there is a record |
| RunLoop.RankFalls | pkg/reconciler/fsm.go:284-298 | A rank on the state functions strictly falls at every transition that the code can take |
| RunLoop.RunEnds | pkg/reconciler/fsm.go:284-311 | The loop executes at most rank-many state functions (33 from the start) and then ends by itself |
| RunLoop.RunOutcome | pkg/reconciler/update_status.go:9-23 | However early it is cancelled, a run writes the status at most once, with the status it ends with, and emits events only after that write succeeded; it returns what its stopping state carried or the error of the write, and once cut off the error of the context and no result |
| StatusTable.RunKeepsTable | api/v1alpha1/keda_types.go:334-420 | A whole run under any faults, cancelled anywhere, keeps the stored statuses and the one in memory in the table |
| Election.RunElects | pkg/reconciler/initialize.go:11-31 | A whole run under any faults keeps the election: one served, finalizer only on it, served stays served |
| Election.VacancyIsFilled | pkg/reconciler/served_filter.go:12-29 | If nobody is served, the first CR reconciled without a fault is served afterwards |
| OwnCr.RunTouchesOwn | pkg/reconciler/update_status.go:9-23 | A run changes no stored CR but its own; the status stored there is the old one or one the trace shows landing |
| Events.EmitAllIsDiff | pkg/reconciler/emmit_event.go:11-33 | The event loop reports, in order, one event for each condition the snapshot does not hold, and no other |
| Events.EventsAreTheDiff | pkg/reconciler/emmit_event.go:11-33 | In every run the events after a successful write are the difference between the written status and the status read at the start (nothing, if that CR was not served); later in-place updates never alter the snapshot |
| Events.UnservedEventsRepeat | pkg/reconciler/served_filter.go:12-32 | For a CR that is not served the events are the difference from its stored status iff nothing stored is repeated; a waiting duplicate announces its unchanged condition in every run |
| Settled.SecondRunIsSilent | pkg/reconciler/emmit_event.go:11-33 | A fault-free run repeated with nothing changed stores the same status iff the first one does not remove the add-on, and emits no event iff so; whether it removes is decided by the CR, the module objects and the cluster beforehand |
| Settled.RemovalIsReportedTwice | pkg/reconciler/addon.go:383-390 | In the excepted case: the second run keeps the state Ready and every other condition, turns HttpAddonDeleted into HttpAddonDisabled, and emits exactly that one warning after its write |
| Settled.StaleInstalled | pkg/reconciler/verify.go:48-56 | A run that finds a failing Deployment writes Error and leaves an earlier Installed=True standing: Installed=True alone does not vouch for readiness |
| ReadySoundness.ReadyMeans | pkg/reconciler/verify.go:14-81 | On a live served CR, under any faults, a run writes Ready or Warning iff all objects were patched without error, exactly three applied Deployments are ready and none fails; and Installed=True iff that, or an old one was left standing beside a failing Deployment |
| ReadySoundness.VerifyDecides | pkg/reconciler/verify.go:14-81 | The counting loop against sets of positions: when verification goes on to the add-on and when it leaves Installed=True |
| ReadySoundness.ApplyModuleMeaning | pkg/reconciler/apply.go:30-73 | The apply loop patches every object in order and reports no error iff every conversion and every patch was accepted |
| ModuleObjects.RestrictedUntouched | pkg/reconciler/validate.go:10-58 | Over every history of runs, specs and faults: the restricted pod annotations keep their loaded value or absence, and nothing but metadata and the first matching components is edited |
| FaultFree.ChainRun | pkg/reconciler/update_objects.go:13-216 | A fault-free run past validation reaches the apply state with the module objects rewritten by the whole chain, although the spec it reads is rewritten on the way |
| FaultFree.LiveRunOutcome | pkg/reconciler/fsm.go:284-311 | A whole fault-free run on a live served CR as one function: the stored status, the stored records of the add-on, the answer to the queue, the module objects, and what else of the CR can change |
| Progress.ThreeRunsDelete | pkg/reconciler/delete_resources.go:37-47 | Without orphans three fault-free runs in a row take the finalizer from a served CR marked for deletion, whatever its Deleted condition |
| Progress.DeletionEnds | pkg/reconciler/delete_resources.go:119-143 | As many runs suffice as the Deleted condition leaves: three, two or one |
| Progress.DoomedRun | pkg/reconciler/delete_resources.go:37-143 | One fault-free run of the deletion protocol, exactly: deletion begun, module deleted, or finalizer gone |
| Progress.OrphansBlock | pkg/reconciler/delete_resources.go:78-90 | With an orphan of a module kind left, nothing is deleted and the status warns |
| Progress.CheckDecides | pkg/reconciler/delete_resources.go:181-203 | Without faults the check passes iff no module kind has resources; other kinds, HTTPScaledObjects among them, are not looked at |
| Progress.ThreeRunsReady | pkg/reconciler/initialize.go:11-31 | A fresh valid CR without rival, with healthy Deployments, is served, carries the finalizer and is Ready after three fault-free runs |
| Deletion.DeletionRun | pkg/reconciler/delete_resources.go:78-143 | Any run on a CR marked for deletion, by its trace: deletes guarded, blocked means none, the finalizer update and Deleted=True only after full passes |
| Deletion.CheckClears | pkg/reconciler/delete_resources.go:181-203 | The orphan check succeeds only after it found every CRD of the module empty or absent |
| Deletion.DeletionScope | pkg/reconciler/delete_resources.go:92-111 | Any run on a CR marked for deletion lists only module kinds and leaves every object outside the module, the leases and one PeerAuthentication as it was, the HTTP add-on included |
| LiveRuns.LiveRun | pkg/reconciler/addon.go:273-296 | Any run on a live CR, by its trace: with the add-on disabled no delete before a clear count, none once it may be in use; finalizer, configuration and Deleted condition kept |
| AddonMoves.LeftoverMeaning | pkg/reconciler/addon.go:316-325 | For every outcome of every call: an object of the old installation survives a move or an upgrade iff the namespace or the fetch of the old manifest failed or none of its deletions reached the server; its deletion is asked for iff those two went through, and HTTPScaledObjects are never counted |
| AddonMoves.LeftoverIsForgotten | pkg/reconciler/addon.go:429-437 | Refusing just the old fetch leaves the old object, AddonInstalled=True and the new record: then no placement fits both the records and the cluster |
| AddonMoves.MoveIgnoresUse | pkg/reconciler/addon.go:316-325 | A healthy fault-free run with the add-on switched on lists nothing and deletes every add-on object outside the wanted installation, however many HTTPScaledObjects there are |
| AddonRetry.RetryHeals | pkg/reconciler/addon.go:298-369 | Whatever fails in an attempt to install, a second clean one with the same configuration makes the add-on exact iff the first did not both record the new place and leave an object of the old one |
| AddonRetry.RemovalRetryHeals | pkg/reconciler/addon.go:371-427 | Whatever fails in an attempt to remove, a second clean one leaves nothing iff the first did not both clear the record and leave an object; in that case the second does nothing |
| UpdateChain.ChainIdempotent | pkg/reconciler/update_objects.go:13-216 | Running the whole update chain again with the same spec and API server address changes nothing |
| UpdateChain.ChainFrame | pkg/reconciler/fsm.go:66-74 | The chain changes the first matching object of each component, and of it only the pod template or the ingress rules |
| UpdateChain.DeploymentClosedForm | pkg/reconciler/update_objects.go:71-180 | The state-by-state edits of a Deployment amount to a field-by-field form, in either order of resources and priority class |
| UpdateChain.EditsFixed | pkg/reconciler/fsm.go:88-192 | All edits of one component are idempotent together |
| UpdateChain.AliasedSpecSameEdits | api/v1alpha1/keda_types.go:203-208 | Sanitizing the logging configuration changes no later edit |
| UpdateChain.EditKeepsRestricted | pkg/reconciler/fsm.go:106-117 | No edit from a validated spec touches the restricted annotations |
| UpdateChain.FirstIndex | pkg/reconciler/fsm.go:66-74 | The first object that matches, or none |
| UpdateChain.MergeAnnotations | pkg/reconciler/fsm.go:106-117 | Merging entry by entry, in any order, is the map union in which the new entries win |
| UpdateChain.PeerIngress | pkg/reconciler/fsm.go:126-143 | Exactly the rules for port 9443 without a peer get the API server as their peer |
| UpdateChain.UpdateTemplate | pkg/reconciler/fsm.go:88-192 | The in-place update of a pod template for each kind of edit |
| UpdateChain.UpdateObj | pkg/reconciler/fsm.go:50-64 | An update acts on the shared object it points at and on no other |
| UpdateChain.CheckRestricted | pkg/reconciler/validate.go:25-58 | Found iff one of the three keys is among the annotations of one of the three components |
| Logging.UpdateArg | api/v1alpha1/keda_types.go:176-183 | Each configured flag in turn rewrites the argument it owns |
| Logging.AppendMissingArgs | api/v1alpha1/keda_types.go:186-201 | The flags that no argument mentions, rendered, in order |
| Logging.UpdateContainerArgs | pkg/reconciler/fsm.go:88-98 | The argument loop with the appended flags |
| Logging.UpdateFirst | pkg/reconciler/fsm.go:175-187 | The first owned argument is overwritten, or the flag appended |
| Logging.ArgsRewritten | pkg/reconciler/fsm.go:88-98 | For disjoint flags: owned arguments are rendered, each flag occurs, all others keep place and text, the list grows by at most one per flag |
| Logging.RewritingIsIdempotent | pkg/reconciler/fsm.go:88-98 | A second rewriting changes nothing |
| Logging.LoggingRewritten | api/v1alpha1/keda_types.go:168-201 | Both for the three zap flags: at most three arguments more, stable under a second pass |
| Logging.PinnedRewriteIsFixed | pkg/reconciler/fsm.go:166-171 | Pinning one flag first and rewriting the others is stable as a whole |
| Logging.MetricsServerConsistent | pkg/reconciler/fsm.go:166-187 | For every format the CRD allows, the first --logtostderr is false iff every encoder argument says json, else console, and the combined rewriting is idempotent |
| EnvVars.Contains | api/v1alpha1/keda_types.go:294-301 | Found iff some entry has that name |
| EnvVars.Complete | api/v1alpha1/keda_types.go:303-316 | The loop that completes the environment |
| EnvVars.CompletedMeaning | api/v1alpha1/keda_types.go:303-316 | The entries given stay as a prefix, every required name is present, a given name wins, no name is duplicated, twice is once |
| EnvVars.SanitizedMeaning | api/v1alpha1/keda_types.go:283-316 | The same for the six required variables |
| AddonManifest.OverrideNamespace | pkg/reconciler/addon.go:58-79 | The override, in place, object by object |
| AddonManifest.PatchSubjectsNamespace | pkg/reconciler/addon.go:168-191 | Exactly the namespaced ServiceAccounts move |
| AddonManifest.PatchDeploymentEnvNamespace | pkg/reconciler/addon.go:133-166 | Exactly the two namespace variables are rewritten, in every container |
| AddonManifest.PatchDeployment | pkg/reconciler/addon.go:94-131 | Module label, sidecar annotations and namespace variables of a pod template |
| AddonManifest.OverrideLastWins | pkg/reconciler/addon.go:58-191 | Overriding to one namespace and then another is overriding to the last; cluster-scoped objects stay so |
| AddonManifest.OverrideFrame | pkg/reconciler/addon.go:58-191 | Kind, group, name, other subjects and other variables are unchanged |
| AddonManifest.SelectorStaysContained | pkg/reconciler/addon.go:118-131 | A selector contained in the pod labels stays contained iff it does not ask for another Kyma module |
| AddonManifest.AddonKeysByIstio | pkg/reconciler/addon.go:193-209 | The sidecar setting adds the PeerAuthentication and changes no other key |
| KedaTypes.SetCondition | api/v1alpha1/keda_types.go:338-420 | Upsert by type: that type has the new condition, every other type is as before, uniqueness is kept |
| KedaTypes.WithoutCondition | api/v1alpha1/keda_types.go:334-336 | That type is gone, every other type is as before, uniqueness is kept |
| KedaTypes.WithAnnotation | api/v1alpha1/keda_types.go:488-500 | The key reads as the value, or is gone if that is empty; all other keys are as before |
| KedaTypes.Keda.RemoveCondition | api/v1alpha1/keda_types.go:334-336 | The loop removes the type in place |
| KedaTypes.Keda.UpdateStateReplicaFailure | api/v1alpha1/keda_types.go:338-348 | Error with a True condition |
| KedaTypes.Keda.UpdateStateFromErr | api/v1alpha1/keda_types.go:350-360 | Error with a False condition |
| KedaTypes.Keda.UpdateStateFromWarning | api/v1alpha1/keda_types.go:362-372 | Warning with a False condition |
| KedaTypes.Keda.UpdateStateReady | api/v1alpha1/keda_types.go:374-384 | Ready with a True condition |
| KedaTypes.Keda.UpdateStateProcessing | api/v1alpha1/keda_types.go:386-396 | Processing with an Unknown condition |
| KedaTypes.Keda.UpdateStateDeletion | api/v1alpha1/keda_types.go:398-408 | Deleting with an Unknown condition |
| KedaTypes.Keda.UpdateStateDeletionTrue | api/v1alpha1/keda_types.go:410-420 | Deleting with a True condition |
| KedaTypes.Keda.SetAddonCondition | api/v1alpha1/keda_types.go:450-460 | The AddonInstalled condition alone changes, not the state |
| KedaTypes.Keda.SetAnnotation | api/v1alpha1/keda_types.go:488-500 | The annotation in place |
| Cluster.ApplyAll | pkg/reconciler/addon.go:220-232 | Every object is patched whatever failed before; an error remains iff one was answered; without faults the list is stored, and other keys are never touched |
| Cluster.DeleteAll | pkg/reconciler/addon.go:234-243 | Every object is deleted whatever failed before; an error remains iff one other than NotFound was answered; other keys are never touched |
| Cluster.Client.ApplyObjects | pkg/reconciler/addon.go:220-232 | The loop over the client |
| Cluster.Client.DeleteObjects | pkg/reconciler/addon.go:234-243 | The loop over the client |
| Cluster.Client.DeletePeerAuthentication | pkg/reconciler/addon.go:211-218 | NotFound and a missing kind are no errors |
| Cluster.Client.FindServedKeda | pkg/reconciler/served_filter.go:34-50 | The first served CR of the list, by scanning it |
| Cluster.FindServed | pkg/reconciler/served_filter.go:43-49 | None iff no CR is served |
| AddonConfig.WantedMeaning | api/v1alpha1/keda_types.go:463-486 | The annotations read as text: wanted iff the enabling annotation is there and a case variant of "true", under its non-empty namespace annotation or kyma-system, with sidecars iff that annotation is a case variant of "true" |
| AddonConfig.ConvergesAsAsked | pkg/reconciler/addon.go:245-251 | A healthy fault-free run leads to what those texts ask for, whatever was installed before |
| AddonConfig.ConvergesOn | pkg/reconciler/addon.go:298-369 | Enabled for a named namespace: afterwards the default version is exactly in place there, with the sidecar setting of its annotation, and recorded |
| AddonConfig.ConvergesBare | pkg/reconciler/addon.go:371-427 | Without the enabling annotation and without HTTPScaledObjects no object of the add-on is left |
| AddonConfig.OffIsGuarded | pkg/reconciler/addon.go:277-296 | Any run under any faults on a CR whose annotations do not say "true" deletes only after it listed HTTPScaledObject of http.keda.sh/v1alpha1 and found none, or not the kind |
| OrphanGuard.StoredVersionMeaning | pkg/reconciler/delete_resources.go:227-235 | The stored version is the name of the first version marked as storage, and no version is named if none is marked |
| OrphanGuard.OrphansMeaning | pkg/reconciler/delete_resources.go:205-235 | The guard sees an orphan iff some module object is a CustomResourceDefinition of apiextensions.k8s.io and the cluster counts resources of its group, kind and first storage version |
| OrphanGuard.CheckStopsAtOrphans | pkg/reconciler/delete_resources.go:181-203 | Without faults the check fails iff such resources exist |
| OrphanGuard.DeletionByOrphans | pkg/reconciler/delete_resources.go:78-90 | One fault-free run of a begun deletion: with such resources no object goes, the status warns and an error is returned; with none the deletion goes on |
| OrphanGuard.EveryDeleteIsGuarded | pkg/reconciler/delete_resources.go:181-203 | In every history: a run on a CR marked for deletion deletes only after each such kind was listed with nothing found, any other run only after HTTPScaledObjects were found gone or with the annotation saying "true" |
| OrphanGuard.FinalizerTakesTwoPasses | pkg/reconciler/delete_resources.go:119-143 | In every history the finalizer goes only after its own run deleted every module object by group, kind, namespace and name and the two leases of kyma-system, on top of an earlier stored Deleted=True after such a pass |
| DesiredState.OperatorDesired | pkg/reconciler/update_objects.go:27-99 | After the chain the first Deployment named keda-operator has the operator entries of the spec: arguments, sidecar label, pod annotations, priority class, resources and environment; nothing else of it differs |
| DesiredState.MetricsServerDesired | pkg/reconciler/update_objects.go:49-142 | The same for the metrics server, whose own flag comes first and whose port is exempted with a sidecar unless the user says otherwise |
| DesiredState.WebhooksDesired | pkg/reconciler/update_objects.go:144-180 | The same for the admission webhooks, which never get a sidecar and keep their environment |
| DesiredState.PolicyDesired | pkg/reconciler/fsm.go:126-143 | Exactly the rules with port 9443 and no peer get the address, every other rule stays |
| DesiredState.ZapMeaning | pkg/reconciler/fsm.go:88-98 | All arguments of the three zap flags carry the configured values or info, console and rfc3339; each occurs; all others keep place and text |
| DesiredState.MetricsMeaning | pkg/reconciler/fsm.go:166-187 | Before that the first --logtostderr is set to false iff the format is json, or appended |
| DesiredState.EnvMeaning | api/v1alpha1/keda_types.go:225-316 | The variables given come first and unchanged, followed by exactly those of the six required ones whose names they do not use |
| DesiredState.SpecInMemory | api/v1alpha1/keda_types.go:203-208 | The chain leaves the spec in memory as it was, but for "text" turned into "console" in the three logging settings |
| DesiredCluster.ClusterHoldsDesired | pkg/reconciler/apply.go:30-73 | After a healthy run the cluster holds each module object, under its group, kind, namespace and name, in that form with the disclaimer and the three module labels, and objects that are no component unchanged but for these |
| ModuleHealth.WellMeaning | pkg/reconciler/verify.go:14-66 | A run gets through to the add-on iff none of the three reserved annotations is asked for, the three Deployments and the policy are there, exactly three Deployments are reported ready and none failing |
| ModuleHealth.ReservedUntouched | pkg/reconciler/validate.go:25-58 | In every history from the start the three reserved annotations, by name, are what was loaded, in every module object |
| AddonContents.OverrideMeaning | pkg/reconciler/addon.go:58-191 | Positive half of the override: namespaced ServiceAccounts of both binding kinds move, both namespace variables follow in every container, module label and sidecar annotations have their values; all else stays |
| AddonContents.AddonObjectsMeaning | pkg/reconciler/addon.go:193-209 | The list to apply: the moved manifest in order, the policies under the namespace, and the PeerAuthentication last iff sidecars are on |
| AddonContents.ClusterHoldsAddon | pkg/reconciler/addon.go:298-369 | Wherever the add-on is in place the cluster holds each object of that list under its own key |
| LiveReport.LiveRunReports | pkg/reconciler/verify.go:14-81 | The stored status of a fault-free run on a live served CR: state, version and each condition with status, reason and message, by the spec, the module objects, the reports and the annotation texts |
| LiveReport.VersionReported | pkg/reconciler/verify.go:37-75 | The version becomes the label of the last keda-operator Deployment iff the run gets through to the add-on, and is kept otherwise |
| VersionRuns.VersionMeans | pkg/reconciler/verify.go:37-75 | The same under any faults and cancellations: each status written with Ready or Warning carries that label, each other one the old version |
| Answers.QueueAnswer | pkg/reconciler/common.go:9-27 | Every run that ends by itself, under any faults: it returns an error iff one of its calls obliges it to (CR list, module kind list, conversion outside the apply loop, delete of a deletion, finalizer update, status write) or the CR was hopeless; otherwise it returns at once, 10 s, 30 s or nothing as its calls tell |
| Failures.FailuresAreTold | pkg/reconciler/update_status.go:9-23 | Every run under any faults, cut off anywhere: each status it writes on a live or deleted CR tells of the call that stopped it, with the state, reason and error of a conversion before or after the patches, of the apply loop, of the count of HTTPScaledObjects, of the orphan check or of the deletes |
| Failures.AddonErrorIsTold | pkg/reconciler/addon.go:298-349 | The installing state reports the error of the namespace, of the manifest or of the PeerAuthentication that stopped it |
| Failures.DeleteErrors | pkg/reconciler/addon.go:234-243 | The joined error carries exactly the errors of the loop that are not missing objects |
| Failures.PatchErrors | pkg/reconciler/addon.go:220-232 | The joined error carries exactly the errors of the loop |
| Answers.FailedDeleteIsReturned | pkg/reconciler/delete_resources.go:119-143 | On a CR marked for deletion a delete answered by an error other than a missing object or kind makes the run return an error |
| Fsm.Fsm.SFnServedFilter | pkg/reconciler/served_filter.go:12-32 | The served filter in place, on instance, shared objects and cluster, is exactly its step on values, about which the lemmas speak |
| Fsm.Fsm.SFnTakeSnapshot | pkg/reconciler/take_snapshot.go:9-12 | The snapshot in place, on instance, shared objects and cluster, is exactly its step on values, about which the lemmas speak |
| Fsm.Fsm.SFnInitialize | pkg/reconciler/initialize.go:11-43 | The finalizer and dispatch in place, on instance, shared objects and cluster, is exactly its step on values, about which the lemmas speak |
| Fsm.Fsm.SFnBootstrapperValidation | pkg/reconciler/validate.go:10-23 | The validation in place, on instance, shared objects and cluster, is exactly its step on values, about which the lemmas speak |
| Fsm.Fsm.SFnFindComponent | pkg/reconciler/update_objects.go:13-25 | The search for a component in place, on instance, shared objects and cluster, is exactly its step on values, about which the lemmas speak |
| Fsm.Fsm.SFnUpdateObject | pkg/reconciler/update_objects.go:200-216 | The one update closure in place, on instance, shared objects and cluster, is exactly its step on values, about which the lemmas speak |
| Fsm.Fsm.SFnApply | pkg/reconciler/apply.go:30-73 | The apply loop with its sticky error in place, on instance, shared objects and cluster, is exactly its step on values, about which the lemmas speak |
| Fsm.Fsm.SFnVerify | pkg/reconciler/verify.go:14-81 | The verification loop in place, on instance, shared objects and cluster, is exactly its step on values, about which the lemmas speak |
| Fsm.Fsm.SFnHandleAddon | pkg/reconciler/addon.go:245-251 | The add-on dispatch in place, on instance, shared objects and cluster, is exactly its step on values, about which the lemmas speak |
| Fsm.Fsm.HttpScaledObjectsInUse | pkg/reconciler/addon.go:257-271 | The count of HTTPScaledObjects in place, on instance, shared objects and cluster, is exactly its step on values, about which the lemmas speak |
| Fsm.Fsm.SFnGuardAddonInUse | pkg/reconciler/addon.go:277-296 | The guard of the disable path in place, on instance, shared objects and cluster, is exactly its step on values, about which the lemmas speak |
| Fsm.Fsm.FetchAddonObjs | pkg/reconciler/addon.go:193-209 | The fetched and overridden manifest in place, on instance, shared objects and cluster, is exactly its step on values, about which the lemmas speak |
| Fsm.Fsm.RunCleanupOldAddon | pkg/reconciler/addon.go:429-437 | The best-effort cleanup in place, on instance, shared objects and cluster, is exactly its step on values, about which the lemmas speak |
| Fsm.Fsm.SFnApplyAddon | pkg/reconciler/addon.go:298-369 | The installing state in place, on instance, shared objects and cluster, is exactly its step on values, about which the lemmas speak |
| Fsm.Fsm.SFnDeleteAddon | pkg/reconciler/addon.go:371-427 | The removing state in place, on instance, shared objects and cluster, is exactly its step on values, about which the lemmas speak |
| Fsm.Fsm.SFnDeleteResources | pkg/reconciler/delete_resources.go:37-47 | The start of the deletion in place, on instance, shared objects and cluster, is exactly its step on values, about which the lemmas speak |
| Fsm.Fsm.RunCheckCrdOrphans | pkg/reconciler/delete_resources.go:181-203 | The orphan check in place, on instance, shared objects and cluster, is exactly its step on values, about which the lemmas speak |
| Fsm.Fsm.RunCheckAddonOrphans | pkg/reconciler/delete_resources.go:97-111 | The add-on check in place, on instance, shared objects and cluster, is exactly its step on values, about which the lemmas speak |
| Fsm.Fsm.RunDeleteAddonObjs | pkg/reconciler/addon.go:439-460 | The deletion of the add-on objects the run knows in place, on instance, shared objects and cluster, is exactly its step on values, about which the lemmas speak |
| Fsm.Fsm.SFnSafeDeletion | pkg/reconciler/delete_resources.go:78-90 | The guarded deletion in place, on instance, shared objects and cluster, is exactly its step on values, about which the lemmas speak |
| Fsm.Fsm.RunDeleteModule | pkg/reconciler/delete_resources.go:119-143 | The deletion of the module in place, on instance, shared objects and cluster, is exactly its step on values, about which the lemmas speak |
| Fsm.Fsm.SFnRemoveFinalizer | pkg/reconciler/remove_finalizer.go:11-21 | The finalizer removal in place, on instance, shared objects and cluster, is exactly its step on values, about which the lemmas speak |
| Fsm.Fsm.SFnUpdateStatus | pkg/reconciler/update_status.go:9-23 | The status write in place, on instance, shared objects and cluster, is exactly its step on values, about which the lemmas speak |
| Fsm.Fsm.SFnEmitEvents | pkg/reconciler/emmit_event.go:11-33 | The event loop in place, on instance, shared objects and cluster, is exactly its step on values, about which the lemmas speak |
| Fsm.Fsm.Run | pkg/reconciler/fsm.go:284-311 | The loop in place computes exactly the run on values |
| Fsm.Fsm.constructor | pkg/reconciler/fsm.go:319-326 | A new fsm has no snapshot, no applied objects and no add-on objects |
| Controller.KedaReconciler.Reconcile | controllers/keda_controller.go:145-155 | A missing CR asks for a requeue and changes nothing; otherwise the outcome is that of a run of a fresh fsm, and the shared objects are what it left |
| Controller.KedaReconciler.RetriggerAllKedaCRs | controllers/keda_controller.go:157-174 | One request for each CR listed, none after a list error |
| Transitions.StepFacts | pkg/reconciler/fsm.go:284-298 | What each transition may do: where it leads, which calls it makes, what it leaves alone, and how the CR writes relate memory and store |

## Left out

- Fetching manifests over HTTP, TLS, YAML and file loading: a manifest is a fixed function of its version.
- Server-side apply as such: a forced apply leaves the applied content in the store; fields of other
  managers, conflicts and resource versions are not modelled.
- Conversions between unstructured and typed objects are faithful on the modelled fields; their failure
  is a fault of its own call. That a failed conversion in the apply loop empties the local copy is not
  modelled, as the run reports an error in any case.
- Image overrides and the FIPS check: environment variables, no state.
- Users, other controllers and restarts act between runs, not between the state functions of one run;
  there is one worker and its reads see the latest writes. Cancellation is observed between state functions.
- A label map that is absent where the code writes into it, and a Deployment without containers, are
  preconditions of the code; the model reads them as empty and leaves such a template alone.
- The cascade and upstream deletion strategies: no run selects them. The filter functions go with them.
- The order in which Go iterates over a map: the add-on namespaces whose PeerAuthentication is deleted are
  taken in order of first occurrence, and the two orders differ in no result but that of the calls.
- Messages are terms built from the same arguments as the texts; two texts that happen to be equal for
  different arguments are not identified. Timestamps, generations and event transport are not modelled.
- Users are taken not to write the two record annotations, not to add or remove the manager's own
  finalizer, and not to write the status.
- AddonHistory.AddonStaysExact: assumes that the manifests contain no PeerAuthentication, that the
  module's own objects are not add-on objects, and that nobody else writes the add-on's objects, because
  the code never compares what it finds; it speaks of fault-free runs, because under faults it is
  false (AddonMoves.LeftoverIsForgotten); AddonMoves.LeftoverMeaning and AddonRetry.RetryHeals say exactly
  what an attempt with failures leaves and when the next one makes the add-on exact again.
- `mapFunction`, watches, hashing, YAML helpers and generated copies: short loops and plain copies.
