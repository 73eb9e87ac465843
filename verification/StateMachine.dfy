/** One reconciliation as a state machine on values (pkg/reconciler): each state function as a
    function from run state to run state, and the loop that runs them. */
module StateMachine {
  import opened KedaTypes
  import opened Objects
  import opened AddonManifest
  import opened Cluster
  import Chain = UpdateChain

  /** What a reconciler is configured with; none of it changes during a run. */
  datatype Env = Env(finalizer: string, apiServerIP: string, defaultVersion: string, src: AddonSource)

  /** ctrl.Result; a run without one asks for no requeue. */
  datatype Result = Requeue | RequeueAfter(seconds: nat)

  /** The state functions. A closure is its constructor with the captured values. */
  datatype StateFn =
    | ServedFilter | TakeSnapshot | Initialize | BootstrapperValidation
    | FindComponent(c: Chain.Component)
    | UpdateObject(owner: Chain.Component, edit: nat, u: nat)
    | Apply | Verify
    | HandleAddon | GuardAddonInUse | ApplyAddon | DeleteAddon
    | DeleteResources | SafeDeletion | RemoveFinalizer
    | WriteStatus(result: Option<Result>, err: Option<Err>)
    | EmitEvents(result: Option<Result>, err: Option<Err>)
    | Nil

  /** An applied object as the API server returned it, its reported status included. */
  datatype Applied = Applied(obj: Obj, status: DeploymentStatus)

  /** The fsm and its systemState between two iterations of the loop. */
  datatype RunState = RunState(
    env: Env, fn: StateFn, result: Option<Result>, err: Option<Err>,
    k: KedaCR, snapshot: Status, applied: seq<Applied>, objs: seq<Obj>, addonObjs: seq<Obj>, api: Api)

  /** A run begins with a fresh fsm: no snapshot, nothing applied, no add-on objects. */
  function StartRun(env: Env, k: KedaCR, objs: seq<Obj>, api: Api): RunState {
    RunState(env, ServedFilter, None, None, k, EMPTY_STATUS, [], objs, [], api)
  }

  // ---- leaving a state (common.go) ----------------------------------------

  function Goto(v: RunState, fn: StateFn): RunState { v.(fn := fn, result := None, err := None) }

  function Stop(v: RunState, result: Option<Result>, err: Option<Err>): RunState {
    Goto(v, WriteStatus(result, err))
  }

  function End(v: RunState, result: Option<Result>, err: Option<Err>): RunState {
    v.(fn := Nil, result := result, err := err)
  }

  function WithStatus(v: RunState, s: Status): RunState { v.(k := v.k.(status := s)) }

  // ---- served_filter.go, take_snapshot.go, initialize.go ------------------

  function StepServedFilter(v: RunState): RunState {
    if v.k.status.served == ServedTrue then Goto(v, TakeSnapshot)
    else
      var r := DoListKedas(v.api);
      var v1 := v.(api := r.api);
      if r.err.Some? then Stop(v1, None, r.err)
      else match FindServed(r.items)
        case None => Stop(WithStatus(v1, v.k.status.(served := ServedTrue)), Some(Requeue), None)
        case Some(s) =>
          var st := Failed(v.k.status.(served := ServedFalse), Installed, KedaDuplicated, Duplicated(s.id.ns, s.id.name));
          Stop(WithStatus(v1, st), Some(Requeue), None)
  }

  function StepTakeSnapshot(v: RunState): RunState {
    Goto(v.(snapshot := v.k.status), Initialize)
  }

  function StepInitialize(v: RunState): RunState {
    var hasFinalizer := v.env.finalizer in v.k.finalizers;
    if !v.k.deleting && !hasFinalizer then
      var r := DoUpdateMeta(v.api, v.k.(finalizers := v.k.finalizers + {v.env.finalizer}));
      var v1 := v.(api := r.api, k := r.keda);
      if r.err.Some? then Stop(v1, None, r.err)
      else
        var st := With(r.keda.status, Processing, Condition(Installed, Unknown, Initialized, InitializedText));
        Stop(WithStatus(v1, st), Some(Requeue), None)
    else if v.k.deleting && !hasFinalizer then End(v, None, None)
    else if v.k.deleting then Goto(v, DeleteResources)
    else Goto(v, BootstrapperValidation)
  }

  // ---- validate.go, update_objects.go -------------------------------------

  function StepValidation(v: RunState): RunState {
    if Chain.HasRestricted(v.k.spec) then
      var e := RestrictedAnnotations(v.k.id.name);
      Stop(WithStatus(v, Failed(v.k.status, Installed, ValidationErr, e)), None, Some(e))
    else Goto(v, FindComponent(Chain.Operator))
  }

  function StepFindComponent(v: RunState, c: Chain.Component): RunState {
    var u := Chain.FirstIndex(v.objs, c);
    if u == |v.objs| then
      var reason := if c == Chain.WebhookPolicy then NetworkPolicyUpdateErr else DeploymentUpdateErr;
      Stop(WithStatus(v, Failed(v.k.status, Installed, reason, NoSuchObject)), None, Some(NoSuchObject))
    else Goto(v, UpdateObject(c, 0, u))
  }

  function NextComponent(c: Chain.Component): StateFn {
    match c
    case Operator => FindComponent(Chain.MetricsServer)
    case MetricsServer => FindComponent(Chain.AdmissionWebhooks)
    case AdmissionWebhooks => FindComponent(Chain.WebhookPolicy)
    case WebhookPolicy => Apply
  }

  function NextEdit(c: Chain.Component, e: nat, u: nat): StateFn {
    if e + 1 < |Chain.Edits(c)| then UpdateObject(c, e + 1, u) else NextComponent(c)
  }

  function PeerAddress(env: Env): string { env.apiServerIP + "/32" }

  /** The spec is read from the instance and, through the shared logging configuration, written there, too. */
  function StepUpdateObject(v: RunState, c: Chain.Component, e: nat, u: nat): RunState {
    if e >= |Chain.Edits(c)| || u >= |v.objs| then Goto(v, NextComponent(c))
    else
      var edit := Chain.Edits(c)[e];
      if !Chain.HasData(c, edit, v.k.spec) then Goto(v, NextEdit(c, e, u))
      else
        var r := DoConvert(v.api);
        var v1 := v.(api := r.api);
        if r.err.Some? then
          Stop(WithStatus(v1, Failed(v.k.status, Installed, DeploymentUpdateErr, r.err.value)), None, r.err)
        else
          var o := Chain.EditedObj(c, edit, v.k.spec, PeerAddress(v.env), v.objs[u]);
          Goto(v1.(objs := v.objs[u := o], k := v.k.(spec := Chain.SanitizedSpec(c, edit, v.k.spec))), NextEdit(c, e, u))
  }

  // ---- apply.go, verify.go ------------------------------------------------

  const DISCLAIMER := "DO NOT EDIT - This resource is managed by Keda-Manager.\nAny modifications are discarded and the resource is reverted to the original state."

  /** The disclaimer and the common labels, written into the shared object. */
  function Stamped(o: Obj): Obj {
    o.(annotations := o.annotations[Disclaimer := DISCLAIMER], labels := WithCommonLabels(o.labels))
  }

  function AllStamped(objs: seq<Obj>): seq<Obj> {
    seq(|objs|, i requires 0 <= i < |objs| => Stamped(objs[i]))
  }

  function StatusOf(w: World, key: ObjKey): DeploymentStatus {
    if key in w.statuses then w.statuses[key] else DeploymentStatus(false, false)
  }

  datatype RepApplied = RepApplied(api: Api, applied: seq<Applied>, failed: bool)

  /** Apply every object; one error is remembered and does not stop the loop. */
  function ApplyModule(a: Api, list: seq<Obj>, applied: seq<Applied>, failed: bool): RepApplied
    decreases list
  {
    if list == [] then RepApplied(a, applied, failed)
    else
      var o := Stamped(list[0]);
      var conv := if o.kind == Deployment then DoConvert(a) else Rep(a, None);
      var p := DoPatch(conv.api, o);
      ApplyModule(p.api, list[1..], applied + [Applied(o, StatusOf(p.api.world, KeyOf(o)))],
                  failed || conv.err.Some? || p.err.Some?)
  }

  function StepApply(v: RunState): RunState {
    var r := ApplyModule(v.api, v.objs, v.applied, false);
    var v1 := v.(api := r.api, applied := r.applied, objs := AllStamped(v.objs));
    if r.failed then Stop(WithStatus(v1, Failed(v.k.status, Installed, ApplyObjError, InstallationErr)), None, None)
    else Goto(v1, Verify)
  }

  datatype Tally = Tally(ready: nat, failures: nat, version: string)

  datatype RepTally = RepTally(api: Api, tally: Tally, err: Option<Err>)

  function Counted(t: Tally, d: Applied): Tally {
    Tally(t.ready + (if d.status.ready then 1 else 0), t.failures + (if d.status.replicaFailure then 1 else 0),
          if d.obj.name == KedaOperator then (if VersionLabel in d.obj.labels then d.obj.labels[VersionLabel] else "") else t.version)
  }

  function VerifyAll(a: Api, list: seq<Applied>, t: Tally): RepTally
    decreases list
  {
    if list == [] then RepTally(a, t, None)
    else if !IsDeployment(list[0].obj) then VerifyAll(a, list[1..], t)
    else
      var r := DoConvert(a);
      if r.err.Some? then RepTally(r.api, t, r.err)
      else VerifyAll(r.api, list[1..], Counted(t, list[0]))
  }

  function ReadyStatus(s: Status, version: string): Status {
    var s1 := s.(conditions := WithoutCondition(s.conditions, DeploymentFailure));
    With(s1.(kedaVersion := version), Ready, Condition(Installed, True, Verified, DeploymentsReady))
  }

  function StepVerify(v: RunState): RunState {
    var r := VerifyAll(v.api, v.applied, Tally(0, 0, ""));
    var v1 := v.(api := r.api);
    var s := v.k.status;
    if r.err.Some? then Stop(WithStatus(v1, Failed(s, Installed, VerificationErr, r.err.value)), None, r.err)
    else if r.tally.failures > 0 then
      Stop(WithStatus(v1, With(s, Error, Condition(DeploymentFailure, True, DeploymentReplicaFailure, ReplicaFailureText))),
           Some(RequeueAfter(10)), None)
    else if r.tally.ready != 3 then
      Stop(WithStatus(v1, With(s, Processing, Condition(Installed, Unknown, Verification, VerificationInProgress))),
           Some(RequeueAfter(10)), None)
    else Goto(WithStatus(v1, ReadyStatus(s, r.tally.version)), HandleAddon)
  }

  // ---- addon.go -----------------------------------------------------------

  const HSO_GVK := Gvk(HttpKeda, V1Alpha1, "HTTPScaledObject")

  function StepHandleAddon(v: RunState): RunState {
    if ReadAddonCfg(v.k.annotations).enabled then Goto(v, ApplyAddon) else Goto(v, GuardAddonInUse)
  }

  /** A missing kind counts as zero; any other error is reported. */
  function HsoInUse(a: Api): RepItems {
    var r := DoListItems(a, HSO_GVK);
    if r.err == Some(NoMatch) || r.err == Some(NotFound) then RepItems(r.api, 0, None)
    else if r.err.Some? then RepItems(r.api, 0, Some(ListHsoErr(r.err.value)))
    else r
  }

  function StepGuardAddon(v: RunState): RunState {
    var r := HsoInUse(v.api);
    var v1 := v.(api := r.api);
    if r.err.None? && r.count == 0 then Goto(v1, DeleteAddon)
    else
      var m := if r.err.Some? then HsoUnverified(r.err.value) else HsoStillExist(r.count);
      Stop(WithStatus(v1, WithAddon(v.k.status, False, HttpAddonInUse, m).(state := Warning)), Some(RequeueAfter(30)), None)
  }

  /** Best effort: whatever fails here is dropped. */
  function CleanupOldAddon(a: Api, src: AddonSource, version: string, ns: string): Api {
    var f := DoFetch(a, src, version, ns);
    if f.err.Some? then f.api
    else DeletePeerAuth(DeleteAll(f.api, AddonObjects(src, version, ns, false), None).api, ns).api
  }

  function AddonFailed(v: RunState, e: Err): RunState {
    Stop(WithStatus(v, WithAddon(v.k.status, False, HttpAddonInstallErr, OfErr(e))), None, None)
  }

  /** The installation to be removed first, if the recorded one is at another place or version. */
  function StaleAddon(ann: Annotations, version: string, ns: string): Option<(string, string)> {
    var prevVersion, prevNs := Lookup(ann, InstalledVersion), Lookup(ann, InstalledNamespace);
    if prevVersion == "" then None
    else if prevNs != "" && prevNs != ns then Some((prevVersion, prevNs))
    else if prevVersion != version then Some((prevVersion, ns))
    else None
  }

  function Recorded(ann: Annotations, version: string, ns: string): Annotations {
    WithAnnotation(WithAnnotation(ann, InstalledVersion, version), InstalledNamespace, ns)
  }

  /** Persist the annotations; the computed status survives the server's old one. */
  function Persist(v: RunState, ann: Annotations, st: Status): RunState {
    var r := DoUpdateMeta(v.api, v.k.(annotations := ann, status := st));
    Stop(v.(api := r.api, k := r.keda.(status := st)), None, None)
  }

  /** Fetch, apply and record; without sidecars an earlier PeerAuthentication goes. */
  function Install(v: RunState, version: string, ns: string, istio: bool): RunState {
    var fetched := DoFetch(v.api, v.env.src, version, ns);
    if fetched.err.Some? then AddonFailed(v.(api := fetched.api), fetched.err.value)
    else
      var list := AddonObjects(v.env.src, version, ns, istio);
      var applied := ApplyAll(fetched.api, list, None);
      if applied.err.Some? then AddonFailed(v.(api := applied.api), applied.err.value)
      else
        var peer := if istio then Rep(applied.api, None) else DeletePeerAuth(applied.api, ns);
        if peer.err.Some? then AddonFailed(v.(api := peer.api), peer.err.value)
        else Persist(v.(api := peer.api, addonObjs := list), Recorded(v.k.annotations, version, ns),
                     WithAddon(v.k.status, True, HttpAddonInstalled, AddonInstalledText(version, ns)))
  }

  function StepApplyAddon(v: RunState): RunState {
    var cfg := ReadAddonCfg(v.k.annotations);
    var version, ns := v.env.defaultVersion, cfg.EffectiveNamespace();
    var created := DoCreateNamespace(v.api, ns);
    if created.err.Some? && created.err.value != AlreadyExists then
      AddonFailed(v.(api := created.api), NamespaceErr(ns, created.err.value))
    else
      var stale := StaleAddon(v.k.annotations, version, ns);
      var cleaned := if stale.None? then created.api
                     else CleanupOldAddon(created.api, v.env.src, stale.value.0, stale.value.1);
      Install(v.(api := cleaned), version, ns, cfg.istioInjection)
  }

  function StepDeleteAddon(v: RunState): RunState {
    var lastVersion := Lookup(v.k.annotations, InstalledVersion);
    var recordedNs := Lookup(v.k.annotations, InstalledNamespace);
    var lastNs := if recordedNs == "" then DEFAULT_ADDON_NAMESPACE else recordedNs;
    if v.addonObjs == [] && lastVersion == "" then
      Stop(WithStatus(v, WithAddon(v.k.status, False, HttpAddonDisabled, AddonDisabledText)), None, None)
    else
      var fetched := if v.addonObjs == [] then DoFetch(v.api, v.env.src, lastVersion, lastNs) else Rep(v.api, None);
      if fetched.err.Some? then
        Stop(WithStatus(v.(api := fetched.api), WithAddon(v.k.status, False, HttpAddonDeleted, OfErr(fetched.err.value))), None, None)
      else
        var list := if v.addonObjs == [] then AddonObjects(v.env.src, lastVersion, lastNs, false) else v.addonObjs;
        var deleted := DeleteAll(fetched.api, list, None);
        if deleted.err.Some? then AddonFailed(v.(api := deleted.api), deleted.err.value)
        else
          var peer := DeletePeerAuth(deleted.api, lastNs);
          if peer.err.Some? then AddonFailed(v.(api := peer.api), peer.err.value)
          else Persist(v.(api := peer.api, addonObjs := []), Recorded(v.k.annotations, "", ""),
                       WithAddon(v.k.status, False, HttpAddonDeleted, AddonRemovedText))
  }

  // ---- delete_resources.go, remove_finalizer.go ---------------------------

  function StepDeleteResources(v: RunState): RunState {
    if Find(v.k.status, Deleted).None? then
      Stop(WithStatus(v, With(v.k.status, Deleting, Condition(Deleted, Unknown, Deletion, DeletionInProgress))), Some(Requeue), None)
    else Goto(v, SafeDeletion)
  }

  /** A no-op unless this very run installed the add-on. */
  function CheckAddonOrphans(a: Api, addonObjs: seq<Obj>): Rep {
    if addonObjs == [] then Rep(a, None)
    else
      var r := HsoInUse(a);
      Rep(r.api, if r.err.Some? then r.err else if r.count > 0 then Some(AddonItems(r.count)) else None)
  }

  /** The first CRD with resources, or with an unexpected answer, ends the check. */
  function CheckCrdOrphans(a: Api, objs: seq<Obj>): Rep
    decreases objs
  {
    if objs == [] then Rep(a, None)
    else if !IsCrd(objs[0]) then CheckCrdOrphans(a, objs[1..])
    else
      var c := DoConvert(a);
      if c.err.Some? then c
      else
        var r := DoListItems(c.api, CrdGvk(objs[0]));
        if IgnoreNotFound(r.err).Some? then Rep(r.api, r.err)
        else if r.count > 0 then Rep(r.api, Some(OrphanItems(r.count)))
        else CheckCrdOrphans(r.api, objs[1..])
  }

  /** The namespaces whose PeerAuthentication goes, in order of first occurrence. */
  function AddonNamespaces(objs: seq<Obj>, acc: seq<string>): seq<string> {
    if objs == [] then acc
    else AddonNamespaces(objs[1..], if objs[0].ns == "" || objs[0].ns in acc then acc else acc + [objs[0].ns])
  }

  function DeletePeerAuths(a: Api, namespaces: seq<string>, acc: Option<Err>): Rep
    decreases namespaces
  {
    if namespaces == [] then Rep(a, acc)
    else
      var r := DeletePeerAuth(a, namespaces[0]);
      DeletePeerAuths(r.api, namespaces[1..], Join(acc, r.err))
  }

  function DeleteAddonObjs(a: Api, addonObjs: seq<Obj>): Rep {
    var r := DeleteAll(a, addonObjs, None);
    DeletePeerAuths(r.api, AddonNamespaces(addonObjs, [DEFAULT_ADDON_NAMESPACE]), r.err)
  }

  function StepSafeDeletion(v: RunState): RunState {
    var s := v.k.status;
    var addon := CheckAddonOrphans(v.api, v.addonObjs);
    if addon.err.Some? then
      Stop(WithStatus(v.(api := addon.api), Warned(s, Deleted, HttpAddonInUse, addon.err.value)), None, addon.err)
    else
      var crds := CheckCrdOrphans(addon.api, v.objs);
      if crds.err.Some? then
        Stop(WithStatus(v.(api := crds.api), Warned(s, Deleted, DeletionErr, crds.err.value)), None, crds.err)
      else DeleteModule(v.(api := crds.api))
  }

  /** deleteResourcesWithFilter without a filter. */
  function DeleteModule(v: RunState): RunState {
    var s := v.k.status;
    var own := DeleteAddonObjs(v.api, v.addonObjs);
    if own.err.Some? then
      Stop(WithStatus(v.(api := own.api), Failed(s, Deleted, DeletionErr, own.err.value)), None, own.err)
    else
      var r := DeleteAll(own.api, v.objs + LEASES, None);
      var v1 := v.(api := r.api);
      if r.err.Some? then Stop(WithStatus(v1, Failed(s, Deleted, DeletionErr, r.err.value)), None, r.err)
      else
        var c := Find(s, Deleted);
        if c.None? || c.value.status == True then Goto(v1, RemoveFinalizer)
        else Stop(WithStatus(v1, With(s, Deleting, Condition(Deleted, True, DeletionDone, ModuleDeleted))), Some(Requeue), None)
  }

  function StepRemoveFinalizer(v: RunState): RunState {
    var r := DoUpdateMeta(v.api, v.k.(finalizers := v.k.finalizers - {v.env.finalizer}));
    var v1 := v.(api := r.api, k := r.keda);
    if IgnoreNotFound(r.err).Some? then End(v1, Some(Requeue), r.err) else End(v1, None, None)
  }

  // ---- update_status.go, emmit_event.go -----------------------------------

  function StepWriteStatus(v: RunState, result: Option<Result>, err: Option<Err>): RunState {
    var r := DoUpdateStatus(v.api, v.k);
    var v1 := v.(api := r.api, k := r.keda);
    if r.err.Some? then End(v1, None, if err.Some? then err else r.err)
    else Goto(v1, EmitEvents(result, err))
  }

  function EventOf(c: Condition): Event { Event(c.status == False, c.reason, c.message) }

  predicate Unchanged(c: Condition, snapshot: Status) {
    var m := Find(snapshot, c.typ);
    m.Some? && m.value.status == c.status && m.value.reason == c.reason && m.value.message == c.message
  }

  function EmitAll(a: Api, conds: seq<Condition>, snapshot: Status): Api
    decreases conds
  {
    if conds == [] then a
    else EmitAll(if Unchanged(conds[0], snapshot) then a else DoEmit(a, EventOf(conds[0])), conds[1..], snapshot)
  }

  function StepEmitEvents(v: RunState, result: Option<Result>, err: Option<Err>): RunState {
    End(v.(api := EmitAll(v.api, v.k.status.conditions, v.snapshot)), result, err)
  }

  // ---- fsm.go: Run --------------------------------------------------------

  predicate Done(v: RunState) { v.fn.Nil? || v.err.Some? }

  function Step(v: RunState): RunState {
    match v.fn
    case ServedFilter => StepServedFilter(v)
    case TakeSnapshot => StepTakeSnapshot(v)
    case Initialize => StepInitialize(v)
    case BootstrapperValidation => StepValidation(v)
    case FindComponent(c) => StepFindComponent(v, c)
    case UpdateObject(c, e, u) => StepUpdateObject(v, c, e, u)
    case Apply => StepApply(v)
    case Verify => StepVerify(v)
    case HandleAddon => StepHandleAddon(v)
    case GuardAddonInUse => StepGuardAddon(v)
    case ApplyAddon => StepApplyAddon(v)
    case DeleteAddon => StepDeleteAddon(v)
    case DeleteResources => StepDeleteResources(v)
    case SafeDeletion => StepSafeDeletion(v)
    case RemoveFinalizer => StepRemoveFinalizer(v)
    case WriteStatus(result, err) => StepWriteStatus(v, result, err)
    case EmitEvents(result, err) => StepEmitEvents(v, result, err)
    case Nil => v
  }

  /** The loop of Run. The context is cancelled when n state functions have run. */
  function Run(v: RunState, n: nat): RunState
    decreases n
  {
    if Done(v) then v
    else if n == 0 then v.(err := Some(Canceled))
    else Run(Step(v), n - 1)
  }

  /** How many state functions that loop executes. */
  function Length(v: RunState, n: nat): nat
    decreases n
  {
    if Done(v) || n == 0 then 0 else 1 + Length(Step(v), n - 1)
  }
}
