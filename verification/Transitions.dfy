/** What every transition of the state machine does to the parts that later proofs track:
    where it may lead, which condition it sets, and what it leaves alone. */
module Transitions {
  import opened KedaTypes
  import opened Objects
  import opened AddonManifest
  import opened Cluster
  import opened StateMachine
  import Chain = UpdateChain

  // ---- control flow -------------------------------------------------------

  predicate Follows(f: StateFn, g: StateFn) {
    match f
    case ServedFilter => g.TakeSnapshot? || g.WriteStatus?
    case TakeSnapshot => g.Initialize?
    case Initialize => g.Nil? || g.WriteStatus? || g.DeleteResources? || g.BootstrapperValidation?
    case BootstrapperValidation => g.WriteStatus? || g == FindComponent(Chain.Operator)
    case FindComponent(c) => g.WriteStatus? || (g.UpdateObject? && g.owner == c && g.edit == 0)
    case UpdateObject(c, e, u) => g.WriteStatus? || g == if e < |Chain.Edits(c)| then NextEdit(c, e, u) else NextComponent(c)
    case Apply => g.WriteStatus? || g.Verify?
    case Verify => g.WriteStatus? || g.HandleAddon?
    case HandleAddon => g.ApplyAddon? || g.GuardAddonInUse?
    case GuardAddonInUse => g.WriteStatus? || g.DeleteAddon?
    case ApplyAddon => g.WriteStatus?
    case DeleteAddon => g.WriteStatus?
    case DeleteResources => g.WriteStatus? || g.SafeDeletion?
    case SafeDeletion => g.WriteStatus? || g.RemoveFinalizer?
    case RemoveFinalizer => g.Nil?
    case WriteStatus(_, _) => g.Nil? || g.EmitEvents?
    case EmitEvents(_, _) => g.Nil?
    case Nil => g.Nil?
  }

  // ---- conditions ---------------------------------------------------------

  predicate Has(s: Status, t: ConditionType, st: ConditionStatus, reasons: set<Reason>) {
    var c := Find(s, t);
    c.Some? && c.value.status == st && c.value.reason in reasons
  }

  /** One condition was set, the others stayed. */
  ghost predicate Put(s: Status, u: Status, state: State, t: ConditionType, st: ConditionStatus, reasons: set<Reason>) {
    && u.state == state && u.served == s.served
    && Has(u, t, st, reasons)
    && (forall x :: x != t ==> Find(u, x) == Find(s, x))
    && (UniqueTypes(s.conditions) ==> UniqueTypes(u.conditions))
  }

  const ADDON_REASONS := {HttpAddonInstalled, HttpAddonDeleted, HttpAddonInstallErr, HttpAddonDisabled}

  ghost predicate PutReady(s: Status, u: Status) {
    && u.state == Ready && u.served == s.served
    && Has(u, Installed, True, {Verified}) && Find(u, DeploymentFailure).None?
    && Find(u, Deleted) == Find(s, Deleted) && Find(u, AddonInstalled) == Find(s, AddonInstalled)
    && (UniqueTypes(s.conditions) ==> UniqueTypes(u.conditions))
  }

  /** How a state may change the in-memory status. */
  ghost predicate StatusStep(f: StateFn, s: Status, u: Status) {
    u == s ||
    match f
    case ServedFilter =>
      s.served != ServedTrue && (u == s.(served := ServedTrue)
      || (u.served == ServedFalse && Put(s.(served := ServedFalse), u, Error, Installed, False, {KedaDuplicated})))
    case Initialize => Put(s, u, Processing, Installed, Unknown, {Initialized})
    case BootstrapperValidation => Put(s, u, Error, Installed, False, {ValidationErr})
    case FindComponent(c) => Put(s, u, Error, Installed, False, {DeploymentUpdateErr, NetworkPolicyUpdateErr})
    case UpdateObject(_, _, _) => Put(s, u, Error, Installed, False, {DeploymentUpdateErr})
    case Apply => Put(s, u, Error, Installed, False, {ApplyObjError})
    case Verify =>
      || Put(s, u, Error, Installed, False, {VerificationErr})
      || Put(s, u, Error, DeploymentFailure, True, {DeploymentReplicaFailure})
      || Put(s, u, Processing, Installed, Unknown, {Verification})
      || PutReady(s, u)
    case GuardAddonInUse => Put(s, u, Warning, AddonInstalled, False, {HttpAddonInUse})
    case ApplyAddon => Put(s, u, s.state, AddonInstalled, True, {HttpAddonInstalled}) || Put(s, u, s.state, AddonInstalled, False, ADDON_REASONS)
    case DeleteAddon => Put(s, u, s.state, AddonInstalled, False, ADDON_REASONS)
    case DeleteResources => Put(s, u, Deleting, Deleted, Unknown, {Deletion}) && Find(s, Deleted).None?
    case SafeDeletion =>
      || Put(s, u, Warning, Deleted, False, {HttpAddonInUse, DeletionErr})
      || Put(s, u, Error, Deleted, False, {DeletionErr})
      || Put(s, u, Deleting, Deleted, True, {DeletionDone})
    case _ => false
  }

  // ---- frames -------------------------------------------------------------

  /** The states that write a CR. */
  predicate Writes(f: StateFn) {
    f.Initialize? || f.ApplyAddon? || f.DeleteAddon? || f.RemoveFinalizer? || f.WriteStatus?
  }

  predicate SameRecord(k: KedaCR, u: KedaCR) {
    u == k.(status := u.status, spec := u.spec)
  }

  ghost predicate TraceGrows(f: StateFn, a: Api, b: Api) {
    && a.trace <= b.trace
    && (forall i :: |a.trace| <= i < |b.trace| ==> CallOf(f, b.trace[i]))
    && (a.faults == [] ==> b.faults == [])
  }

  /** The calls a state can make. */
  predicate CallOf(f: StateFn, c: Call) {
    match f
    case ServedFilter => c.ListKedas?
    case Initialize => c.UpdateMeta?
    case UpdateObject(_, _, _) => c.ConvertObj?
    case Apply => c.ConvertObj? || c.PatchObj?
    case Verify => c.ConvertObj?
    case GuardAddonInUse => c.ListItems?
    case ApplyAddon => c.CreateNamespace? || c.FetchManifest? || c.DeleteObj? || c.PatchObj? || c.UpdateMeta?
    case DeleteAddon => c.FetchManifest? || c.DeleteObj? || c.UpdateMeta?
    case SafeDeletion => c.ConvertObj? || c.ListItems? || c.DeleteObj?
    case RemoveFinalizer => c.UpdateMeta?
    case WriteStatus(_, _) => c.UpdateStatus?
    case EmitEvents(_, _) => c.Emit?
    case _ => false
  }

  /** An update closure points at an object that exists. */
  predicate Sound(v: RunState) { v.fn.UpdateObject? ==> v.fn.u < |v.objs| }

  ghost predicate Facts(v: RunState, u: RunState) {
    && Follows(v.fn, u.fn)
    && (!u.fn.Nil? ==> u.result.None? && u.err.None?)
    && u.env == v.env && u.k.id == v.k.id
    && |u.objs| == |v.objs| && Sound(u)
    && u.api.world.items == v.api.world.items && u.api.world.statuses == v.api.world.statuses
    && TraceGrows(v.fn, v.api, u.api)
    && (!Writes(v.fn) ==>
          && SameRecord(v.k, u.k) && u.api.world.kedas == v.api.world.kedas
          && StatusStep(v.fn, v.k.status, u.k.status))
    && (!v.fn.UpdateObject? && !Writes(v.fn) ==> u.k.spec == v.k.spec)
    && (v.fn.UpdateObject? || v.fn.Apply? || u.objs == v.objs)
    && (v.fn.ApplyAddon? || v.fn.DeleteAddon? || u.addonObjs == v.addonObjs)
    && (v.fn.Apply? || u.applied == v.applied)
    && (v.fn.TakeSnapshot? || u.snapshot == v.snapshot)
    && (v.fn.ApplyAddon? || v.fn.DeleteAddon? || v.fn.SafeDeletion? || v.fn.Apply? || u.api.world.objs == v.api.world.objs)
  }

  // ---- one lemma per state ------------------------------------------------

  lemma OneCall(f: StateFn, a: Api, b: Api, c: Call)
    requires b.trace == a.trace + [c] && CallOf(f, c)
    requires a.faults == [] ==> b.faults == []
    ensures TraceGrows(f, a, b)
  {
  }

  /** A CR update touches the CRs only, and answers with a CR of the same identity. */
  lemma UpdateMetaFacts(f: StateFn, a: Api, k: KedaCR)
    requires f.Initialize? || f.RemoveFinalizer? || f.ApplyAddon? || f.DeleteAddon?
    ensures var r := DoUpdateMeta(a, k);
      r.api.world == a.world.(kedas := r.api.world.kedas) && r.keda.id == k.id && TraceGrows(f, a, r.api)
  {
    hide Replaced, Without, TraceGrows, UniqueIds;
    var r := DoUpdateMeta(a, k);
    OneCall(f, a, r.api, r.api.trace[|a.trace|]);
  }

  lemma UpdateStatusFacts(f: StateFn, a: Api, k: KedaCR)
    requires f.WriteStatus?
    ensures var r := DoUpdateStatus(a, k);
      r.api.world == a.world.(kedas := r.api.world.kedas) && r.keda.id == k.id && TraceGrows(f, a, r.api)
  {
    hide Replaced, TraceGrows, UniqueIds;
    var r := DoUpdateStatus(a, k);
    OneCall(f, a, r.api, r.api.trace[|a.trace|]);
  }

  lemma ServedFilterFacts(v: RunState)
    requires v.fn.ServedFilter?
    ensures Facts(v, StepServedFilter(v))
  {
    hide FindServed, TraceGrows, UniqueTypes;
    var r := DoListKedas(v.api);
    OneCall(v.fn, v.api, r.api, ListKedas(r.err));
    assert TraceGrows(v.fn, v.api, v.api) by { NoCall(v.fn, v.api); }
  }

  lemma NoCall(f: StateFn, a: Api)
    ensures TraceGrows(f, a, a)
  {
  }

  lemma TakeSnapshotFacts(v: RunState)
    requires v.fn.TakeSnapshot?
    ensures Facts(v, StepTakeSnapshot(v))
  {
  }

  lemma InitializeFacts(v: RunState)
    requires v.fn.Initialize?
    ensures Facts(v, StepInitialize(v))
  {
    hide DoUpdateMeta, TraceGrows, With;
    UpdateMetaFacts(v.fn, v.api, v.k.(finalizers := v.k.finalizers + {v.env.finalizer}));
    NoCall(v.fn, v.api);
  }

  lemma ValidationFacts(v: RunState)
    requires v.fn.BootstrapperValidation?
    ensures Facts(v, StepValidation(v))
  {
  }

  lemma FindComponentFacts(v: RunState, c: Chain.Component)
    requires v.fn == FindComponent(c)
    ensures Facts(v, StepFindComponent(v, c))
  {
  }

  lemma UpdateObjectFacts(v: RunState, c: Chain.Component, e: nat, u: nat)
    requires v.fn == UpdateObject(c, e, u)
    requires u < |v.objs|
    ensures Facts(v, StepUpdateObject(v, c, e, u))
  {
    hide Chain.EditedObj, Chain.SanitizedSpec, Chain.HasData, TraceGrows, UniqueTypes;
    var r := DoConvert(v.api);
    OneCall(v.fn, v.api, r.api, ConvertObj(r.err));
    NoCall(v.fn, v.api);
  }

  lemma HandleAddonFacts(v: RunState)
    requires v.fn.HandleAddon?
    ensures Facts(v, StepHandleAddon(v))
  {
  }

  lemma GuardAddonFacts(v: RunState)
    requires v.fn.GuardAddonInUse?
    ensures Facts(v, StepGuardAddon(v))
  {
    hide TraceGrows, UniqueTypes;
    var r := DoListItems(v.api, HSO_GVK);
    OneCall(v.fn, v.api, r.api, ListItems(HSO_GVK, r.count, r.err));
  }

  lemma DeleteResourcesFacts(v: RunState)
    requires v.fn.DeleteResources?
    ensures Facts(v, StepDeleteResources(v))
  {
  }

  lemma RemoveFinalizerFacts(v: RunState)
    requires v.fn.RemoveFinalizer?
    ensures Facts(v, StepRemoveFinalizer(v))
  {
    hide DoUpdateMeta, TraceGrows;
    UpdateMetaFacts(v.fn, v.api, v.k.(finalizers := v.k.finalizers - {v.env.finalizer}));
  }

  lemma WriteStatusFacts(v: RunState, result: Option<Result>, err: Option<Err>)
    requires v.fn == WriteStatus(result, err)
    ensures Facts(v, StepWriteStatus(v, result, err))
  {
    hide DoUpdateStatus, TraceGrows;
    UpdateStatusFacts(v.fn, v.api, v.k);
  }

  lemma StampedKey(o: Obj)
    ensures KeyOf(Stamped(o)) == KeyOf(o) && IsDeployment(Stamped(o)) == IsDeployment(o)
  {
  }

  lemma {:induction false} ApplyModuleFacts(a: Api, list: seq<Obj>, applied: seq<Applied>, failed: bool)
    ensures var r := ApplyModule(a, list, applied, failed);
      && r.api.world == a.world.(objs := r.api.world.objs)
      && a.trace <= r.api.trace && (a.faults == [] ==> r.api.faults == [])
      && (forall i :: |a.trace| <= i < |r.api.trace| ==> r.api.trace[i].ConvertObj? || r.api.trace[i].PatchObj?)
    decreases list
  {
    if list != [] {
      var o := Stamped(list[0]);
      var conv := if o.kind == Deployment then DoConvert(a) else Rep(a, None);
      var p := DoPatch(conv.api, o);
      ApplyModuleFacts(p.api, list[1..], applied + [Applied(o, StatusOf(p.api.world, KeyOf(o)))],
                       failed || conv.err.Some? || p.err.Some?);
    }
  }

  lemma ApplyFacts(v: RunState)
    requires v.fn.Apply?
    ensures Facts(v, StepApply(v))
  {
    ApplyModuleFacts(v.api, v.objs, v.applied, false);
  }

  lemma {:induction false} VerifyAllFacts(a: Api, list: seq<Applied>, t: Tally)
    ensures var r := VerifyAll(a, list, t);
      && r.api.world == a.world && TraceGrows(Verify, a, r.api) && (a.faults == [] ==> r.err.None?)
    decreases list
  {
    if list != [] {
      if IsDeployment(list[0].obj) {
        var c := DoConvert(a);
        if c.err.None? {
          VerifyAllFacts(c.api, list[1..], Counted(t, list[0]));
        }
      } else {
        VerifyAllFacts(a, list[1..], t);
      }
    }
  }

  lemma VerifyFacts(v: RunState)
    requires v.fn.Verify?
    ensures Facts(v, StepVerify(v))
  {
    hide VerifyAll, TraceGrows, StatusStep, ReadyStatus;
    VerifyAllFacts(v.api, v.applied, Tally(0, 0, ""));
    VerifyStatus(v);
  }

  lemma VerifyStatus(v: RunState)
    requires v.fn.Verify?
    ensures StatusStep(Verify, v.k.status, StepVerify(v).k.status)
  {
    hide VerifyAll, UniqueTypes;
  }

  lemma {:induction false} EmitAllFacts(a: Api, conds: seq<Condition>, snapshot: Status)
    ensures var r := EmitAll(a, conds, snapshot);
      && r.world == a.world && a.trace <= r.trace && r.faults == a.faults
      && (forall i :: |a.trace| <= i < |r.trace| ==> r.trace[i].Emit?)
    decreases conds
  {
    if conds != [] {
      EmitAllFacts(if Unchanged(conds[0], snapshot) then a else DoEmit(a, EventOf(conds[0])), conds[1..], snapshot);
    }
  }

  lemma EmitEventsFacts(v: RunState, result: Option<Result>, err: Option<Err>)
    requires v.fn == EmitEvents(result, err)
    ensures Facts(v, StepEmitEvents(v, result, err))
  {
    EmitAllFacts(v.api, v.k.status.conditions, v.snapshot);
  }

  // ---- the states that write a CR -----------------------------------------

  /** The CR that a state sends to the API server. */
  function Sent(v: RunState, u: RunState): KedaCR {
    match v.fn
    case Initialize => v.k.(finalizers := v.k.finalizers + {v.env.finalizer})
    case RemoveFinalizer => v.k.(finalizers := v.k.finalizers - {v.env.finalizer})
    case _ => v.k.(annotations := u.k.annotations)
  }

  function WithMeta(s: KedaCR, k: KedaCR): KedaCR {
    s.(finalizers := k.finalizers, annotations := k.annotations, spec := k.spec)
  }

  function Stored(v: RunState): Option<KedaCR> { FindKeda(v.api.world.kedas, v.k.id) }

  /** The keys that the add-on states never write. */
  ghost predicate SameConfig(a: Annotations, b: Annotations) {
    forall key :: key != InstalledVersion && key != InstalledNamespace ==>
      (key in a <==> key in b) && (key in a ==> b[key] == a[key])
  }

  lemma SameConfigItself(a: Annotations)
    ensures SameConfig(a, a)
  {
  }

  /** Every update of the CR carries what the state means to send. */
  ghost predicate MetaCalls(v: RunState, u: RunState) {
    && SameConfig(v.k.annotations, u.k.annotations)
    && forall i :: |v.api.trace| <= i < |u.api.trace| && u.api.trace[i].UpdateMeta? ==>
         && u.api.trace[i].id == v.k.id
         && u.api.trace[i].finalizers == Sent(v, u).finalizers && u.api.trace[i].annotations == Sent(v, u).annotations
  }

  /** The instance is what was sent or, after an accepted update, what the server answered. */
  ghost predicate MetaStep(v: RunState, u: RunState) {
    var sent := Sent(v, u);
    MetaCalls(v, u) && (
    || (u.k == v.k.(status := u.k.status) && u.api.world.kedas == v.api.world.kedas)
    || (u.k == sent.(status := u.k.status)
        && (u.api.world.kedas == v.api.world.kedas || (Stored(v).Some? && u.api.world.kedas == StoreMeta(v.api.world, sent).kedas)))
    || (Stored(v).Some? && u.k == WithMeta(Stored(v).value, sent).(status := u.k.status)
        && u.api.world.kedas == StoreMeta(v.api.world, sent).kedas))
  }

  /** Adding the finalizer answers with the stored status; the add-on states restore theirs. */
  ghost predicate MetaStatus(v: RunState, u: RunState) {
    match v.fn
    case Initialize =>
      || u.k.status == v.k.status
      || (Stored(v).Some? && Put(Stored(v).value.status, u.k.status, Processing, Installed, Unknown, {Initialized})
          && u.api.world.kedas == StoreMeta(v.api.world, Sent(v, u)).kedas
          && !v.k.deleting && v.env.finalizer !in v.k.finalizers)
    case RemoveFinalizer => u.k.status == v.k.status || (Stored(v).Some? && u.k.status == Stored(v).value.status)
    case _ => StatusStep(v.fn, v.k.status, u.k.status)
  }

  ghost predicate StatusWrite(v: RunState, u: RunState) {
    && (u.api.world.kedas == v.api.world.kedas || (Stored(v).Some? && u.api.world.kedas == StoreStatus(v.api.world, v.k).kedas))
    && (u.k == v.k || (Stored(v).Some? && u.k == Stored(v).value.(status := v.k.status)
                       && u.api.world.kedas == StoreStatus(v.api.world, v.k).kedas))
    && |u.api.trace| == |v.api.trace| + 1
    && var c := u.api.trace[|v.api.trace|];
       && c.UpdateStatus? && c.id == v.k.id && c.status == v.k.status
       && (if c.landed then Stored(v).Some? && u.api.world.kedas == StoreStatus(v.api.world, v.k).kedas
           else u.api.world.kedas == v.api.world.kedas)
  }

  predicate WritesMeta(f: StateFn) {
    f.Initialize? || f.ApplyAddon? || f.DeleteAddon? || f.RemoveFinalizer?
  }

  lemma UpdateMetaAnswer(a: Api, k: KedaCR)
    ensures var r := DoUpdateMeta(a, k); var s := FindKeda(a.world.kedas, k.id);
      && (r.api.world.kedas == a.world.kedas || (s.Some? && r.api.world.kedas == StoreMeta(a.world, k).kedas))
      && (r.err.Some? ==> r.keda == k)
      && |r.api.trace| == |a.trace| + 1 && r.api.trace == a.trace + [r.api.trace[|a.trace|]]
      && r.api.trace[|a.trace|].UpdateMeta? && r.api.trace[|a.trace|].id == k.id
      && r.api.trace[|a.trace|].finalizers == k.finalizers && r.api.trace[|a.trace|].annotations == k.annotations
      && (r.err.None? ==> s.Some? && r.keda == WithMeta(s.value, k) && r.api.world.kedas == StoreMeta(a.world, k).kedas)
  {
    hide StoreMeta, UniqueIds;
  }

  lemma InitializeWrites(v: RunState)
    requires v.fn.Initialize?
    ensures MetaStep(v, StepInitialize(v)) && MetaStatus(v, StepInitialize(v))
  {
    hide DoUpdateMeta, StoreMeta, UniqueTypes, UniqueIds;
    var k := v.k.(finalizers := v.k.finalizers + {v.env.finalizer});
    UpdateMetaAnswer(v.api, k);
  }

  lemma RemoveFinalizerWrites(v: RunState)
    requires v.fn.RemoveFinalizer?
    ensures MetaStep(v, StepRemoveFinalizer(v)) && MetaStatus(v, StepRemoveFinalizer(v))
  {
    hide DoUpdateMeta, StoreMeta, UniqueTypes, UniqueIds;
    UpdateMetaAnswer(v.api, v.k.(finalizers := v.k.finalizers - {v.env.finalizer}));
  }

  lemma WriteStatusWrites(v: RunState, result: Option<Result>, err: Option<Err>)
    requires v.fn == WriteStatus(result, err)
    ensures StatusWrite(v, StepWriteStatus(v, result, err))
  {
    hide StoreStatus, UniqueIds;
  }

  // ---- the add-on states --------------------------------------------------

  /** The calls one part of the add-on code makes; CRs, item counts and statuses are not among them. */
  ghost predicate Extends(f: StateFn, a: Api, b: Api) {
    && b.world == a.world.(objs := b.world.objs, namespaces := b.world.namespaces)
    && TraceGrows(f, a, b)
    && (forall i :: |a.trace| <= i < |b.trace| ==> !b.trace[i].UpdateMeta?)
  }

  lemma ExtendsTransitive(f: StateFn, a: Api, b: Api, c: Api)
    requires Extends(f, a, b) && Extends(f, b, c)
    ensures Extends(f, a, c)
  {
    TraceTransitive(f, a, b, c);
  }

  lemma DeleteAllExtends(f: StateFn, a: Api, list: seq<Obj>, acc: Option<Err>)
    requires f.ApplyAddon? || f.DeleteAddon? || f.SafeDeletion?
    ensures Extends(f, a, DeleteAll(a, list, acc).api)
  {
    hide DeleteAll, Keys;
  }

  lemma CleanupExtends(a: Api, src: AddonSource, version: string, ns: string)
    ensures Extends(ApplyAddon, a, CleanupOldAddon(a, src, version, ns))
  {
    hide AddonObjects;
    var f := DoFetch(a, src, version, ns);
    assert Extends(ApplyAddon, a, f.api);
    if f.err.None? {
      var d := DeleteAll(f.api, AddonObjects(src, version, ns, false), None).api;
      DeleteAllExtends(ApplyAddon, f.api, AddonObjects(src, version, ns, false), None);
      ExtendsTransitive(ApplyAddon, a, f.api, d);
      assert Extends(ApplyAddon, d, DeletePeerAuth(d, ns).api);
      ExtendsTransitive(ApplyAddon, a, d, DeletePeerAuth(d, ns).api);
    }
  }

  /** What the add-on states and the CR update at their end amount to. */
  ghost predicate AddonFacts(v: RunState, u: RunState) {
    Facts(v, u) && StatusStep(v.fn, v.k.status, u.k.status) && MetaStep(v, u)
  }

  lemma PersistFacts(v: RunState, w: RunState, ann: Annotations, st: Status)
    requires v.fn.ApplyAddon? || v.fn.DeleteAddon?
    requires w == v.(api := w.api, addonObjs := w.addonObjs) && Extends(v.fn, v.api, w.api)
    requires StatusStep(v.fn, v.k.status, st) && SameConfig(v.k.annotations, ann)
    ensures AddonFacts(v, Persist(w, ann, st))
  {
    hide StatusStep, StoreMeta, UniqueIds, TraceGrows, SameConfig;
    var sent := w.k.(annotations := ann, status := st);
    var r := DoUpdateMeta(w.api, sent);
    UpdateMetaFacts(v.fn, w.api, sent);
    TraceTransitive(v.fn, v.api, w.api, r.api);
    assert StoreMeta(w.api.world, sent).kedas == StoreMeta(v.api.world, Sent(v, Persist(w, ann, st))).kedas by {
      StoreMetaOfKedas(w.api.world, v.api.world, sent, Sent(v, Persist(w, ann, st)));
    }
  }

  lemma TraceTransitive(f: StateFn, a: Api, b: Api, c: Api)
    requires TraceGrows(f, a, b) && TraceGrows(f, b, c)
    ensures TraceGrows(f, a, c)
  {
    forall i | |a.trace| <= i < |c.trace| ensures CallOf(f, c.trace[i]) {
      if i < |b.trace| { assert c.trace[i] == b.trace[i]; }
    }
  }

  /** Only the CRs and the metadata sent matter. */
  lemma StoreMetaOfKedas(w: World, x: World, k: KedaCR, l: KedaCR)
    requires w.kedas == x.kedas && l == k.(status := l.status)
    ensures StoreMeta(w, k).kedas == StoreMeta(x, l).kedas
  {
    hide Replaced, Without, FindKeda, UniqueIds;
  }

  lemma RecordedConfig(ann: Annotations, version: string, ns: string)
    ensures SameConfig(ann, Recorded(ann, version, ns))
  {
  }

  lemma FailedFacts(v: RunState, a: Api, e: Err)
    requires v.fn.ApplyAddon? || v.fn.DeleteAddon?
    requires Extends(v.fn, v.api, a)
    ensures AddonFacts(v, AddonFailed(v.(api := a), e))
  {
  }

  lemma InstallFacts(v: RunState, a: Api, version: string, ns: string, istio: bool)
    requires v.fn.ApplyAddon? && Extends(v.fn, v.api, a)
    ensures AddonFacts(v, Install(v.(api := a), version, ns, istio))
  {
    hide AddonObjects, Persist, AddonFailed, Recorded, ApplyAll, DeletePeerAuth;
    hide AddonFacts;
    var w := v.(api := a);
    var fetched := DoFetch(a, v.env.src, version, ns);
    assert Extends(v.fn, a, fetched.api);
    ExtendsTransitive(v.fn, v.api, a, fetched.api);
    if fetched.err.Some? {
      FailedFacts(v, fetched.api, fetched.err.value);
    } else {
      var list := AddonObjects(v.env.src, version, ns, istio);
      var applied := ApplyAll(fetched.api, list, None);
      ExtendsTransitive(v.fn, v.api, fetched.api, applied.api);
      if applied.err.Some? {
        FailedFacts(v, applied.api, applied.err.value);
      } else {
        var peer := if istio then Rep(applied.api, None) else DeletePeerAuth(applied.api, ns);
        PeerExtends(v.fn, applied.api, ns);
        ExtendsTransitive(v.fn, v.api, applied.api, peer.api);
        if peer.err.Some? {
          FailedFacts(v, peer.api, peer.err.value);
        } else {
          RecordedConfig(v.k.annotations, version, ns);
          PersistFacts(v, v.(api := peer.api, addonObjs := list), Recorded(v.k.annotations, version, ns),
                       WithAddon(v.k.status, True, HttpAddonInstalled, AddonInstalledText(version, ns)));
        }
      }
    }
  }

  lemma PeerExtends(f: StateFn, a: Api, ns: string)
    requires f.ApplyAddon? || f.DeleteAddon? || f.SafeDeletion?
    ensures Extends(f, a, a) && Extends(f, a, DeletePeerAuth(a, ns).api)
  {
  }

  lemma ApplyAddonFacts(v: RunState)
    requires v.fn.ApplyAddon?
    ensures AddonFacts(v, StepApplyAddon(v))
  {
    hide AddonFacts, Install, AddonFailed, CleanupOldAddon;
    var cfg := ReadAddonCfg(v.k.annotations);
    var version, ns := v.env.defaultVersion, cfg.EffectiveNamespace();
    var created := DoCreateNamespace(v.api, ns);
    assert Extends(v.fn, v.api, created.api);
    if created.err.Some? && created.err.value != AlreadyExists {
      FailedFacts(v, created.api, NamespaceErr(ns, created.err.value));
    } else {
      var stale := StaleAddon(v.k.annotations, version, ns);
      var cleaned := if stale.None? then created.api
                     else CleanupOldAddon(created.api, v.env.src, stale.value.0, stale.value.1);
      if stale.Some? {
        CleanupExtends(created.api, v.env.src, stale.value.0, stale.value.1);
        ExtendsTransitive(v.fn, v.api, created.api, cleaned);
      }
      InstallFacts(v, cleaned, version, ns, cfg.istioInjection);
    }
  }

  lemma DeleteAddonFacts(v: RunState)
    requires v.fn.DeleteAddon?
    ensures AddonFacts(v, StepDeleteAddon(v))
  {
    hide AddonObjects, Persist, AddonFailed, Recorded, DeleteAll, DeletePeerAuth;
    hide AddonFacts;
    var lastVersion := Lookup(v.k.annotations, InstalledVersion);
    var recordedNs := Lookup(v.k.annotations, InstalledNamespace);
    var lastNs := if recordedNs == "" then DEFAULT_ADDON_NAMESPACE else recordedNs;
    var off := Stop(WithStatus(v, WithAddon(v.k.status, False, HttpAddonDisabled, AddonDisabledText)), None, None);
    StopFacts(v, v.api, HttpAddonDisabled, AddonDisabledText);
    if !(v.addonObjs == [] && lastVersion == "") {
      var fetched := if v.addonObjs == [] then DoFetch(v.api, v.env.src, lastVersion, lastNs) else Rep(v.api, None);
      assert Extends(v.fn, v.api, fetched.api);
      if fetched.err.Some? {
        StopFacts(v, fetched.api, HttpAddonDeleted, OfErr(fetched.err.value));
      } else {
        var list := if v.addonObjs == [] then AddonObjects(v.env.src, lastVersion, lastNs, false) else v.addonObjs;
        var deleted := DeleteAll(fetched.api, list, None);
        DeleteAllExtends(v.fn, fetched.api, list, None);
        ExtendsTransitive(v.fn, v.api, fetched.api, deleted.api);
        if deleted.err.Some? {
          FailedFacts(v, deleted.api, deleted.err.value);
        } else {
          var peer := DeletePeerAuth(deleted.api, lastNs);
          PeerExtends(v.fn, deleted.api, lastNs);
          ExtendsTransitive(v.fn, v.api, deleted.api, peer.api);
          if peer.err.Some? {
            FailedFacts(v, peer.api, peer.err.value);
          } else {
            RecordedConfig(v.k.annotations, "", "");
            PersistFacts(v, v.(api := peer.api, addonObjs := []), Recorded(v.k.annotations, "", ""),
                         WithAddon(v.k.status, False, HttpAddonDeleted, AddonRemovedText));
          }
        }
      }
    }
  }

  lemma StopFacts(v: RunState, a: Api, r: Reason, m: Message)
    requires v.fn.DeleteAddon? && Extends(v.fn, v.api, a) && r in ADDON_REASONS
    ensures AddonFacts(v, Stop(WithStatus(v.(api := a), WithAddon(v.k.status, False, r, m)), None, None))
  {
  }

  // ---- deletion -----------------------------------------------------------

  lemma {:induction false} CrdCheckExtends(a: Api, objs: seq<Obj>)
    ensures Extends(SafeDeletion, a, CheckCrdOrphans(a, objs).api)
    ensures CheckCrdOrphans(a, objs).api.world == a.world
    decreases objs
  {
    if objs != [] {
      if IsCrd(objs[0]) {
        var c := DoConvert(a);
        assert Extends(SafeDeletion, a, c.api);
        if c.err.None? {
          var r := DoListItems(c.api, CrdGvk(objs[0]));
          assert Extends(SafeDeletion, c.api, r.api);
          ExtendsTransitive(SafeDeletion, a, c.api, r.api);
          CrdCheckExtends(r.api, objs[1..]);
          ExtendsTransitive(SafeDeletion, a, r.api, CheckCrdOrphans(r.api, objs[1..]).api);
        }
      } else {
        CrdCheckExtends(a, objs[1..]);
      }
    }
  }

  lemma {:induction false} PeerAuthsExtend(a: Api, namespaces: seq<string>, acc: Option<Err>)
    ensures Extends(SafeDeletion, a, DeletePeerAuths(a, namespaces, acc).api)
    decreases namespaces
  {
    if namespaces != [] {
      var r := DeletePeerAuth(a, namespaces[0]);
      PeerExtends(SafeDeletion, a, namespaces[0]);
      PeerAuthsExtend(r.api, namespaces[1..], Join(acc, r.err));
      ExtendsTransitive(SafeDeletion, a, r.api, DeletePeerAuths(r.api, namespaces[1..], Join(acc, r.err)).api);
    }
  }

  lemma AddonObjsExtend(a: Api, addonObjs: seq<Obj>)
    ensures Extends(SafeDeletion, a, DeleteAddonObjs(a, addonObjs).api)
  {
    hide DeleteAll, DeletePeerAuths;
    var r := DeleteAll(a, addonObjs, None);
    DeleteAllExtends(SafeDeletion, a, addonObjs, None);
    PeerAuthsExtend(r.api, AddonNamespaces(addonObjs, [DEFAULT_ADDON_NAMESPACE]), r.err);
    ExtendsTransitive(SafeDeletion, a, r.api, DeleteAddonObjs(a, addonObjs).api);
  }

  lemma DeleteModuleStatus(v: RunState, a: Api)
    requires v.fn.SafeDeletion?
    ensures StatusStep(SafeDeletion, v.k.status, DeleteModule(v.(api := a)).k.status)
  {
    hide DeleteAll, DeleteAddonObjs, UniqueTypes;
  }

  lemma DeleteModuleFacts(v: RunState, a: Api)
    requires v.fn.SafeDeletion? && Extends(v.fn, v.api, a)
    ensures Facts(v, DeleteModule(v.(api := a)))
  {
    hide DeleteAll, DeleteAddonObjs, TraceGrows, StatusStep, With, FindCondition, Keys;
    DeleteModuleStatus(v, a);
    var own := DeleteAddonObjs(a, v.addonObjs);
    AddonObjsExtend(a, v.addonObjs);
    ExtendsTransitive(v.fn, v.api, a, own.api);
    var r := DeleteAll(own.api, v.objs + LEASES, None);
    DeleteAllExtends(v.fn, own.api, v.objs + LEASES, None);
    ExtendsTransitive(v.fn, v.api, own.api, r.api);
  }

  lemma AddonCheckExtends(a: Api, addonObjs: seq<Obj>)
    ensures Extends(SafeDeletion, a, CheckAddonOrphans(a, addonObjs).api)
    ensures CheckAddonOrphans(a, addonObjs).api.world == a.world
  {
  }

  lemma SafeDeletionFacts(v: RunState)
    requires v.fn.SafeDeletion?
    ensures Facts(v, StepSafeDeletion(v))
  {
    hide CheckAddonOrphans, CheckCrdOrphans, DeleteModule;
    var addon := CheckAddonOrphans(v.api, v.addonObjs);
    AddonCheckExtends(v.api, v.addonObjs);
    var crds := CheckCrdOrphans(addon.api, v.objs);
    CrdCheckExtends(addon.api, v.objs);
    ExtendsTransitive(v.fn, v.api, addon.api, crds.api);
    if addon.err.None? && crds.err.None? {
      DeleteModuleFacts(v, crds.api);
    }
  }

  // ---- all states ---------------------------------------------------------

  lemma StepFacts(v: RunState)
    requires Sound(v) && !v.fn.Nil?
    ensures Facts(v, Step(v))
    ensures WritesMeta(v.fn) ==> MetaStep(v, Step(v)) && MetaStatus(v, Step(v))
    ensures v.fn.WriteStatus? ==> StatusWrite(v, Step(v))
  {
    hide StepServedFilter, StepTakeSnapshot, StepInitialize, StepValidation, StepFindComponent, StepUpdateObject;
    hide StepApply, StepVerify, StepHandleAddon, StepGuardAddon, StepApplyAddon, StepDeleteAddon;
    hide StepDeleteResources, StepSafeDeletion, StepRemoveFinalizer, StepWriteStatus, StepEmitEvents;
    hide StatusStep, TraceGrows, MetaStep, StatusWrite;
    match v.fn {
      case ServedFilter => ServedFilterFacts(v);
      case TakeSnapshot => TakeSnapshotFacts(v);
      case Initialize => InitializeFacts(v); InitializeWrites(v);
      case BootstrapperValidation => ValidationFacts(v);
      case FindComponent(c) => FindComponentFacts(v, c);
      case UpdateObject(c, e, u) => UpdateObjectFacts(v, c, e, u);
      case Apply => ApplyFacts(v);
      case Verify => VerifyFacts(v);
      case HandleAddon => HandleAddonFacts(v);
      case GuardAddonInUse => GuardAddonFacts(v);
      case ApplyAddon => ApplyAddonFacts(v);
      case DeleteAddon => DeleteAddonFacts(v);
      case DeleteResources => DeleteResourcesFacts(v);
      case SafeDeletion => SafeDeletionFacts(v);
      case RemoveFinalizer => RemoveFinalizerFacts(v); RemoveFinalizerWrites(v);
      case WriteStatus(r, e) => WriteStatusFacts(v, r, e); WriteStatusWrites(v, r, e);
      case EmitEvents(r, e) => EmitEventsFacts(v, r, e);
    }
  }

  lemma StepSound(v: RunState)
    requires Sound(v) && !v.fn.Nil?
    ensures Sound(Step(v))
  {
    hide Step;
    StepFacts(v);
  }

  lemma {:induction false} EnvKept(v: RunState, n: nat)
    requires Sound(v)
    ensures Run(v, n).env == v.env && Run(v, n).k.id == v.k.id && |Run(v, n).objs| == |v.objs|
    decreases n
  {
    hide Step;
    if !Done(v) && n > 0 {
      StepFacts(v);
      EnvKept(Step(v), n - 1);
    }
  }
}
