/** What a healthy run is for: afterwards the cluster holds the module as the spec wants it and the
    add-on as the annotations want it (pkg/reconciler over one whole run). */
module Convergence {
  import opened KedaTypes
  import opened Objects
  import opened AddonManifest
  import opened AddonPlacement
  import opened Cluster
  import opened StateMachine
  import opened Transitions
  import opened RunLoop
  import opened ReadySoundness
  import opened Election
  import opened Controller
  import opened AddonExactness
  import opened AddonHistory
  import opened FaultFree
  import Histories
  import Progress
  import Chain = UpdateChain

  /** The module objects as the spec wants them. */
  function Desired(env: Env, k: KedaCR, objs: seq<Obj>): seq<Obj> {
    AllStamped(Chain.Chained(k.spec, PeerAddress(env), objs))
  }

  /** The cluster holds these objects, except where the add-on's keys are concerned. */
  ghost predicate Holds(src: AddonSource, objs: map<ObjKey, Obj>, list: seq<Obj>) {
    forall key :: key in Keys(list) && !IsAddonKey(src, key) ==> key in objs && Agrees(objs, AsStored(map[], list), key)
  }

  // ---- the module ---------------------------------------------------------

  lemma {:induction false} ModuleStored(a: Api, list: seq<Obj>, applied: seq<Applied>, failed: bool)
    requires a.faults == []
    ensures ApplyModule(a, list, applied, failed).api.world.objs == AsStored(a.world.objs, AllStamped(list))
    decreases list
  {
    hide Stamped, StatusOf;
    if list != [] {
      var o := Stamped(list[0]);
      var conv := if o.kind == Deployment then DoConvert(a) else Rep(a, None);
      var p := DoPatch(conv.api, o);
      ModuleStored(p.api, list[1..], applied + [Applied(o, StatusOf(p.api.world, KeyOf(o)))], failed || conv.err.Some? || p.err.Some?);
      assert AllStamped(list)[1..] == AllStamped(list[1..]);
    }
  }

  lemma StoredHolds(src: AddonSource, objs: map<ObjKey, Obj>, list: seq<Obj>)
    ensures Holds(src, AsStored(objs, list), list)
  {
    hide AsStored, IsAddonKey;
    forall key | key in Keys(list) && !IsAddonKey(src, key)
      ensures key in AsStored(objs, list) && Agrees(AsStored(objs, list), AsStored(map[], list), key)
    {
      AsStoredAt(objs, list, key);
      AsStoredAt(map[], list, key);
    }
  }

  // ---- the add-on states keep to their keys -------------------------------

  ghost predicate OnlyAddon(src: AddonSource, before: map<ObjKey, Obj>, after: map<ObjKey, Obj>) {
    forall key :: !IsAddonKey(src, key) ==> Agrees(after, before, key)
  }

  lemma OnlyAddonTransitive(src: AddonSource, a: map<ObjKey, Obj>, b: map<ObjKey, Obj>, c: map<ObjKey, Obj>)
    requires OnlyAddon(src, a, b) && OnlyAddon(src, b, c)
    ensures OnlyAddon(src, a, c)
  {
    forall key | !IsAddonKey(src, key) ensures Agrees(c, a, key) {
      assert Agrees(b, a, key) && Agrees(c, b, key);
    }
  }

  lemma AddonListKeys(src: AddonSource, version: string, ns: string, istio: bool)
    requires version in src.manifests && ns != ""
    ensures forall key :: key in Keys(AddonObjects(src, version, ns, istio)) ==> IsAddonKey(src, key)
    ensures IsAddonKey(src, PeerAuthKey(ns))
  {
    hide AddonObjects;
    AddonKeysByIstio(src, version, ns);
    forall key | key in AddonKeys(src, version, ns) ensures IsAddonKey(src, key) {
      assert Owns(src, version, ns, key);
    }
  }

  lemma DeletesOnlyAddon(a: Api, src: AddonSource, version: string, ns: string)
    requires version in src.manifests && ns != ""
    ensures var d := DeleteAll(a, AddonObjects(src, version, ns, false), None);
      OnlyAddon(src, a.world.objs, d.api.world.objs) && OnlyAddon(src, a.world.objs, DeletePeerAuth(d.api, ns).api.world.objs)
  {
    hide AddonObjects, DeleteAll, Keys, IsAddonKey;
    AddonListKeys(src, version, ns, false);
    var d := DeleteAll(a, AddonObjects(src, version, ns, false), None);
    PeerOnlyAddon(d.api, src, version, ns);
    OnlyAddonTransitive(src, a.world.objs, d.api.world.objs, DeletePeerAuth(d.api, ns).api.world.objs);
  }

  lemma PeerOnlyAddon(a: Api, src: AddonSource, version: string, ns: string)
    requires version in src.manifests && ns != ""
    ensures OnlyAddon(src, a.world.objs, DeletePeerAuth(a, ns).api.world.objs)
  {
    hide IsAddonKey, AddonObjects;
    AddonListKeys(src, version, ns, false);
  }

  lemma CleanupOnlyAddon(a: Api, src: AddonSource, version: string, ns: string)
    requires ns != ""
    ensures OnlyAddon(src, a.world.objs, CleanupOldAddon(a, src, version, ns).world.objs)
  {
    hide AddonObjects, DeleteAll, DeletePeerAuth, IsAddonKey;
    var f := DoFetch(a, src, version, ns);
    if f.err.None? {
      DeletesOnlyAddon(f.api, src, version, ns);
    }
  }

  lemma InstallOnlyAddon(v: RunState, version: string, ns: string, istio: bool)
    requires ns != ""
    ensures OnlyAddon(v.env.src, v.api.world.objs, Install(v, version, ns, istio).api.world.objs)
  {
    hide AddonObjects, ApplyAll, DeletePeerAuth, IsAddonKey, Recorded, WithAddon, Replaced, Without, FindKeda, UniqueIds, Keys;
    var src := v.env.src;
    var fetched := DoFetch(v.api, src, version, ns);
    if fetched.err.None? {
      var list := AddonObjects(src, version, ns, istio);
      AddonListKeys(src, version, ns, istio);
      var applied := ApplyAll(fetched.api, list, None);
      PeerOnlyAddon(applied.api, src, version, ns);
      OnlyAddonTransitive(src, v.api.world.objs, applied.api.world.objs, DeletePeerAuth(applied.api, ns).api.world.objs);
    }
  }

  /** Installing touches no object that could not be the add-on's. */
  lemma ApplyOnlyAddon(v: RunState)
    requires v.fn.ApplyAddon?
    ensures OnlyAddon(v.env.src, v.api.world.objs, StepApplyAddon(v).api.world.objs)
  {
    hide CleanupOldAddon, Install, IsAddonKey, WithAddon, Lookup;
    var cfg := ReadAddonCfg(v.k.annotations);
    var version, ns := v.env.defaultVersion, cfg.EffectiveNamespace();
    NamespaceGiven(cfg);
    var created := DoCreateNamespace(v.api, ns);
    if created.err.None? || created.err.value == AlreadyExists {
      var stale := StaleAddon(v.k.annotations, version, ns);
      var cleaned := if stale.None? then created.api else CleanupOldAddon(created.api, v.env.src, stale.value.0, stale.value.1);
      if stale.Some? {
        CleanupOnlyAddon(created.api, v.env.src, stale.value.0, stale.value.1);
      }
      var w := v.(api := cleaned);
      InstallOnlyAddon(w, version, ns, cfg.istioInjection);
      OnlyAddonTransitive(v.env.src, v.api.world.objs, cleaned.world.objs, Install(w, version, ns, cfg.istioInjection).api.world.objs);
    }
  }

  /** Nor does removing. */
  lemma DeleteOnlyAddon(v: RunState)
    requires v.fn.DeleteAddon? && v.addonObjs == []
    ensures OnlyAddon(v.env.src, v.api.world.objs, StepDeleteAddon(v).api.world.objs)
  {
    hide AddonObjects, DeleteAll, DeletePeerAuth, IsAddonKey, Recorded, WithAddon, Replaced, Without, FindKeda, UniqueIds, Lookup, Keys;
    assert DEFAULT_ADDON_NAMESPACE != "" by { assert |DEFAULT_ADDON_NAMESPACE| == 11; }
    var version, recordedNs := Lookup(v.k.annotations, InstalledVersion), Lookup(v.k.annotations, InstalledNamespace);
    var ns := if recordedNs == "" then DEFAULT_ADDON_NAMESPACE else recordedNs;
    var fetched := DoFetch(v.api, v.env.src, version, ns);
    if fetched.err.None? {
      DeletesOnlyAddon(fetched.api, v.env.src, version, ns);
    }
  }

  lemma HoldsStays(src: AddonSource, before: map<ObjKey, Obj>, after: map<ObjKey, Obj>, list: seq<Obj>)
    requires Holds(src, before, list) && OnlyAddon(src, before, after)
    ensures Holds(src, after, list)
  {
    hide AsStored, IsAddonKey;
    forall key | key in Keys(list) && !IsAddonKey(src, key) ensures key in after && Agrees(after, AsStored(map[], list), key) {
      assert Agrees(after, before, key) && Agrees(before, AsStored(map[], list), key);
    }
  }

  // ---- a healthy run ------------------------------------------------------

  /** Nothing stands in the way: a valid spec, all components, a healthy module, and an add-on that may
      be removed if it is not wanted. */
  ghost predicate AllWell(k: KedaCR, objs: seq<Obj>, w: World) {
    !Chain.HasRestricted(k.spec) && AllFound(objs) && Healthy(w, objs) && !Warns(k.annotations, w)
  }

  /** The agreement of objects and records outlives everything that happens before the add-on's turn. */
  lemma ExactMoves(v: RunState, x: RunState, p: Placement)
    requires ExactInv(v, p) && PreWrite(v.fn) && (x.fn.Apply? || x.fn.HandleAddon?)
    requires x.env == v.env && x.addonObjs == [] && x.k == v.k.(spec := x.k.spec, status := x.k.status) && x.api.faults == []
    requires x.api.world.kedas == v.api.world.kedas && SameModule(v.objs, x.objs) && Exact(v.env.src, x.api.world.objs, p)
    ensures ExactInv(x, p)
  {
    hide FindKeda, Exact, WellFormed, IsAddonKey, Records;
    forall i | 0 <= i < |x.objs| ensures KeyOf(x.objs[i]) == KeyOf(v.objs[i]) { assert SameObject(v.objs[i], x.objs[i]); }
  }

  lemma ModuleApplied(v: RunState, p: Placement) returns (x: RunState)
    requires Running(v) && v.fn.Apply? && v.applied == [] && ExactInv(v, p)
    requires Healthy(v.api.world, v.objs)
    ensures Finish(v) == Finish(x) && x.fn == HandleAddon && x.err.None? && x.result.None?
    ensures x == v.(fn := HandleAddon, api := x.api, applied := x.applied, objs := AllStamped(v.objs), k := v.k.(status := x.k.status))
    ensures x.api.faults == [] && x.api.world == v.api.world.(objs := x.api.world.objs)
    ensures Exact(v.env.src, x.api.world.objs, p) && Holds(v.env.src, x.api.world.objs, AllStamped(v.objs))
  {
    hide Finish, FindKeda, Exact, WellFormed, IsAddonKey, Records, AllStamped, Stamped, AsStored, Holds, ReadyStatus, ApplyModule, VerifyAll, AppliedAs, VersionOf, With, FailingAt, ReadyAt;
    hide StepServedFilter, StepTakeSnapshot, StepInitialize, StepValidation, StepFindComponent, StepUpdateObject, StepHandleAddon, StepApplyAddon;
    hide StepGuardAddon, StepDeleteAddon, StepDeleteResources, StepSafeDeletion, StepRemoveFinalizer, StepWriteStatus, StepEmitEvents;
    FinishStep(v);
    var y := ApplyOutcome(v);
    ModuleSpares(v.api, v.objs, v.applied, false, v.env.src, p);
    ModuleStored(v.api, v.objs, v.applied, false);
    StoredHolds(v.env.src, v.api.world.objs, AllStamped(v.objs));
    FinishStep(y);
    AppliedElsewhere(v.api.world, y.api.world, v.objs, y.applied);
    VerifyTallies(y, v.objs);
    SameHealth(v.api.world, y.api.world, v.objs);
    x := StepVerify(y);
  }

  lemma SameHealthy(w: World, a: seq<Obj>, b: seq<Obj>)
    requires SameModule(a, b) && Healthy(w, a)
    ensures Healthy(w, b)
  {
    hide ReadyAt, FailingAt, SameModule;
    SameReport(a, b, w);
  }

  /** The state in which the module is done and the add-on's turn comes. */
  lemma ModuleDone(env: Env, k: KedaCR, objs: seq<Obj>, w: World, p: Placement) returns (x: RunState)
    requires LiveCr(env, k, w) && AllWell(k, objs, w)
    requires ExactInv(StartRun(env, k, objs, Api(w, [], [])), p)
    ensures Finish(StartRun(env, k, objs, Api(w, [], []))) == Finish(x)
    ensures x.fn == HandleAddon && x.err.None? && x.result.None? && x.env == env && x.k.annotations == k.annotations && x.k.id == k.id
    ensures ExactInv(x, p) && Holds(env.src, x.api.world.objs, Desired(env, k, objs)) && x.api.world.items == w.items
  {
    hide Finish, FindKeda, Chain.Chained, Chain.SanitizedByChain, PeerAddress, AllFound, Healthy, AllStamped, Chain.HasRestricted, ExactInv, Holds, Exact, SameModule, Warns;
    hide StepApply, StepVerify, StepGuardAddon, StepDeleteAddon, StepDeleteResources, StepSafeDeletion, StepRemoveFinalizer, StepWriteStatus, StepEmitEvents;
    hide StepFindComponent, StepUpdateObject, StepHandleAddon, StepApplyAddon;
    var v0 := StartRun(env, k, objs, Api(w, [], []));
    assert Exact(env.src, w.objs, p) by { ExactOf(v0, p); }
    var v2 := ServedStart(env, k, objs, w);
    var v3 := v2.(fn := BootstrapperValidation);
    var v4 := v3.(fn := FindComponent(Chain.Operator));
    FinishStep(v2);
    FinishStep(v3);
    var xa := ChainRun(v4);
    ChainKeepsAnnotations(k.spec);
    assert Running(v4);
    RunningOn(v4, xa);
    ChainedSame(k.spec, PeerAddress(env), objs);
    ExactMoves(v0, xa, p);
    SameHealthy(w, objs, xa.objs);
    x := ModuleApplied(xa, p);
    StampSame(xa.objs);
    SameModuleTransitive(objs, xa.objs, x.objs);
    ExactMoves(v0, x, p);
  }

  lemma ExactOf(v: RunState, p: Placement)
    requires ExactInv(v, p)
    ensures Exact(v.env.src, v.api.world.objs, p)
  {
  }

  lemma GuardPasses(y: RunState)
    requires y.fn.GuardAddonInUse? && y.api.faults == [] && ItemCount(y.api.world, HSO_GVK) == 0
    ensures var u := StepGuardAddon(y); u.fn == DeleteAddon && u.err.None? && u.api.world == y.api.world && u.k == y.k && u.env == y.env && u.addonObjs == y.addonObjs
  {
  }

  /** From an add-on state to the end: the objects it leaves are those of the wanted placement. */
  lemma AddonDone(y: RunState, p: Placement, list: seq<Obj>)
    requires ExactInv(y, p) && (y.fn.ApplyAddon? || y.fn.DeleteAddon?) && y.err.None? && Holds(y.env.src, y.api.world.objs, list)
    ensures Acted(Finish(y).api.trace) || Wanted(y.env, y.k.annotations) == p
    ensures Holds(y.env.src, Finish(y).api.world.objs, list)
  {
    hide Acted, FindKeda, ReadAddonCfg, Exact, Suitable, Records, Holds, Wanted, Rank;
    hide StepServedFilter, StepTakeSnapshot, StepInitialize, StepValidation, StepFindComponent, StepUpdateObject, StepApplyAddon, StepHandleAddon;
    hide StepApply, StepVerify, StepGuardAddon, StepDeleteAddon, StepDeleteResources, StepSafeDeletion, StepRemoveFinalizer, StepWriteStatus, StepEmitEvents;
    FinishStep(y);
    StepPlaces(y, p);
    if y.fn.ApplyAddon? { ApplyOnlyAddon(y); } else { DeleteOnlyAddon(y); }
    HoldsStays(y.env.src, y.api.world.objs, Step(y).api.world.objs, list);
    AddonStops(y);
    BystanderRun(Step(y), Rank(Step(y).fn));
    TailActs(Step(y), Rank(Step(y).fn));
  }

  lemma AddonStops(y: RunState)
    requires (y.fn.ApplyAddon? || y.fn.DeleteAddon?)
    ensures Step(y).fn.WriteStatus? && Step(y).env == y.env
  {
    hide StepApplyAddon, StepDeleteAddon, TraceGrows, StatusStep, MetaStep, MetaStatus;
    StepFacts(y);
  }

  /** The add-on's turn: it gets where the configuration wants it, and nothing else changes. */
  lemma AddonTurn(x: RunState, p: Placement, list: seq<Obj>)
    requires ExactInv(x, p) && x.fn == HandleAddon && x.err.None?
    requires Holds(x.env.src, x.api.world.objs, list) && !Warns(x.k.annotations, x.api.world)
    ensures Acted(Finish(x).api.trace) || Wanted(x.env, x.k.annotations) == p
    ensures Holds(x.env.src, Finish(x).api.world.objs, list)
  {
    hide Acted, Finish, FindKeda, ReadAddonCfg, Exact, Suitable, Records, Holds, HsoInUse, Wanted;
    hide StepServedFilter, StepTakeSnapshot, StepInitialize, StepValidation, StepFindComponent, StepUpdateObject, StepApplyAddon;
    hide StepApply, StepVerify, StepGuardAddon, StepDeleteAddon, StepDeleteResources, StepSafeDeletion, StepRemoveFinalizer, StepWriteStatus, StepEmitEvents;
    FinishStep(x);
    StepPlaces(x, p);
    var y := Step(x);
    if y.fn.GuardAddonInUse? {
      FinishStep(y);
      StepPlaces(y, p);
      GuardPasses(y);
      y := Step(y);
    }
    AddonDone(y, p, list);
  }

  /** A healthy run on a live, served CR that nobody cancels, whatever was installed before: the add-on
      is exactly where the annotations want it, recorded there, and the module objects are the stamped
      result of the chain for the spec. */
  lemma Converges(s: Sys, id: KedaId, n: nat, p: Placement)
    requires InPlace(s, id, p) && n >= 33
    requires var k := FindKeda(s.world.kedas, id).value; s.env.finalizer in k.finalizers && AllWell(k, s.objs, s.world)
    ensures var k := FindKeda(s.world.kedas, id).value; var t := Reconciled(s, id, [], n);
      && InPlace(t, id, Wanted(s.env, k.annotations)) && PlacedByRun(s, id, [], n, p) == Wanted(s.env, k.annotations)
      && Holds(s.env.src, t.world.objs, Desired(s.env, k, s.objs))
  {
    hide Step, Run, FindKeda, Exact, Suitable, Records, Acted, Holds, Wanted, AllWell, Desired, Histories.SysInv, ExactInv, Rank, Warns;
    var k := FindKeda(s.world.kedas, id).value;
    assert k.id == id;
    var v := StartRun(s.env, k, s.objs, Api(s.world, [], []));
    StartExact(s, k, p);
    var x := ModuleDone(s.env, k, s.objs, s.world, p);
    WellUsed(k, s.objs, s.world, x.api.world);
    AddonTurn(x, p, Desired(s.env, k, s.objs));
    Progress.ReconcileOnce(s, k, n);
    RankBound(v.fn);
    FinishIsRun(v, n);
    OwnRunPlaces(s, id, n, p);
  }

  lemma StartExact(s: Sys, k: KedaCR, p: Placement)
    requires InPlace(s, k.id, p) && FindKeda(s.world.kedas, k.id) == Some(k) && s.env.finalizer in k.finalizers
    ensures ExactInv(StartRun(s.env, k, s.objs, Api(s.world, [], [])), p) && LiveCr(s.env, k, s.world)
  {
    hide FindKeda, Exact, Suitable, Histories.SysInv, Records;
  }

  lemma WellUsed(k: KedaCR, objs: seq<Obj>, w: World, x: World)
    requires AllWell(k, objs, w) && x.items == w.items
    ensures !Warns(k.annotations, x)
  {
    hide FindKeda, AllFound, Healthy, Chain.HasRestricted;
    Progress.SameWarning(k.annotations, w, x);
  }

  // ---- how it begins ------------------------------------------------------

  /** On a cluster without add-on objects the agreement holds as soon as a fresh CR is served. */
  lemma BeginsInPlace(s: Sys, k: KedaCR, n: nat)
    requires Histories.SysInv(s) && NobodyServed(s.world.kedas) && FindKeda(s.world.kedas, k.id) == Some(k) && !k.deleting
    requires Suitable(s.env, s.objs) && NoneLeft(s.env.src, s.world.objs) && Lookup(k.annotations, InstalledVersion) == "" && n >= 33
    ensures InPlace(Reconciled(s, k.id, [], n), k.id, Nowhere)
  {
    hide FindKeda, Exact, Suitable, Finish, Step, Lookup, Histories.AllGuarded, Histories.PassesRecorded, Histories.SecondPasses, Histories.UidsFresh, NobodyServed, NoneLeft;
    var u := Progress.FirstRun(s.env, k, s.objs, s.world);
    Progress.ReconcileOnce(s, k, n);
    Histories.ReconcileKeeps(s, k.id, [], n);
    NothingIsNowhere(s.env.src, s.world.objs);
  }
}
