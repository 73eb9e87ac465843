/** Fault-free runs on a live, served CR keep the add-on's objects exactly where the CR's two
    annotations say they are (pkg/reconciler/addon.go). */
module AddonExactness {
  import opened KedaTypes
  import opened Objects
  import opened AddonManifest
  import opened AddonPlacement
  import opened Cluster
  import opened StateMachine
  import opened Transitions
  import Chain = UpdateChain

  /** The annotations tell where the add-on is. */
  predicate Records(ann: Annotations, p: Placement) {
    match p
    case Nowhere => Lookup(ann, InstalledVersion) == ""
    case Placed(version, ns, _) => Lookup(ann, InstalledVersion) == version && Lookup(ann, InstalledNamespace) == ns
  }

  /** Where the configuration wants it. */
  function Wanted(env: Env, ann: Annotations): Placement {
    var cfg := ReadAddonCfg(ann);
    if cfg.enabled then Placed(env.defaultVersion, cfg.EffectiveNamespace(), cfg.istioInjection) else Nowhere
  }

  /** The version to install can be fetched, and the module's own objects are not the add-on's. */
  ghost predicate Suitable(env: Env, objs: seq<Obj>) {
    && WellFormed(env.src) && env.defaultVersion in env.src.manifests && env.defaultVersion != ""
    && forall i :: 0 <= i < |objs| ==> !IsAddonKey(env.src, KeyOf(objs[i]))
  }

  predicate PreWrite(f: StateFn) { !f.WriteStatus? && !f.EmitEvents? && !f.Nil? }

  ghost predicate ExactInv(v: RunState, p: Placement) {
    && v.api.faults == [] && Suitable(v.env, v.objs)
    && Exact(v.env.src, v.api.world.objs, p)
    && Stored(v).Some? && Records(Stored(v).value.annotations, p)
    && !v.fn.DeleteResources? && !v.fn.SafeDeletion? && !v.fn.RemoveFinalizer?
    && (PreWrite(v.fn) ==>
          && v.addonObjs == [] && !v.k.deleting && !Stored(v).value.deleting
          && v.k.annotations == Stored(v).value.annotations)
    && (v.fn.ApplyAddon? ==> ReadAddonCfg(v.k.annotations).enabled)
    && (v.fn.GuardAddonInUse? || v.fn.DeleteAddon? ==> !ReadAddonCfg(v.k.annotations).enabled)
  }

  // ---- what the calls of a run show ---------------------------------------

  /** An add-on state has done its work: it fetched a manifest, and the records it wrote then landed. */
  ghost predicate Acted(t: seq<Call>) {
    exists i, j :: 0 <= i < j < |t| && t[i].FetchManifest? && t[j].UpdateMeta? && t[j].landed
  }

  ghost predicate NoFetch(t: seq<Call>) { forall i :: 0 <= i < |t| ==> !t[i].FetchManifest? }

  lemma ActedOnRecord(t: seq<Call>, c: Call)
    requires c.UpdateMeta? && c.landed && !NoFetch(t)
    ensures Acted(t + [c])
  {
    var i :| 0 <= i < |t| && t[i].FetchManifest?;
    assert (t + [c])[i].FetchManifest? && (t + [c])[|t|] == c;
  }

  lemma FetchStays(t: seq<Call>, r: seq<Call>, c: Call)
    requires t + [c] <= r && c.FetchManifest?
    ensures !NoFetch(r)
  {
    assert r[|t|] == c;
  }

  lemma NothingActed(f: StateFn, a: Api, b: Api)
    requires TraceGrows(f, a, b) && NoFetch(a.trace) && !f.ApplyAddon? && !f.DeleteAddon?
    ensures NoFetch(b.trace) && !Acted(b.trace)
  {
    forall i | 0 <= i < |b.trace| ensures !b.trace[i].FetchManifest? {
      if i < |a.trace| { assert b.trace[i] == a.trace[i]; }
    }
  }

  lemma ActedBefore(f: StateFn, a: Api, b: Api)
    requires TraceGrows(f, a, b) && !PreWrite(f)
    ensures Acted(b.trace) <==> Acted(a.trace)
  {
    assert forall i :: 0 <= i < |a.trace| ==> b.trace[i] == a.trace[i];
  }

  /** The status write and the events are no work of the add-on states. */
  lemma {:induction false} TailActs(v: RunState, n: nat)
    requires !PreWrite(v.fn) && Sound(v)
    ensures Acted(Run(v, n).api.trace) <==> Acted(v.api.trace)
    decreases n
  {
    hide Step, Acted, TraceGrows, StatusStep, MetaStep, MetaStatus, StatusWrite;
    if !Done(v) && n > 0 {
      StepFacts(v);
      ActedBefore(v.fn, v.api, Step(v).api);
      TailActs(Step(v), n - 1);
    }
  }

  // ---- the pieces of an installation, without faults ----------------------

  lemma DeletePeer(a: Api, ns: string)
    requires a.faults == []
    ensures var r := DeletePeerAuth(a, ns);
      a.trace <= r.api.trace && r.err.None? && r.api.faults == [] && r.api.world == a.world.(objs := WithoutPeerAuth(a.world.objs, ns))
  {
  }

  /** The old installation is gone. */
  lemma CleanupRemoves(a: Api, src: AddonSource, p: Placement)
    requires a.faults == [] && p.Placed? && Exact(src, a.world.objs, p)
    ensures var r := CleanupOldAddon(a, src, p.version, p.ns);
      r.faults == [] && NoneLeft(src, r.world.objs) && r.world.kedas == a.world.kedas
  {
    hide AddonObjects, DeleteAll, DeletePeerAuth;
    var f := DoFetch(a, src, p.version, p.ns);
    var list := AddonObjects(src, p.version, p.ns, false);
    var d := DeleteAll(f.api, list, None);
    DeletePeer(d.api, p.ns);
    RemovalLeavesNothing(src, a.world.objs, p.version, p.ns, p.istio);
  }

  /** The CR update at the end of the add-on states. */
  lemma PersistStores(v: RunState, ann: Annotations, st: Status)
    requires v.api.faults == [] && Stored(v).Some? && !Stored(v).value.deleting
    ensures var u := Persist(v, ann, st);
      && u.api.faults == [] && Stored(u).Some? && Stored(u).value.annotations == ann && u.api.world.objs == v.api.world.objs
      && u.fn == WriteStatus(None, None) && u.env == v.env && u.objs == v.objs
      && (!NoFetch(v.api.trace) ==> Acted(u.api.trace))
  {
    hide FindKeda, Without, UniqueIds, NoFetch, Acted;
    assert Stored(v).value.id == v.k.id;
    var r := DoUpdateMeta(v.api, v.k.(annotations := ann, status := st));
    if !NoFetch(v.api.trace) { ActedOnRecord(v.api.trace, r.api.trace[|v.api.trace|]); }
  }

  lemma RecordedRecords(ann: Annotations, version: string, ns: string, p: Placement)
    requires p == (if version == "" then Nowhere else Placed(version, ns, p.Placed? && p.istio))
    ensures Records(Recorded(ann, version, ns), p)
  {
  }

  /** Nothing of another installation is there. */
  ghost predicate HasRoom(src: AddonSource, objs: map<ObjKey, Obj>, version: string, ns: string)
    requires version in src.manifests
  {
    forall key :: IsAddonKey(src, key) && key in objs ==> key in AddonKeys(src, version, ns)
  }

  /** Fetched, applied and recorded; and if there was room, nothing else is there. */
  lemma InstallPlaces(v: RunState, version: string, ns: string, istio: bool)
    requires v.api.faults == [] && WellFormed(v.env.src) && Known(v.env.src, Placed(version, ns, istio))
    requires Stored(v).Some? && !Stored(v).value.deleting
    ensures var u := Install(v, version, ns, istio);
      && u.api.faults == [] && u.fn.WriteStatus? && u.env == v.env && u.objs == v.objs && Stored(u).Some?
      && (HasRoom(v.env.src, v.api.world.objs, version, ns) ==> Exact(v.env.src, u.api.world.objs, Placed(version, ns, istio)))
      && Stored(u).value.annotations == Recorded(v.k.annotations, version, ns) && Acted(u.api.trace)
  {
    hide AddonObjects, ApplyAll, DeletePeerAuth, Persist, Recorded, Exact, IsAddonKey, AddonKeys, WithAddon, FindKeda, AsStored, NoFetch, Acted;
    var fetched := DoFetch(v.api, v.env.src, version, ns);
    var list := AddonObjects(v.env.src, version, ns, istio);
    var applied := ApplyAll(fetched.api, list, None);
    if !istio { DeletePeer(applied.api, ns); }
    var peer := if istio then Rep(applied.api, None) else DeletePeerAuth(applied.api, ns);
    FetchStays(v.api.trace, peer.api.trace, FetchManifest(version, ns, None));
    if HasRoom(v.env.src, v.api.world.objs, version, ns) {
      InstallIsExact(v.env.src, v.api.world.objs, version, ns, istio);
    }
    PersistStores(v.(api := peer.api, addonObjs := list), Recorded(v.k.annotations, version, ns),
                  WithAddon(v.k.status, True, HttpAddonInstalled, AddonInstalledText(version, ns)));
  }

  /** The cluster when the new installation begins: nothing left, or the same place and version. */
  lemma RoomForInstall(a: Api, src: AddonSource, ann: Annotations, p: Placement, version: string, ns: string)
    requires a.faults == [] && Exact(src, a.world.objs, p) && Records(ann, p) && version in src.manifests
    ensures var stale := StaleAddon(ann, version, ns);
      var b := if stale.None? then a else CleanupOldAddon(a, src, stale.value.0, stale.value.1);
      b.faults == [] && b.world.kedas == a.world.kedas && HasRoom(src, b.world.objs, version, ns)
  {
    hide CleanupOldAddon, AddonKeys, IsAddonKey, Exact;
    if p.Placed? {
      if p.ns == ns && p.version == version {
        PlacedKeys(src, a.world.objs, p);
      } else {
        CleanupRemoves(a, src, p);
        assert Known(src, p) by { ExactIsKnown(src, a.world.objs, p); }
      }
      ExactIsKnown(src, a.world.objs, p);
    } else {
      NothingIsNowhere(src, a.world.objs);
    }
  }

  lemma ExactIsKnown(src: AddonSource, objs: map<ObjKey, Obj>, p: Placement)
    requires Exact(src, objs, p)
    ensures Known(src, p)
  {
  }

  // ---- the steps ----------------------------------------------------------

  lemma NamespaceGiven(cfg: AddonCfg)
    ensures cfg.EffectiveNamespace() != ""
  {
    assert |DEFAULT_ADDON_NAMESPACE| == 11;
  }

  lemma ApplyAddonStep(v: RunState, p: Placement)
    requires ExactInv(v, p) && v.fn.ApplyAddon?
    ensures ExactInv(StepApplyAddon(v), Wanted(v.env, v.k.annotations)) && Acted(StepApplyAddon(v).api.trace)
  {
    hide Acted, HasRoom, CleanupOldAddon, Install, WellFormed, Exact, AddonKeys, IsAddonKey, FindKeda, StaleAddon, Lookup;
    var cfg := ReadAddonCfg(v.k.annotations);
    var version, ns := v.env.defaultVersion, cfg.EffectiveNamespace();
    NamespaceGiven(cfg);
    var created := DoCreateNamespace(v.api, ns);
    RoomForInstall(created.api, v.env.src, v.k.annotations, p, version, ns);
    var stale := StaleAddon(v.k.annotations, version, ns);
    var b := if stale.None? then created.api else CleanupOldAddon(created.api, v.env.src, stale.value.0, stale.value.1);
    InstallPlaces(v.(api := b), version, ns, cfg.istioInjection);
    RecordedRecords(v.k.annotations, version, ns, Placed(version, ns, cfg.istioInjection));
  }

  lemma DeleteAddonStep(v: RunState, p: Placement)
    requires ExactInv(v, p) && v.fn.DeleteAddon?
    ensures ExactInv(StepDeleteAddon(v), Nowhere) && (p.Placed? ==> Acted(StepDeleteAddon(v).api.trace))
  {
    hide Acted, NoFetch, AddonObjects, DeleteAll, DeletePeerAuth, Persist, Recorded, Exact, IsAddonKey, WellFormed, WithAddon, FindKeda, ReadAddonCfg, KeyOf, AddonKeys, NoneLeft;
    var src := v.env.src;
    if p.Placed? {
      ExactIsKnown(src, v.api.world.objs, p);
      var f := DoFetch(v.api, src, p.version, p.ns);
      var list := AddonObjects(src, p.version, p.ns, false);
      var d := DeleteAll(f.api, list, None);
      DeletePeer(d.api, p.ns);
      var peer := DeletePeerAuth(d.api, p.ns);
      FetchStays(v.api.trace, peer.api.trace, FetchManifest(p.version, p.ns, None));
      RemovalLeavesNothing(src, v.api.world.objs, p.version, p.ns, p.istio);
      NothingIsNowhere(src, peer.api.world.objs);
      PersistStores(v.(api := peer.api, addonObjs := []), Recorded(v.k.annotations, "", ""),
                    WithAddon(v.k.status, False, HttpAddonDeleted, AddonRemovedText));
      RecordedRecords(v.k.annotations, "", "", Nowhere);
    }
  }

  /** Applying the module does not reach the add-on. */
  lemma {:induction false} ModuleSpares(a: Api, list: seq<Obj>, applied: seq<Applied>, failed: bool, src: AddonSource, p: Placement)
    requires Exact(src, a.world.objs, p) && forall i :: 0 <= i < |list| ==> !IsAddonKey(src, KeyOf(list[i]))
    ensures Exact(src, ApplyModule(a, list, applied, failed).api.world.objs, p)
    decreases list
  {
    hide Exact, IsAddonKey;
    if list != [] {
      var o := Stamped(list[0]);
      var conv := if o.kind == Deployment then DoConvert(a) else Rep(a, None);
      var r := DoPatch(conv.api, o);
      OnePatchSpares(src, a.world.objs, r.api.world.objs, KeyOf(list[0]), o, p);
      ModuleSpares(r.api, list[1..], applied + [Applied(o, StatusOf(r.api.world, KeyOf(o)))],
                   failed || conv.err.Some? || r.err.Some?, src, p);
    }
  }

  lemma OnePatchSpares(src: AddonSource, objs: map<ObjKey, Obj>, after: map<ObjKey, Obj>, key: ObjKey, o: Obj, p: Placement)
    requires Exact(src, objs, p) && !IsAddonKey(src, key) && (after == objs || after == objs[key := o])
    ensures Exact(src, after, p)
  {
    hide Exact, IsAddonKey;
    SparedIsExact(src, objs, after, p);
  }

  lemma ApplyStep(v: RunState, p: Placement)
    requires ExactInv(v, p) && v.fn.Apply?
    ensures ExactInv(StepApply(v), p)
  {
    hide ApplyModule, Exact, IsAddonKey, WellFormed, FindKeda, Failed, Records, Stamped;
    ModuleSpares(v.api, v.objs, v.applied, false, v.env.src, p);
    ApplyModuleFacts(v.api, v.objs, v.applied, false);
    forall i | 0 <= i < |v.objs| ensures KeyOf(AllStamped(v.objs)[i]) == KeyOf(v.objs[i]) { StampedKey(v.objs[i]); }
  }

  lemma EditKeepsKey(c: Chain.Component, e: Chain.Edit, s: KedaSpec, addr: string, o: Obj)
    ensures KeyOf(Chain.EditedObj(c, e, s, addr, o)) == KeyOf(o)
  {
    hide Chain.EditedTemplate, Chain.HasData, Chain.PeeredIngress;
  }

  lemma UpdateStep(v: RunState, c: Chain.Component, e: nat, u: nat, p: Placement)
    requires ExactInv(v, p) && v.fn == UpdateObject(c, e, u) && u < |v.objs|
    ensures ExactInv(StepUpdateObject(v, c, e, u), p)
  {
    hide Exact, IsAddonKey, WellFormed, FindKeda, Failed, Records, ReadAddonCfg, KeyOf, PeerAddress, Chain.EditedObj, Chain.SanitizedSpec, Chain.HasData;
    if e < |Chain.Edits(c)| {
      EditKeepsKey(c, Chain.Edits(c)[e], v.k.spec, PeerAddress(v.env), v.objs[u]);
    }
  }

  lemma InitializeStep(v: RunState, p: Placement)
    requires ExactInv(v, p) && v.fn.Initialize?
    ensures ExactInv(StepInitialize(v), p)
  {
    hide Exact, IsAddonKey, WellFormed, DoUpdateMeta, FindKeda, With, StoreMeta, UniqueIds, Records, TraceGrows;
    var sent := v.k.(finalizers := v.k.finalizers + {v.env.finalizer});
    UpdateMetaAnswer(v.api, sent);
    UpdateMetaFacts(v.fn, v.api, sent);
    UpdateMetaFaultFree(v.api, sent);
    MetaKeepsAnnotations(v.api.world, sent);
  }

  lemma UpdateMetaFaultFree(a: Api, k: KedaCR)
    requires a.faults == []
    ensures DoUpdateMeta(a, k).api.faults == []
  {
    hide StoreMeta, FindKeda;
  }

  lemma WriteStep(v: RunState, u: RunState, p: Placement)
    requires ExactInv(v, p) && v.fn.WriteStatus? && Facts(v, u) && StatusWrite(v, u)
    ensures ExactInv(u, p)
  {
    hide Exact, IsAddonKey, WellFormed, TraceGrows, StoreStatus, UniqueIds, Records, FindKeda;
    StatusKeepsAnnotations(v.api.world, v.k);
    assert u.api.faults == [] by { FaultsStay(v.fn, v.api, u.api); }
  }

  lemma FaultsStay(f: StateFn, a: Api, b: Api)
    requires TraceGrows(f, a, b) && a.faults == []
    ensures b.faults == []
  {
  }

  lemma MetaKeepsAnnotations(w: World, k: KedaCR)
    requires FindKeda(w.kedas, k.id).Some? && !FindKeda(w.kedas, k.id).value.deleting
    ensures var s := FindKeda(StoreMeta(w, k).kedas, k.id); s.Some? && s.value.annotations == k.annotations && !s.value.deleting
  {
    hide FindKeda, Without;
    assert FindKeda(w.kedas, k.id).value.id == k.id;
  }

  lemma StatusKeepsAnnotations(w: World, k: KedaCR)
    requires FindKeda(w.kedas, k.id).Some?
    ensures var s := FindKeda(StoreStatus(w, k).kedas, k.id); s.Some? && s.value.annotations == FindKeda(w.kedas, k.id).value.annotations
  {
    hide FindKeda;
    assert FindKeda(w.kedas, k.id).value.id == k.id;
  }

  /** The states that call nothing that matters here. */
  predicate Harmless(f: StateFn) {
    || f.ServedFilter? || f.TakeSnapshot? || f.BootstrapperValidation? || f.FindComponent? || f.Verify? || f.HandleAddon?
    || f.GuardAddonInUse? || f.EmitEvents?
  }

  lemma HarmlessStep(v: RunState, u: RunState, p: Placement)
    requires ExactInv(v, p) && Harmless(v.fn) && Facts(v, u)
    requires v.fn.HandleAddon? ==> u.fn == if ReadAddonCfg(v.k.annotations).enabled then ApplyAddon else GuardAddonInUse
    ensures ExactInv(u, p)
  {
    hide Exact, IsAddonKey, WellFormed, TraceGrows, Records, FindKeda, ReadAddonCfg, StatusStep, KeyOf;
    FaultsStay(v.fn, v.api, u.api);
  }

  /** The placement after one step: as before, or as wanted once an add-on state has run. */
  function Next(v: RunState, p: Placement): Placement {
    if v.fn.ApplyAddon? || v.fn.DeleteAddon? then Wanted(v.env, v.k.annotations) else p
  }

  lemma StepPlaces(v: RunState, p: Placement)
    requires ExactInv(v, p) && Sound(v) && !v.fn.Nil?
    ensures ExactInv(Step(v), Next(v, p))
    ensures v.fn.ApplyAddon? || v.fn.DeleteAddon? ==> Acted(Step(v).api.trace) || Next(v, p) == p
  {
    hide Acted;
    hide StepServedFilter, StepTakeSnapshot, StepInitialize, StepValidation, StepFindComponent, StepUpdateObject;
    hide StepApply, StepVerify, StepGuardAddon, StepApplyAddon, StepDeleteAddon;
    hide StepDeleteResources, StepSafeDeletion, StepRemoveFinalizer, StepWriteStatus, StepEmitEvents;
    hide Facts, MetaStep, MetaStatus, StatusWrite, Suitable, Exact, Records, ReadAddonCfg, FindKeda;
    match v.fn {
      case Initialize => InitializeStep(v, p);
      case UpdateObject(c, e, u) => UpdateStep(v, c, e, u, p);
      case Apply => ApplyStep(v, p);
      case ApplyAddon => ApplyAddonStep(v, p);
      case DeleteAddon => DeleteAddonStep(v, p);
      case WriteStatus(_, _) => StepFacts(v); WriteStep(v, Step(v), p);
      case _ => StepFacts(v); HarmlessStep(v, Step(v), p);
    }
  }

  /** Where a run with those calls leaves the add-on: where the configuration wants it if an add-on
      state has done its work, else where it was. */
  ghost function PlacedBy(t: seq<Call>, env: Env, ann: Annotations, p: Placement): Placement {
    if Acted(t) then Wanted(env, ann) else p
  }

  /** A run that has not got to the add-on leaves it as its calls tell; one that is past it does not move it. */
  lemma {:induction false} RunPlaces(v: RunState, p: Placement, n: nat)
    requires ExactInv(v, p) && Sound(v) && (PreWrite(v.fn) ==> NoFetch(v.api.trace))
    ensures ExactInv(Run(v, n), if PreWrite(v.fn) then PlacedBy(Run(v, n).api.trace, v.env, v.k.annotations, p) else p)
    decreases n
  {
    hide Step, ExactInv, Wanted, Acted, NoFetch, Facts, MetaStep, MetaStatus, StatusWrite;
    if Done(v) {
      NoFetchYet(v);
    } else if n == 0 {
      CancelPlaces(v, p);
      NoFetchYet(v);
    } else {
      StepPlaces(v, p);
      StepSound(v);
      Onwards(v);
      RunPlaces(Step(v), Next(v, p), n - 1);
      if !PreWrite(Step(v).fn) { TailActs(Step(v), n - 1); }
    }
  }

  /** On the way to the add-on states nothing is fetched and their input stays; after them comes the end. */
  lemma Onwards(v: RunState)
    requires Sound(v) && !v.fn.Nil? && (PreWrite(v.fn) ==> NoFetch(v.api.trace))
    ensures PreWrite(Step(v).fn) ==> PreWrite(v.fn) && Step(v).env == v.env && Step(v).k.annotations == v.k.annotations
    ensures PreWrite(v.fn) && !v.fn.ApplyAddon? && !v.fn.DeleteAddon? ==> NoFetch(Step(v).api.trace) && !Acted(Step(v).api.trace)
    ensures v.fn.ApplyAddon? || v.fn.DeleteAddon? ==> !PreWrite(Step(v).fn)
  {
    hide Step, Acted, NoFetch, TraceGrows, StatusStep, MetaStatus, StatusWrite;
    StepFacts(v);
    if PreWrite(v.fn) && !v.fn.ApplyAddon? && !v.fn.DeleteAddon? {
      NothingActed(v.fn, v.api, Step(v).api);
    }
  }

  lemma NoFetchYet(v: RunState)
    requires PreWrite(v.fn) ==> NoFetch(v.api.trace)
    ensures PreWrite(v.fn) ==> !Acted(v.api.trace)
    ensures v.fn.Nil? ==> !PreWrite(v.fn)
  {
  }

  lemma CancelPlaces(v: RunState, p: Placement)
    requires ExactInv(v, p)
    ensures ExactInv(v.(err := Some(Canceled)), p)
  {
    hide Exact, Suitable, Records;
  }
}
