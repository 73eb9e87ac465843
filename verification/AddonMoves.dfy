/** Moving or upgrading the add-on: what the cleanup of the old installation, whose errors are dropped,
    can leave behind, and that it asks for no HTTPScaledObjects (pkg/reconciler/addon.go:316-325, 429-437). */
module AddonMoves {
  import opened KedaTypes
  import opened Objects
  import opened AddonManifest
  import opened AddonPlacement
  import opened Cluster
  import opened StateMachine
  import opened Transitions
  import opened AddonExactness
  import opened AddonHistory
  import opened RunLoop
  import opened FaultFree
  import opened Controller
  import R = AddonRecords
  import Convergence
  import Histories

  // ---- which deletions reach the server -----------------------------------

  predicate Deletes(c: Call, key: ObjKey) { c.DeleteObj? && c.key == key }

  /** From position n on, a deletion of that key has reached the server. */
  ghost predicate GoneSince(t: seq<Call>, n: nat, key: ObjKey) {
    exists i :: n <= i < |t| && Deletes(t[i], key) && t[i].landed
  }

  ghost predicate AskedSince(t: seq<Call>, n: nat, key: ObjKey) {
    exists i :: n <= i < |t| && Deletes(t[i], key)
  }

  /** From a to b, that key has not been touched but by deletions. */
  ghost predicate OnlyDeleted(a: Api, b: Api, key: ObjKey) {
    && a.trace <= b.trace
    && (key in b.world.objs <==> key in a.world.objs && !GoneSince(b.trace, |a.trace|, key))
  }

  lemma OneDeletion(a: Api, other: ObjKey, key: ObjKey)
    ensures OnlyDeleted(a, DoDelete(a, other).api, key)
  {
    var b := DoDelete(a, other).api;
    assert b.trace[|a.trace|] == DeleteObj(other, Lands(a.Fault()), DoDelete(a, other).err);
  }

  lemma OnlyDeletedTransitive(a: Api, b: Api, c: Api, key: ObjKey)
    requires OnlyDeleted(a, b, key) && OnlyDeleted(b, c, key)
    ensures OnlyDeleted(a, c, key)
  {
    var n, m := |a.trace|, |b.trace|;
    assert forall i :: 0 <= i < m ==> c.trace[i] == b.trace[i];
    assert GoneSince(c.trace, n, key) <==> GoneSince(b.trace, n, key) || GoneSince(c.trace, m, key);
  }

  lemma {:induction false} DeletionsLand(a: Api, list: seq<Obj>, acc: Option<Err>, key: ObjKey)
    ensures OnlyDeleted(a, DeleteAll(a, list, acc).api, key)
    decreases list
  {
    hide OnlyDeleted;
    if list != [] {
      var p := DoDelete(a, KeyOf(list[0]));
      OneDeletion(a, KeyOf(list[0]), key);
      DeletionsLand(p.api, list[1..], Join(acc, IgnoreNotFound(p.err)), key);
      OnlyDeletedTransitive(a, p.api, DeleteAll(a, list, acc).api, key);
    } else {
      NothingDeleted(a, a, key);
    }
  }

  lemma NothingDeleted(a: Api, b: Api, key: ObjKey)
    requires a.trace <= b.trace && (key in b.world.objs <==> key in a.world.objs)
    requires forall i :: |a.trace| <= i < |b.trace| ==> !Deletes(b.trace[i], key)
    ensures OnlyDeleted(a, b, key)
  {
  }

  // ---- the cleanup --------------------------------------------------------

  lemma CleanupOnlyDeletes(a: Api, src: AddonSource, version: string, ns: string, key: ObjKey)
    ensures OnlyDeleted(a, CleanupOldAddon(a, src, version, ns), key)
  {
    hide OnlyDeleted, DeleteAll, AddonObjects;
    var f := DoFetch(a, src, version, ns);
    NothingDeleted(a, f.api, key);
    if f.err.None? {
      var list := AddonObjects(src, version, ns, false);
      var d := DeleteAll(f.api, list, None).api;
      DeletionsLand(f.api, list, None, key);
      OneDeletion(d, PeerAuthKey(ns), key);
      OnlyDeletedTransitive(a, f.api, d, key);
      OnlyDeletedTransitive(a, d, DeletePeerAuth(d, ns).api, key);
    }
  }

  /** The cleanup starts with the fetch; if that fails it ends there, else it asks for the deletion of
      every key of the old installation. */
  lemma CleanupAsks(a: Api, src: AddonSource, version: string, ns: string, key: ObjKey)
    requires Owns(src, version, ns, key)
    ensures var t, n := CleanupOldAddon(a, src, version, ns).trace, |a.trace|;
      && n < |t| && t[n].FetchManifest? && t[n].version == version && t[n].ns == ns
      && (AskedSince(t, n, key) <==> t[n].err.None?)
  {
    hide DeleteAll, AddonObjects, AddonKeys, Keys;
    AddonKeysByIstio(src, version, ns);
    var n := |a.trace|;
    var f := DoFetch(a, src, version, ns);
    if f.err.None? {
      var list := AddonObjects(src, version, ns, false);
      var d := DeleteAll(f.api, list, None).api;
      var t := DeletePeerAuth(d, ns).api.trace;
      assert f.api.trace[n] == d.trace[n] == t[n];
      if key == PeerAuthKey(ns) {
        assert Deletes(t[|d.trace|], key);
      } else {
        var i := PositionOf(list, key);
        assert t[n + 1 + i] == d.trace[n + 1 + i];
        assert Deletes(d.trace[|f.api.trace| + i], key);
      }
    }
  }

  lemma PositionOf(list: seq<Obj>, key: ObjKey) returns (i: nat)
    requires key in Keys(list)
    ensures i < |list| && KeyOf(list[i]) == key
  {
    i :| i < |list| && KeyOf(list[i]) == key;
  }

  // ---- the installation after it ------------------------------------------

  /** From a to b, that key has been left alone. */
  ghost predicate Spared(a: Api, b: Api, key: ObjKey) {
    && a.trace <= b.trace && (key in b.world.objs <==> key in a.world.objs)
    && forall i :: |a.trace| <= i < |b.trace| ==> !Deletes(b.trace[i], key)
  }

  lemma SparedTransitive(a: Api, b: Api, c: Api, key: ObjKey)
    requires Spared(a, b, key) && Spared(b, c, key)
    ensures Spared(a, c, key)
  {
    assert forall i :: 0 <= i < |b.trace| ==> c.trace[i] == b.trace[i];
  }

  lemma UpdateSpares(v: RunState, ann: Annotations, st: Status, key: ObjKey)
    ensures Spared(v.api, Persist(v, ann, st).api, key)
  {
    hide FindKeda, Replaced, Without, UniqueIds;
    assert Persist(v, ann, st).api.world.objs == v.api.world.objs;
  }

  lemma PatchesSpare(a: Api, list: seq<Obj>, key: ObjKey)
    requires key !in Keys(list)
    ensures Spared(a, ApplyAll(a, list, None).api, key)
  {
    hide Keys, ApplyAll;
    var b := ApplyAll(a, list, None).api;
    forall i | |a.trace| <= i < |b.trace| ensures !Deletes(b.trace[i], key) { assert b.trace[i].PatchObj?; }
  }

  lemma OtherDeletionSpares(a: Api, ns: string, key: ObjKey)
    requires key != PeerAuthKey(ns)
    ensures Spared(a, a, key) && Spared(a, DeletePeerAuth(a, ns).api, key)
  {
  }

  /** It does not touch the key of another installation. */
  lemma InstallSpares(v: RunState, version: string, ns: string, istio: bool, key: ObjKey)
    requires ns != "" && !Owns(v.env.src, version, ns, key)
    ensures Spared(v.api, Install(v, version, ns, istio).api, key)
  {
    hide Spared, AddonObjects, AddonKeys, Keys, ApplyAll, DeletePeerAuth, Persist, Recorded, WithAddon;
    var fetched := DoFetch(v.api, v.env.src, version, ns);
    assert Spared(v.api, fetched.api, key) by { FetchSpares(v.api, v.env.src, version, ns, key); }
    if fetched.err.None? {
      AddonKeysByIstio(v.env.src, version, ns);
      var list := AddonObjects(v.env.src, version, ns, istio);
      var applied := ApplyAll(fetched.api, list, None);
      assert key !in Keys(list) by { SidecarKeys(v.env.src, version, ns, istio); }
      PatchesSpare(fetched.api, list, key);
      SparedTransitive(v.api, fetched.api, applied.api, key);
      if applied.err.None? {
        var peer := if istio then Rep(applied.api, None) else DeletePeerAuth(applied.api, ns);
        OtherDeletionSpares(applied.api, ns, key);
        SparedTransitive(v.api, applied.api, peer.api, key);
        if peer.err.None? {
          var w := v.(api := peer.api, addonObjs := list);
          var st := WithAddon(v.k.status, True, HttpAddonInstalled, AddonInstalledText(version, ns));
          UpdateSpares(w, Recorded(v.k.annotations, version, ns), st, key);
          SparedTransitive(v.api, peer.api, Persist(w, Recorded(v.k.annotations, version, ns), st).api, key);
        }
      }
    }
  }

  lemma FetchSpares(a: Api, src: AddonSource, version: string, ns: string, key: ObjKey)
    ensures Spared(a, DoFetch(a, src, version, ns).api, key)
  {
  }

  lemma SidecarKeys(src: AddonSource, version: string, ns: string, istio: bool)
    requires version in src.manifests
    ensures Keys(AddonObjects(src, version, ns, istio)) <= AddonKeys(src, version, ns)
  {
    hide AddonObjects, Keys;
    AddonKeysByIstio(src, version, ns);
  }

  // ---- the whole state ----------------------------------------------------

  /** What the installing state wants, and what it takes for the old installation. */
  function Target(v: RunState): (string, string) {
    (v.env.defaultVersion, ReadAddonCfg(v.k.annotations).EffectiveNamespace())
  }

  function Old(v: RunState): Option<(string, string)> { StaleAddon(v.k.annotations, Target(v).0, Target(v).1) }

  /** An object of the old installation and not of the new one. */
  predicate LeftBehind(v: RunState, key: ObjKey) {
    && Old(v).Some? && Owns(v.env.src, Old(v).value.0, Old(v).value.1, key)
    && !Owns(v.env.src, Target(v).0, Target(v).1, key)
  }

  /** The state's calls begin with the namespace and the cleanup's fetch; only if both go through is the
      object's deletion asked for. HTTPScaledObjects are never counted. */
  ghost predicate Moves(v: RunState, t: seq<Call>, key: ObjKey)
    requires Old(v).Some?
  {
    var n := |v.api.trace|;
    && n < |t| && t[n].CreateNamespace?
    && (R.NamespaceOk(t[n], Target(v).1) ==>
          n + 1 < |t| && t[n + 1].FetchManifest? && (t[n + 1].version, t[n + 1].ns) == Old(v).value)
    && (AskedSince(t, n, key) <==> CleanupBegun(v, t))
    && forall i :: n <= i < |t| ==> !t[i].ListItems?
  }

  ghost predicate CleanupBegun(v: RunState, t: seq<Call>) {
    var n := |v.api.trace|;
    n + 1 < |t| && R.NamespaceOk(t[n], Target(v).1) && t[n + 1].FetchManifest? && t[n + 1].err.None?
  }

  /** Whatever its calls answer: the installing state asks for each object of the old installation to be
      deleted unless the namespace or the old manifest's fetch fails, and such an object survives exactly
      if that happens or none of its deletions reaches the server. */
  lemma LeftoverMeaning(v: RunState, key: ObjKey)
    requires v.fn.ApplyAddon? && LeftBehind(v, key)
    ensures Moves(v, StepApplyAddon(v).api.trace, key)
    ensures var u := StepApplyAddon(v);
      key in v.api.world.objs ==> (key in u.api.world.objs <==>
        !CleanupBegun(v, u.api.trace) || forall i :: |v.api.trace| <= i < |u.api.trace| && Deletes(u.api.trace[i], key) ==> !u.api.trace[i].landed)
  {
    hide CleanupOldAddon, Install, OnlyDeleted, Spared, AddonKeys, StaleAddon, ReadAddonCfg;
    NamespaceGiven(ReadAddonCfg(v.k.annotations));
    var cfg := ReadAddonCfg(v.k.annotations);
    var created := DoCreateNamespace(v.api, Target(v).1);
    assert Spared(v.api, created.api, key) by { CreateSpares(v.api, Target(v).1, key); }
    StepLists(v);
    var u := StepApplyAddon(v);
    if R.NamespaceOk(created.api.trace[|v.api.trace|], Target(v).1) {
      var cleaned := CleanupOldAddon(created.api, v.env.src, Old(v).value.0, Old(v).value.1);
      CleanupOnlyDeletes(created.api, v.env.src, Old(v).value.0, Old(v).value.1, key);
      CleanupAsks(created.api, v.env.src, Old(v).value.0, Old(v).value.1, key);
      var w := v.(api := cleaned);
      InstallSpares(w, Target(v).0, Target(v).1, cfg.istioInjection, key);
      assert u == Install(w, Target(v).0, Target(v).1, cfg.istioInjection);
      CleanupSeen(v.api, created.api, cleaned, u.api, key);
    } else {
      assert u.api == created.api;
      NotAsked(v.api, created.api, key);
    }
  }

  /** A key that the new installation does not have can only be deleted. */
  lemma OutsideOnlyDeleted(v: RunState, key: ObjKey)
    requires v.fn.ApplyAddon? && !Owns(v.env.src, Target(v).0, Target(v).1, key)
    ensures OnlyDeleted(v.api, StepApplyAddon(v).api, key)
  {
    hide CleanupOldAddon, Install, OnlyDeleted, Spared, AddonKeys, StaleAddon, ReadAddonCfg, Owns;
    NamespaceGiven(ReadAddonCfg(v.k.annotations));
    var cfg := ReadAddonCfg(v.k.annotations);
    var created := DoCreateNamespace(v.api, Target(v).1);
    CreateSpares(v.api, Target(v).1, key);
    SparedIsOnlyDeleted(v.api, created.api, key);
    if created.err.None? || created.err == Some(AlreadyExists) {
      var cleaned := if Old(v).None? then created.api else CleanupOldAddon(created.api, v.env.src, Old(v).value.0, Old(v).value.1);
      if Old(v).Some? { CleanupOnlyDeletes(created.api, v.env.src, Old(v).value.0, Old(v).value.1, key); }
      var w := v.(api := cleaned);
      InstallSpares(w, Target(v).0, Target(v).1, cfg.istioInjection, key);
      var u := Install(w, Target(v).0, Target(v).1, cfg.istioInjection);
      SparedIsOnlyDeleted(cleaned, u.api, key);
      if Old(v).Some? { OnlyDeletedTransitive(v.api, created.api, cleaned, key); }
      OnlyDeletedTransitive(v.api, cleaned, u.api, key);
    }
  }

  lemma SparedIsOnlyDeleted(a: Api, b: Api, key: ObjKey)
    requires Spared(a, b, key)
    ensures OnlyDeleted(a, b, key)
  {
  }

  lemma CreateSpares(a: Api, ns: string, key: ObjKey)
    ensures Spared(a, DoCreateNamespace(a, ns).api, key)
  {
  }

  lemma NotAsked(a: Api, b: Api, key: ObjKey)
    requires Spared(a, b, key)
    ensures !AskedSince(b.trace, |a.trace|, key) && (key in b.world.objs <==> key in a.world.objs)
  {
  }

  /** Of the three parts, only the one in the middle can delete the key. */
  lemma CleanupSeen(a: Api, b: Api, c: Api, d: Api, key: ObjKey)
    requires Spared(a, b, key) && OnlyDeleted(b, c, key) && Spared(c, d, key)
    requires |a.trace| + 1 == |b.trace| < |c.trace|
    ensures a.trace <= b.trace <= c.trace <= d.trace
    ensures AskedSince(d.trace, |a.trace|, key) <==> AskedSince(c.trace, |b.trace|, key)
    ensures key in d.world.objs <==> key in a.world.objs && !GoneSince(d.trace, |a.trace|, key)
  {
    assert forall i :: 0 <= i < |c.trace| ==> d.trace[i] == c.trace[i];
    assert forall i :: 0 <= i < |b.trace| ==> c.trace[i] == b.trace[i];
    assert AskedSince(d.trace, |a.trace|, key) <==> AskedSince(c.trace, |b.trace|, key);
    assert GoneSince(d.trace, |a.trace|, key) <==> GoneSince(c.trace, |b.trace|, key);
  }

  lemma StepLists(v: RunState)
    requires v.fn.ApplyAddon?
    ensures var t := StepApplyAddon(v).api.trace; forall i :: |v.api.trace| <= i < |t| ==> !t[i].ListItems?
  {
    hide StepApplyAddon, StatusStep, MetaStep;
    ApplyAddonFacts(v);
  }

  // ---- a leftover that nobody reports -------------------------------------

  /** Just the fetch of the old manifest is refused. */
  ghost predicate OldFetchRefused(v: RunState, e: Err) {
    && v.api.faults == [NoFault, Refused(e)] && Running(v.(api := v.api.(faults := [])))
  }

  lemma RefusedCleanup(v: RunState, e: Err) returns (cleaned: Api)
    requires v.fn.ApplyAddon? && Old(v).Some? && OldFetchRefused(v, e)
    ensures StepApplyAddon(v) == Install(v.(api := cleaned), Target(v).0, Target(v).1, ReadAddonCfg(v.k.annotations).istioInjection)
    ensures cleaned.faults == [] && cleaned.world == v.api.world.(namespaces := cleaned.world.namespaces)
    ensures |cleaned.trace| == |v.api.trace| + 2
         && cleaned.trace[|v.api.trace| + 1] == FetchManifest(Old(v).value.0, Old(v).value.1, Some(e))
  {
    hide Install, StaleAddon, ReadAddonCfg, FindKeda;
    var created := DoCreateNamespace(v.api, Target(v).1);
    assert created.api.faults == [Refused(e)];
    cleaned := CleanupOldAddon(created.api, v.env.src, Old(v).value.0, Old(v).value.1);
  }

  /** A move that leaves an object of the old installation behind, reports AddonInstalled=True and records
      the new place, so that no later run knows of the old one: there is no placement that the records
      tell and the cluster holds exactly. */
  lemma LeftoverIsForgotten(v: RunState, e: Err, key: ObjKey)
    requires v.fn.ApplyAddon? && LeftBehind(v, key) && key in v.api.world.objs && OldFetchRefused(v, e)
    requires v.env.defaultVersion in v.env.src.manifests && v.env.defaultVersion != ""
    ensures var u := StepApplyAddon(v);
      && key in u.api.world.objs && R.AddonTrue(u.k.status)
      && Stored(u).Some? && Stored(u).value.annotations == Recorded(v.k.annotations, Target(v).0, Target(v).1)
      && forall p :: Records(Stored(u).value.annotations, p) ==> !Exact(v.env.src, u.api.world.objs, p)
  {
    hide Install, StaleAddon, ReadAddonCfg, FindKeda, Recorded, Exact, Records, AddonKeys, Spared, FindCondition;
    var cleaned := RefusedCleanup(v, e);
    var w := v.(api := cleaned);
    var x := v.(api := v.api.(faults := []));
    var version, ns, istio := Target(v).0, Target(v).1, ReadAddonCfg(v.k.annotations).istioInjection;
    var u := StepApplyAddon(v);
    assert x.(api := cleaned) == w;
    InstallOutcome(x, cleaned, version, ns, istio);
    NamespaceGiven(ReadAddonCfg(v.k.annotations));
    InstallSpares(w, version, ns, istio, key);
    SparedKeeps(cleaned, u.api, key);
    AddonIsTrue(v.k.status, AddonInstalledText(version, ns));
    forall p | Records(Stored(u).value.annotations, p) ensures !Exact(v.env.src, u.api.world.objs, p) {
      NotExact(v.env.src, u.api.world.objs, v.k.annotations, version, ns, p, key, Old(v).value.0, Old(v).value.1);
    }
  }

  lemma SparedKeeps(a: Api, b: Api, key: ObjKey)
    requires Spared(a, b, key)
    ensures key in b.world.objs <==> key in a.world.objs
  {
  }

  lemma AddonIsTrue(s: Status, m: Message)
    ensures R.AddonTrue(WithAddon(s, True, HttpAddonInstalled, m))
  {
  }

  lemma NotExact(src: AddonSource, objs: map<ObjKey, Obj>, ann: Annotations, version: string, ns: string, p: Placement, key: ObjKey, oldVersion: string, oldNs: string)
    requires Records(Recorded(ann, version, ns), p) && version != "" && ns != "" && version in src.manifests
    requires key in objs && Owns(src, oldVersion, oldNs, key) && !Owns(src, version, ns, key)
    ensures !Exact(src, objs, p)
  {
    hide Exact, AddonKeys;
    assert IsAddonKey(src, key);
    if Exact(src, objs, p) {
      PlacedKeys(src, objs, p);
      assert false;
    }
  }

  // ---- moving while the add-on is in use ----------------------------------

  ghost predicate NoList(t: seq<Call>) { forall i :: 0 <= i < |t| ==> !t[i].ListItems? }

  lemma NotListed(f: StateFn, a: Api, b: Api)
    requires TraceGrows(f, a, b) && NoList(a.trace) && !f.GuardAddonInUse? && !f.SafeDeletion?
    ensures NoList(b.trace)
  {
    forall i | 0 <= i < |b.trace| ensures !b.trace[i].ListItems? {
      if i < |a.trace| { assert b.trace[i] == a.trace[i]; }
    }
  }

  /** With the add-on switched on, a fault-free run on a live CR counts nothing. */
  lemma {:induction false} EnabledListsNothing(v: RunState, p: Placement, n: nat)
    requires ExactInv(v, p) && Sound(v) && NoFetchBefore(v) && NoList(v.api.trace)
    requires PreWrite(v.fn) ==> ReadAddonCfg(v.k.annotations).enabled
    ensures NoList(Run(v, n).api.trace)
    decreases n
  {
    hide Step, Wanted, Acted, NoFetch, NoList, MetaStep, MetaStatus, StatusWrite, TraceGrows, StatusStep, Exact, Suitable, Records, FindKeda, ReadAddonCfg;
    if !Done(v) && n > 0 {
      StepPlaces(v, p);
      StepFacts(v);
      Onwards(v);
      NotListed(v.fn, v.api, Step(v).api);
      EnabledListsNothing(Step(v), Next(v, p), n - 1);
    }
  }

  ghost predicate NoFetchBefore(v: RunState) { PreWrite(v.fn) ==> NoFetch(v.api.trace) }

  /** A healthy fault-free run that moves or upgrades the add-on deletes every object of the old
      installation that the new one does not have, without asking for HTTPScaledObjects, however many
      there are; the guard stands only before a removal. */
  lemma MoveIgnoresUse(s: Sys, id: KedaId, n: nat, p: Placement, key: ObjKey)
    requires InPlace(s, id, p) && n >= 33
    requires var k := FindKeda(s.world.kedas, id).value; s.env.finalizer in k.finalizers && Convergence.AllWell(k, s.objs, s.world)
    requires var k := FindKeda(s.world.kedas, id).value;
      ReadAddonCfg(k.annotations).enabled && !Owns(s.env.src, s.env.defaultVersion, ReadAddonCfg(k.annotations).EffectiveNamespace(), key)
    requires IsAddonKey(s.env.src, key)
    ensures var k := FindKeda(s.world.kedas, id).value;
      && key !in Reconciled(s, id, [], n).world.objs
      && NoList(RunOf(s, k, [], n).api.trace)
  {
    hide Run, FindKeda, Exact, Suitable, Records, Convergence.AllWell, Histories.SysInv, ReadAddonCfg, NoList, Owns;
    var k := FindKeda(s.world.kedas, id).value;
    assert k.id == id;
    var v := StartRun(s.env, k, s.objs, Api(s.world, [], []));
    Convergence.StartExact(s, k, p);
    EnabledListsNothing(v, p, n) by { assert NoList([]) by { Unlisted(); } }
    Convergence.Converges(s, id, n, p);
    NamespaceGiven(ReadAddonCfg(k.annotations));
    assert s.env.src == Reconciled(s, id, [], n).env.src;
    OutsideIsGone(s.env.src, Reconciled(s, id, [], n).world.objs, Wanted(s.env, k.annotations), key);
  }

  lemma Unlisted()
    ensures NoList([])
  {
  }

  lemma OutsideIsGone(src: AddonSource, objs: map<ObjKey, Obj>, p: Placement, key: ObjKey)
    requires Exact(src, objs, p) && p.Placed? && IsAddonKey(src, key) && !Owns(src, p.version, p.ns, key)
    ensures key !in objs
  {
    hide Exact, AddonKeys;
    ExactIsKnown(src, objs, p);
    PlacedKeys(src, objs, p);
  }
}
