/** Installing the add-on again after an attempt in which any call may have failed
    (pkg/reconciler/addon.go:298-369). */
module AddonRetry {
  import opened KedaTypes
  import opened Objects
  import opened AddonManifest
  import opened AddonPlacement
  import opened Cluster
  import opened StateMachine
  import opened Transitions
  import opened AddonExactness
  import opened AddonMoves
  import R = AddonRecords

  /** The first attempt begins with objects and records in agreement. */
  ghost predicate Agreed(v: RunState, p: Placement) {
    && v.fn.ApplyAddon? && Exact(v.env.src, v.api.world.objs, p) && Records(v.k.annotations, p)
    && Stored(v).Some? && !Stored(v).value.deleting && Stored(v).value.annotations == v.k.annotations
    && WellFormed(v.env.src) && v.env.defaultVersion in v.env.src.manifests && v.env.defaultVersion != ""
  }

  /** The second one, fault-free, reads what the first has stored. */
  ghost predicate Retries(u: RunState, x: RunState) {
    && x.fn.ApplyAddon? && x.env == u.env && x.api.faults == [] && x.api.world.objs == u.api.world.objs
    && Stored(u).Some? && Stored(x) == Stored(u) && x.k.annotations == Stored(u).value.annotations
  }

  /** The new record is stored while an object of the old installation is still there. */
  ghost predicate Forgotten(v: RunState, u: RunState) {
    && Stored(u).Some? && Stored(u).value.annotations != v.k.annotations
    && exists key :: LeftBehind(v, key) && key in u.api.world.objs
  }

  function Goal(v: RunState): Placement { Placed(Target(v).0, Target(v).1, ReadAddonCfg(v.k.annotations).istioInjection) }

  // ---- what the first attempt leaves --------------------------------------

  lemma RecordAfter(v: RunState, p: Placement)
    requires Agreed(v, p)
    ensures var u := StepApplyAddon(v);
      && Stored(u).Some? && !Stored(u).value.deleting && u.env == v.env
      && (Stored(u).value.annotations == v.k.annotations || Stored(u).value.annotations == Recorded(v.k.annotations, Target(v).0, Target(v).1))
  {
    hide StepApplyAddon, Exact, WellFormed, Records, FindKeda, StoreMeta, Recorded, ReadAddonCfg, TraceGrows, StatusStep, R.NoUpdate, R.Succeeded, MetaCalls, WithAddon;
    var u := StepApplyAddon(v);
    R.ApplyReports(v);
    ApplyAddonFacts(v);
    MetaKeepsAnnotations(v.api.world, Sent(v, u));
  }

  lemma OldOrNew(v: RunState, p: Placement, key: ObjKey)
    requires Agreed(v, p) && IsAddonKey(v.env.src, key) && key in StepApplyAddon(v).api.world.objs
    requires !Owns(v.env.src, Target(v).0, Target(v).1, key)
    ensures p.Placed? && Owns(v.env.src, p.version, p.ns, key) && Old(v) == Some((p.version, p.ns)) && LeftBehind(v, key)
  {
    hide StepApplyAddon, Exact, WellFormed, AddonKeys, FindKeda, ReadAddonCfg, GoneSince, IsAddonKey;
    OutsideOnlyDeleted(v, key);
    ExactIsKnown(v.env.src, v.api.world.objs, p);
    if p.Placed? {
      PlacedKeys(v.env.src, v.api.world.objs, p);
    } else {
      NothingIsNowhere(v.env.src, v.api.world.objs);
      assert false;
    }
  }

  // ---- the second attempt -------------------------------------------------

  lemma SameGoal(ann: Annotations, version: string, ns: string)
    ensures ReadAddonCfg(Recorded(ann, version, ns)) == ReadAddonCfg(ann)
    ensures version != "" ==> StaleAddon(Recorded(ann, version, ns), version, ns) == None
  {
    hide IsTrueFold;
  }

  lemma CleanupClears(a: Api, src: AddonSource, version: string, ns: string)
    requires a.faults == [] && version in src.manifests && ns != ""
    ensures var r := CleanupOldAddon(a, src, version, ns);
      && r.faults == [] && r.world.kedas == a.world.kedas
      && forall key :: key in r.world.objs ==> key in a.world.objs && !Owns(src, version, ns, key)
  {
    hide AddonObjects, DeleteAll, DeletePeerAuth, Keys, AddonKeys;
    AddonKeysByIstio(src, version, ns);
    var f := DoFetch(a, src, version, ns);
    var d := DeleteAll(f.api, AddonObjects(src, version, ns, false), None);
    DeletePeer(d.api, ns);
  }

  /** Before the new installation is applied, nothing but its own objects may be there. */
  lemma RoomAgain(v: RunState, p: Placement, x: RunState) returns (b: Api)
    requires Agreed(v, p) && Retries(StepApplyAddon(v), x) && !Forgotten(v, StepApplyAddon(v))
    ensures StepApplyAddon(x) == Install(x.(api := b), Target(v).0, Target(v).1, ReadAddonCfg(v.k.annotations).istioInjection)
    ensures b.faults == [] && b.world.kedas == x.api.world.kedas
    ensures HasRoom(v.env.src, b.world.objs, Target(v).0, Target(v).1)
  {
    hide CleanupOldAddon, Install, Exact, WellFormed, AddonKeys, FindKeda, ReadAddonCfg, Recorded, IsAddonKey, StaleAddon, Owns, HasRoom;
    var u := StepApplyAddon(v);
    RecordAfter(v, p);
    SameGoal(v.k.annotations, Target(v).0, Target(v).1);
    NamespaceGiven(ReadAddonCfg(v.k.annotations));
    var created := DoCreateNamespace(x.api, Target(v).1);
    b := if Old(x).None? then created.api else CleanupOldAddon(created.api, x.env.src, Old(x).value.0, Old(x).value.1);
    if Old(x).Some? {
      assert x.k.annotations == v.k.annotations;
      OldIsKnown(v, p);
      CleanupClears(created.api, x.env.src, Old(x).value.0, Old(x).value.1);
    }
    forall key | IsAddonKey(v.env.src, key) && key in b.world.objs
      ensures Owns(v.env.src, Target(v).0, Target(v).1, key)
    {
      if !Owns(v.env.src, Target(v).0, Target(v).1, key) {
        OldOrNew(v, p, key);
        assert false;
      }
    }
    OwnedRoom(v.env.src, b.world.objs, Target(v).0, Target(v).1);
  }

  lemma OwnedRoom(src: AddonSource, objs: map<ObjKey, Obj>, version: string, ns: string)
    requires version in src.manifests && forall key :: IsAddonKey(src, key) && key in objs ==> Owns(src, version, ns, key)
    ensures HasRoom(src, objs, version, ns)
  {
    hide AddonKeys, IsAddonKey;
  }

  lemma OldIsKnown(v: RunState, p: Placement)
    requires Agreed(v, p) && Old(v).Some?
    ensures p.Placed? && Known(v.env.src, p) && Old(v) == Some((p.version, p.ns))
  {
    hide Exact, WellFormed, FindKeda, ReadAddonCfg;
    ExactIsKnown(v.env.src, v.api.world.objs, p);
  }

  /** What has been forgotten stays: without an old record nothing is cleaned up. */
  lemma StillForgotten(v: RunState, p: Placement, x: RunState)
    requires Agreed(v, p) && Retries(StepApplyAddon(v), x) && Forgotten(v, StepApplyAddon(v))
    ensures var y := StepApplyAddon(x);
      && Stored(y).Some? && Records(Stored(y).value.annotations, Goal(v)) && !Exact(v.env.src, y.api.world.objs, Goal(v))
  {
    hide StepApplyAddon, CleanupOldAddon, Install, Exact, WellFormed, AddonKeys, FindKeda, ReadAddonCfg, Recorded, IsAddonKey, StaleAddon, Owns, Records, HasRoom, Spared;
    var u := StepApplyAddon(v);
    RecordAfter(v, p);
    var version, ns := Target(v).0, Target(v).1;
    SameGoal(v.k.annotations, version, ns);
    NamespaceGiven(ReadAddonCfg(v.k.annotations));
    var key :| LeftBehind(v, key) && key in u.api.world.objs;
    var created := DoCreateNamespace(x.api, ns);
    var z := x.(api := created.api);
    var y := Install(z, version, ns, Goal(v).istio);
    assert StepApplyAddon(x) == y by { NothingStale(x); }
    InstallPlaces(z, version, ns, Goal(v).istio);
    InstallSpares(z, version, ns, Goal(v).istio, key);
    SparedKeeps(created.api, y.api, key);
    RecordedRecords(x.k.annotations, version, ns, Goal(v));
    NotExact(v.env.src, y.api.world.objs, x.k.annotations, version, ns, Goal(v), key, Old(v).value.0, Old(v).value.1);
  }

  lemma NothingStale(x: RunState)
    requires x.fn.ApplyAddon? && x.api.faults == [] && Old(x).None?
    ensures StepApplyAddon(x) == Install(x.(api := DoCreateNamespace(x.api, Target(x).1).api), Target(x).0, Target(x).1, Goal(x).istio)
  {
    hide Install, ReadAddonCfg, StaleAddon;
  }

  /** Whatever fails in an attempt to install the add-on, a second one with the same configuration and
      without faults puts it exactly in place, unless the first one has recorded the new place and left
      an object of the old one behind; and then it never does. */
  lemma RetryHeals(v: RunState, p: Placement, x: RunState)
    requires Agreed(v, p) && Retries(StepApplyAddon(v), x)
    ensures var u, y := StepApplyAddon(v), StepApplyAddon(x);
      && Stored(y).Some? && Records(Stored(y).value.annotations, Goal(v))
      && (Exact(v.env.src, y.api.world.objs, Goal(v)) <==> !Forgotten(v, u))
  {
    hide StepApplyAddon, Install, Exact, WellFormed, AddonKeys, FindKeda, ReadAddonCfg, Recorded, IsAddonKey, StaleAddon, Owns, Forgotten;
    RecordAfter(v, p);
    SameGoal(v.k.annotations, Target(v).0, Target(v).1);
    NamespaceGiven(ReadAddonCfg(v.k.annotations));
    if Forgotten(v, StepApplyAddon(v)) {
      StillForgotten(v, p, x);
    } else {
      var b := RoomAgain(v, p, x);
      InstallPlaces(x.(api := b), Target(v).0, Target(v).1, ReadAddonCfg(v.k.annotations).istioInjection);
      RecordedRecords(x.k.annotations, Target(v).0, Target(v).1, Goal(v));
    }
  }

  // ---- removing it again --------------------------------------------------

  ghost predicate AgreedOff(v: RunState, p: Placement) {
    && v.fn.DeleteAddon? && v.addonObjs == [] && Exact(v.env.src, v.api.world.objs, p) && Records(v.k.annotations, p)
    && Stored(v).Some? && !Stored(v).value.deleting && Stored(v).value.annotations == v.k.annotations
  }

  ghost predicate RetriesOff(u: RunState, x: RunState) {
    && x.fn.DeleteAddon? && x.addonObjs == [] && x.env == u.env && x.api.faults == [] && x.api.world.objs == u.api.world.objs
    && Stored(u).Some? && Stored(x) == Stored(u) && x.k.annotations == Stored(u).value.annotations
  }

  /** The records are gone while an object of the add-on is still there. */
  ghost predicate ForgottenOff(v: RunState, u: RunState) {
    && Stored(u).Some? && Stored(u).value.annotations != v.k.annotations && !NoneLeft(v.env.src, u.api.world.objs)
  }

  lemma RecordAfterOff(v: RunState, p: Placement)
    requires AgreedOff(v, p)
    ensures var u := StepDeleteAddon(v);
      && Stored(u).Some? && !Stored(u).value.deleting && u.env == v.env
      && (Stored(u).value.annotations == v.k.annotations || Stored(u).value.annotations == Recorded(v.k.annotations, "", ""))
  {
    hide StepDeleteAddon, Exact, WellFormed, Records, FindKeda, StoreMeta, Recorded, ReadAddonCfg, TraceGrows, StatusStep;
    hide R.NoUpdate, R.Removal, R.NotRemoved, MetaCalls, WithAddon;
    var u := StepDeleteAddon(v);
    R.DeleteReports(v);
    DeleteAddonFacts(v);
    MetaKeepsAnnotations(v.api.world, Sent(v, u));
  }

  /** The removing state only deletes. */
  lemma RemovalOnlyDeletes(v: RunState, key: ObjKey)
    requires v.fn.DeleteAddon? && v.addonObjs == []
    ensures OnlyDeleted(v.api, StepDeleteAddon(v).api, key)
  {
    hide OnlyDeleted, AddonObjects, DeleteAll, Persist, Recorded, WithAddon, Lookup;
    var version, ns := Lookup(v.k.annotations, InstalledVersion), R.RecordedNs(v.k.annotations);
    NothingDeleted(v.api, v.api, key);
    if version != "" {
      var f := DoFetch(v.api, v.env.src, version, ns);
      NothingDeleted(v.api, f.api, key);
      if f.err.None? {
        var list := AddonObjects(v.env.src, version, ns, false);
        var d := DeleteAll(f.api, list, None);
        DeletionsLand(f.api, list, None, key);
        OnlyDeletedTransitive(v.api, f.api, d.api, key);
        if d.err.None? {
          var peer := DeletePeerAuth(d.api, ns);
          OneDeletion(d.api, PeerAuthKey(ns), key);
          OnlyDeletedTransitive(v.api, d.api, peer.api, key);
          if peer.err.None? {
            var w := v.(api := peer.api, addonObjs := []);
            var st := WithAddon(v.k.status, False, HttpAddonDeleted, AddonRemovedText);
            UpdateSpares(w, Recorded(v.k.annotations, "", ""), st, key);
            SparedIsOnlyDeleted(peer.api, Persist(w, Recorded(v.k.annotations, "", ""), st).api, key);
            OnlyDeletedTransitive(v.api, peer.api, Persist(w, Recorded(v.k.annotations, "", ""), st).api, key);
          }
        }
      }
    }
  }

  lemma StillOwned(v: RunState, p: Placement, key: ObjKey)
    requires AgreedOff(v, p) && IsAddonKey(v.env.src, key) && key in StepDeleteAddon(v).api.world.objs
    ensures p.Placed? && Owns(v.env.src, p.version, p.ns, key)
  {
    hide StepDeleteAddon, Exact, AddonKeys, FindKeda, GoneSince, IsAddonKey, Records;
    RemovalOnlyDeletes(v, key);
    ExactIsKnown(v.env.src, v.api.world.objs, p);
    if p.Placed? {
      PlacedKeys(v.env.src, v.api.world.objs, p);
    } else {
      NothingIsNowhere(v.env.src, v.api.world.objs);
      assert false;
    }
  }

  /** With a record and without faults, every object of the recorded installation goes, and the record. */
  lemma RemovalClears(x: RunState, version: string, ns: string)
    requires x.fn.DeleteAddon? && x.addonObjs == [] && x.api.faults == [] && Stored(x).Some? && !Stored(x).value.deleting
    requires Lookup(x.k.annotations, InstalledVersion) == version && Lookup(x.k.annotations, InstalledNamespace) == ns
    requires version != "" && ns != "" && version in x.env.src.manifests
    ensures var y := StepDeleteAddon(x);
      && Stored(y).Some? && Stored(y).value.annotations == Recorded(x.k.annotations, "", "")
      && forall key :: key in y.api.world.objs ==> key in x.api.world.objs && !Owns(x.env.src, version, ns, key)
  {
    hide AddonObjects, DeleteAll, DeletePeerAuth, Keys, AddonKeys, Persist, Recorded, WithAddon, FindKeda, Lookup, Acted, NoFetch;
    AddonKeysByIstio(x.env.src, version, ns);
    var f := DoFetch(x.api, x.env.src, version, ns);
    var d := DeleteAll(f.api, AddonObjects(x.env.src, version, ns, false), None);
    DeletePeer(d.api, ns);
    PersistStores(x.(api := DeletePeerAuth(d.api, ns).api, addonObjs := []), Recorded(x.k.annotations, "", ""),
                  WithAddon(x.k.status, False, HttpAddonDeleted, AddonRemovedText));
  }

  lemma SecondDoesNothing(v: RunState, p: Placement, x: RunState)
    requires AgreedOff(v, p) && RetriesOff(StepDeleteAddon(v), x) && Lookup(x.k.annotations, InstalledVersion) == ""
    ensures var y := StepDeleteAddon(x); y.api == x.api && Stored(y) == Stored(x)
    ensures !ForgottenOff(v, StepDeleteAddon(v)) ==> NoneLeft(v.env.src, x.api.world.objs)
  {
    hide StepDeleteAddon, Exact, AddonKeys, FindKeda, IsAddonKey, Owns;
    R.UnrecordedIsNotRemoved(x);
    DeleteAddonFacts(x);
    ExactIsKnown(v.env.src, v.api.world.objs, p);
    forall key | IsAddonKey(v.env.src, key) && key in x.api.world.objs ensures ForgottenOff(v, StepDeleteAddon(v)) {
      StillOwned(v, p, key);
    }
  }

  lemma SecondRemoves(v: RunState, p: Placement, x: RunState)
    requires AgreedOff(v, p) && RetriesOff(StepDeleteAddon(v), x) && Lookup(x.k.annotations, InstalledVersion) != ""
    ensures var y := StepDeleteAddon(x); Stored(y).Some? && Records(Stored(y).value.annotations, Nowhere) && NoneLeft(v.env.src, y.api.world.objs)
    ensures !ForgottenOff(v, StepDeleteAddon(v))
  {
    hide StepDeleteAddon, Exact, AddonKeys, FindKeda, IsAddonKey, Owns;
    RecordAfterOff(v, p);
    ExactIsKnown(v.env.src, v.api.world.objs, p);
    RemovalClears(x, p.version, p.ns);
    RecordedRecords(x.k.annotations, "", "", Nowhere);
    forall key | IsAddonKey(v.env.src, key) ensures key !in StepDeleteAddon(x).api.world.objs {
      if key in StepDeleteAddon(x).api.world.objs {
        StillOwned(v, p, key);
        assert false;
      }
    }
  }

  /** Whatever fails in an attempt to remove the add-on, a second one without faults leaves nothing of it
      and no record, unless the first one has cleared the record and left an object; and then the second
      does nothing. */
  lemma RemovalRetryHeals(v: RunState, p: Placement, x: RunState)
    requires AgreedOff(v, p) && RetriesOff(StepDeleteAddon(v), x)
    ensures var u, y := StepDeleteAddon(v), StepDeleteAddon(x);
      && Stored(y).Some? && Records(Stored(y).value.annotations, Nowhere)
      && (Exact(v.env.src, y.api.world.objs, Nowhere) <==> !ForgottenOff(v, u))
      && (ForgottenOff(v, u) ==> y.api == x.api)
  {
    hide StepDeleteAddon, Exact, FindKeda, NoneLeft;
    NothingIsNowhere(v.env.src, StepDeleteAddon(x).api.world.objs);
    if Lookup(x.k.annotations, InstalledVersion) == "" {
      SecondDoesNothing(v, p, x);
    } else {
      SecondRemoves(v, p, x);
    }
  }
}
