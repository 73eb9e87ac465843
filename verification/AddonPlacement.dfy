/** Where the HTTP add-on is, and what installing, moving and removing it do to the objects in the
    cluster (pkg/reconciler/addon.go:193-243, 298-437). */
module AddonPlacement {
  import opened KedaTypes
  import opened Objects
  import opened AddonManifest
  import opened Cluster
  import opened StateMachine

  /** What should be there: nothing, or one version in one namespace. */
  datatype Placement = Nowhere | Placed(version: string, ns: string, istio: bool)

  /** The PeerAuthentication comes from the reconciler alone. */
  ghost predicate WellFormed(src: AddonSource) {
    && (forall version, i :: version in src.manifests && 0 <= i < |src.manifests[version]| ==>
          src.manifests[version][i].kind != PeerAuthentication)
    && (forall i :: 0 <= i < |src.policies| ==> src.policies[i].kind != PeerAuthentication)
  }

  predicate Owns(src: AddonSource, version: string, ns: string, key: ObjKey) {
    version in src.manifests && ns != "" && key in AddonKeys(src, version, ns)
  }

  /** The keys that some installation of the add-on can own. */
  ghost predicate IsAddonKey(src: AddonSource, key: ObjKey) {
    exists version, ns :: Owns(src, version, ns, key)
  }

  function Contents(src: AddonSource, p: Placement): map<ObjKey, Obj>
    requires p.Placed? ==> p.version in src.manifests
  {
    match p
    case Nowhere => map[]
    case Placed(version, ns, istio) => AsStored(map[], AddonObjects(src, version, ns, istio))
  }

  predicate Known(src: AddonSource, p: Placement) {
    p.Placed? ==> p.version in src.manifests && p.version != "" && p.ns != ""
  }

  /** Of all objects that could belong to an add-on, the cluster holds exactly those of p. */
  ghost predicate Exact(src: AddonSource, objs: map<ObjKey, Obj>, p: Placement) {
    Known(src, p) && forall key :: IsAddonKey(src, key) ==> Agrees(objs, Contents(src, p), key)
  }

  predicate Agrees(a: map<ObjKey, Obj>, b: map<ObjKey, Obj>, key: ObjKey) {
    (key in a <==> key in b) && (key in a ==> a[key] == b[key])
  }

  ghost predicate NoneLeft(src: AddonSource, objs: map<ObjKey, Obj>) {
    forall key :: IsAddonKey(src, key) ==> key !in objs
  }

  // ---- storing a list -----------------------------------------------------

  lemma {:induction false} AsStoredAt(objs: map<ObjKey, Obj>, list: seq<Obj>, key: ObjKey)
    ensures key in AsStored(objs, list) <==> key in objs || key in Keys(list)
    ensures key in Keys(list) ==> key in AsStored(map[], list) && AsStored(objs, list)[key] == AsStored(map[], list)[key]
    ensures key in objs && key !in Keys(list) ==> AsStored(objs, list)[key] == objs[key]
    decreases list
  {
    if list != [] {
      var first := objs[KeyOf(list[0]) := list[0]];
      var alone := map[KeyOf(list[0]) := list[0]];
      AsStoredAt(first, list[1..], key);
      AsStoredAt(alone, list[1..], key);
      KeysSplit(list);
    }
  }

  lemma KeysSplit(list: seq<Obj>)
    requires list != []
    ensures Keys(list) == {KeyOf(list[0])} + Keys(list[1..])
  {
    forall k | k in Keys(list[1..]) ensures k in Keys(list) {
      var i :| 0 <= i < |list[1..]| && KeyOf(list[1..][i]) == k;
      assert KeyOf(list[i + 1]) == k;
    }
    forall k | k in Keys(list) ensures k in {KeyOf(list[0])} + Keys(list[1..]) {
      var i :| 0 <= i < |list| && KeyOf(list[i]) == k;
      if i > 0 { assert KeyOf(list[1..][i - 1]) == k; }
    }
  }

  // ---- installing and removing --------------------------------------------

  /** Without sidecars no PeerAuthentication is among the objects. */
  lemma NoPeerAuth(src: AddonSource, version: string, ns: string)
    requires WellFormed(src) && version in src.manifests
    ensures PeerAuthKey(ns) !in Keys(AddonObjects(src, version, ns, false))
  {
    var off := AddonObjects(src, version, ns, false);
    forall i | 0 <= i < |off| ensures KeyOf(off[i]) != PeerAuthKey(ns) {
      var n := |src.manifests[version]|;
      if i < n {
        OverrideFrame(src.manifests[version][i], ns, false);
      }
    }
  }

  function WithoutPeerAuth(objs: map<ObjKey, Obj>, ns: string): map<ObjKey, Obj> { objs - {PeerAuthKey(ns)} }

  /** Over nothing, or over an installation of the same version in the same namespace. */
  lemma InstallIsExact(src: AddonSource, objs: map<ObjKey, Obj>, version: string, ns: string, istio: bool)
    requires WellFormed(src) && Known(src, Placed(version, ns, istio))
    requires forall key :: IsAddonKey(src, key) && key in objs ==> key in AddonKeys(src, version, ns)
    ensures var stored := AsStored(objs, AddonObjects(src, version, ns, istio));
      Exact(src, if istio then stored else WithoutPeerAuth(stored, ns), Placed(version, ns, istio))
  {
    hide AddonObjects, AsStored;
    var list := AddonObjects(src, version, ns, istio);
    AddonKeysByIstio(src, version, ns);
    NoPeerAuth(src, version, ns);
    forall key | IsAddonKey(src, key)
      ensures Agrees(if istio then AsStored(objs, list) else WithoutPeerAuth(AsStored(objs, list), ns), AsStored(map[], list), key)
    {
      AsStoredAt(objs, list, key);
      AsStoredAt(map[], list, key);
    }
  }

  /** The manifest without sidecars plus the PeerAuthentication is all of an installation. */
  lemma RemovalLeavesNothing(src: AddonSource, objs: map<ObjKey, Obj>, version: string, ns: string, istio: bool)
    requires Exact(src, objs, Placed(version, ns, istio))
    ensures NoneLeft(src, WithoutPeerAuth(objs - Keys(AddonObjects(src, version, ns, false)), ns))
  {
    hide AddonObjects, AsStored;
    AddonKeysByIstio(src, version, ns);
    var list := AddonObjects(src, version, ns, istio);
    forall key | IsAddonKey(src, key)
      ensures key !in WithoutPeerAuth(objs - Keys(AddonObjects(src, version, ns, false)), ns)
    {
      AsStoredAt(map[], list, key);
      assert Agrees(objs, Contents(src, Placed(version, ns, istio)), key);
    }
  }

  lemma NothingIsNowhere(src: AddonSource, objs: map<ObjKey, Obj>)
    ensures NoneLeft(src, objs) <==> Exact(src, objs, Nowhere)
  {
    if Exact(src, objs, Nowhere) {
      forall key | IsAddonKey(src, key) ensures key !in objs { assert Agrees(objs, Contents(src, Nowhere), key); }
    }
  }

  lemma PlacedKeys(src: AddonSource, objs: map<ObjKey, Obj>, p: Placement)
    requires Exact(src, objs, p) && p.Placed?
    ensures forall key :: IsAddonKey(src, key) && key in objs ==> key in AddonKeys(src, p.version, p.ns)
  {
    hide AddonObjects, AsStored;
    AddonKeysByIstio(src, p.version, p.ns);
    var list := AddonObjects(src, p.version, p.ns, p.istio);
    forall key | IsAddonKey(src, key) && key in objs ensures key in AddonKeys(src, p.version, p.ns) {
      AsStoredAt(map[], list, key);
      assert Agrees(objs, Contents(src, p), key);
    }
  }

  /** Objects outside the add-on's reach do not matter. */
  lemma SparedIsExact(src: AddonSource, objs: map<ObjKey, Obj>, after: map<ObjKey, Obj>, p: Placement)
    requires Exact(src, objs, p) && forall key :: IsAddonKey(src, key) ==> Agrees(after, objs, key)
    ensures Exact(src, after, p)
  {
    forall key | IsAddonKey(src, key) ensures Agrees(after, Contents(src, p), key) {
      assert Agrees(objs, Contents(src, p), key);
    }
  }
}
