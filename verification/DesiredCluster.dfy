/** What the cluster holds of the module after a healthy run, field by field of the spec
    (pkg/reconciler/update_objects.go, pkg/reconciler/apply.go:30-73, pkg/annotation/disclaimer.go:5-20). */
module DesiredCluster {
  import opened KedaTypes
  import opened Objects
  import opened AddonManifest
  import opened AddonPlacement
  import opened Cluster
  import opened StateMachine
  import opened Controller
  import opened AddonExactness
  import opened AddonHistory
  import opened FaultFree
  import opened Convergence
  import opened DesiredState
  import opened ModuleHealth
  import opened AddonConfig
  import Histories
  import Chain = UpdateChain

  // ---- the stamp ----------------------------------------------------------

  const NOTE := "DO NOT EDIT - This resource is managed by Keda-Manager.\nAny modifications are discarded and the resource is reverted to the original state."

  /** The applied form of an object: a disclaimer and the module's labels, and nothing else. */
  ghost predicate AppliedFrom(o: Obj, r: Obj) {
    && r == o.(annotations := r.annotations, labels := r.labels)
    && Overlaid(o.annotations, map[Disclaimer := NOTE], r.annotations)
    && CommonLabels(o.labels, r.labels, {})
  }

  lemma StampMeaning(o: Obj)
    ensures AppliedFrom(o, Stamped(o))
  {
  }

  // ---- storing ------------------------------------------------------------

  /** No later object has the key of the one at position i. */
  predicate LastOfItsKey(objs: seq<Obj>, i: nat)
    requires i < |objs|
  {
    forall j :: i < j < |objs| ==>
      (objs[j].group, objs[j].kind, objs[j].ns, objs[j].name) != (objs[i].group, objs[i].kind, objs[i].ns, objs[i].name)
  }

  lemma {:induction false} LastStored(objs: map<ObjKey, Obj>, list: seq<Obj>, i: nat)
    requires i < |list| && LastOfItsKey(list, i)
    ensures KeyOf(list[i]) in AsStored(objs, list) && AsStored(objs, list)[KeyOf(list[i])] == list[i]
    decreases list
  {
    var first := objs[KeyOf(list[0]) := list[0]];
    if i > 0 {
      assert forall j :: i - 1 < j < |list[1..]| ==> list[1..][j] == list[j + 1];
      LastStored(first, list[1..], i - 1);
    } else {
      AsStoredAt(first, list[1..], KeyOf(list[0]));
      forall j | 0 <= j < |list[1..]| ensures KeyOf(list[1..][j]) != KeyOf(list[0]) { assert list[1..][j] == list[j + 1]; }
    }
  }

  // ---- the desired object -------------------------------------------------

  /** What the object at position i becomes before it is stamped. */
  ghost predicate WantedAt(s: KedaSpec, addr: string, objs: seq<Obj>, i: nat, r: Obj)
    requires i < |objs|
  {
    && (FirstDeployment(objs, i, KedaOperator) ==> OperatorWanted(s, objs[i], r))
    && (FirstDeployment(objs, i, KedaMetricsApiserver) ==> MetricsServerWanted(s, objs[i], r))
    && (FirstDeployment(objs, i, KedaAdmissionWebhooks) ==> WebhooksWanted(s, objs[i], r))
    && (FirstPolicy(objs, i) ==> PolicyWanted(addr, objs[i], r))
    && (NoComponent(objs, i) ==> r == objs[i])
  }

  predicate NoComponent(objs: seq<Obj>, i: nat)
    requires i < |objs|
  {
    && !FirstDeployment(objs, i, KedaOperator) && !FirstDeployment(objs, i, KedaMetricsApiserver)
    && !FirstDeployment(objs, i, KedaAdmissionWebhooks) && !FirstPolicy(objs, i)
  }

  lemma ChainMeaning(s: KedaSpec, addr: string, objs: seq<Obj>, i: nat)
    requires i < |objs|
    ensures WantedAt(s, addr, objs, i, Chain.Chained(s, addr, objs)[i])
  {
    hide Chain.Chained, FirstDeployment, FirstPolicy, OperatorWanted, MetricsServerWanted, WebhooksWanted, PolicyWanted, Chain.FirstIndex;
    if FirstDeployment(objs, i, KedaOperator) { OperatorDesired(s, addr, objs, i); }
    if FirstDeployment(objs, i, KedaMetricsApiserver) { MetricsServerDesired(s, addr, objs, i); }
    if FirstDeployment(objs, i, KedaAdmissionWebhooks) { WebhooksDesired(s, addr, objs, i); }
    if FirstPolicy(objs, i) { PolicyDesired(s, addr, objs, i); }
    FirstMeaning(objs, i);
    Chain.ChainFrame(s, addr, objs);
    assert Chain.FramedAt(objs, Chain.Chained(s, addr, objs), i);
  }

  /** The key of a module object and what is stored there. */
  ghost predicate StoredAs(stored: map<ObjKey, Obj>, o: Obj, r: Obj) {
    var key := ObjKey(o.group, o.kind, o.ns, o.name);
    key in stored && AppliedFrom(r, stored[key])
  }

  lemma StoredAsDesired(src: AddonSource, stored: map<ObjKey, Obj>, objs: seq<Obj>, chained: seq<Obj>, i: nat)
    requires |chained| == |objs| && forall j :: 0 <= j < |objs| ==> KeyOf(chained[j]) == KeyOf(objs[j])
    requires i < |objs| && LastOfItsKey(objs, i) && !IsAddonKey(src, KeyOf(objs[i])) && Holds(src, stored, AllStamped(chained))
    ensures StoredAs(stored, objs[i], chained[i])
  {
    hide AppliedFrom, IsAddonKey, Stamped, LastOfItsKey, Holds, AllStamped, StoredAs;
    var list := AllStamped(chained);
    StampedList(chained);
    StampedLast(objs, chained, i);
    HeldLast(src, stored, list, i);
    StoredHere(stored, objs[i], chained[i], list[i]);
  }

  lemma StoredHere(stored: map<ObjKey, Obj>, o: Obj, r: Obj, x: Obj)
    requires KeyOf(x) == KeyOf(o) && KeyOf(x) in stored && stored[KeyOf(x)] == x && x == Stamped(r)
    ensures StoredAs(stored, o, r)
  {
    hide AppliedFrom, Stamped;
    StampMeaning(r);
  }

  lemma StampedList(chained: seq<Obj>)
    ensures |AllStamped(chained)| == |chained|
    ensures forall j :: 0 <= j < |chained| ==> AllStamped(chained)[j] == Stamped(chained[j]) && KeyOf(AllStamped(chained)[j]) == KeyOf(chained[j])
  {
  }

  lemma HeldLast(src: AddonSource, stored: map<ObjKey, Obj>, list: seq<Obj>, i: nat)
    requires i < |list| && LastOfItsKey(list, i) && !IsAddonKey(src, KeyOf(list[i])) && Holds(src, stored, list)
    ensures KeyOf(list[i]) in stored && stored[KeyOf(list[i])] == list[i]
  {
    hide IsAddonKey, AsStored, LastOfItsKey;
    LastStored(map[], list, i);
    var key := KeyOf(list[i]);
    assert key in Keys(list);
    assert Agrees(stored, AsStored(map[], list), key);
  }

  /** After a healthy run, from the start: each module object is stored as the spec wants it. */
  lemma ClusterHoldsDesired(s: Sys, id: KedaId, n: nat, p: Placement, i: nat) returns (r: Obj)
    requires InPlace(s, id, p) && n >= 33 && i < |s.objs| && LastOfItsKey(s.objs, i)
    requires var k := FindKeda(s.world.kedas, id).value;
      s.env.finalizer in k.finalizers && ModuleWell(k, s.objs, s.world) && (SaysTrue(k.annotations, AddonEnabled) || HsoCount(s.world) == 0)
    ensures WantedAt(FindKeda(s.world.kedas, id).value.spec, s.env.apiServerIP + "/32", s.objs, i, r)
    ensures StoredAs(Reconciled(s, id, [], n).world.objs, s.objs[i], r)
  {
    hide FindKeda, Reconciled, SaysTrue, HsoCount, ModuleWell, Exact, WellFormed, Records, Histories.SysInv, Chain.Chained, WantedAt;
    hide Wanted, PlacedByRun, AllWell, AllStamped, Holds, StoredAs, LastOfItsKey, IsAddonKey;
    var k := FindKeda(s.world.kedas, id).value;
    WellEither(s.env, k, s.objs, s.world);
    Converges(s, id, n, p);
    assert !IsAddonKey(s.env.src, KeyOf(s.objs[i]));
    r := Chain.Chained(k.spec, s.env.apiServerIP + "/32", s.objs)[i];
    ChainMeaning(k.spec, s.env.apiServerIP + "/32", s.objs, i);
    ChainKeys(k.spec, s.env.apiServerIP + "/32", s.objs);
    StoredAsDesired(s.env.src, Reconciled(s, id, [], n).world.objs, s.objs, Chain.Chained(k.spec, s.env.apiServerIP + "/32", s.objs), i);
  }

  lemma ChainKeys(s: KedaSpec, addr: string, objs: seq<Obj>)
    ensures forall j :: 0 <= j < |objs| ==> KeyOf(Chain.Chained(s, addr, objs)[j]) == KeyOf(objs[j])
  {
    hide Chain.Chained, Chain.OwnerOf;
    Chain.ChainFrame(s, addr, objs);
    forall j | 0 <= j < |objs| ensures KeyOf(Chain.Chained(s, addr, objs)[j]) == KeyOf(objs[j]) {
      assert Chain.FramedAt(objs, Chain.Chained(s, addr, objs), j);
    }
  }

  lemma StampedLast(objs: seq<Obj>, chained: seq<Obj>, i: nat)
    requires |chained| == |objs| && forall j :: 0 <= j < |objs| ==> KeyOf(chained[j]) == KeyOf(objs[j])
    requires i < |objs| && LastOfItsKey(objs, i)
    ensures |AllStamped(chained)| == |chained| && LastOfItsKey(AllStamped(chained), i)
  {
    hide AllStamped, Stamped;
    var list := AllStamped(chained);
    StampedList(chained);
    forall j | i < j < |list|
      ensures (list[j].group, list[j].kind, list[j].ns, list[j].name) != (list[i].group, list[i].kind, list[i].ns, list[i].name)
    {
      assert KeyOf(list[j]) == KeyOf(chained[j]) == KeyOf(objs[j]) && KeyOf(list[i]) == KeyOf(chained[i]) == KeyOf(objs[i]);
    }
  }
}
