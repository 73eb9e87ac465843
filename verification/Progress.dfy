/** How many fault-free runs it takes: a deletion is through after three, and a fresh CR is Ready after
    three (pkg/reconciler/delete_resources.go:37-47, 135-142, served_filter.go, initialize.go). */
module Progress {
  import opened KedaTypes
  import opened Objects
  import opened AddonManifest
  import opened Cluster
  import opened StateMachine
  import opened Transitions
  import opened RunLoop
  import opened ReadySoundness
  import opened FaultFree
  import opened Settled
  import opened Controller
  import D = Deletion
  import L = Election
  import X = AddonExactness
  import Chain = UpdateChain

  // ---- deletion -----------------------------------------------------------

  /** No resource of any of the module's own kinds is left. */
  predicate NoOrphans(objs: seq<Obj>, w: World) {
    forall i :: 0 <= i < |objs| && IsCrd(objs[i]) ==> ItemCount(w, CrdGvk(objs[i])) == 0
  }

  /** A served CR marked for deletion that carries our finalizer. */
  ghost predicate DoomedCr(env: Env, k: KedaCR, w: World) {
    FindKeda(w.kedas, k.id) == Some(k) && k.status.served == ServedTrue && k.deleting && env.finalizer in k.finalizers
  }

  /** What one fault-free run leaves of it: deletion begun, module deleted, or the finalizer gone. */
  function NextDoomed(env: Env, k: KedaCR): Option<KedaCR> {
    var c := Find(k.status, Deleted);
    if c.None? then Some(k.(status := With(k.status, Deleting, Condition(Deleted, Unknown, Deletion, DeletionInProgress))))
    else if c.value.status != True then Some(k.(status := With(k.status, Deleting, Condition(Deleted, True, DeletionDone, ModuleDeleted))))
    else if k.finalizers - {env.finalizer} == {} then None
    else Some(k.(finalizers := k.finalizers - {env.finalizer}))
  }

  lemma NoOrphansSplit(objs: seq<Obj>, w: World)
    requires objs != []
    ensures NoOrphans(objs, w) <==> (IsCrd(objs[0]) ==> ItemCount(w, CrdGvk(objs[0])) == 0) && NoOrphans(objs[1..], w)
  {
    if NoOrphans(objs, w) {
      forall i | 0 <= i < |objs[1..]| && IsCrd(objs[1..][i]) ensures ItemCount(w, CrdGvk(objs[1..][i])) == 0 {
        assert objs[1..][i] == objs[i + 1];
      }
    } else {
      var i :| 0 <= i < |objs| && IsCrd(objs[i]) && ItemCount(w, CrdGvk(objs[i])) != 0;
      if i > 0 { assert objs[1..][i - 1] == objs[i]; }
    }
  }

  /** Without faults the check finds exactly what is there; a kind that the module does not own, such
      as HTTPScaledObject, is not looked at. */
  lemma {:induction false} CheckDecides(a: Api, objs: seq<Obj>)
    requires a.faults == []
    ensures var r := CheckCrdOrphans(a, objs); (r.err.None? <==> NoOrphans(objs, a.world)) && r.api.faults == [] && r.api.world == a.world
    decreases objs
  {
    hide NoOrphans, IsCrd, CrdGvk;
    if objs != [] {
      NoOrphansSplit(objs, a.world);
      if IsCrd(objs[0]) {
        var c := DoConvert(a);
        var l := DoListItems(c.api, CrdGvk(objs[0]));
        CheckDecides(l.api, objs[1..]);
      } else {
        CheckDecides(a, objs[1..]);
      }
    } else {
      assert NoOrphans(objs, a.world) by { NothingOrphaned(a.world); }
    }
  }

  lemma NothingOrphaned(w: World)
    ensures NoOrphans([], w)
  {
  }

  /** A full pass without faults. */
  lemma PassAccepted(v: RunState)
    requires v.api.faults == [] && v.addonObjs == [] && Find(v.k.status, Deleted).Some?
    ensures var u := DeleteModule(v);
      && u.api.faults == [] && u.api.world == v.api.world.(objs := u.api.world.objs)
      && u == v.(api := u.api, fn := u.fn, result := None, err := None, k := u.k)
      && (if Find(v.k.status, Deleted).value.status == True then u.fn == RemoveFinalizer && u.k == v.k
          else u.fn == WriteStatus(Some(Requeue), None) && u.k == v.k.(status := With(v.k.status, Deleting, Condition(Deleted, True, DeletionDone, ModuleDeleted))))
  {
    hide DeleteAll, Keys, With, FindCondition;
    var own := DeletePeerAuth(v.api, DEFAULT_ADDON_NAMESPACE);
    X.DeletePeer(v.api, DEFAULT_ADDON_NAMESPACE);
    D.NothingToDelete(v.api);
    assert DeletePeerAuths(v.api, [DEFAULT_ADDON_NAMESPACE], None) == Rep(own.api, None) by {
      assert [DEFAULT_ADDON_NAMESPACE][1..] == [];
    }
  }

  lemma SafeDeletionAccepted(v: RunState)
    requires v.fn.SafeDeletion? && v.api.faults == [] && v.addonObjs == [] && NoOrphans(v.objs, v.api.world)
    requires Find(v.k.status, Deleted).Some?
    ensures var u := StepSafeDeletion(v);
      && u.api.faults == [] && u.api.world == v.api.world.(objs := u.api.world.objs)
      && u == v.(api := u.api, fn := u.fn, result := None, err := None, k := u.k)
      && (if Find(v.k.status, Deleted).value.status == True then u.fn == RemoveFinalizer && u.k == v.k
          else u.fn == WriteStatus(Some(Requeue), None) && u.k == v.k.(status := With(v.k.status, Deleting, Condition(Deleted, True, DeletionDone, ModuleDeleted))))
  {
    hide DeleteModule, CheckCrdOrphans, With, FindCondition, NoOrphans;
    CheckDecides(v.api, v.objs);
    PassAccepted(v.(api := CheckCrdOrphans(v.api, v.objs).api));
  }

  lemma RemovalAccepted(v: RunState)
    requires v.fn.RemoveFinalizer? && v.api.faults == [] && Stored(v) == Some(v.k) && v.k.deleting
    ensures var u := StepRemoveFinalizer(v); var rest := v.k.finalizers - {v.env.finalizer};
      && u.fn.Nil? && (u.result, u.err) == DONE && u.objs == v.objs && u.api.world == v.api.world.(kedas := u.api.world.kedas)
      && FindKeda(u.api.world.kedas, v.k.id) == if rest == {} then None else Some(v.k.(finalizers := rest))
  {
    hide FindKeda, UniqueIds;
    var rest := v.k.finalizers - {v.env.finalizer};
    L.ReplacedAt(v.api.world.kedas, v.k.(finalizers := rest), v.k.id);
    WithoutAt(v.api.world.kedas, v.k.id);
  }

  lemma WithoutAt(kedas: seq<KedaCR>, id: KedaId)
    ensures FindKeda(Without(kedas, id), id).None?
  {
  }

  lemma DoomedStart(env: Env, k: KedaCR, objs: seq<Obj>, w: World) returns (v: RunState)
    requires DoomedCr(env, k, w)
    ensures v == StartRun(env, k, objs, Api(w, [], [])).(fn := DeleteResources, snapshot := k.status)
    ensures Finish(StartRun(env, k, objs, Api(w, [], []))) == Finish(v)
  {
    hide Finish, FindKeda, StepDeleteResources, StepSafeDeletion, StepRemoveFinalizer, StepWriteStatus, StepEmitEvents;
    hide StepValidation, StepFindComponent, StepUpdateObject, StepHandleAddon, StepApplyAddon;
    hide StepApply, StepVerify, StepGuardAddon, StepDeleteAddon;
    var v2 := ServedStart(env, k, objs, w);
    FinishStep(v2);
    v := v2.(fn := DeleteResources);
  }

  /** One fault-free run of the deletion protocol. */
  lemma DoomedRun(env: Env, k: KedaCR, objs: seq<Obj>, w: World) returns (u: RunState)
    requires DoomedCr(env, k, w) && NoOrphans(objs, w)
    ensures u == Once(env, k, objs, w) && u.objs == objs && u.api.world.items == w.items
    ensures AfterRun(u, k.id) == NextDoomed(env, k)
    ensures (u.result, u.err) == if D.DeletedTrue(k.status) then DONE else (Some(Requeue), None)
  {
    hide StepSafeDeletion, StepRemoveFinalizer, StepWriteStatus, StepEmitEvents, Finish, FindKeda, FindCondition, With, NoOrphans;
    hide StepValidation, StepFindComponent, StepUpdateObject, StepHandleAddon, StepApplyAddon;
    hide StepApply, StepVerify, StepGuardAddon, StepDeleteAddon;
    var v3 := DoomedStart(env, k, objs, w);
    FinishStep(v3);
    var v4 := StepDeleteResources(v3);
    if Find(k.status, Deleted).None? {
      u := EndRun(v4);
    } else {
      u := DoomedPass(v4);
    }
  }

  lemma DoomedPass(v: RunState) returns (u: RunState)
    requires v.fn.SafeDeletion? && v.err.None? && v.api.faults == [] && v.addonObjs == [] && NoOrphans(v.objs, v.api.world)
    requires Find(v.k.status, Deleted).Some? && Stored(v) == Some(v.k) && v.k.deleting
    ensures u == Finish(v) && u.objs == v.objs && u.api.world.items == v.api.world.items
    ensures AfterRun(u, v.k.id) == NextDoomed(v.env, v.k)
    ensures (u.result, u.err) == if D.DeletedTrue(v.k.status) then DONE else (Some(Requeue), None)
  {
    hide StepSafeDeletion, StepRemoveFinalizer, StepWriteStatus, StepEmitEvents, Finish, FindKeda, FindCondition, With, NoOrphans, UniqueTypes, UniqueIds;
    hide StepServedFilter, StepTakeSnapshot, StepInitialize, StepDeleteResources;
    hide StepValidation, StepFindComponent, StepUpdateObject, StepHandleAddon, StepApplyAddon;
    hide StepApply, StepVerify, StepGuardAddon, StepDeleteAddon;
    FinishStep(v);
    SafeDeletionAccepted(v);
    var x := StepSafeDeletion(v);
    if x.fn.RemoveFinalizer? {
      FinishStep(x);
      RemovalAccepted(x);
      u := StepRemoveFinalizer(x);
      FinishNil(u);
    } else {
      u := EndRun(x);
    }
  }

  /** With an orphan left, a deletion that has begun stops at the check: nothing is deleted, the status
      warns, and the error asks for another try. */
  lemma OrphansBlock(env: Env, k: KedaCR, objs: seq<Obj>, w: World) returns (u: RunState)
    requires DoomedCr(env, k, w) && !NoOrphans(objs, w) && Find(k.status, Deleted).Some?
    ensures u == Once(env, k, objs, w) && u.api.world == w.(kedas := u.api.world.kedas) && u.err.Some? && u.result.None?
    ensures AfterRun(u, k.id).Some? && D.WarnsOfOrphans(AfterRun(u, k.id).value.status)
    ensures AfterRun(u, k.id).value == k.(status := AfterRun(u, k.id).value.status)
  {
    hide StepSafeDeletion, StepRemoveFinalizer, StepWriteStatus, StepEmitEvents, Finish, FindKeda, FindCondition, With, NoOrphans, UniqueTypes;
    hide StepValidation, StepFindComponent, StepUpdateObject, StepHandleAddon, StepApplyAddon;
    hide StepApply, StepVerify, StepGuardAddon, StepDeleteAddon;
    var v3 := DoomedStart(env, k, objs, w);
    var v4 := v3.(fn := SafeDeletion);
    FinishStep(v3);
    FinishStep(v4);
    OrphansStop(v4);
    u := EndRun(StepSafeDeletion(v4));
  }

  lemma OrphansStop(v: RunState)
    requires v.fn.SafeDeletion? && v.api.faults == [] && v.addonObjs == [] && !NoOrphans(v.objs, v.api.world)
    ensures var u := StepSafeDeletion(v);
      && u.fn.WriteStatus? && u.fn.result.None? && u.fn.err.Some? && u.err.None?
      && u.api.faults == [] && u.api.world == v.api.world && u.k == v.k.(status := u.k.status) && D.WarnsOfOrphans(u.k.status)
  {
    hide DeleteModule, CheckCrdOrphans, NoOrphans, UniqueTypes;
    CheckDecides(v.api, v.objs);
  }

  /** A reconciliation of a stored CR that nobody cancels early is one run. */
  lemma ReconcileOnce(s: Sys, k: KedaCR, n: nat)
    requires FindKeda(s.world.kedas, k.id) == Some(k) && n >= 33
    ensures var u := Once(s.env, k, s.objs, s.world); var t := Reconciled(s, k.id, [], n);
      t.world == u.api.world && t.objs == u.objs && t.env == s.env
  {
    hide Step, Rank, FindKeda;
    var v := StartRun(s.env, k, s.objs, Api(s.world, [], []));
    RankBound(v.fn);
    FinishIsRun(v, n);
  }

  /** Runs still needed, by the Deleted condition. */
  function RunsLeft(k: KedaCR): nat {
    var c := Find(k.status, Deleted);
    if c.None? then 3 else if c.value.status != True then 2 else 1
  }

  /** The CR is gone, or at least without our finalizer and marked for deletion. */
  ghost predicate Released(env: Env, kedas: seq<KedaCR>, id: KedaId) {
    var k := FindKeda(kedas, id);
    k.None? || (env.finalizer !in k.value.finalizers && k.value.deleting && k.value.status.served == ServedTrue)
  }

  lemma NextDoomedCloser(env: Env, k: KedaCR)
    requires k.status.served == ServedTrue && k.deleting && env.finalizer in k.finalizers
    ensures var l := NextDoomed(env, k);
      || l.None?
      || (l.value.id == k.id && l.value.deleting && l.value.status.served == ServedTrue
          && (env.finalizer !in l.value.finalizers || (RunsLeft(l.value) < RunsLeft(k) && RunsLeft(k) > 1)))
  {
    hide FindCondition, UniqueTypes;
  }

  /** A released CR needs no more work: a run leaves it alone. */
  lemma ReleasedStays(s: Sys, id: KedaId, n: nat)
    requires Released(s.env, s.world.kedas, id) && n >= 33
    ensures Released(s.env, Reconciled(s, id, [], n).world.kedas, id) && Reconciled(s, id, [], n).env == s.env
  {
    hide FindKeda, Finish, Rank;
    hide StepDeleteResources, StepSafeDeletion, StepRemoveFinalizer, StepWriteStatus, StepEmitEvents;
    hide StepValidation, StepFindComponent, StepUpdateObject, StepHandleAddon, StepApplyAddon;
    hide StepApply, StepVerify, StepGuardAddon, StepDeleteAddon;
    var found := FindKeda(s.world.kedas, id);
    if found.Some? {
      var k := found.value;
      assert k.id == id;
      ReconcileOnce(s, k, n);
      var v2 := ServedStart(s.env, k, s.objs, s.world);
      var v3 := v2.(fn := Nil);
      FinishStep(v2);
      FinishNil(v3);
    }
  }

  /** One reconciliation brings a deletion nearer to its end. */
  lemma DeletionAdvances(s: Sys, id: KedaId, n: nat)
    requires FindKeda(s.world.kedas, id).Some? && DoomedCr(s.env, FindKeda(s.world.kedas, id).value, s.world)
    requires NoOrphans(s.objs, s.world) && n >= 33
    ensures var t := Reconciled(s, id, [], n); var k := FindKeda(s.world.kedas, id).value;
      && t.env == s.env
      && (Released(t.env, t.world.kedas, id)
          || (FindKeda(t.world.kedas, id).Some? && DoomedCr(t.env, FindKeda(t.world.kedas, id).value, t.world)
              && NoOrphans(t.objs, t.world) && RunsLeft(FindKeda(t.world.kedas, id).value) < RunsLeft(k) && RunsLeft(k) > 1))
  {
    hide FindKeda, Finish, NextDoomed, RunsLeft, Step;
    var k := FindKeda(s.world.kedas, id).value;
    assert k.id == id;
    ReconcileOnce(s, k, n);
    var u := DoomedRun(s.env, k, s.objs, s.world);
    NextDoomedCloser(s.env, k);
  }

  function Again(s: Sys, id: KedaId, n: nat, times: nat): Sys
    decreases times
  {
    if times == 0 then s else Again(Reconciled(s, id, [], n), id, n, times - 1)
  }

  /** Without orphans, as many fault-free runs as the Deleted condition leaves, and at most three in a
      row, take our finalizer from a served CR that is marked for deletion. */
  lemma {:induction false} DeletionEnds(s: Sys, id: KedaId, n: nat, times: nat)
    requires n >= 33
    requires || Released(s.env, s.world.kedas, id)
             || (FindKeda(s.world.kedas, id).Some? && DoomedCr(s.env, FindKeda(s.world.kedas, id).value, s.world)
                 && NoOrphans(s.objs, s.world) && RunsLeft(FindKeda(s.world.kedas, id).value) <= times)
    ensures Released(s.env, Again(s, id, n, times).world.kedas, id)
    decreases times
  {
    hide FindKeda, Reconciled, DoomedCr, NoOrphans, RunsLeft, Released;
    if Released(s.env, s.world.kedas, id) {
      if times > 0 {
        ReleasedStays(s, id, n);
        DeletionEnds(Reconciled(s, id, [], n), id, n, times - 1);
      }
    } else {
      AtLeastOneRun(FindKeda(s.world.kedas, id).value);
      DeletionAdvances(s, id, n);
      DeletionEnds(Reconciled(s, id, [], n), id, n, times - 1);
    }
  }

  lemma AtLeastOneRun(k: KedaCR)
    ensures 1 <= RunsLeft(k) <= 3
  {
  }

  lemma ThreeRunsDelete(s: Sys, id: KedaId, n: nat)
    requires FindKeda(s.world.kedas, id).Some? && DoomedCr(s.env, FindKeda(s.world.kedas, id).value, s.world)
    requires NoOrphans(s.objs, s.world) && n >= 33
    ensures Released(s.env, Again(s, id, n, 3).world.kedas, id)
  {
    hide FindKeda, Reconciled, DoomedCr, NoOrphans, RunsLeft, Released, Again;
    AtLeastOneRun(FindKeda(s.world.kedas, id).value);
    DeletionEnds(s, id, n, 3);
  }

  // ---- a fresh CR ---------------------------------------------------------

  /** The first run: the CR is served. */
  lemma FirstRun(env: Env, k: KedaCR, objs: seq<Obj>, w: World) returns (u: RunState)
    requires FindKeda(w.kedas, k.id) == Some(k) && UniqueIds(w.kedas) && L.NobodyServed(w.kedas)
    ensures u == Once(env, k, objs, w) && u.objs == objs && u.api.world == w.(kedas := u.api.world.kedas)
    ensures AfterRun(u, k.id) == Some(k.(status := k.status.(served := ServedTrue))) && (u.result, u.err) == (Some(Requeue), None)
  {
    hide StepServedFilter, FindKeda, Finish, UniqueIds, Step;
    var v := StartRun(env, k, objs, Api(w, [], []));
    StepOfFilter(v);
    FinishStep(v);
    var d := FilterAccepted(v);
    u := EndRun(d);
  }

  lemma FilterAccepted(v: RunState) returns (d: RunState)
    requires v.fn.ServedFilter? && v.err.None? && v.api.faults == [] && Stored(v) == Some(v.k)
    requires UniqueIds(v.api.world.kedas) && L.NobodyServed(v.api.world.kedas)
    ensures d == StepServedFilter(v) && d.fn == WriteStatus(Some(Requeue), None) && d.err.None? && d.api.faults == [] && d.api.world == v.api.world
    ensures d.k == v.k.(status := v.k.status.(served := ServedTrue)) && d.objs == v.objs
  {
    hide FindKeda;
    L.NobodyIsServed(v);
    d := StepServedFilter(v);
  }

  /** The second run: it carries our finalizer. */
  lemma SecondRun(env: Env, k: KedaCR, objs: seq<Obj>, w: World) returns (u: RunState)
    requires FindKeda(w.kedas, k.id) == Some(k) && k.status.served == ServedTrue && !k.deleting && env.finalizer !in k.finalizers
    ensures u == Once(env, k, objs, w) && u.objs == objs && u.api.world == w.(kedas := u.api.world.kedas)
    ensures AfterRun(u, k.id) == Some(k.(finalizers := k.finalizers + {env.finalizer},
              status := With(k.status, Processing, Condition(Installed, Unknown, Initialized, InitializedText))))
    ensures (u.result, u.err) == (Some(Requeue), None)
  {
    hide StepInitialize, StepDeleteResources, StepSafeDeletion, StepRemoveFinalizer, StepWriteStatus, StepEmitEvents, With, FindKeda, Finish;
    hide StepValidation, StepFindComponent, StepUpdateObject, StepHandleAddon, StepApplyAddon;
    hide StepApply, StepVerify, StepGuardAddon, StepDeleteAddon;
    var v2 := ServedStart(env, k, objs, w);
    FinishStep(v2);
    var d := InitializeAccepted(v2);
    u := EndRun(d);
  }

  lemma InitializeAccepted(v: RunState) returns (d: RunState)
    requires v.fn.Initialize? && v.err.None? && v.api.faults == [] && Stored(v) == Some(v.k)
    requires !v.k.deleting && v.env.finalizer !in v.k.finalizers
    ensures var k := v.k.(finalizers := v.k.finalizers + {v.env.finalizer});
      && d == StepInitialize(v) && d.fn == WriteStatus(Some(Requeue), None) && d.err.None? && d.api.faults == [] && d.objs == v.objs
      && d.api.world == v.api.world.(kedas := d.api.world.kedas) && Stored(d) == Some(k)
      && d.k == k.(status := With(v.k.status, Processing, Condition(Installed, Unknown, Initialized, InitializedText)))
  {
    hide FindKeda, Without, UniqueIds, With;
    d := StepInitialize(v);
    L.ReplacedAt(v.api.world.kedas, v.k.(finalizers := v.k.finalizers + {v.env.finalizer}), v.k.id);
  }

  /** What the third run decides: the module is ready, whatever becomes of the add-on, unless that is
      off and in use. */
  lemma ReadyDecision(env: Env, k: KedaCR, objs: seq<Obj>, w: World)
    requires !Chain.HasRestricted(k.spec) && AllFound(objs) && Healthy(w, objs) && !Warns(k.annotations, w)
    ensures LiveStatus(env, k, objs, w).state == Ready
  {
    hide MissingFrom, AllFound, Chain.HasRestricted, FailingAt, ReadyAt, SetCondition, WithoutCondition, VersionOf, AddonCondition, Warns;
    NoneMissing(objs);
  }

  /** A valid CR that nobody competes with, new to the reconciler: after three fault-free runs it is
      served, carries our finalizer and is Ready. */
  lemma ThreeRunsReady(s: Sys, k: KedaCR, n: nat)
    requires n >= 33 && FindKeda(s.world.kedas, k.id) == Some(k) && UniqueIds(s.world.kedas) && L.NobodyServed(s.world.kedas)
    requires !k.deleting && s.env.finalizer !in k.finalizers
    requires !Chain.HasRestricted(k.spec) && AllFound(s.objs) && Healthy(s.world, s.objs) && !Warns(k.annotations, s.world)
    ensures IsReady(s.env, Again(s, k.id, n, 3).world.kedas, k.id)
  {
    hide FindKeda, Finish, UniqueIds, Step, Reconciled, LiveStatus, Chain.HasRestricted, AllFound, Healthy, Warns, SameModule, SameConfig, MissingFrom, With, L.NobodyServed, Chain.Chained, AllStamped, PeerAddress;
    var u1 := FirstRun(s.env, k, s.objs, s.world);
    ReconcileOnce(s, k, n);
    var s1 := Reconciled(s, k.id, [], n);
    var k1 := AfterRun(u1, k.id).value;
    var u2 := SecondRun(s.env, k1, s.objs, s1.world);
    ReconcileOnce(s1, k1, n);
    var s2 := Reconciled(s1, k.id, [], n);
    var k2 := AfterRun(u2, k.id).value;
    SameHealth(s.world, s2.world, s.objs);
    SameWarning(k.annotations, s.world, s2.world);
    ReadyDecision(s.env, k2, s.objs, s2.world);
    WithServed(k1.status, Processing, Condition(Installed, Unknown, Initialized, InitializedText));
    var u3 := LiveRunOutcome(s.env, k2, s.objs, s2.world);
    ReconcileOnce(s2, k2, n);
    assert Again(s, k.id, n, 3) == Again(s1, k.id, n, 2) == Again(s2, k.id, n, 1) == Reconciled(s2, k.id, [], n);
    LiveServed(s.env, k2, s.objs, s2.world);
  }

  lemma WithServed(s: Status, state: State, c: Condition)
    ensures With(s, state, c).served == s.served
  {
  }

  lemma SameWarning(ann: Annotations, w: World, x: World)
    requires x.items == w.items
    ensures Warns(ann, x) == Warns(ann, w)
  {
    hide ReadAddonCfg;
  }

  ghost predicate IsReady(env: Env, kedas: seq<KedaCR>, id: KedaId) {
    var k := FindKeda(kedas, id);
    k.Some? && k.value.status.state == Ready && k.value.status.served == ServedTrue && env.finalizer in k.value.finalizers
  }
}
