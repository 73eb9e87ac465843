/** Deleting the module: the orphan check comes before every delete, and the finalizer goes only in
    a second full pass (pkg/reconciler/delete_resources.go, remove_finalizer.go). */
module Deletion {
  import opened KedaTypes
  import opened Objects
  import opened AddonManifest
  import opened AddonPlacement
  import opened Cluster
  import opened StateMachine
  import opened Transitions
  import opened RunLoop

  // ---- what a trace shows -------------------------------------------------

  /** The kind was listed and found empty, or not found at all. */
  predicate FoundEmpty(c: Call, gvk: Gvk) {
    c.ListItems? && c.gvk == gvk && c.count == 0 && IgnoreNotFound(c.err).None?
  }

  /** The kind was listed with resources left, or with an unexpected answer. */
  predicate Blocks(c: Call) {
    (c.ListItems? && (c.count > 0 || IgnoreNotFound(c.err).Some?)) || (c.ConvertObj? && c.err.Some?)
  }

  ghost predicate Blocked(t: seq<Call>) { exists i :: 0 <= i < |t| && Blocks(t[i]) }

  ghost predicate ClearIn(t: seq<Call>, gvk: Gvk) { exists i :: 0 <= i < |t| && FoundEmpty(t[i], gvk) }

  /** Every CRD of the module has been found without resources. */
  ghost predicate CrdsClear(objs: seq<Obj>, t: seq<Call>) {
    forall i :: 0 <= i < |objs| && IsCrd(objs[i]) ==> ClearIn(t, CrdGvk(objs[i]))
  }

  predicate Deletes(c: Call, key: ObjKey) { c.DeleteObj? && c.key == key && IgnoreNotFound(c.err).None? }

  ghost predicate DeletedIn(t: seq<Call>, key: ObjKey) { exists i :: 0 <= i < |t| && Deletes(t[i], key) }

  /** Every module object and both leases were deleted, or were already gone. */
  ghost predicate FullPass(objs: seq<Obj>, t: seq<Call>) {
    forall i :: 0 <= i < |objs + LEASES| ==> DeletedIn(t, KeyOf((objs + LEASES)[i]))
  }

  /** No delete is issued before all CRDs were found empty. */
  ghost predicate Guarded(objs: seq<Obj>, t: seq<Call>) {
    forall i :: 0 <= i < |t| && t[i].DeleteObj? ==> CrdsClear(objs, t[..i])
  }

  ghost predicate NoDelete(t: seq<Call>) { forall i :: 0 <= i < |t| ==> !t[i].DeleteObj? }

  ghost predicate NoCrWrite(t: seq<Call>) { forall i :: 0 <= i < |t| ==> !t[i].UpdateMeta? && !t[i].UpdateStatus? }

  predicate DeletedTrue(s: Status) { Find(s, Deleted).Some? && Find(s, Deleted).value.status == True }

  predicate WarnsOfOrphans(s: Status) { s.state == Warning && Has(s, Deleted, False, {DeletionErr}) }

  // ---- the orphan check ---------------------------------------------------

  ghost predicate ChecksOnly(a: Api, b: Api) {
    && a.trace <= b.trace
    && (forall i :: |a.trace| <= i < |b.trace| ==> b.trace[i].ConvertObj? || b.trace[i].ListItems?)
  }

  lemma ClearLater(t: seq<Call>, t2: seq<Call>, gvk: Gvk)
    requires t <= t2 && ClearIn(t, gvk)
    ensures ClearIn(t2, gvk)
  {
    var i :| 0 <= i < |t| && FoundEmpty(t[i], gvk);
    assert FoundEmpty(t2[i], gvk);
  }

  /** The check succeeds only after finding every CRD empty, and then nothing it saw blocks. */
  lemma {:induction false} CheckClears(a: Api, objs: seq<Obj>)
    ensures var r := CheckCrdOrphans(a, objs);
      && ChecksOnly(a, r.api)
      && (r.err.None? ==> CrdsClear(objs, r.api.trace) && forall i :: |a.trace| <= i < |r.api.trace| ==> !Blocks(r.api.trace[i]))
      && (a.faults == [] ==> r.api.faults == [])
    decreases objs
  {
    hide FoundEmpty;
    var r := CheckCrdOrphans(a, objs);
    if objs != [] {
      if !IsCrd(objs[0]) {
        CheckClears(a, objs[1..]);
        if r.err.None? { FirstCrd(objs, r.api.trace); }
      } else {
        var c := DoConvert(a);
        if c.err.None? {
          var l := DoListItems(c.api, CrdGvk(objs[0]));
          if IgnoreNotFound(l.err).None? && l.count == 0 {
            CheckClears(l.api, objs[1..]);
            if r.err.None? {
              assert ClearIn(l.api.trace, CrdGvk(objs[0])) by { LastClears(c.api, l.api, CrdGvk(objs[0]), l.err); }
              ClearLater(l.api.trace, r.api.trace, CrdGvk(objs[0]));
              FirstCrd(objs, r.api.trace);
            }
          }
        }
      }
    }
  }

  lemma LastClears(a: Api, b: Api, gvk: Gvk, err: Option<Err>)
    requires b.trace == a.trace + [ListItems(gvk, 0, err)] && IgnoreNotFound(err).None?
    ensures ClearIn(b.trace, gvk)
  {
    assert FoundEmpty(b.trace[|a.trace|], gvk);
  }

  lemma FirstCrd(objs: seq<Obj>, t: seq<Call>)
    requires objs != [] && CrdsClear(objs[1..], t)
    requires IsCrd(objs[0]) ==> ClearIn(t, CrdGvk(objs[0]))
    ensures CrdsClear(objs, t)
  {
    forall i | 0 <= i < |objs| && IsCrd(objs[i]) ensures ClearIn(t, CrdGvk(objs[i])) {
      if i > 0 { assert objs[i] == objs[1..][i - 1]; }
    }
  }

  // ---- the deletes --------------------------------------------------------

  ghost predicate DeletesOnly(a: Api, b: Api) {
    && a.trace <= b.trace
    && (forall i :: |a.trace| <= i < |b.trace| ==> b.trace[i].DeleteObj?)
  }

  lemma PassIsFull(a: Api, objs: seq<Obj>)
    ensures var r := DeleteAll(a, objs + LEASES, None);
      DeletesOnly(a, r.api) && (r.err.None? ==> FullPass(objs, r.api.trace))
  {
    hide DeleteAll, Keys;
    var list := objs + LEASES;
    var r := DeleteAll(a, list, None);
    if r.err.None? {
      forall i | 0 <= i < |list| ensures DeletedIn(r.api.trace, KeyOf(list[i])) {
        assert Deletes(r.api.trace[|a.trace| + i], KeyOf(list[i]));
      }
    }
  }

  lemma {:induction false} PeerAuthsDelete(a: Api, namespaces: seq<string>, acc: Option<Err>)
    ensures DeletesOnly(a, DeletePeerAuths(a, namespaces, acc).api)
    decreases namespaces
  {
    if namespaces != [] {
      var r := DeletePeerAuth(a, namespaces[0]);
      PeerAuthsDelete(r.api, namespaces[1..], Join(acc, r.err));
    }
  }

  lemma AddonObjsDelete(a: Api, addonObjs: seq<Obj>)
    ensures DeletesOnly(a, DeleteAddonObjs(a, addonObjs).api)
  {
    hide DeleteAll, DeletePeerAuths, Keys;
    var r := DeleteAll(a, addonObjs, None);
    PeerAuthsDelete(r.api, AddonNamespaces(addonObjs, [DEFAULT_ADDON_NAMESPACE]), r.err);
  }

  /** After the check: nothing but deletes, and without an error a full pass. */
  ghost predicate Deleting(a: Api, v: RunState, u: RunState) {
    && DeletesOnly(a, u.api)
    && (u.fn.RemoveFinalizer? ==> FullPass(v.objs, u.api.trace) && DeletedTrue(v.k.status) && u == v.(api := u.api, fn := RemoveFinalizer, result := None, err := None))
    && (DeletedTrue(u.k.status) ==> DeletedTrue(v.k.status) || FullPass(v.objs, u.api.trace))
  }

  lemma ModuleDeletion(v: RunState)
    requires Find(v.k.status, Deleted).Some?
    ensures Deleting(v.api, v, DeleteModule(v))
  {
    hide DeleteAll, DeleteAddonObjs, UniqueTypes, FullPass;
    var own := DeleteAddonObjs(v.api, v.addonObjs);
    AddonObjsDelete(v.api, v.addonObjs);
    PassIsFull(own.api, v.objs);
  }

  // ---- one run ------------------------------------------------------------

  /** What the trace of a run on a CR marked for deletion shows:
      no delete before the CRDs were clear; once something blocked, no delete at all and a Warning;
      the CR is updated only to take our finalizer away, after a full pass, and only if an earlier run
      had left Deleted=True; Deleted=True is written only then or after a full pass. */
  ghost predicate DeletionTrace(finalizer: string, k: KedaCR, objs: seq<Obj>, t: seq<Call>) {
    && Guarded(objs, t)
    && (Blocked(t) ==> NoDelete(t) && forall i :: 0 <= i < |t| && t[i].UpdateStatus? ==> WarnsOfOrphans(t[i].status))
    && (forall i :: 0 <= i < |t| && t[i].UpdateMeta? ==> FinalizerUpdate(finalizer, k, t[i]) && FullPass(objs, t[..i]))
    && (forall i :: 0 <= i < |t| && t[i].UpdateStatus? && DeletedTrue(t[i].status) ==> DeletedTrue(k.status) || FullPass(objs, t[..i]))
  }

  predicate FinalizerUpdate(finalizer: string, k: KedaCR, c: Call)
    requires c.UpdateMeta?
  {
    && c.id == k.id && c.finalizers == k.finalizers - {finalizer} && c.annotations == k.annotations
    && finalizer in k.finalizers && k.status.served == ServedTrue && DeletedTrue(k.status)
  }

  /** Where such a run can be: before the deletion untouched, after it as the trace shows. */
  ghost predicate DeletionInv(v: RunState, k: KedaCR, objs: seq<Obj>) {
    && DeletionTrace(v.env.finalizer, k, objs, v.api.trace)
    && match v.fn
       case ServedFilter => Untouched(v, k, objs)
       case TakeSnapshot => Untouched(v, k, objs) && k.status.served == ServedTrue
       case Initialize => Untouched(v, k, objs) && k.status.served == ServedTrue
       case DeleteResources => Untouched(v, k, objs) && k.status.served == ServedTrue && v.env.finalizer in k.finalizers
       case SafeDeletion =>
         Untouched(v, k, objs) && k.status.served == ServedTrue && v.env.finalizer in k.finalizers && Find(k.status, Deleted).Some?
       case RemoveFinalizer =>
         && v.k == k && v.env.finalizer in k.finalizers && k.status.served == ServedTrue && DeletedTrue(k.status)
         && NoCrWrite(v.api.trace) && FullPass(objs, v.api.trace)
       case WriteStatus(_, _) =>
         && NoCrWrite(v.api.trace)
         && (Blocked(v.api.trace) ==> WarnsOfOrphans(v.k.status))
         && (DeletedTrue(v.k.status) ==> DeletedTrue(k.status) || FullPass(objs, v.api.trace))
       case EmitEvents(_, _) => true
       case Nil => true
       case _ => false
  }

  ghost predicate Untouched(v: RunState, k: KedaCR, objs: seq<Obj>) {
    v.k == k && v.objs == objs && v.addonObjs == [] && v.api.trace == []
  }

  /** The states that neither call anything nor leave the untouched phase for long. */
  lemma CallFreeStep(v: RunState, k: KedaCR, objs: seq<Obj>)
    requires DeletionInv(v, k, objs) && k.deleting
    ensures v.fn.TakeSnapshot? ==> DeletionInv(StepTakeSnapshot(v), k, objs)
    ensures v.fn.Initialize? ==> DeletionInv(StepInitialize(v), k, objs)
    ensures v.fn.DeleteResources? ==> DeletionInv(StepDeleteResources(v), k, objs)
  {
    hide DoUpdateMeta, UniqueTypes, DeletionTrace;
  }

  lemma FilterStep(v: RunState, k: KedaCR, objs: seq<Obj>)
    requires DeletionInv(v, k, objs) && v.fn.ServedFilter?
    ensures DeletionInv(StepServedFilter(v), k, objs)
  {
    hide FindServed, UniqueTypes, FullPass, CrdsClear, FinalizerUpdate;
    var u := StepServedFilter(v);
    assert |u.api.trace| <= 1 && (|u.api.trace| == 1 ==> u.api.trace[0].ListKedas?);
  }

  /** Checks from an empty trace that ended in an error. */
  lemma OrphansStop(finalizer: string, k: KedaCR, objs: seq<Obj>, a: Api, b: Api)
    requires a.trace == [] && ChecksOnly(a, b)
    ensures DeletionTrace(finalizer, k, objs, b.trace) && NoCrWrite(b.trace)
  {
    hide FullPass, CrdsClear, FinalizerUpdate;
  }

  /** Checks that passed, followed by deletes. */
  lemma ChecksThenDeletes(finalizer: string, k: KedaCR, objs: seq<Obj>, a: Api, b: Api, c: Api)
    requires a.trace == [] && ChecksOnly(a, b) && DeletesOnly(b, c)
    requires CrdsClear(objs, b.trace) && forall i :: 0 <= i < |b.trace| ==> !Blocks(b.trace[i])
    ensures DeletionTrace(finalizer, k, objs, c.trace) && NoCrWrite(c.trace) && !Blocked(c.trace)
  {
    hide FullPass, FinalizerUpdate, ClearIn;
    var t := c.trace;
    assert forall i :: 0 <= i < |t| ==> if i < |b.trace| then t[i] == b.trace[i] else t[i].DeleteObj?;
    forall i | 0 <= i < |t| && t[i].DeleteObj? ensures CrdsClear(objs, t[..i]) {
      assert b.trace <= t[..i];
      forall j | 0 <= j < |objs| && IsCrd(objs[j]) ensures ClearIn(t[..i], CrdGvk(objs[j])) {
        ClearLater(b.trace, t[..i], CrdGvk(objs[j]));
      }
    }
  }

  /** The guarded deletion, from an empty trace. */
  lemma SafeDeletionStep(v: RunState, k: KedaCR, objs: seq<Obj>)
    requires DeletionInv(v, k, objs) && v.fn.SafeDeletion?
    ensures DeletionInv(StepSafeDeletion(v), k, objs)
  {
    hide CheckCrdOrphans, DeleteModule, UniqueTypes, FullPass, CrdsClear, DeletionTrace, NoCrWrite, Blocked, ChecksOnly, DeletesOnly;
    var crds := CheckCrdOrphans(v.api, v.objs);
    CheckClears(v.api, v.objs);
    if crds.err.None? {
      var w := v.(api := crds.api);
      ModuleDeletion(w);
      ChecksThenDeletes(v.env.finalizer, k, objs, v.api, crds.api, DeleteModule(w).api);
      ModuleEnds(w);
    } else {
      OrphansStop(v.env.finalizer, k, objs, v.api, crds.api);
    }
  }

  lemma ModuleEnds(v: RunState)
    ensures DeleteModule(v).fn.RemoveFinalizer? || DeleteModule(v).fn.WriteStatus?
    ensures DeleteModule(v).env == v.env
  {
    hide DeleteAll, DeleteAddonObjs;
  }

  /** One more call at the end of a trace. */
  lemma OneMoreCall(finalizer: string, k: KedaCR, objs: seq<Obj>, t: seq<Call>, c: Call)
    requires DeletionTrace(finalizer, k, objs, t) && !c.DeleteObj? && !Blocks(c)
    requires c.UpdateMeta? ==> FinalizerUpdate(finalizer, k, c) && FullPass(objs, t)
    requires c.UpdateStatus? ==> Blocked(t) ==> WarnsOfOrphans(c.status)
    requires c.UpdateStatus? && DeletedTrue(c.status) ==> DeletedTrue(k.status) || FullPass(objs, t)
    ensures DeletionTrace(finalizer, k, objs, t + [c])
  {
    hide FullPass, CrdsClear, Blocks, WarnsOfOrphans, DeletedTrue, FinalizerUpdate;
    var u := t + [c];
    assert u[..|t|] == t;
    assert forall i :: 0 <= i < |t| ==> u[i] == t[i] && u[..i] == t[..i];
    assert Blocked(u) ==> Blocked(t);
  }

  lemma RemovalStep(v: RunState, k: KedaCR, objs: seq<Obj>)
    requires DeletionInv(v, k, objs) && v.fn.RemoveFinalizer?
    ensures DeletionInv(StepRemoveFinalizer(v), k, objs)
  {
    hide FullPass, DeletionTrace, Blocked, StoreMeta, NoCrWrite, FindKeda, FindCondition, UniqueIds;
    var u := StepRemoveFinalizer(v);
    OneMoreCall(v.env.finalizer, k, objs, v.api.trace, u.api.trace[|v.api.trace|]);
  }

  lemma StatusStepOfDeletion(v: RunState, k: KedaCR, objs: seq<Obj>)
    requires DeletionInv(v, k, objs) && v.fn.WriteStatus?
    ensures DeletionInv(StepWriteStatus(v, v.fn.result, v.fn.err), k, objs)
  {
    hide FullPass, DeletionTrace, Blocked, StoreStatus, NoCrWrite, FindKeda, FindCondition, UniqueIds;
    var u := StepWriteStatus(v, v.fn.result, v.fn.err);
    OneMoreCall(v.env.finalizer, k, objs, v.api.trace, u.api.trace[|v.api.trace|]);
  }

  lemma {:induction false} EventsAppended(finalizer: string, k: KedaCR, objs: seq<Obj>, t: seq<Call>, more: seq<Call>)
    requires DeletionTrace(finalizer, k, objs, t) && forall i :: 0 <= i < |more| ==> more[i].Emit?
    ensures DeletionTrace(finalizer, k, objs, t + more)
    decreases |more|
  {
    hide DeletionTrace;
    if more != [] {
      var front, last := more[..|more| - 1], more[|more| - 1];
      EventsAppended(finalizer, k, objs, t, front);
      OneMoreCall(finalizer, k, objs, t + front, last);
      assert t + more == t + front + [last];
    } else {
      assert t + more == t;
    }
  }

  lemma EventsStep(v: RunState, k: KedaCR, objs: seq<Obj>)
    requires DeletionInv(v, k, objs) && v.fn.EmitEvents?
    ensures DeletionInv(StepEmitEvents(v, v.fn.result, v.fn.err), k, objs)
  {
    hide EmitAll, DeletionTrace;
    EmitAllFacts(v.api, v.k.status.conditions, v.snapshot);
    var t := StepEmitEvents(v, v.fn.result, v.fn.err).api.trace;
    EventsAppended(v.env.finalizer, k, objs, v.api.trace, t[|v.api.trace|..]);
    assert t == v.api.trace + t[|v.api.trace|..];
  }

  lemma StepKeepsDeletion(v: RunState, k: KedaCR, objs: seq<Obj>)
    requires DeletionInv(v, k, objs) && k.deleting && !v.fn.Nil?
    ensures DeletionInv(Step(v), k, objs)
  {
    hide StepServedFilter, StepTakeSnapshot, StepInitialize;
    hide StepDeleteResources, StepSafeDeletion, StepRemoveFinalizer, StepWriteStatus, StepEmitEvents, DeletionTrace;
    match v.fn {
      case ServedFilter => FilterStep(v, k, objs);
      case SafeDeletion => SafeDeletionStep(v, k, objs);
      case RemoveFinalizer => RemovalStep(v, k, objs);
      case WriteStatus(_, _) => StatusStepOfDeletion(v, k, objs);
      case EmitEvents(_, _) => EventsStep(v, k, objs);
      case _ => CallFreeStep(v, k, objs);
    }
  }

  lemma {:induction false} RunKeepsDeletion(v: RunState, k: KedaCR, objs: seq<Obj>, n: nat)
    requires DeletionInv(v, k, objs) && k.deleting
    ensures DeletionInv(Run(v, n), k, objs)
    decreases n
  {
    hide Step;
    if !Done(v) {
      if n > 0 {
        StepKeepsDeletion(v, k, objs);
        RunKeepsDeletion(Step(v), k, objs, n - 1);
      }
    }
  }

  /** Every run that starts on a CR marked for deletion, under any faults, cancelled anywhere. */
  lemma DeletionRun(env: Env, k: KedaCR, objs: seq<Obj>, api: Api, n: nat)
    requires k.deleting && api.trace == []
    ensures DeletionTrace(env.finalizer, k, objs, Run(StartRun(env, k, objs, api), n).api.trace)
  {
    hide Step, FullPass;
    RunKeepsDeletion(StartRun(env, k, objs, api), k, objs, n);
    EnvKept(StartRun(env, k, objs, api), n);
  }

  // ---- what deletion leaves alone -----------------------------------------

  /** What a deletion can reach: the module, the leases, one PeerAuthentication. */
  function Reach(objs: seq<Obj>): set<ObjKey> {
    Keys(objs + LEASES) + {PeerAuthKey(DEFAULT_ADDON_NAMESPACE)}
  }

  predicate ListsModuleCrd(objs: seq<Obj>, c: Call)
    requires c.ListItems?
  {
    exists i :: 0 <= i < |objs| && IsCrd(objs[i]) && CrdGvk(objs[i]) == c.gvk
  }

  /** All other objects are as they were, and only the module's own kinds have been listed. */
  ghost predicate Spared(before: map<ObjKey, Obj>, a: Api, objs: seq<Obj>) {
    && (forall key :: key !in Reach(objs) ==> Agrees(a.world.objs, before, key))
    && (forall i :: 0 <= i < |a.trace| && a.trace[i].ListItems? ==> ListsModuleCrd(objs, a.trace[i]))
  }

  lemma {:induction false} CheckListsCrds(a: Api, objs: seq<Obj>, all: seq<Obj>, from: nat)
    requires from <= |all| && objs == all[from..]
    requires forall i :: 0 <= i < |a.trace| && a.trace[i].ListItems? ==> ListsModuleCrd(all, a.trace[i])
    ensures var r := CheckCrdOrphans(a, objs);
      && r.api.world == a.world
      && (forall i :: 0 <= i < |r.api.trace| && r.api.trace[i].ListItems? ==> ListsModuleCrd(all, r.api.trace[i]))
    decreases objs
  {
    if objs != [] {
      assert objs[1..] == all[from + 1..] && objs[0] == all[from];
      if !IsCrd(objs[0]) {
        CheckListsCrds(a, objs[1..], all, from + 1);
      } else {
        var c := DoConvert(a);
        var l := DoListItems(c.api, CrdGvk(objs[0]));
        assert l.api.trace[|c.api.trace|].gvk == CrdGvk(all[from]);
        if c.err.None? && IgnoreNotFound(l.err).None? && l.count == 0 {
          CheckListsCrds(l.api, objs[1..], all, from + 1);
        }
      }
    }
  }

  lemma DeletesSpare(before: map<ObjKey, Obj>, a: Api, b: Api, objs: seq<Obj>)
    requires Spared(before, a, objs) && DeletesOnly(a, b)
    requires forall key :: key !in Reach(objs) ==> Agrees(b.world.objs, a.world.objs, key)
    ensures Spared(before, b, objs)
  {
    hide Reach, ListsModuleCrd;
    forall i | 0 <= i < |b.trace| && b.trace[i].ListItems? ensures ListsModuleCrd(objs, b.trace[i]) {
      assert i < |a.trace| && b.trace[i] == a.trace[i];
    }
    forall key | key !in Reach(objs) ensures Agrees(b.world.objs, before, key) {
      assert Agrees(a.world.objs, before, key);
    }
  }

  lemma ModuleSpares(v: RunState, before: map<ObjKey, Obj>)
    requires Spared(before, v.api, v.objs) && v.addonObjs == []
    ensures Spared(before, DeleteModule(v).api, v.objs)
  {
    hide DeleteAll, Spared, Keys, FindCondition, UniqueTypes;
    var own := DeletePeerAuth(v.api, DEFAULT_ADDON_NAMESPACE);
    assert DeleteAll(v.api, [], None) == Rep(v.api, None) by { NothingToDelete(v.api); }
    assert DeletePeerAuths(v.api, [DEFAULT_ADDON_NAMESPACE], None) == Rep(own.api, Join(None, own.err)) by {
      assert [DEFAULT_ADDON_NAMESPACE][1..] == [];
    }
    DeletesSpare(before, v.api, own.api, v.objs);
    var r := DeleteAll(own.api, v.objs + LEASES, None);
    DeletesSpare(before, own.api, r.api, v.objs);
  }

  lemma NothingToDelete(a: Api)
    ensures DeleteAll(a, [], None) == Rep(a, None)
  {
  }

  lemma SafeDeletionSpares(v: RunState, before: map<ObjKey, Obj>)
    requires Spared(before, v.api, v.objs) && v.addonObjs == []
    ensures Spared(before, StepSafeDeletion(v).api, v.objs)
  {
    hide CheckCrdOrphans, DeleteModule, Reach, Agrees, ListsModuleCrd;
    assert v.objs[0..] == v.objs;
    CheckListsCrds(v.api, v.objs, v.objs, 0);
    var crds := CheckCrdOrphans(v.api, v.objs);
    if crds.err.None? {
      ModuleSpares(v.(api := crds.api), before);
    }
  }

  lemma StepSpares(v: RunState, k: KedaCR, objs: seq<Obj>, before: map<ObjKey, Obj>)
    requires DeletionInv(v, k, objs) && k.deleting && Sound(v) && !v.fn.Nil? && Spared(before, v.api, objs)
    ensures Spared(before, Step(v).api, objs)
  {
    hide StepServedFilter, StepTakeSnapshot, StepInitialize;
    hide StepDeleteResources, StepSafeDeletion, StepRemoveFinalizer, StepWriteStatus, StepEmitEvents, DeletionTrace;
    hide Reach, Agrees, ListsModuleCrd, MetaStep, MetaStatus, StatusWrite, StatusStep, FullPass;
    if v.fn.SafeDeletion? {
      SafeDeletionSpares(v, before);
    } else {
      StepFacts(v);
      forall i | 0 <= i < |Step(v).api.trace| && Step(v).api.trace[i].ListItems? ensures ListsModuleCrd(objs, Step(v).api.trace[i]) {
        assert i < |v.api.trace| && Step(v).api.trace[i] == v.api.trace[i];
      }
    }
  }

  lemma {:induction false} RunSpares(v: RunState, k: KedaCR, objs: seq<Obj>, n: nat, before: map<ObjKey, Obj>)
    requires DeletionInv(v, k, objs) && k.deleting && Sound(v) && Spared(before, v.api, objs)
    ensures Spared(before, Run(v, n).api, objs)
    decreases n
  {
    hide Step, DeletionInv, Spared;
    if !Done(v) {
      if n > 0 {
        StepKeepsDeletion(v, k, objs);
        StepSpares(v, k, objs, before);
        StepSound(v);
        RunSpares(Step(v), k, objs, n - 1, before);
      }
    }
  }

  /** Deleting the module never asks for HTTPScaledObjects, unless they are a module kind, and leaves
      the HTTP add-on in the cluster, up to the PeerAuthentication of the default namespace. */
  lemma DeletionScope(env: Env, k: KedaCR, objs: seq<Obj>, api: Api, n: nat)
    requires k.deleting && api.trace == []
    ensures Spared(api.world.objs, Run(StartRun(env, k, objs, api), n).api, objs)
  {
    hide Step, FullPass;
    RunSpares(StartRun(env, k, objs, api), k, objs, n, api.world.objs);
  }
}
