/** Runs on a CR that is not marked for deletion: what they may delete, and what of the CR they leave
    alone (pkg/reconciler/addon.go:245-296, pkg/reconciler/initialize.go). */
module LiveRuns {
  import opened KedaTypes
  import opened Objects
  import opened Cluster
  import opened StateMachine
  import opened Transitions
  import opened RunLoop

  /** The HTTPScaledObjects were counted and there are none, or the kind does not exist. */
  predicate NoneInUse(c: Call) {
    c.ListItems? && c.gvk == HSO_GVK && ((c.err.None? && c.count == 0) || c.err == Some(NotFound) || c.err == Some(NoMatch))
  }

  /** There are some, or nobody knows. */
  predicate MaybeInUse(c: Call) { c.ListItems? && c.gvk == HSO_GVK && !NoneInUse(c) }

  ghost predicate HsoClear(t: seq<Call>) { exists i :: 0 <= i < |t| && NoneInUse(t[i]) }

  ghost predicate HsoBlocked(t: seq<Call>) { exists i :: 0 <= i < |t| && MaybeInUse(t[i]) }

  predicate WarnsOfUse(s: Status) { s.state == Warning && Has(s, AddonInstalled, False, {HttpAddonInUse}) }

  /** What the trace of such a run shows: with the add-on disabled nothing is deleted before the
      HTTPScaledObjects were found gone; once they may be in use nothing is deleted and the status
      warns; our finalizer, the add-on's configuration and the Deleted condition stay. */
  ghost predicate LiveTrace(finalizer: string, k: KedaCR, t: seq<Call>) {
    && (forall i :: 0 <= i < |t| && t[i].DeleteObj? ==> ReadAddonCfg(k.annotations).enabled || HsoClear(t[..i]))
    && (HsoBlocked(t) ==> forall i :: 0 <= i < |t| ==> !t[i].DeleteObj? && (t[i].UpdateStatus? ==> WarnsOfUse(t[i].status)))
    && (forall i :: 0 <= i < |t| && t[i].UpdateMeta? ==> KeepsCr(finalizer, k, t[i]))
    && (forall i :: 0 <= i < |t| && t[i].UpdateStatus? ==> Find(t[i].status, Deleted) == Find(k.status, Deleted))
  }

  ghost predicate KeepsCr(finalizer: string, k: KedaCR, c: Call)
    requires c.UpdateMeta?
  {
    c.finalizers == k.finalizers + {finalizer} && SameConfig(k.annotations, c.annotations)
  }

  /** Neither a delete, nor a list of resources, nor a write of the CR. */
  predicate CalmCall(c: Call) { !c.DeleteObj? && !c.ListItems? && !c.UpdateMeta? && !c.UpdateStatus? }

  ghost predicate Calm(t: seq<Call>) { forall i :: 0 <= i < |t| ==> CalmCall(t[i]) }

  ghost predicate SameRecordAs(v: RunState, k: KedaCR) {
    && v.k == k.(status := v.k.status, spec := v.k.spec)
    && Find(v.k.status, Deleted) == Find(k.status, Deleted)
  }

  ghost predicate LiveInv(v: RunState, k: KedaCR) {
    && LiveTrace(v.env.finalizer, k, v.api.trace)
    && match v.fn
       case DeleteResources => false
       case SafeDeletion => false
       case RemoveFinalizer => false
       case WriteStatus(_, _) =>
         && NoStatusWrite(v.api.trace)
         && Find(v.k.status, Deleted) == Find(k.status, Deleted) && (HsoBlocked(v.api.trace) ==> WarnsOfUse(v.k.status))
       case EmitEvents(_, _) => true
       case Nil => true
       case GuardAddonInUse => AtRest(v, k) && v.env.finalizer in k.finalizers && !ReadAddonCfg(k.annotations).enabled
       case ApplyAddon => AtRest(v, k) && v.env.finalizer in k.finalizers && ReadAddonCfg(k.annotations).enabled
       case DeleteAddon =>
         && SameRecordAs(v, k) && v.env.finalizer in k.finalizers && HsoClear(v.api.trace) && !HsoBlocked(v.api.trace)
         && (forall i :: 0 <= i < |v.api.trace| ==> !v.api.trace[i].DeleteObj? && !v.api.trace[i].UpdateMeta? && !v.api.trace[i].UpdateStatus?)
       case ServedFilter => AtRest(v, k) && Stored(v) == Some(k)
       case TakeSnapshot => AtRest(v, k) && Stored(v) == Some(k)
       case Initialize => AtRest(v, k) && Stored(v) == Some(k)
       case _ => AtRest(v, k) && v.env.finalizer in k.finalizers
  }

  ghost predicate AtRest(v: RunState, k: KedaCR) { SameRecordAs(v, k) && Calm(v.api.trace) }

  // ---- traces that grow ---------------------------------------------------

  lemma CalmIsLive(finalizer: string, k: KedaCR, t: seq<Call>)
    requires Calm(t)
    ensures LiveTrace(finalizer, k, t) && !HsoBlocked(t)
  {
    hide CalmCall;
    assert forall i :: 0 <= i < |t| ==> CalmCall(t[i]);
    CalmMeaning(t);
  }

  lemma CalmMeaning(t: seq<Call>)
    requires Calm(t)
    ensures forall i :: 0 <= i < |t| ==> !t[i].DeleteObj? && !t[i].ListItems? && !t[i].UpdateMeta? && !t[i].UpdateStatus?
  {
  }

  predicate CalmState(f: StateFn) {
    f.ServedFilter? || f.TakeSnapshot? || f.BootstrapperValidation? || f.FindComponent? || f.UpdateObject? || f.Apply? || f.Verify? || f.HandleAddon?
  }

  lemma CalmGrows(f: StateFn, a: Api, b: Api)
    requires CalmState(f) && TraceGrows(f, a, b) && Calm(a.trace)
    ensures Calm(b.trace)
  {
    forall i | 0 <= i < |b.trace| ensures CalmCall(b.trace[i]) {
      if i < |a.trace| { assert b.trace[i] == a.trace[i]; }
    }
  }

  lemma CalmStep(v: RunState, u: RunState, k: KedaCR)
    requires LiveInv(v, k) && CalmState(v.fn) && Facts(v, u) && !k.deleting
    requires v.fn.HandleAddon? ==> u.fn == if ReadAddonCfg(v.k.annotations).enabled then ApplyAddon else GuardAddonInUse
    ensures LiveInv(u, k)
  {
    hide TraceGrows, LiveTrace, Calm, HsoBlocked, HsoClear, FindCondition, UniqueTypes, FindKeda, ReadAddonCfg;
    CalmGrows(v.fn, v.api, u.api);
    CalmIsLive(v.env.finalizer, k, u.api.trace);
    CalmQuiet(u.api.trace);
  }

  lemma CalmQuiet(t: seq<Call>)
    requires Calm(t)
    ensures NoStatusWrite(t)
  {
  }

  lemma OneMoreLive(finalizer: string, k: KedaCR, t: seq<Call>, c: Call)
    requires LiveTrace(finalizer, k, t) && !c.DeleteObj? && !MaybeInUse(c)
    requires c.UpdateMeta? ==> KeepsCr(finalizer, k, c)
    requires c.UpdateStatus? ==> (HsoBlocked(t) ==> WarnsOfUse(c.status)) && Find(c.status, Deleted) == Find(k.status, Deleted)
    ensures LiveTrace(finalizer, k, t + [c])
    ensures HsoBlocked(t + [c]) ==> HsoBlocked(t)
  {
    hide MaybeInUse, WarnsOfUse, FindCondition, KeepsCr, NoneInUse, ReadAddonCfg;
    var u := t + [c];
    assert forall i :: 0 <= i < |t| ==> u[i] == t[i] && u[..i] == t[..i];
    assert u[|t|] == c;
  }

  lemma InitializeStep(v: RunState, k: KedaCR)
    requires LiveInv(v, k) && v.fn.Initialize? && !k.deleting
    ensures LiveInv(StepInitialize(v), k)
  {
    hide DoUpdateMeta, LiveTrace, UniqueTypes, FindKeda, SameConfig, HsoBlocked, SetCondition, StoreMeta;
    var sent := v.k.(finalizers := v.k.finalizers + {v.env.finalizer});
    UpdateMetaAnswer(v.api, sent);
    CalmQuiet(v.api.trace);
    CalmIsLive(v.env.finalizer, k, v.api.trace);
    SameConfigItself(v.k.annotations);
    if v.env.finalizer !in v.k.finalizers {
      var c := DoUpdateMeta(v.api, sent).api.trace[|v.api.trace|];
      OneMoreLive(v.env.finalizer, k, v.api.trace, c);
      assert DoUpdateMeta(v.api, sent).api.trace == v.api.trace + [c];
    }
  }

  /** The guard of the disable path. */
  lemma GuardStep(v: RunState, k: KedaCR)
    requires LiveInv(v, k) && v.fn.GuardAddonInUse?
    ensures LiveInv(StepGuardAddon(v), k)
  {
    hide UniqueTypes, ReadAddonCfg, LiveTrace, HsoBlocked, HsoClear, NoStatusWrite, NoneInUse, FindKeda, Calm;
    var c := DoListItems(v.api, HSO_GVK).api.trace[|v.api.trace|];
    OneListMore(v.env.finalizer, k, v.api.trace, c);
    assert NoneInUse(c) <==> StepGuardAddon(v).fn.DeleteAddon? by { GuardMeaning(v); }
    CalmMeaning(v.api.trace);
  }

  lemma GuardMeaning(v: RunState)
    ensures StepGuardAddon(v).fn.DeleteAddon? <==> NoneInUse(DoListItems(v.api, HSO_GVK).api.trace[|v.api.trace|])
  {
  }

  lemma OneListMore(finalizer: string, k: KedaCR, t: seq<Call>, c: Call)
    requires Calm(t) && c.ListItems? && c.gvk == HSO_GVK
    ensures LiveTrace(finalizer, k, t + [c]) && NoStatusWrite(t + [c])
    ensures NoneInUse(c) ==> HsoClear(t + [c]) && !HsoBlocked(t + [c])
  {
    hide SameConfig, ReadAddonCfg, FindCondition, NoneInUse;
    var u := t + [c];
    CalmMeaning(t);
    assert forall i :: 0 <= i < |t| ==> u[i] == t[i];
    assert u[|t|] == c;
  }

  /** The calls of the add-on states after what has been called before. */
  lemma AddonCallsLive(v: RunState, u: RunState, k: KedaCR)
    requires LiveInv(v, k) && (v.fn.ApplyAddon? || v.fn.DeleteAddon?)
    requires TraceGrows(v.fn, v.api, u.api) && MetaCalls(v, u)
    ensures LiveTrace(v.env.finalizer, k, u.api.trace) && NoStatusWrite(u.api.trace) && !HsoBlocked(u.api.trace)
  {
    hide SameConfig, FindCondition, UniqueTypes, ReadAddonCfg, NoneInUse, MaybeInUse, WarnsOfUse;
    var t := u.api.trace;
    var n := |v.api.trace|;
    forall i | 0 <= i < |t| ensures !MaybeInUse(t[i]) && !t[i].UpdateStatus? && (t[i].UpdateMeta? ==> KeepsCr(v.env.finalizer, k, t[i])) {
      assert t[i] == if i < n then v.api.trace[i] else t[i];
      NotListed(t[i]);
      SameConfigItself(k.annotations);
    }
    if v.fn.DeleteAddon? {
      forall i | 0 <= i < |t| && t[i].DeleteObj? ensures HsoClear(t[..i]) {
        assert i >= n;
        var j :| 0 <= j < n && NoneInUse(v.api.trace[j]);
        assert t[..i][j] == v.api.trace[j];
      }
    }
  }

  lemma NotListed(c: Call)
    ensures MaybeInUse(c) ==> c.ListItems?
  {
  }

  lemma AddonStep(v: RunState, u: RunState, k: KedaCR)
    requires LiveInv(v, k) && (v.fn.ApplyAddon? || v.fn.DeleteAddon?)
    requires Facts(v, u) && MetaStep(v, u) && MetaStatus(v, u)
    ensures LiveInv(u, k)
  {
    hide TraceGrows, MetaCalls, LiveTrace, NoStatusWrite, HsoBlocked, HsoClear, Calm, UniqueTypes, FindCondition, FindKeda, StoreMeta, ReadAddonCfg;
    AddonCallsLive(v, u, k);
  }

  lemma WriteStep(v: RunState, k: KedaCR)
    requires LiveInv(v, k) && v.fn.WriteStatus?
    ensures LiveInv(StepWriteStatus(v, v.fn.result, v.fn.err), k)
  {
    hide LiveTrace, HsoBlocked, NoStatusWrite, StoreStatus, FindKeda, FindCondition, UniqueIds;
    var u := StepWriteStatus(v, v.fn.result, v.fn.err);
    OneMoreLive(v.env.finalizer, k, v.api.trace, u.api.trace[|v.api.trace|]);
  }

  lemma {:induction false} EventsStayLive(finalizer: string, k: KedaCR, t: seq<Call>, more: seq<Call>)
    requires LiveTrace(finalizer, k, t) && forall i :: 0 <= i < |more| ==> more[i].Emit?
    ensures LiveTrace(finalizer, k, t + more)
    decreases |more|
  {
    hide LiveTrace, HsoBlocked;
    if more != [] {
      var front, last := more[..|more| - 1], more[|more| - 1];
      EventsStayLive(finalizer, k, t, front);
      OneMoreLive(finalizer, k, t + front, last);
      assert t + more == t + front + [last];
    } else {
      assert t + more == t;
    }
  }

  lemma EventsStep(v: RunState, k: KedaCR)
    requires LiveInv(v, k) && v.fn.EmitEvents?
    ensures LiveInv(StepEmitEvents(v, v.fn.result, v.fn.err), k)
  {
    hide EmitAll, LiveTrace;
    EmitAllFacts(v.api, v.k.status.conditions, v.snapshot);
    var t := StepEmitEvents(v, v.fn.result, v.fn.err).api.trace;
    EventsStayLive(v.env.finalizer, k, v.api.trace, t[|v.api.trace|..]);
    assert t == v.api.trace + t[|v.api.trace|..];
  }

  lemma StepKeepsLive(v: RunState, k: KedaCR)
    requires LiveInv(v, k) && Sound(v) && !v.fn.Nil? && !k.deleting
    ensures LiveInv(Step(v), k)
  {
    hide StepServedFilter, StepTakeSnapshot, StepInitialize, StepValidation, StepFindComponent, StepUpdateObject;
    hide StepApply, StepVerify, StepGuardAddon, StepApplyAddon, StepDeleteAddon;
    hide StepDeleteResources, StepSafeDeletion, StepRemoveFinalizer, StepWriteStatus, StepEmitEvents;
    hide LiveTrace, Facts, MetaStep, MetaStatus, StatusWrite, AtRest, HsoBlocked, HsoClear, NoStatusWrite, SameRecordAs;
    StepFacts(v);
    match v.fn {
      case Initialize => InitializeStep(v, k);
      case GuardAddonInUse => GuardStep(v, k);
      case ApplyAddon => AddonStep(v, Step(v), k);
      case DeleteAddon => AddonStep(v, Step(v), k);
      case WriteStatus(_, _) => WriteStep(v, k);
      case EmitEvents(_, _) => EventsStep(v, k);
      case _ => CalmStep(v, Step(v), k);
    }
  }

  lemma {:induction false} RunKeepsLive(v: RunState, k: KedaCR, n: nat)
    requires LiveInv(v, k) && Sound(v) && !k.deleting
    ensures LiveInv(Run(v, n), k)
    decreases n
  {
    hide Step, LiveInv;
    if !Done(v) {
      if n == 0 {
        LiveCancelled(v, k);
      } else {
        StepKeepsLive(v, k);
        StepSound(v);
        RunKeepsLive(Step(v), k, n - 1);
      }
    }
  }

  lemma LiveCancelled(v: RunState, k: KedaCR)
    requires LiveInv(v, k)
    ensures LiveInv(v.(err := Some(Canceled)), k)
  {
    hide LiveTrace, FindCondition, FindKeda;
  }

  /** Every run on a CR not marked for deletion, under any faults, cancelled anywhere. */
  lemma LiveRun(env: Env, k: KedaCR, objs: seq<Obj>, api: Api, n: nat)
    requires !k.deleting && api.trace == [] && FindKeda(api.world.kedas, k.id) == Some(k)
    ensures LiveTrace(env.finalizer, k, Run(StartRun(env, k, objs, api), n).api.trace)
  {
    hide Step, LiveTrace;
    var v := StartRun(env, k, objs, api);
    CalmIsLive(env.finalizer, k, []);
    RunKeepsLive(v, k, n);
    EnvKept(v, n);
  }
}
