/** At most one Keda CR is served, only a served one carries the finalizer, and being served lasts
    until the CR is gone (pkg/reconciler/served_filter.go, pkg/reconciler/initialize.go). */
module Election {
  import opened KedaTypes
  import opened Objects
  import opened Cluster
  import opened StateMachine
  import opened Transitions
  import opened RunLoop

  predicate ServedAt(kedas: seq<KedaCR>, id: KedaId) {
    var k := FindKeda(kedas, id);
    k.Some? && k.value.status.served == ServedTrue
  }

  /** The election's promise about the stored CRs. */
  ghost predicate Elected(kedas: seq<KedaCR>, finalizer: string) {
    && UniqueIds(kedas)
    && (forall i, j :: ServedAt(kedas, i) && ServedAt(kedas, j) ==> i == j)
    && (forall id :: FindKeda(kedas, id).Some? && finalizer in FindKeda(kedas, id).value.finalizers ==> ServedAt(kedas, id))
  }

  /** The same CRs later: some may be gone, none is new, and served ones are still served. */
  ghost predicate Descends(a: seq<KedaCR>, b: seq<KedaCR>) {
    forall id :: FindKeda(b, id).Some? ==>
      && FindKeda(a, id).Some?
      && FindKeda(b, id).value.uid == FindKeda(a, id).value.uid
      && FindKeda(b, id).value.deleting == FindKeda(a, id).value.deleting
      && (ServedAt(a, id) ==> ServedAt(b, id))
  }

  lemma DescendsTransitive(a: seq<KedaCR>, b: seq<KedaCR>, c: seq<KedaCR>)
    requires Descends(a, b) && Descends(b, c)
    ensures Descends(a, c)
  {
  }

  /** The states that only a served instance reaches. */
  predicate Serving(f: StateFn) {
    !f.ServedFilter? && !f.WriteStatus? && !f.EmitEvents? && !f.Nil?
  }

  /** During a run: a served instance has no served rival, the instance does not fall behind its
      stored CR, and from the snapshot on the stored CR is served. */
  ghost predicate ElectionInv(v: RunState) {
    && Elected(v.api.world.kedas, v.env.finalizer)
    && (v.k.status.served == ServedTrue ==> forall id :: ServedAt(v.api.world.kedas, id) ==> id == v.k.id)
    && (ServedAt(v.api.world.kedas, v.k.id) ==> v.k.status.served == ServedTrue)
    && (Serving(v.fn) ==> v.k.status.served == ServedTrue)
    && (Serving(v.fn) || v.fn.ServedFilter? ==> v.k.status.served == ServedTrue && Stored(v).Some? ==> ServedAt(v.api.world.kedas, v.k.id))
  }

  lemma ReplacedAt(kedas: seq<KedaCR>, k: KedaCR, id: KedaId)
    ensures FindKeda(Replaced(kedas, k), id)
         == if id == k.id && FindKeda(kedas, id).Some? then Some(k) else FindKeda(kedas, id)
  {
  }

  /** Rewriting one stored CR, its served flag staying as it was or becoming the only one. */
  lemma ReplacedElects(kedas: seq<KedaCR>, k: KedaCR, was: KedaCR, finalizer: string)
    requires Elected(kedas, finalizer) && FindKeda(kedas, k.id) == Some(was)
    requires k.uid == was.uid && k.deleting == was.deleting
    requires k.status.served == ServedTrue ==> forall id :: ServedAt(kedas, id) ==> id == k.id
    requires was.status.served == ServedTrue || finalizer in k.finalizers ==> k.status.served == ServedTrue
    ensures Elected(Replaced(kedas, k), finalizer) && Descends(kedas, Replaced(kedas, k))
    ensures forall id :: ServedAt(Replaced(kedas, k), id) == if id == k.id then k.status.served == ServedTrue else ServedAt(kedas, id)
  {
    hide FindKeda, Replaced;
    forall id ensures FindKeda(Replaced(kedas, k), id) == if id == k.id then Some(k) else FindKeda(kedas, id) {
      ReplacedAt(kedas, k, id);
    }
    assert forall id :: ServedAt(Replaced(kedas, k), id) ==> if id == k.id then k.status.served == ServedTrue else ServedAt(kedas, id);
  }

  lemma WithoutElects(kedas: seq<KedaCR>, id: KedaId, finalizer: string)
    requires Elected(kedas, finalizer)
    ensures Elected(Without(kedas, id), finalizer) && Descends(kedas, Without(kedas, id))
    ensures forall i :: ServedAt(Without(kedas, id), i) ==> ServedAt(kedas, i)
  {
    hide FindKeda, Without;
    assert forall i :: ServedAt(Without(kedas, id), i) ==> ServedAt(kedas, i);
  }

  lemma StoreMetaElects(w: World, k: KedaCR, finalizer: string)
    requires Elected(w.kedas, finalizer)
    requires FindKeda(w.kedas, k.id).Some? ==> ServedAt(w.kedas, k.id)
    ensures var r := StoreMeta(w, k).kedas; Elected(r, finalizer) && Descends(w.kedas, r)
    ensures forall id :: ServedAt(StoreMeta(w, k).kedas, id) ==> ServedAt(w.kedas, id)
  {
    hide FindKeda, Replaced, Without, UniqueIds, Descends;
    var s := FindKeda(w.kedas, k.id);
    if s.Some? {
      assert s.value.id == k.id;
      if s.value.deleting && k.finalizers == {} {
        WithoutElects(w.kedas, k.id, finalizer);
      } else {
        ReplacedElects(w.kedas, WithMeta(s.value, k), s.value, finalizer);
      }
    } else {
      DescendsItself(w.kedas);
    }
  }

  lemma DescendsItself(kedas: seq<KedaCR>)
    ensures Descends(kedas, kedas)
  {
  }

  lemma StoreStatusElects(w: World, k: KedaCR, finalizer: string)
    requires Elected(w.kedas, finalizer)
    requires k.status.served == ServedTrue ==> forall id :: ServedAt(w.kedas, id) ==> id == k.id
    requires ServedAt(w.kedas, k.id) ==> k.status.served == ServedTrue
    ensures var r := StoreStatus(w, k).kedas; Elected(r, finalizer) && Descends(w.kedas, r)
    ensures forall id :: id != k.id ==> ServedAt(StoreStatus(w, k).kedas, id) == ServedAt(w.kedas, id)
    ensures FindKeda(w.kedas, k.id).Some? ==> ServedAt(StoreStatus(w, k).kedas, k.id) == (k.status.served == ServedTrue)
  {
    hide FindKeda, Replaced, UniqueIds, Descends;
    var s := FindKeda(w.kedas, k.id);
    if s.Some? {
      assert s.value.id == k.id;
      ReplacedElects(w.kedas, s.value.(status := k.status), s.value, finalizer);
    } else {
      DescendsItself(w.kedas);
    }
  }

  lemma MetaStepElects(v: RunState, u: RunState)
    requires ElectionInv(v) && WritesMeta(v.fn) && MetaStep(v, u) && MetaStatus(v, u)
    requires Facts(v, u)
    ensures ElectionInv(u) && Descends(v.api.world.kedas, u.api.world.kedas)
  {
    hide FindKeda, StoreMeta, UniqueIds, TraceGrows, UniqueTypes;
    StoreMetaElects(v.api.world, Sent(v, u), v.env.finalizer);
    assert u.k.id == v.k.id;
  }

  /** A CR that finds nobody served becomes the served one; otherwise it is marked as not served. */
  lemma FilterElects(v: RunState)
    requires ElectionInv(v) && v.fn.ServedFilter?
    ensures ElectionInv(StepServedFilter(v)) && StepServedFilter(v).api.world == v.api.world
  {
    hide FindKeda, Elected, UniqueTypes, SetCondition;
    var kedas := v.api.world.kedas;
    if FindServed(kedas).None? {
      assert forall id :: !ServedAt(kedas, id);
    }
  }

  /** The other states leave the stored CRs and the served flag alone. */
  lemma QuietStepElects(v: RunState, u: RunState)
    requires ElectionInv(v) && Facts(v, u) && !Writes(v.fn) && !v.fn.ServedFilter?
    ensures ElectionInv(u) && u.api.world.kedas == v.api.world.kedas
  {
    hide FindKeda, Elected, TraceGrows, UniqueTypes;
  }

  lemma WriteElects(v: RunState, u: RunState)
    requires ElectionInv(v) && Facts(v, u) && v.fn.WriteStatus? && StatusWrite(v, u)
    ensures ElectionInv(u) && Descends(v.api.world.kedas, u.api.world.kedas)
  {
    hide FindKeda, StoreStatus, Elected, TraceGrows;
    StoreStatusElects(v.api.world, v.k, v.env.finalizer);
    DescendsItself(v.api.world.kedas);
  }

  lemma StepElects(v: RunState)
    requires ElectionInv(v) && Sound(v) && !v.fn.Nil?
    ensures ElectionInv(Step(v)) && Descends(v.api.world.kedas, Step(v).api.world.kedas)
  {
    hide StepServedFilter, StepTakeSnapshot, StepInitialize, StepValidation, StepFindComponent, StepUpdateObject;
    hide StepApply, StepVerify, StepHandleAddon, StepGuardAddon, StepApplyAddon, StepDeleteAddon;
    hide StepDeleteResources, StepSafeDeletion, StepRemoveFinalizer, StepWriteStatus, StepEmitEvents;
    hide ElectionInv, Facts, Descends, MetaStep, MetaStatus, StatusWrite;
    StepFacts(v);
    DescendsItself(v.api.world.kedas);
    if v.fn.ServedFilter? {
      FilterElects(v);
    } else if WritesMeta(v.fn) {
      MetaStepElects(v, Step(v));
    } else if v.fn.WriteStatus? {
      WriteElects(v, Step(v));
    } else {
      QuietStepElects(v, Step(v));
    }
  }

  /** A whole run under any faults: the election's promises hold at every point where it can stop. */
  lemma {:induction false} RunElects(v: RunState, n: nat)
    requires ElectionInv(v) && Sound(v)
    ensures ElectionInv(Run(v, n)) && Descends(v.api.world.kedas, Run(v, n).api.world.kedas)
    decreases n
  {
    hide Step, ElectionInv, Descends;
    DescendsItself(v.api.world.kedas);
    if !Done(v) {
      if n == 0 {
        CancelElects(v);
      } else {
        StepElects(v);
        StepSound(v);
        RunElects(Step(v), n - 1);
        DescendsTransitive(v.api.world.kedas, Step(v).api.world.kedas, Run(v, n).api.world.kedas);
      }
    }
  }

  lemma CancelElects(v: RunState)
    requires ElectionInv(v)
    ensures ElectionInv(v.(err := Some(Canceled)))
  {
    hide FindKeda;
  }

  /** Where every run starts: the instance is the stored CR. */
  lemma StartElects(env: Env, k: KedaCR, objs: seq<Obj>, api: Api)
    requires Elected(api.world.kedas, env.finalizer) && FindKeda(api.world.kedas, k.id) == Some(k)
    ensures ElectionInv(StartRun(env, k, objs, api))
  {
    hide FindKeda, UniqueIds;
    assert ServedAt(api.world.kedas, k.id) <==> k.status.served == ServedTrue;
  }

  // ---- progress of the election -------------------------------------------

  ghost predicate NobodyServed(kedas: seq<KedaCR>) {
    forall id :: !ServedAt(kedas, id)
  }

  /** The two state functions that give the vacancy to the instance. */
  lemma VacantSteps(v: RunState) returns (v1: RunState, v2: RunState)
    requires v.fn.ServedFilter? && v.err.None? && v.api.faults == [] && Stored(v) == Some(v.k)
    requires Elected(v.api.world.kedas, v.env.finalizer) && NobodyServed(v.api.world.kedas)
    ensures v1 == StepServedFilter(v) && v1.fn.WriteStatus? && v1.err.None?
    ensures v2 == StepWriteStatus(v1, v1.fn.result, v1.fn.err) && v2.fn.EmitEvents? && v2.err.None?
    ensures ServedAt(v2.api.world.kedas, v.k.id)
  {
    hide FindKeda, StoreStatus;
    v1 := StepServedFilter(v);
    NobodyIsServed(v);
    v2 := StepWriteStatus(v1, v1.fn.result, v1.fn.err);
    StoreStatusElects(v1.api.world, v1.k, v.env.finalizer);
  }

  lemma NobodyIsServed(v: RunState)
    requires UniqueIds(v.api.world.kedas) && NobodyServed(v.api.world.kedas) && Stored(v) == Some(v.k)
    ensures FindServed(v.api.world.kedas).None? && v.k.status.served != ServedTrue
  {
    assert !ServedAt(v.api.world.kedas, v.k.id);
    forall k | k in v.api.world.kedas ensures k.status.served != ServedTrue {
      assert !ServedAt(v.api.world.kedas, k.id);
    }
  }

  /** If nobody is served, the first CR reconciled without a fault becomes the served one. */
  lemma VacancyIsFilled(env: Env, k: KedaCR, objs: seq<Obj>, api: Api)
    requires Elected(api.world.kedas, env.finalizer) && FindKeda(api.world.kedas, k.id) == Some(k)
    requires NobodyServed(api.world.kedas) && api.faults == []
    ensures ServedAt(Finish(StartRun(env, k, objs, api)).api.world.kedas, k.id)
  {
    hide Step, FindKeda, StepServedFilter, StepWriteStatus, StepEmitEvents, ServedAt, Elected, NobodyServed, EmitAll;
    var v := StartRun(env, k, objs, api);
    var v1, v2 := VacantSteps(v);
    StepOfFilter(v);
    StepOfWrite(v1);
    StepOfWrite(v2);
    FinishStep(v);
    FinishStep(v1);
    FinishStep(v2);
    EmitEventsFacts(v2, v2.fn.result, v2.fn.err);
    FinishNil(Step(v2));
  }
}
