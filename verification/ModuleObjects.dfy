/** What runs leave of the module objects that the process loaded once and edits in place for ever
    after (pkg/reconciler/validate.go, update_objects.go, apply.go, fsm.go:50-117). */
module ModuleObjects {
  import opened KedaTypes
  import opened Objects
  import opened Cluster
  import opened StateMachine
  import opened Transitions
  import opened Controller
  import Chain = UpdateChain

  /** An object as it was loaded and as it is now: only metadata, pod template and ingress rules
      have changed, the last two only where a component of KEDA was found first; and the three
      restricted annotations of the pod template are what they were. */
  ghost predicate Kept(loaded: seq<Obj>, objs: seq<Obj>, i: nat)
    requires i < |loaded| == |objs|
  {
    var a, b := loaded[i], objs[i];
    && b == a.(labels := b.labels, annotations := b.annotations, template := b.template, ingress := b.ingress)
    && Chain.SameAt(a.labels, b.labels, PurposeLabel)
    && Chain.SameRestricted(a.template.annotations, b.template.annotations)
    && (Chain.OwnerOf(loaded, i).None? ==> b.template == a.template && b.ingress == a.ingress)
  }

  ghost predicate AllKept(loaded: seq<Obj>, objs: seq<Obj>) {
    |loaded| == |objs| && forall i :: 0 <= i < |objs| ==> Kept(loaded, objs, i)
  }

  /** The states between validation and verification, whose spec has been checked. */
  predicate Validated(f: StateFn) { f.FindComponent? || f.UpdateObject? || f.Apply? }

  ghost predicate ObjectsInv(v: RunState, loaded: seq<Obj>) {
    && AllKept(loaded, v.objs)
    && (Validated(v.fn) ==> !Chain.HasRestricted(v.k.spec))
    && (v.fn.UpdateObject? ==> v.fn.u < |v.objs| && v.fn.u == Chain.FirstIndex(loaded, v.fn.owner))
  }

  lemma KeptMatches(loaded: seq<Obj>, objs: seq<Obj>, c: Chain.Component)
    requires AllKept(loaded, objs)
    ensures Chain.FirstIndex(objs, c) == Chain.FirstIndex(loaded, c)
  {
    hide Chain.FirstIndex, Chain.OwnerOf, Chain.SameRestricted;
    var i, j := Chain.FirstIndex(loaded, c), Chain.FirstIndex(objs, c);
    assert i < |objs| ==> Kept(loaded, objs, i);
    assert j < |objs| ==> Kept(loaded, objs, j);
  }

  lemma SanitizedKeepsAnnotations(c: Chain.Component, e: Chain.Edit, s: KedaSpec)
    ensures Chain.SanitizedSpec(c, e, s).podAnnotations == s.podAnnotations
  {
  }

  lemma EditKept(loaded: seq<Obj>, objs: seq<Obj>, c: Chain.Component, e: Chain.Edit, s: KedaSpec, addr: string, u: nat)
    requires AllKept(loaded, objs) && u < |objs| && u == Chain.FirstIndex(loaded, c) && !Chain.HasRestricted(s)
    ensures AllKept(loaded, objs[u := Chain.EditedObj(c, e, s, addr, objs[u])])
  {
    hide Chain.FirstIndex, Chain.EditedTemplate, Chain.HasData, Chain.HasRestricted;
    var o := Chain.EditedObj(c, e, s, addr, objs[u]);
    Chain.EditKeepsRestricted(c, e, s, addr, objs[u]);
    assert Kept(loaded, objs, u);
    var r := objs[u := o];
    forall i | 0 <= i < |objs| ensures Kept(loaded, r, i) {
      assert Kept(loaded, objs, i);
    }
  }

  lemma StampKept(loaded: seq<Obj>, objs: seq<Obj>)
    requires AllKept(loaded, objs)
    ensures AllKept(loaded, AllStamped(objs))
  {
    hide Chain.OwnerOf, Chain.SameRestricted;
    forall i | 0 <= i < |objs| ensures Kept(loaded, AllStamped(objs), i) {
      assert Kept(loaded, objs, i);
      assert AllStamped(objs)[i] == Stamped(objs[i]);
    }
  }

  lemma UpdateKeeps(v: RunState, c: Chain.Component, e: nat, u: nat, loaded: seq<Obj>)
    requires ObjectsInv(v, loaded) && v.fn == UpdateObject(c, e, u)
    ensures ObjectsInv(StepUpdateObject(v, c, e, u), loaded)
  {
    hide Chain.EditedObj, Chain.SanitizedSpec, Chain.HasData, AllKept, DoConvert, Failed;
    if e < |Chain.Edits(c)| {
      var edit := Chain.Edits(c)[e];
      EditKept(loaded, v.objs, c, edit, v.k.spec, PeerAddress(v.env), u);
      SanitizedKeepsAnnotations(c, edit, v.k.spec);
    }
    assert |loaded| == |v.objs| by { KeptLength(loaded, v.objs); }
  }

  lemma KeptLength(loaded: seq<Obj>, objs: seq<Obj>)
    requires AllKept(loaded, objs)
    ensures |loaded| == |objs|
  {
  }

  lemma OtherStates(v: RunState, loaded: seq<Obj>)
    requires ObjectsInv(v, loaded)
    ensures v.fn.BootstrapperValidation? ==> ObjectsInv(StepValidation(v), loaded)
    ensures v.fn.FindComponent? ==> ObjectsInv(StepFindComponent(v, v.fn.c), loaded)
    ensures v.fn.Apply? ==> ObjectsInv(StepApply(v), loaded)
  {
    hide AllKept, Chain.FirstIndex, Failed, ApplyModule, Chain.HasRestricted, AllStamped;
    StampKept(loaded, v.objs);
    KeptLength(loaded, v.objs);
    if v.fn.FindComponent? {
      KeptMatches(loaded, v.objs, v.fn.c);
    }
  }

  lemma StepKeepsObjects(v: RunState, loaded: seq<Obj>)
    requires ObjectsInv(v, loaded) && Sound(v) && !v.fn.Nil?
    ensures ObjectsInv(Step(v), loaded)
  {
    hide StepServedFilter, StepTakeSnapshot, StepInitialize, StepValidation, StepFindComponent, StepUpdateObject;
    hide StepApply, StepVerify, StepHandleAddon, StepGuardAddon, StepApplyAddon, StepDeleteAddon;
    hide StepDeleteResources, StepSafeDeletion, StepRemoveFinalizer, StepWriteStatus, StepEmitEvents;
    hide AllKept, StatusStep, TraceGrows, MetaStep, MetaStatus, StatusWrite, Chain.HasRestricted, Chain.FirstIndex;
    match v.fn {
      case BootstrapperValidation => OtherStates(v, loaded);
      case FindComponent(_) => OtherStates(v, loaded);
      case UpdateObject(c, e, u) => UpdateKeeps(v, c, e, u, loaded);
      case Apply => OtherStates(v, loaded);
      case _ => StepFacts(v);
    }
  }

  lemma {:induction false} RunKeepsObjects(v: RunState, loaded: seq<Obj>, n: nat)
    requires ObjectsInv(v, loaded) && Sound(v)
    ensures AllKept(loaded, Run(v, n).objs)
    decreases n
  {
    hide Step, AllKept, Chain.HasRestricted;
    if !Done(v) && n > 0 {
      StepKeepsObjects(v, loaded);
      StepSound(v);
      RunKeepsObjects(Step(v), loaded, n - 1);
    }
  }

  // ---- all histories ------------------------------------------------------

  /** What the running process has loaded. */
  function LoadedBy(objs: seq<Obj>, actions: seq<Action>): seq<Obj>
    decreases actions
  {
    if actions == [] then objs
    else LoadedBy(if actions[0].Restart? then actions[0].loaded else objs, actions[1..])
  }

  lemma KeptItself(objs: seq<Obj>)
    ensures AllKept(objs, objs)
  {
    hide Chain.OwnerOf;
  }

  lemma ActKeepsObjects(s: Sys, a: Action, loaded: seq<Obj>)
    requires AllKept(loaded, s.objs)
    ensures AllKept(if a.Restart? then a.loaded else loaded, Act(s, a).objs)
  {
    hide AllKept, Step, Run, FindKeda, StoreMeta, UserAnnotations, Replaced, Without;
    match a {
      case Reconcile(id, faults, n) =>
        var found := FindKeda(s.world.kedas, id);
        if found.Some? {
          RunKeepsObjects(StartRun(s.env, found.value, s.objs, Api(s.world, faults, [])), loaded, n);
        }
      case Restart(_, _) => KeptItself(a.loaded);
      case _ =>
    }
  }

  /** Over every history of runs, specs and faults, the loaded objects are edited in their metadata and
      the first objects of the four components in template or ingress, and nowhere else; the restricted
      annotations keep the value, or the absence, they were loaded with. */
  lemma {:induction false} RestrictedUntouched(s: Sys, actions: seq<Action>, loaded: seq<Obj>)
    requires AllKept(loaded, s.objs)
    ensures AllKept(LoadedBy(loaded, actions), Execute(s, actions).objs)
    decreases actions
  {
    hide AllKept, Act;
    if actions != [] {
      ActKeepsObjects(s, actions[0], loaded);
      RestrictedUntouched(Act(s, actions[0]), actions[1..], if actions[0].Restart? then actions[0].loaded else loaded);
    }
  }
}
