/** The KEDA version in the status, over every run on a live CR (pkg/reconciler/verify.go:37-75). */
module VersionRuns {
  import opened KedaTypes
  import opened Objects
  import opened AddonManifest
  import opened Cluster
  import opened StateMachine
  import opened Transitions
  import opened RunLoop
  import opened FaultFree
  import opened DesiredState
  import opened LiveReport
  import R = ReadySoundness
  import Chain = UpdateChain

  /** Written with Ready or Warning: the new version; with anything else: the old one. */
  predicate Versioned(before: string, version: string, s: Status) {
    s.kedaVersion == if s.state == Ready || s.state == Warning then version else before
  }

  ghost predicate AllVersioned(before: string, version: string, t: seq<Call>) {
    forall i :: 0 <= i < |t| && t[i].UpdateStatus? ==> Versioned(before, version, t[i].status)
  }

  ghost predicate VersionInv(v: RunState, before: string, version: string) {
    match v.fn
    case Verify =>
      && NoStatusWrite(v.api.trace) && v.k.status.kedaVersion == before
      && |v.applied| == |v.objs| && (forall i :: 0 <= i < |v.objs| ==> v.applied[i].obj == Stamped(v.objs[i]))
      && VersionOf(v.objs, "") == version
    case HandleAddon => Passed(v, version)
    case GuardAddonInUse => Passed(v, version)
    case ApplyAddon => Passed(v, version)
    case DeleteAddon => Passed(v, version)
    case WriteStatus(_, _) => NoStatusWrite(v.api.trace) && Versioned(before, version, v.k.status)
    case EmitEvents(_, _) => AllVersioned(before, version, v.api.trace)
    case Nil => AllVersioned(before, version, v.api.trace)
    case DeleteResources => false
    case SafeDeletion => false
    case RemoveFinalizer => false
    case _ => Before(v, before, version)
  }

  ghost predicate Passed(v: RunState, version: string) { NoStatusWrite(v.api.trace) && v.k.status.kedaVersion == version && v.k.status.state == Ready }

  ghost predicate Before(v: RunState, before: string, version: string) {
    && NoStatusWrite(v.api.trace) && v.applied == [] && VersionOf(v.objs, "") == version && v.k.status.kedaVersion == before
    && v.k.status.served == ServedTrue && !v.k.deleting && v.env.finalizer in v.k.finalizers
  }

  lemma SetKeepsVersion(s: Status, state: State, c: Condition)
    ensures With(s, state, c).kedaVersion == s.kedaVersion && With(s, state, c).state == state
  {
  }

  lemma EarlySteps(v: RunState, before: string, version: string)
    requires VersionInv(v, before, version)
    ensures v.fn.ServedFilter? ==> VersionInv(StepServedFilter(v), before, version)
    ensures v.fn.TakeSnapshot? ==> VersionInv(StepTakeSnapshot(v), before, version)
    ensures v.fn.Initialize? ==> VersionInv(StepInitialize(v), before, version)
    ensures v.fn.BootstrapperValidation? ==> VersionInv(StepValidation(v), before, version)
    ensures v.fn.HandleAddon? ==> VersionInv(StepHandleAddon(v), before, version)
  {
    hide NoStatusWrite, VersionOf, SetCondition, DoUpdateMeta, FindServed, Chain.HasRestricted, ReadAddonCfg;
  }

  lemma FindStep(v: RunState, c: Chain.Component, before: string, version: string)
    requires VersionInv(v, before, version) && v.fn == FindComponent(c)
    ensures VersionInv(StepFindComponent(v, c), before, version)
  {
    hide NoStatusWrite, VersionOf, SetCondition, Chain.FirstIndex;
  }

  lemma EditedSame(list: seq<Obj>, u: nat, c: Chain.Component, e: Chain.Edit, s: KedaSpec, addr: string)
    requires u < |list|
    ensures SameModule(list, list[u := Chain.EditedObj(c, e, s, addr, list[u])])
  {
    hide Chain.EditedTemplate, Chain.HasData, Chain.PeeredIngress;
  }

  lemma OneConversion(t: seq<Call>, err: Option<Err>)
    ensures NoStatusWrite(t) ==> NoStatusWrite(t + [ConvertObj(err)])
  {
  }

  lemma UpdateStep(v: RunState, c: Chain.Component, e: nat, u: nat, before: string, version: string)
    requires VersionInv(v, before, version) && v.fn == UpdateObject(c, e, u) && u < |v.objs|
    ensures VersionInv(StepUpdateObject(v, c, e, u), before, version)
  {
    hide NoStatusWrite, VersionOf, SetCondition, Chain.EditedObj, Chain.SanitizedSpec, Chain.HasData, SameModule;
    OneConversion(v.api.trace, DoConvert(v.api).err);
    if e < |Chain.Edits(c)| {
      var edited := v.objs[u := Chain.EditedObj(c, Chain.Edits(c)[e], v.k.spec, PeerAddress(v.env), v.objs[u])];
      EditedSame(v.objs, u, c, Chain.Edits(c)[e], v.k.spec, PeerAddress(v.env));
      SameVersion(v.objs, edited, "");
    }
  }

  lemma StampedTwice(o: Obj)
    ensures Stamped(Stamped(o)) == Stamped(o)
  {
    assert o.annotations[Disclaimer := DISCLAIMER][Disclaimer := DISCLAIMER] == o.annotations[Disclaimer := DISCLAIMER];
    assert WithCommonLabels(WithCommonLabels(o.labels)) == WithCommonLabels(o.labels);
  }

  lemma ApplyStep(v: RunState, before: string, version: string)
    requires VersionInv(v, before, version) && v.fn.Apply?
    ensures VersionInv(StepApply(v), before, version)
  {
    hide NoStatusWrite, VersionOf, ApplyModule, Failed, AllStamped, Stamped, SameModule;
    var r := ApplyModule(v.api, v.objs, v.applied, false);
    ApplyModuleFacts(v.api, v.objs, v.applied, false);
    R.NoStatusWriteGrows(v.api.trace, r.api.trace);
    AppliedVersions(v.api, v.objs, v.applied, false);
    assert StepApply(v).objs == AllStamped(v.objs);
    StampSame(v.objs);
    SameVersion(v.objs, AllStamped(v.objs), "");
    SetKeepsVersion(v.k.status, Error, Condition(Installed, False, ApplyObjError, OfErr(InstallationErr)));
    FailedIsWith(v.k.status, Installed, ApplyObjError, InstallationErr);
    forall i | 0 <= i < |v.objs| ensures r.applied[i].obj == Stamped(AllStamped(v.objs)[i]) {
      StampedAt(v.objs, i);
      assert r.applied[|v.applied| + i].obj == Stamped(v.objs[i]);
    }
    StampedLength(v.objs);
  }

  lemma FailedIsWith(s: Status, t: ConditionType, r: Reason, e: Err)
    ensures Failed(s, t, r, e) == With(s, Error, Condition(t, False, r, OfErr(e)))
  {
    hide With;
  }

  lemma StampedAt(objs: seq<Obj>, i: nat)
    requires i < |objs|
    ensures |AllStamped(objs)| == |objs| && Stamped(AllStamped(objs)[i]) == Stamped(objs[i])
  {
    hide Stamped;
    StampedTwice(objs[i]);
  }

  lemma StampedLength(objs: seq<Obj>)
    ensures |AllStamped(objs)| == |objs|
  {
  }

  lemma VerifyStep(v: RunState, before: string, version: string)
    requires VersionInv(v, before, version) && v.fn.Verify?
    ensures VersionInv(StepVerify(v), before, version)
  {
    hide NoStatusWrite, VersionOf, VerifyAll, SetCondition, WithoutCondition, Stamped;
    var r := VerifyAll(v.api, v.applied, Tally(0, 0, ""));
    VerifyAllFacts(v.api, v.applied, Tally(0, 0, ""));
    R.NoStatusWriteGrows(v.api.trace, r.api.trace);
    VerifyVersion(v.api, v.applied, v.objs, Tally(0, 0, ""));
  }

  lemma GuardStep(v: RunState, before: string, version: string)
    requires VersionInv(v, before, version) && v.fn.GuardAddonInUse?
    ensures VersionInv(StepGuardAddon(v), before, version)
  {
    hide NoStatusWrite, SetCondition;
    var r := HsoInUse(v.api);
    R.NoStatusWriteGrows(v.api.trace, r.api.trace);
  }

  predicate SameReport(s: Status, r: Status) { r.kedaVersion == s.kedaVersion && r.state == s.state }

  lemma ApplyKeepsVersion(v: RunState)
    requires v.fn.ApplyAddon?
    ensures SameReport(v.k.status, StepApplyAddon(v).k.status) && StepApplyAddon(v).fn.WriteStatus?
  {
    hide CleanupOldAddon, AddonObjects, ApplyAll, DeletePeerAuth, DoUpdateMeta, SetCondition, Recorded, StaleAddon, ReadAddonCfg;
  }

  lemma DeleteKeepsVersion(v: RunState)
    requires v.fn.DeleteAddon?
    ensures SameReport(v.k.status, StepDeleteAddon(v).k.status) && StepDeleteAddon(v).fn.WriteStatus?
  {
    hide AddonObjects, DeleteAll, DeletePeerAuth, DoUpdateMeta, SetCondition, Recorded;
  }

  lemma AddonStep(v: RunState, before: string, version: string)
    requires VersionInv(v, before, version) && (v.fn.ApplyAddon? || v.fn.DeleteAddon?) && Sound(v)
    ensures VersionInv(Step(v), before, version)
  {
    hide NoStatusWrite, StatusStep, MetaStep, MetaStatus, StepApplyAddon, StepDeleteAddon;
    StepFacts(v);
    R.NoStatusWriteGrows(v.api.trace, Step(v).api.trace);
    if v.fn.ApplyAddon? { ApplyKeepsVersion(v); } else { DeleteKeepsVersion(v); }
  }

  lemma WriteStep(v: RunState, u: RunState, before: string, version: string)
    requires VersionInv(v, before, version) && v.fn.WriteStatus? && Facts(v, u) && StatusWrite(v, u)
    ensures VersionInv(u, before, version)
  {
    hide Versioned, StoreStatus, FindKeda;
    var t := u.api.trace;
    forall i | 0 <= i < |t| && t[i].UpdateStatus? ensures Versioned(before, version, t[i].status) {
      assert i >= |v.api.trace|;
    }
  }

  lemma EventsStep(v: RunState, u: RunState, before: string, version: string)
    requires VersionInv(v, before, version) && v.fn.EmitEvents? && Facts(v, u)
    ensures VersionInv(u, before, version)
  {
    hide Versioned;
    var t := u.api.trace;
    forall i | 0 <= i < |t| && t[i].UpdateStatus? ensures Versioned(before, version, t[i].status) {
      assert i < |v.api.trace| && t[i] == v.api.trace[i];
    }
  }

  lemma StepKeepsVersion(v: RunState, before: string, version: string)
    requires VersionInv(v, before, version) && Sound(v) && !v.fn.Nil?
    ensures VersionInv(Step(v), before, version)
  {
    hide StepServedFilter, StepTakeSnapshot, StepInitialize, StepValidation, StepFindComponent, StepUpdateObject;
    hide StepApply, StepVerify, StepHandleAddon, StepGuardAddon, StepApplyAddon, StepDeleteAddon;
    hide StepWriteStatus, StepEmitEvents, VersionInv, Facts, MetaStep, MetaStatus, StatusWrite;
    match v.fn {
      case FindComponent(c) => FindStep(v, c, before, version);
      case UpdateObject(c, e, u) => UpdateStep(v, c, e, u, before, version);
      case Apply => ApplyStep(v, before, version);
      case Verify => VerifyStep(v, before, version);
      case GuardAddonInUse => GuardStep(v, before, version);
      case ApplyAddon => AddonStep(v, before, version);
      case DeleteAddon => AddonStep(v, before, version);
      case WriteStatus(_, _) => StepFacts(v); WriteStep(v, Step(v), before, version);
      case EmitEvents(_, _) => StepFacts(v); EventsStep(v, Step(v), before, version);
      case DeleteResources => NoDeletion(v, before, version); assert false;
      case SafeDeletion => NoDeletion(v, before, version); assert false;
      case RemoveFinalizer => NoDeletion(v, before, version); assert false;
      case _ => EarlySteps(v, before, version);
    }
  }

  lemma NoDeletion(v: RunState, before: string, version: string)
    requires VersionInv(v, before, version)
    ensures !v.fn.DeleteResources? && !v.fn.SafeDeletion? && !v.fn.RemoveFinalizer?
  {
  }

  lemma {:induction false} RunKeepsVersion(v: RunState, before: string, version: string, n: nat)
    requires VersionInv(v, before, version) && Sound(v)
    ensures AllVersioned(before, version, Run(v, n).api.trace)
    decreases n
  {
    hide Step, VersionInv, AllVersioned;
    if Done(v) || n == 0 {
      VersionedSoFar(v, before, version);
    } else {
      StepKeepsVersion(v, before, version);
      StepSound(v);
      RunKeepsVersion(Step(v), before, version, n - 1);
    }
  }

  lemma VersionedSoFar(v: RunState, before: string, version: string)
    requires VersionInv(v, before, version)
    ensures AllVersioned(before, version, v.api.trace)
  {
  }

  /** Every run on a live, served CR with our finalizer, under any faults, cut off anywhere: a status written
      with Ready or Warning carries the version label of the operator that is last among the module objects,
      and a status written with any other state the version that was there before. */
  lemma VersionMeans(env: Env, k: KedaCR, objs: seq<Obj>, api: Api, n: nat, i: nat)
    requires !k.deleting && k.status.served == ServedTrue && env.finalizer in k.finalizers && api.trace == [] && LastOperator(objs, i)
    ensures AllVersioned(k.status.kedaVersion, VersionLabelOf(objs[i]), Run(StartRun(env, k, objs, api), n).api.trace)
  {
    hide Step, AllVersioned, VersionOf, DeploymentNamed;
    VersionMeaning(objs, "");
    RunKeepsVersion(StartRun(env, k, objs, api), k.status.kedaVersion, VersionLabelOf(objs[i]), n);
  }
}
