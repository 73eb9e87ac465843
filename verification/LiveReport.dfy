/** What a fault-free run reports on a live CR, text by text: the state, the version and every condition
    (pkg/reconciler/verify.go:14-81, pkg/reconciler/validate.go:10-23, pkg/reconciler/update_objects.go:13-25,
    pkg/reconciler/addon.go:245-427). */
module LiveReport {
  import opened KedaTypes
  import opened Objects
  import opened Cluster
  import opened StateMachine
  import opened ReadySoundness
  import opened FaultFree
  import opened Settled
  import opened DesiredState
  import opened ModuleHealth
  import opened AddonConfig
  import RunLoop
  import T = Transitions
  import Chain = UpdateChain

  // ---- the version --------------------------------------------------------

  predicate LastOperator(objs: seq<Obj>, i: nat) {
    i < |objs| && DeploymentNamed(objs[i], KedaOperator) && forall j :: i < j < |objs| ==> !DeploymentNamed(objs[j], KedaOperator)
  }

  function VersionLabelOf(o: Obj): string { if VersionLabel in o.labels then o.labels[VersionLabel] else "" }

  lemma {:induction false} VersionMeaning(objs: seq<Obj>, version: string)
    ensures forall i: nat :: LastOperator(objs, i) ==> VersionOf(objs, version) == VersionLabelOf(objs[i])
    ensures !HasDeployment(objs, KedaOperator) ==> VersionOf(objs, version) == version
    decreases objs
  {
    if objs != [] {
      var rest := objs[1..];
      var o := objs[0];
      VersionMeaning(rest, if IsDeployment(o) && o.name == KedaOperator then VersionLabelOf(o) else version);
      assert forall j :: 0 < j < |objs| ==> objs[j] == rest[j - 1];
      if !HasDeployment(objs, KedaOperator) {
        assert !DeploymentNamed(objs[0], KedaOperator);
        assert !HasDeployment(rest, KedaOperator) by { NoneInRest(objs); }
      }
      forall i: nat | LastOperator(objs, i) ensures VersionOf(objs, version) == VersionLabelOf(objs[i]) {
        if i > 0 {
          assert LastOperator(rest, i - 1);
        } else {
          assert !HasDeployment(rest, KedaOperator);
        }
      }
    }
  }

  lemma NoneInRest(objs: seq<Obj>)
    requires objs != [] && !HasDeployment(objs, KedaOperator)
    ensures !HasDeployment(objs[1..], KedaOperator)
  {
    forall i | 0 <= i < |objs[1..]| ensures !DeploymentNamed(objs[1..][i], KedaOperator) { assert objs[1..][i] == objs[i + 1]; }
  }

  // ---- the conditions -----------------------------------------------------

  /** That condition is set, those of the other types are as before. */
  ghost predicate Reports(s: Status, c: Condition, r: Status) {
    Find(r, c.typ) == Some(c) && forall t :: t != c.typ ==> Find(r, t) == Find(s, t)
  }

  /** The add-on's condition after a ready module, by the annotations and the HTTPScaledObjects. */
  function AddonReport(env: Env, ann: Annotations, w: World): Condition {
    var recorded := if InstalledVersion in ann then ann[InstalledVersion] else "";
    if SaysTrue(ann, AddonEnabled) then
      if env.defaultVersion in env.src.manifests then
        Condition(AddonInstalled, True, HttpAddonInstalled, AddonInstalledText(env.defaultVersion, NamespaceAsked(ann)))
      else Condition(AddonInstalled, False, HttpAddonInstallErr, OfErr(UnknownVersion(env.defaultVersion)))
    else if HsoCount(w) > 0 then Condition(AddonInstalled, False, HttpAddonInUse, HsoStillExist(HsoCount(w)))
    else if recorded == "" then Condition(AddonInstalled, False, HttpAddonDisabled, AddonDisabledText)
    else if recorded in env.src.manifests then Condition(AddonInstalled, False, HttpAddonDeleted, AddonRemovedText)
    else Condition(AddonInstalled, False, HttpAddonDeleted, OfErr(UnknownVersion(recorded)))
  }

  ghost predicate ReadyReport(env: Env, k: KedaCR, objs: seq<Obj>, w: World, r: Status) {
    && r.state == (if !SaysTrue(k.annotations, AddonEnabled) && HsoCount(w) > 0 then Warning else Ready)
    && (forall i: nat :: LastOperator(objs, i) ==> r.kedaVersion == VersionLabelOf(objs[i]))
    && Find(r, Installed) == Some(Condition(Installed, True, Verified, DeploymentsReady))
    && Find(r, DeploymentFailure).None?
    && Find(r, AddonInstalled) == Some(AddonReport(env, k.annotations, w))
    && Find(r, Deleted) == Find(k.status, Deleted)
  }

  /** Some Deployment is missing, or just the NetworkPolicy. */
  ghost predicate AllDeployments(objs: seq<Obj>) {
    HasDeployment(objs, KedaOperator) && HasDeployment(objs, KedaMetricsApiserver) && HasDeployment(objs, KedaAdmissionWebhooks)
  }

  /** The stored status, by the spec, the module objects, the cluster's reports and the annotations; only a
      run that gets through to the add-on changes the version. */
  ghost predicate Reported(env: Env, k: KedaCR, objs: seq<Obj>, w: World, r: Status) {
    var s := k.status;
    && r.served == s.served
    && (!ModuleWell(k, objs, w) ==> r.kedaVersion == s.kedaVersion)
    && (if AsksReserved(k.spec) then
          r.state == Error && Reports(s, Condition(Installed, False, ValidationErr, OfErr(RestrictedAnnotations(k.id.name))), r)
        else if !AllDeployments(objs) then
          r.state == Error && Reports(s, Condition(Installed, False, DeploymentUpdateErr, OfErr(NoSuchObject)), r)
        else if !Complete(objs) then
          r.state == Error && Reports(s, Condition(Installed, False, NetworkPolicyUpdateErr, OfErr(NoSuchObject)), r)
        else if SomeFailing(w, objs) then
          r.state == Error && Reports(s, Condition(DeploymentFailure, True, DeploymentReplicaFailure, ReplicaFailureText), r)
        else if !ThreeReady(w, objs) then
          r.state == Processing && Reports(s, Condition(Installed, Unknown, Verification, VerificationInProgress), r)
        else ReadyReport(env, k, objs, w, r))
  }

  lemma AddonMeaning(env: Env, ann: Annotations, w: World)
    ensures AddonCondition(env, ann, w) == AddonReport(env, ann, w)
    ensures Warns(ann, w) <==> !SaysTrue(ann, AddonEnabled) && HsoCount(w) > 0
  {
    hide IsTrueFold;
    FoldMeaning(Lookup(ann, AddonEnabled));
    assert |Lower("")| == 0;
  }

  lemma ReadyStatusReports(env: Env, k: KedaCR, objs: seq<Obj>, w: World)
    ensures ReadyReport(env, k, objs, w, AddonStatus(env, k.annotations, w, ReadyStatus(k.status, VersionOf(objs, ""))))
    ensures AddonStatus(env, k.annotations, w, ReadyStatus(k.status, VersionOf(objs, ""))).served == k.status.served
  {
    hide VersionOf, LastOperator, AddonCondition, AddonReport, SaysTrue, HsoCount, Warns, ReadyStatus, VersionLabelOf, UniqueTypes;
    ReadyConditions(k.status, VersionOf(objs, ""));
    VersionMeaning(objs, "");
    AddonMeaning(env, k.annotations, w);
    AddonTyped(env, k.annotations, w);
  }

  lemma ReadyConditions(s: Status, version: string)
    ensures var r := ReadyStatus(s, version);
      && r.state == Ready && r.kedaVersion == version && r.served == s.served
      && Find(r, Installed) == Some(Condition(Installed, True, Verified, DeploymentsReady))
      && Find(r, DeploymentFailure).None? && Find(r, Deleted) == Find(s, Deleted)
  {
    hide UniqueTypes;
  }

  lemma WithReports(s: Status, state: State, c: Condition)
    ensures var r := With(s, state, c); r.state == state && r.served == s.served && r.kedaVersion == s.kedaVersion && Reports(s, c, r)
  {
  }

  lemma MissingMeaning(objs: seq<Obj>)
    ensures MissingFrom(Chain.Operator, objs).Some? <==> !Complete(objs)
    ensures Complete(objs) ==> AllDeployments(objs)
    ensures !Complete(objs) ==> (MissingFrom(Chain.Operator, objs) == Some(Chain.WebhookPolicy) <==> AllDeployments(objs))
  {
    hide Chain.FirstIndex, HasDeployment, Complete, AllDeployments;
    NoneMissing(objs);
    CompleteMeaning(objs);
    DeploymentsMeaning(objs);
    CompleteHasAll(objs);
    assert MissingFrom(Chain.WebhookPolicy, objs) == if Chain.FirstIndex(objs, Chain.WebhookPolicy) == |objs| then Some(Chain.WebhookPolicy) else None;
    assert MissingFrom(Chain.AdmissionWebhooks, objs) ==
      if Chain.FirstIndex(objs, Chain.AdmissionWebhooks) == |objs| then Some(Chain.AdmissionWebhooks) else MissingFrom(Chain.WebhookPolicy, objs);
  }

  lemma CompleteHasAll(objs: seq<Obj>)
    ensures Complete(objs) ==> AllDeployments(objs)
  {
  }

  lemma DeploymentsMeaning(objs: seq<Obj>)
    ensures AllDeployments(objs) <==>
              Chain.FirstIndex(objs, Chain.Operator) < |objs| && Chain.FirstIndex(objs, Chain.MetricsServer) < |objs| && Chain.FirstIndex(objs, Chain.AdmissionWebhooks) < |objs|
  {
    hide Chain.Matches, Chain.FirstIndex, DeploymentNamed, IsWebhookPolicy;
    forall o: Obj
      ensures Chain.Matches(Chain.Operator, o) <==> DeploymentNamed(o, KedaOperator)
      ensures Chain.Matches(Chain.MetricsServer, o) <==> DeploymentNamed(o, KedaMetricsApiserver)
      ensures Chain.Matches(Chain.AdmissionWebhooks, o) <==> DeploymentNamed(o, KedaAdmissionWebhooks)
    {
      MatchesMeaning(o);
    }
    FoundMeaning(objs, Chain.Operator);
    FoundMeaning(objs, Chain.MetricsServer);
    FoundMeaning(objs, Chain.AdmissionWebhooks);
  }

  lemma StatusReports(env: Env, k: KedaCR, objs: seq<Obj>, w: World)
    ensures Reported(env, k, objs, w, LiveStatus(env, k, objs, w))
  {
    hide MissingFrom, AllFound, Complete, AllDeployments, AsksReserved, ThreeReady, SomeFailing, Chain.HasRestricted, ReadyAt, FailingAt;
    hide ReadyReport, Reports, With, AddonStatus, ReadyStatus, VersionOf, AddonCondition;
    ReservedMeaning(k.spec);
    MissingMeaning(objs);
    ReadyMeaning(w, objs);
    WithReports(k.status, Error, Condition(Installed, False, ValidationErr, OfErr(RestrictedAnnotations(k.id.name))));
    WithReports(k.status, Error, Condition(Installed, False, DeploymentUpdateErr, OfErr(NoSuchObject)));
    WithReports(k.status, Error, Condition(Installed, False, NetworkPolicyUpdateErr, OfErr(NoSuchObject)));
    WithReports(k.status, Error, Condition(DeploymentFailure, True, DeploymentReplicaFailure, ReplicaFailureText));
    WithReports(k.status, Processing, Condition(Installed, Unknown, Verification, VerificationInProgress));
    ReadyStatusReports(env, k, objs, w);
  }

  /** A whole fault-free run on a live, served CR stores just that. */
  lemma LiveRunReports(env: Env, k: KedaCR, objs: seq<Obj>, w: World) returns (u: RunState)
    requires LiveCr(env, k, w)
    ensures u == Once(env, k, objs, w) && AfterRun(u, k.id).Some?
    ensures Reported(env, k, objs, w, AfterRun(u, k.id).value.status)
  {
    hide Once, FindKeda, LiveStatus, LiveRecord, LiveAnswer, SameModule, T.SameConfig, MissingFrom, Chain.HasRestricted, Chain.Chained, AllStamped, PeerAddress, Reported;
    u := LiveRunOutcome(env, k, objs, w);
    StatusReports(env, k, objs, w);
    assert u == Once(env, k, objs, w) by { OnceIsFinish(env, k, objs, w); }
  }

  lemma OnceIsFinish(env: Env, k: KedaCR, objs: seq<Obj>, w: World)
    ensures Once(env, k, objs, w) == RunLoop.Finish(StartRun(env, k, objs, Api(w, [], [])))
  {
    hide RunLoop.Finish;
  }

  /** The version in particular: set from the operator that is last among the module objects if the run
      gets through to the add-on, and kept by every other run. */
  lemma VersionReported(env: Env, k: KedaCR, objs: seq<Obj>, w: World, i: nat) returns (u: RunState)
    requires LiveCr(env, k, w) && LastOperator(objs, i)
    ensures u == Once(env, k, objs, w) && AfterRun(u, k.id).Some?
    ensures AfterRun(u, k.id).value.status.kedaVersion == if ModuleWell(k, objs, w) then VersionLabelOf(objs[i]) else k.status.kedaVersion
  {
    hide Once, FindKeda, LastOperator, AsksReserved, ThreeReady, SomeFailing, Reports, AddonReport, SaysTrue, HsoCount, VersionLabelOf, HasDeployment;
    u := LiveRunReports(env, k, objs, w);
  }
}
