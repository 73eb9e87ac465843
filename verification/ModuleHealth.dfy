/** When a run on a live CR gets through to the add-on, in terms of the fields of its spec, of the module
    objects and of what the cluster reports (pkg/reconciler/validate.go:25-58, pkg/reconciler/fsm.go:66-74,
    pkg/reconciler/verify.go:14-66). */
module ModuleHealth {
  import opened KedaTypes
  import opened Objects
  import opened Cluster
  import opened StateMachine
  import opened ReadySoundness
  import opened FaultFree
  import opened DesiredState
  import opened Controller
  import M = ModuleObjects
  import Chain = UpdateChain

  // ---- the spec -----------------------------------------------------------

  predicate AnyRestricted(m: Meta) { AddImgPullSecret in m || AlterImgRegistry in m || SetFipsMode in m }

  /** One of the three reserved annotations is asked for. */
  predicate AsksReserved(s: KedaSpec) {
    s.podAnnotations.Some? &&
    var p := s.podAnnotations.value; AnyRestricted(p.operator) || AnyRestricted(p.metricsServer) || AnyRestricted(p.admissionWebhook)
  }

  lemma ReservedMeaning(s: KedaSpec)
    ensures Chain.HasRestricted(s) <==> AsksReserved(s)
  {
    assert forall k :: k in Chain.RESTRICTED <==> k == AddImgPullSecret || k == AlterImgRegistry || k == SetFipsMode;
    if AsksReserved(s) {
      var p := s.podAnnotations.value;
      var k := if AddImgPullSecret in p.operator || AddImgPullSecret in p.metricsServer || AddImgPullSecret in p.admissionWebhook then AddImgPullSecret
               else if AlterImgRegistry in p.operator || AlterImgRegistry in p.metricsServer || AlterImgRegistry in p.admissionWebhook then AlterImgRegistry
               else SetFipsMode;
      assert k in Chain.RESTRICTED && (k in p.admissionWebhook || k in p.operator || k in p.metricsServer);
    }
  }

  // ---- the module objects -------------------------------------------------

  ghost predicate HasDeployment(objs: seq<Obj>, name: Name) { exists i :: 0 <= i < |objs| && DeploymentNamed(objs[i], name) }

  /** The three Deployments and the webhook NetworkPolicy are among them. */
  ghost predicate Complete(objs: seq<Obj>) {
    && HasDeployment(objs, KedaOperator) && HasDeployment(objs, KedaMetricsApiserver) && HasDeployment(objs, KedaAdmissionWebhooks)
    && exists i :: 0 <= i < |objs| && IsWebhookPolicy(objs[i])
  }

  lemma CompleteMeaning(objs: seq<Obj>)
    ensures AllFound(objs) <==> Complete(objs)
  {
    hide Chain.Matches, Chain.FirstIndex, DeploymentNamed, IsWebhookPolicy;
    forall o: Obj
      ensures Chain.Matches(Chain.Operator, o) <==> DeploymentNamed(o, KedaOperator)
      ensures Chain.Matches(Chain.MetricsServer, o) <==> DeploymentNamed(o, KedaMetricsApiserver)
      ensures Chain.Matches(Chain.AdmissionWebhooks, o) <==> DeploymentNamed(o, KedaAdmissionWebhooks)
      ensures Chain.Matches(Chain.WebhookPolicy, o) <==> IsWebhookPolicy(o)
    {
      MatchesMeaning(o);
    }
    FoundMeaning(objs, Chain.Operator);
    FoundMeaning(objs, Chain.MetricsServer);
    FoundMeaning(objs, Chain.AdmissionWebhooks);
    FoundMeaning(objs, Chain.WebhookPolicy);
  }

  lemma FoundMeaning(objs: seq<Obj>, c: Chain.Component)
    ensures Chain.FirstIndex(objs, c) < |objs| <==> exists i :: 0 <= i < |objs| && Chain.Matches(c, objs[i])
  {
    hide Chain.Matches;
    if Chain.FirstIndex(objs, c) < |objs| { assert Chain.Matches(c, objs[Chain.FirstIndex(objs, c)]); }
  }

  // ---- the reports --------------------------------------------------------

  /** What the cluster reports of the object at position i, if that is a Deployment. */
  function Report(w: World, objs: seq<Obj>, i: nat): Option<DeploymentStatus>
    requires i < |objs|
  {
    var o := objs[i];
    var key := ObjKey(o.group, o.kind, o.ns, o.name);
    if o.kind == Deployment && o.group == Apps && o.version == V1 && key in w.statuses then Some(w.statuses[key]) else None
  }

  predicate ReadyThere(w: World, objs: seq<Obj>, i: nat)
    requires i < |objs|
  {
    Report(w, objs, i).Some? && Report(w, objs, i).value.ready
  }

  predicate FailingThere(w: World, objs: seq<Obj>, i: nat)
    requires i < |objs|
  {
    Report(w, objs, i).Some? && Report(w, objs, i).value.replicaFailure
  }

  ghost predicate SomeFailing(w: World, objs: seq<Obj>) { exists i: nat :: i < |objs| && FailingThere(w, objs, i) }

  /** Ready are the Deployments at these three positions and no others. */
  ghost predicate ReadyExactlyAt(w: World, objs: seq<Obj>, a: nat, b: nat, c: nat) {
    a < b < c < |objs| && forall i: nat :: i < |objs| ==> (ReadyThere(w, objs, i) <==> i == a || i == b || i == c)
  }

  ghost predicate ThreeReady(w: World, objs: seq<Obj>) { exists a: nat, b: nat, c: nat :: ReadyExactlyAt(w, objs, a, b, c) }

  lemma ReportMeaning(w: World, objs: seq<Obj>, i: nat)
    requires i < |objs|
    ensures ReadyDeployment(w, objs[i]) <==> ReadyThere(w, objs, i)
    ensures FailingDeployment(w, objs[i]) <==> FailingThere(w, objs, i)
  {
  }

  lemma {:induction false} Least(s: set<nat>, x: nat) returns (m: nat)
    requires x in s
    ensures m in s && forall i :: i in s ==> m <= i
    decreases x
  {
    m := x;
    if i :| i in s && i < x { m := Least(s, i); }
  }

  lemma ThreeMembers(s: set<nat>)
    ensures |s| == 3 <==> exists a: nat, b: nat, c: nat :: a < b < c && s == {a, b, c}
  {
    if |s| == 3 {
      var x :| x in s;
      var a := Least(s, x);
      var s1 := s - {a};
      assert |s1| == 2;
      var y :| y in s1;
      var b := Least(s1, y);
      var s2 := s1 - {b};
      assert |s2| == 1;
      var c :| c in s2;
      assert |s2 - {c}| == 0;
      assert s == {a, b, c};
    }
    if a: nat, b: nat, c: nat :| a < b < c && s == {a, b, c} {
      assert |{a, b, c}| == 3;
    }
  }

  lemma ReadyMeaning(w: World, objs: seq<Obj>)
    ensures |ReadyAt(w, objs, |objs|)| == 3 <==> ThreeReady(w, objs)
    ensures FailingAt(w, objs, |objs|) != {} <==> SomeFailing(w, objs)
  {
    hide ReadyThere, FailingThere, ReadyDeployment, FailingDeployment;
    forall i: nat | i < |objs|
      ensures ReadyDeployment(w, objs[i]) <==> ReadyThere(w, objs, i)
      ensures FailingDeployment(w, objs[i]) <==> FailingThere(w, objs, i)
    {
      ReportMeaning(w, objs, i);
    }
    var s := ReadyAt(w, objs, |objs|);
    ThreeMembers(s);
    if a: nat, b: nat, c: nat :| a < b < c && s == {a, b, c} {
      assert a in s && b in s && c in s;
      forall i: nat | i < |objs| ensures ReadyThere(w, objs, i) <==> i == a || i == b || i == c {
        assert i in s <==> ReadyDeployment(w, objs[i]);
      }
      assert ReadyExactlyAt(w, objs, a, b, c);
    }
    if a: nat, b: nat, c: nat :| ReadyExactlyAt(w, objs, a, b, c) {
      assert s == {a, b, c};
    }
    if SomeFailing(w, objs) {
      var i: nat :| i < |objs| && FailingThere(w, objs, i);
      assert i in FailingAt(w, objs, |objs|);
    }
  }

  /** A valid spec, all components, exactly three ready Deployments and none that fails. */
  ghost predicate ModuleWell(k: KedaCR, objs: seq<Obj>, w: World) {
    !AsksReserved(k.spec) && Complete(objs) && ThreeReady(w, objs) && !SomeFailing(w, objs)
  }

  lemma WellMeaning(k: KedaCR, objs: seq<Obj>, w: World)
    ensures ModuleWell(k, objs, w) <==> !Chain.HasRestricted(k.spec) && AllFound(objs) && Healthy(w, objs)
  {
    hide Chain.HasRestricted, AllFound, ReadyAt, FailingAt, AsksReserved, Complete, ThreeReady, SomeFailing;
    ReservedMeaning(k.spec);
    CompleteMeaning(objs);
    ReadyMeaning(w, objs);
  }

  // ---- the reserved annotations -------------------------------------------

  /** Present or absent as before, with the same value. */
  ghost predicate ReservedKept(a: Meta, b: Meta) {
    forall k :: k in {AddImgPullSecret, AlterImgRegistry, SetFipsMode} ==> (k in a <==> k in b) && (k in a ==> a[k] == b[k])
  }

  /** Over every history of runs, specs and faults they are what was loaded, in every module object. */
  lemma ReservedUntouched(env: Env, loaded: seq<Obj>, w: World, actions: seq<Action>)
    ensures var now, was := Execute(Boot(env, loaded, w), actions).objs, M.LoadedBy(loaded, actions);
      |now| == |was| && forall i :: 0 <= i < |now| ==> ReservedKept(was[i].template.annotations, now[i].template.annotations)
  {
    hide Execute, Chain.OwnerOf;
    M.RestrictedUntouched(Boot(env, loaded, w), actions, loaded);
    var now, was := Execute(Boot(env, loaded, w), actions).objs, M.LoadedBy(loaded, actions);
    forall i | 0 <= i < |now| ensures ReservedKept(was[i].template.annotations, now[i].template.annotations) {
      assert M.Kept(was, now, i);
      assert AddImgPullSecret in Chain.RESTRICTED && AlterImgRegistry in Chain.RESTRICTED && SetFipsMode in Chain.RESTRICTED;
    }
  }
}
