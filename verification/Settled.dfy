/** Repeating a fault-free run with nothing changed in between: when it stores the same status and emits
    no event, and what it does otherwise (pkg/reconciler/emmit_event.go, update_status.go, over whole runs). */
module Settled {
  import opened KedaTypes
  import opened Objects
  import opened Cluster
  import opened StateMachine
  import opened Transitions
  import opened RunLoop
  import opened ReadySoundness
  import opened FaultFree
  import E = Events
  import Chain = UpdateChain

  // ---- setting what is already set ----------------------------------------

  lemma {:induction false} SetFixed(conds: seq<Condition>, c: Condition)
    requires FindCondition(conds, c.typ) == Some(c)
    ensures SetCondition(conds, c) == conds
  {
    hide UniqueTypes;
    if conds[0].typ == c.typ {
      assert [c] + conds[1..] == conds;
    } else {
      SetFixed(conds[1..], c);
      assert [conds[0]] + conds[1..] == conds;
    }
  }

  lemma {:induction false} WithoutFixed(conds: seq<Condition>, t: ConditionType)
    requires FindCondition(conds, t).None?
    ensures WithoutCondition(conds, t) == conds
  {
    hide UniqueTypes;
    if conds != [] {
      WithoutFixed(conds[1..], t);
      assert [conds[0]] + conds[1..] == conds;
    }
  }

  lemma WithFixed(s: Status, state: State, c: Condition)
    ensures With(With(s, state, c), state, c) == With(s, state, c)
  {
    SetFixed(With(s, state, c).conditions, c);
  }

  /** A status in which the readiness and the add-on's condition have been set. */
  lemma ReadyFixed(s: Status, version: string, c: Condition)
    requires c.typ == AddonInstalled
    ensures var r := ReadyStatus(s, version).(conditions := SetCondition(ReadyStatus(s, version).conditions, c));
      ReadyStatus(r, version) == r && r.(conditions := SetCondition(r.conditions, c)) == r
  {
    hide UniqueTypes;
    var r := ReadyStatus(s, version).(conditions := SetCondition(ReadyStatus(s, version).conditions, c));
    WithoutFixed(r.conditions, DeploymentFailure);
    SetFixed(r.conditions, Condition(Installed, True, Verified, DeploymentsReady));
    SetFixed(r.conditions, c);
  }

  lemma ModuleFixed(env: Env, ann: Annotations, s: Status, objs: seq<Obj>, w: World)
    ensures var r := ModuleStatus(env, ann, s, objs, w); ModuleStatus(env, ann, r, objs, w) == r
  {
    hide VersionOf, ReadyAt, FailingAt, ReadyStatus, AddonStatus, AddonCondition, With, Warns;
    var c := AddonCondition(env, ann, w);
    var version := VersionOf(objs, "");
    if FailingAt(w, objs, |objs|) != {} {
      WithFixed(s, Error, Condition(DeploymentFailure, True, DeploymentReplicaFailure, ReplicaFailureText));
    } else if |ReadyAt(w, objs, |objs|)| != 3 {
      WithFixed(s, Processing, Condition(Installed, Unknown, Verification, VerificationInProgress));
    } else {
      AddonFixed(env, ann, s, version, w);
    }
  }

  lemma AddonFixed(env: Env, ann: Annotations, s: Status, version: string, w: World)
    ensures var r := AddonStatus(env, ann, w, ReadyStatus(s, version)); AddonStatus(env, ann, w, ReadyStatus(r, version)) == r
  {
    hide AddonCondition, Warns, SetCondition, WithoutCondition;
    var c := AddonCondition(env, ann, w);
    AddonTyped(env, ann, w);
    var r0 := ReadyStatus(s, version);
    var r := AddonStatus(env, ann, w, r0);
    ReadyFixed(s, version, c);
    var q := r0.(conditions := SetCondition(r0.conditions, c));
    assert r == q.(state := if Warns(ann, w) then Warning else Ready);
    assert ReadyStatus(r, version) == ReadyStatus(q, version) == q;
  }

  lemma AddonTyped(env: Env, ann: Annotations, w: World)
    ensures AddonCondition(env, ann, w).typ == AddonInstalled
  {
    hide ReadAddonCfg, Lookup, ItemCount;
  }

  /** The add-on's decision depends on the records only if the add-on is off. */
  lemma SameAddonDecision(env: Env, a: Annotations, b: Annotations, s: Status, objs: seq<Obj>, w: World)
    requires SameConfig(a, b) && (a == b || ReadAddonCfg(a).enabled)
    ensures ModuleStatus(env, a, s, objs, w) == ModuleStatus(env, b, s, objs, w)
  {
    hide VersionOf, ReadyAt, FailingAt, ReadyStatus, WithAddon, With, IsTrueFold;
    assert ReadAddonCfg(a) == ReadAddonCfg(b);
  }

  // ---- two runs -----------------------------------------------------------

  /** One fault-free run, from the stored CR. */
  function Once(env: Env, k: KedaCR, objs: seq<Obj>, w: World): RunState {
    Finish(StartRun(env, k, objs, Api(w, [], [])))
  }

  ghost predicate NoEvents(t: seq<Call>) { forall i :: 0 <= i < |t| ==> !t[i].Emit? }

  lemma {:induction false} LiveUnique(env: Env, k: KedaCR, objs: seq<Obj>, w: World)
    requires UniqueTypes(k.status.conditions)
    ensures UniqueTypes(LiveStatus(env, k, objs, w).conditions)
  {
    hide UniqueTypes, FindCondition, MissingFrom, VersionOf, ReadyAt, FailingAt, Chain.HasRestricted, AddonCondition;
  }

  lemma LiveServed(env: Env, k: KedaCR, objs: seq<Obj>, w: World)
    ensures LiveStatus(env, k, objs, w).served == k.status.served
  {
    hide SetCondition, WithoutCondition, MissingFrom, VersionOf, ReadyAt, FailingAt, Chain.HasRestricted, AddonCondition;
  }

  /** The same decision again. */
  lemma SameLiveStatus(env: Env, k: KedaCR, objs: seq<Obj>, w: World, l: KedaCR, after: seq<Obj>, x: World)
    requires l == k.(status := LiveStatus(env, k, objs, w), annotations := l.annotations, spec := l.spec)
    requires l.spec.podAnnotations == k.spec.podAnnotations && SameConfig(k.annotations, l.annotations)
    requires l.annotations == LiveRecord(env, k, objs, w) && !Removes(env, k, objs, w)
    requires SameModule(objs, after) && x.items == w.items && x.statuses == w.statuses
    ensures LiveStatus(env, l, after, x) == LiveStatus(env, k, objs, w)
  {
    hide MissingFrom, ModuleStatus, SameModule, SameConfig, ReadAddonCfg, With, Healthy, RemovesAddon, Recorded, AllFound;
    NoneMissing(objs);
    var s := LiveStatus(env, k, objs, w);
    assert Chain.HasRestricted(l.spec) == Chain.HasRestricted(k.spec);
    SameMissing(objs, after, Chain.Operator);
    if Chain.HasRestricted(k.spec) {
      WithFixed(k.status, Error, Condition(Installed, False, ValidationErr, OfErr(RestrictedAnnotations(k.id.name))));
    } else if MissingFrom(Chain.Operator, objs).Some? {
      var c := MissingFrom(Chain.Operator, objs).value;
      WithFixed(k.status, Error, Condition(Installed, False,
        if c == Chain.WebhookPolicy then NetworkPolicyUpdateErr else DeploymentUpdateErr, OfErr(NoSuchObject)));
    } else {
      SameAddonDecision(env, k.annotations, l.annotations, s, objs, w);
      SameDecision(env, l.annotations, s, objs, after, w);
      SameModuleStatus(env, l.annotations, s, after, w, x);
      ModuleFixed(env, k.annotations, k.status, objs, w);
    }
  }

  lemma SomePosition(idx: seq<nat>)
    requires |idx| > 0
    ensures exists i: nat :: i in idx
  {
    assert idx[0] in idx;
  }

  lemma NoPosition(idx: seq<nat>, conds: seq<Condition>)
    requires E.Increasing(idx, |conds|) && forall i: nat :: i < |conds| ==> (i in idx <==> conds[i] !in conds)
    ensures forall i: nat :: i !in idx
  {
    forall i: nat ensures i !in idx {
      if i < |conds| { assert conds[i] in conds; }
    }
  }

  lemma {:induction false} NothingNew(conds: seq<Condition>, calls: seq<Call>)
    requires E.IsDiff(conds, conds, calls)
    ensures calls == []
  {
    var idx: seq<nat> :| E.Reports(conds, idx, calls) && forall i: nat :: i < |conds| ==> (i in idx <==> conds[i] !in conds);
    NoPosition(idx, conds);
    if |idx| > 0 {
      SomePosition(idx);
      assert false;
    }
  }

  /** The status write of a run that landed it, and the events after it. */
  lemma WriteOf(id: KedaId, u: RunState, carried: Option<(Option<Result>, Option<Err>)>, s: Status) returns (w: nat)
    requires Outcome(id, u, carried) && Landed(id, s) in u.api.trace
    ensures WrittenAt(u.api.trace, w) && u.api.trace[w] == Landed(id, s) && u.k.status == s
  {
    hide Returned, EndedEarly;
    var t := u.api.trace;
    var i: nat :| i < |t| && t[i] == Landed(id, s);
    assert carried.Some?;
    w :| Wrote(id, u, w);
    assert forall j :: 0 <= j < w ==> t[..w][j] == t[j];
  }

  lemma SilentAfter(t: seq<Call>, w: nat)
    requires WrittenAt(t, w)
    ensures NoEvents(t) <==> t[w + 1..] == []
  {
    assert forall i :: 0 <= i < w ==> t[..w][i] == t[i];
    assert |t| > w + 1 ==> t[w + 1].Emit?;
  }

  /** The run removes the add-on: it is off, on record, known and unused, and the module gets that far. */
  predicate Removes(env: Env, k: KedaCR, objs: seq<Obj>, w: World) {
    !Chain.HasRestricted(k.spec) && AllFound(objs) && Healthy(w, objs) && RemovesAddon(env, k.annotations, w)
  }

  // ---- a run after the removal --------------------------------------------

  const REMOVED := Condition(AddonInstalled, False, HttpAddonDeleted, AddonRemovedText)
  const DISABLED := Condition(AddonInstalled, False, HttpAddonDisabled, AddonDisabledText)

  /** What the run after the removal stores. */
  function AfterRemoval(s: Status): Status { s.(conditions := SetCondition(s.conditions, DISABLED)) }

  lemma RemovalRecord(env: Env, ann: Annotations, w: World, b: Annotations)
    requires RemovesAddon(env, ann, w) && SameConfig(ann, b) && b == AddonRecord(env, ann, w)
    ensures AddonCondition(env, ann, w) == REMOVED && AddonCondition(env, b, w) == DISABLED
    ensures !Warns(ann, w) && !Warns(b, w)
  {
    hide IsTrueFold;
  }

  /** The decision of the run after the removal, from that of the run that removed. */
  lemma RemovalDecisions(env: Env, k: KedaCR, objs: seq<Obj>, w: World, l: KedaCR, after: seq<Obj>, x: World)
    requires l == k.(status := LiveStatus(env, k, objs, w), annotations := l.annotations, spec := l.spec)
    requires l.spec.podAnnotations == k.spec.podAnnotations && SameConfig(k.annotations, l.annotations)
    requires l.annotations == LiveRecord(env, k, objs, w) && Removes(env, k, objs, w)
    requires SameModule(objs, after) && x.items == w.items && x.statuses == w.statuses
    ensures LiveStatus(env, l, after, x) == AfterRemoval(l.status)
    ensures l.status.state == Ready && Find(l.status, AddonInstalled) == Some(REMOVED)
  {
    hide MissingFrom, SameModule, SameConfig, AddonCondition, RemovesAddon, Warns, Recorded, AllFound, VersionOf, ReadyAt, FailingAt, ReadyStatus;
    NoneMissing(objs);
    assert Chain.HasRestricted(l.spec) == Chain.HasRestricted(k.spec);
    RemovalRecord(env, k.annotations, w, l.annotations);
    SameMissing(objs, after, Chain.Operator);
    SameDecision(env, l.annotations, l.status, objs, after, w);
    SameModuleStatus(env, l.annotations, l.status, after, w, x);
    ReadyFixed(k.status, VersionOf(objs, ""), REMOVED);
    ReadyIsReady(k.status, VersionOf(objs, ""));
  }

  lemma ReadyIsReady(s: Status, version: string)
    ensures ReadyStatus(s, version).state == Ready
  {
  }

  /** The difference that setting one condition makes. */
  lemma OneEvent(conds: seq<Condition>, c: Condition, calls: seq<Call>)
    requires UniqueTypes(conds) && c !in conds && E.IsDiff(SetCondition(conds, c), conds, calls)
    ensures calls == [Emit(EventOf(c))]
  {
    hide UniqueTypes;
    var all := SetCondition(conds, c);
    forall d ensures d in all <==> if d.typ == c.typ then d == c else d in conds {
      E.FindUnique(all, d);
      E.FindUnique(conds, d);
    }
    var idx: seq<nat> :| E.Reports(all, idx, calls) && forall i: nat :: i < |all| ==> (i in idx <==> all[i] !in conds);
    assert c in all;
    var i: nat :| i < |all| && all[i] == c;
    assert forall j: nat :: j in idx <==> j == i by { OnlyPosition(all, conds, c, idx, i); }
    OnlyMember(idx, i, |all|);
  }

  lemma OnlyPosition(all: seq<Condition>, conds: seq<Condition>, c: Condition, idx: seq<nat>, i: nat)
    requires UniqueTypes(all) && E.Increasing(idx, |all|) && forall j: nat :: j < |all| ==> (j in idx <==> all[j] !in conds)
    requires i < |all| && all[i] == c && c !in conds && forall d :: d in all && d.typ != c.typ ==> d in conds
    ensures forall j: nat :: j in idx <==> j == i
  {
    forall j: nat ensures j in idx <==> j == i {
      if j < |all| && j != i { assert all[j] in all; }
    }
  }

  lemma OnlyMember(idx: seq<nat>, i: nat, bound: nat)
    requires E.Increasing(idx, bound) && forall j: nat :: j in idx <==> j == i
    ensures idx == [i]
  {
    assert i in idx;
    assert idx[0] in idx && idx[|idx| - 1] in idx;
  }

  // ---- the two runs -------------------------------------------------------

  /** Everything known about two runs in a row. */
  lemma TwoRuns(env: Env, k: KedaCR, objs: seq<Obj>, w: World) returns (u: RunState, l: KedaCR, u2: RunState, at: nat)
    requires LiveCr(env, k, w) && UniqueTypes(k.status.conditions)
    ensures u == Once(env, k, objs, w) && AfterRun(u, k.id) == Some(l) && u2 == Once(env, l, u.objs, u.api.world)
    ensures l.status == u.k.status && UniqueTypes(l.status.conditions)
    ensures AfterRun(u2, k.id).Some? && AfterRun(u2, k.id).value.status == u2.k.status
    ensures u2.k.status == if Removes(env, k, objs, w) then AfterRemoval(l.status) else l.status
    ensures Removes(env, k, objs, w) ==> l.status.state == Ready && Find(l.status, AddonInstalled) == Some(REMOVED)
    ensures WrittenAt(u2.api.trace, at) && u2.api.trace[at] == Landed(k.id, u2.k.status)
    ensures E.IsDiff(u2.k.status.conditions, l.status.conditions, u2.api.trace[at + 1..])
  {
    hide Finish, LiveStatus, LiveRecord, FindKeda, UniqueTypes, SameModule, SameConfig, MissingFrom, Outcome, E.Reported;
    hide Chain.HasRestricted, Chain.Chained, AllStamped, PeerAddress, Carried, Length, Rank, Removes, AfterRemoval, E.IsDiff, WrittenAt;
    u := LiveRunOutcome(env, k, objs, w);
    l := AfterRun(u, k.id).value;
    LiveServed(env, k, objs, w);
    u2 := LiveRunOutcome(env, l, u.objs, u.api.world);
    if Removes(env, k, objs, w) {
      RemovalDecisions(env, k, objs, w, l, u.objs, u.api.world);
    } else {
      SameLiveStatus(env, k, objs, w, l, u.objs, u.api.world);
    }
    LiveUnique(env, k, objs, w);
    at := EventsOfSecond(env, l, u.objs, u.api.world, u2);
  }

  lemma EventsOfSecond(env: Env, l: KedaCR, objs: seq<Obj>, w: World, u: RunState) returns (at: nat)
    requires LiveCr(env, l, w) && UniqueTypes(l.status.conditions)
    requires u == Once(env, l, objs, w) && u.fn.Nil? && Landed(l.id, u.k.status) in u.api.trace
    ensures WrittenAt(u.api.trace, at) && u.api.trace[at] == Landed(l.id, u.k.status)
    ensures E.IsDiff(u.k.status.conditions, l.status.conditions, u.api.trace[at + 1..])
  {
    hide FindKeda, UniqueTypes, Outcome, Run, Carried, Length, Rank, E.IsDiff, WrittenAt;
    var v := StartRun(env, l, objs, Api(w, [], []));
    RunOutcome(v, Rank(v.fn));
    at := WriteOf(l.id, u, Carried(v, Rank(v.fn)), u.k.status);
    E.EventsAreTheDiff(env, l, objs, Api(w, [], []));
  }

  /** A fault-free run on a live, served CR, repeated with nothing changed in between, stores the same
      status and emits no event, unless the first run removes the add-on; and then it does neither. */
  lemma SecondRunIsSilent(env: Env, k: KedaCR, objs: seq<Obj>, w: World) returns (u: RunState, l: KedaCR, u2: RunState)
    requires LiveCr(env, k, w) && UniqueTypes(k.status.conditions)
    ensures u == Once(env, k, objs, w) && AfterRun(u, k.id) == Some(l) && u2 == Once(env, l, u.objs, u.api.world)
    ensures l.status == u.k.status && AfterRun(u2, k.id).Some? && AfterRun(u2, k.id).value.status == u2.k.status
    ensures u2.k.status == l.status <==> !Removes(env, k, objs, w)
    ensures NoEvents(u2.api.trace) <==> !Removes(env, k, objs, w)
  {
    hide Once, FindKeda, UniqueTypes, NoEvents, Removes, E.IsDiff;
    var at;
    u, l, u2, at := TwoRuns(env, k, objs, w);
    SilentAfter(u2.api.trace, at);
    if Removes(env, k, objs, w) {
      RemovedIsNotDisabled(l.status);
      OneEvent(l.status.conditions, DISABLED, u2.api.trace[at + 1..]);
    } else {
      NothingNew(l.status.conditions, u2.api.trace[at + 1..]);
    }
  }

  lemma RemovedIsNotDisabled(s: Status)
    requires Find(s, AddonInstalled) == Some(REMOVED) && UniqueTypes(s.conditions)
    ensures DISABLED !in s.conditions && AfterRemoval(s) != s && Find(AfterRemoval(s), AddonInstalled) == Some(DISABLED)
  {
    E.FindUnique(s.conditions, DISABLED);
  }

  /** The exception: the run after the one that removed the add-on leaves the state Ready, turns the
      reason from HttpAddonDeleted into HttpAddonDisabled, and emits that one warning. */
  lemma RemovalIsReportedTwice(env: Env, k: KedaCR, objs: seq<Obj>, w: World) returns (u: RunState, l: KedaCR, u2: RunState, at: nat)
    requires LiveCr(env, k, w) && UniqueTypes(k.status.conditions) && Removes(env, k, objs, w)
    ensures u == Once(env, k, objs, w) && AfterRun(u, k.id) == Some(l) && u2 == Once(env, l, u.objs, u.api.world)
    ensures l.status == u.k.status && l.status.state == u2.k.status.state == Ready
    ensures Find(l.status, AddonInstalled) == Some(REMOVED) && Find(u2.k.status, AddonInstalled) == Some(DISABLED)
    ensures forall t :: t != AddonInstalled ==> Find(u2.k.status, t) == Find(l.status, t)
    ensures AfterRun(u2, k.id).Some? && AfterRun(u2, k.id).value.status == u2.k.status
    ensures WrittenAt(u2.api.trace, at)
         && u2.api.trace[at..] == [Landed(k.id, u2.k.status), Emit(Event(true, HttpAddonDisabled, AddonDisabledText))]
  {
    hide Once, FindKeda, UniqueTypes, Removes, E.IsDiff;
    u, l, u2, at := TwoRuns(env, k, objs, w);
    RemovedIsNotDisabled(l.status);
    OneEvent(l.status.conditions, DISABLED, u2.api.trace[at + 1..]);
    SplitAt(u2.api.trace, at);
  }

  lemma SplitAt(t: seq<Call>, at: nat)
    requires WrittenAt(t, at)
    ensures t[at..] == [t[at]] + t[at + 1..]
  {
  }

  /** An Installed=True can outlive its truth: a run that applies everything and then finds a failing
      Deployment writes Error and leaves an earlier Installed=True standing. */
  lemma StaleInstalled(env: Env, k: KedaCR, objs: seq<Obj>, w: World)
    requires LiveCr(env, k, w) && !Chain.HasRestricted(k.spec) && AllFound(objs)
    requires FailingAt(w, objs, |objs|) != {}
    ensures Once(env, k, objs, w).k.status.state == Error
    ensures InstalledTrue(Once(env, k, objs, w).k.status) <==> InstalledTrue(k.status)
  {
    hide Finish, FindKeda, UniqueTypes, SameModule, SameConfig, MissingFrom, AllFound, FailingAt, Chain.HasRestricted, Chain.Chained, AllStamped, PeerAddress;
    NoneMissing(objs);
    var u := LiveRunOutcome(env, k, objs, w);
  }
}
