/** What a Ready status vouches for (pkg/reconciler/apply.go:30-73, pkg/reconciler/verify.go:14-81). */
module ReadySoundness {
  import opened KedaTypes
  import opened Objects
  import opened Cluster
  import opened StateMachine
  import opened Transitions
  import opened RunLoop
  import Chain = UpdateChain

  // ---- what the cluster reports about the module ---------------------------

  predicate ReadyDeployment(w: World, o: Obj) { IsDeployment(o) && StatusOf(w, KeyOf(o)).ready }

  predicate FailingDeployment(w: World, o: Obj) { IsDeployment(o) && StatusOf(w, KeyOf(o)).replicaFailure }

  /** The positions below n with a ready Deployment, and those with a failing one. */
  function ReadyAt(w: World, objs: seq<Obj>, n: nat): set<nat>
    requires n <= |objs|
  {
    set i: nat | i < n && ReadyDeployment(w, objs[i])
  }

  function FailingAt(w: World, objs: seq<Obj>, n: nat): set<nat>
    requires n <= |objs|
  {
    set i: nat | i < n && FailingDeployment(w, objs[i])
  }

  /** Exactly three ready Deployments and none with a replica failure. */
  predicate Healthy(w: World, objs: seq<Obj>) {
    |ReadyAt(w, objs, |objs|)| == 3 && FailingAt(w, objs, |objs|) == {}
  }

  // ---- the counting loop --------------------------------------------------

  lemma OneMorePosition(w: World, objs: seq<Obj>, n: nat)
    requires n < |objs|
    ensures |ReadyAt(w, objs, n + 1)| == |ReadyAt(w, objs, n)| + (if ReadyDeployment(w, objs[n]) then 1 else 0)
    ensures |FailingAt(w, objs, n + 1)| == |FailingAt(w, objs, n)| + (if FailingDeployment(w, objs[n]) then 1 else 0)
  {
    hide ReadyDeployment, FailingDeployment;
    OneMoreMember(ReadyAt(w, objs, n), ReadyAt(w, objs, n + 1), n);
    OneMoreMember(FailingAt(w, objs, n), FailingAt(w, objs, n + 1), n);
  }

  lemma OneMoreMember(a: set<nat>, b: set<nat>, n: nat)
    requires n !in a && forall i :: i in b <==> i in a || (i == n && n in b)
    ensures |b| == |a| + if n in b then 1 else 0
  {
    if n in b {
      assert b == a + {n};
    } else {
      assert b == a;
    }
  }

  /** The applied objects are these, with what the cluster reported. */
  ghost predicate AppliedAs(w: World, objs: seq<Obj>, applied: seq<Applied>) {
    && |applied| == |objs|
    && forall i :: 0 <= i < |objs| ==>
         KeyOf(applied[i].obj) == KeyOf(objs[i]) && IsDeployment(applied[i].obj) == IsDeployment(objs[i])
         && applied[i].status == StatusOf(w, KeyOf(objs[i]))
  }

  lemma {:induction false} VerifyCounts(w: World, objs: seq<Obj>, a: Api, applied: seq<Applied>, n: nat, t: Tally)
    requires AppliedAs(w, objs, applied) && n <= |applied|
    requires t.ready == |ReadyAt(w, objs, n)| && t.failures == |FailingAt(w, objs, n)|
    ensures var r := VerifyAll(a, applied[n..], t);
      r.err.None? ==> r.tally.ready == |ReadyAt(w, objs, |objs|)| && r.tally.failures == |FailingAt(w, objs, |objs|)|
    decreases |applied| - n
  {
    hide IsDeployment, DoConvert, StatusOf;
    if n < |applied| {
      OneMorePosition(w, objs, n);
      assert applied[n..][1..] == applied[n + 1..] && applied[n..][0] == applied[n];
      if !IsDeployment(applied[n].obj) {
        VerifyCounts(w, objs, a, applied, n + 1, t);
      } else if DoConvert(a).err.None? {
        VerifyCounts(w, objs, DoConvert(a).api, applied, n + 1, Counted(t, applied[n]));
      }
    }
  }

  /** Verification in terms of the cluster: when it sets Installed=True, and when it leaves an old
      Installed=True standing although a Deployment is failing. */
  lemma VerifyDecides(v: RunState, objs: seq<Obj>)
    requires v.fn.Verify? && AppliedAs(v.api.world, objs, v.applied)
    ensures var r := VerifyAll(v.api, v.applied, Tally(0, 0, "")); var u := StepVerify(v);
      && (u.fn.HandleAddon? <==> r.err.None? && Healthy(v.api.world, objs))
      && (Has(u.k.status, Installed, True, {Verified}) <==>
            r.err.None? && (Healthy(v.api.world, objs)
                            || (FailingAt(v.api.world, objs, |objs|) != {} && Has(v.k.status, Installed, True, {Verified}))))
      && (u.fn.HandleAddon? <==> u.k.status.state == Ready)
  {
    hide VerifyAll, IsDeployment, StatusOf, FindCondition, UniqueTypes;
    assert v.applied[0..] == v.applied;
    VerifyCounts(v.api.world, objs, v.api, v.applied, 0, Tally(0, 0, ""));
  }

  // ---- the apply loop -----------------------------------------------------

  /** The patches in a trace, in order. */
  function Patches(t: seq<Call>): seq<Call> {
    if t == [] then [] else Patches(t[..|t| - 1]) + if t[|t| - 1].PatchObj? then [t[|t| - 1]] else []
  }

  ghost predicate NoConvertErr(t: seq<Call>) {
    forall i :: 0 <= i < |t| && t[i].ConvertObj? ==> t[i].err.None?
  }

  /** After the first m patches come those of the objects, in order and accepted. */
  ghost predicate PatchedFrom(t: seq<Call>, m: nat, objs: seq<Obj>) {
    && m + |objs| <= |Patches(t)|
    && forall i :: 0 <= i < |objs| ==> Patches(t)[m + i] == PatchObj(KeyOf(objs[i]), None)
  }

  lemma PatchesOneMore(t: seq<Call>, c: Call)
    ensures Patches(t + [c]) == Patches(t) + if c.PatchObj? then [c] else []
  {
    assert (t + [c])[..|t|] == t;
  }

  /** What one object adds to the trace. */
  lemma ApplyOne(a: Api, o: Obj) returns (b: Api, ok: bool)
    ensures var s := Stamped(o); var conv := if s.kind == Deployment then DoConvert(a) else Rep(a, None); var p := DoPatch(conv.api, s);
      b == p.api && ok == (conv.err.None? && p.err.None?)
    ensures b.world == a.world.(objs := b.world.objs)
    ensures |Patches(b.trace)| == |Patches(a.trace)| + 1 && Patches(b.trace)[..|Patches(a.trace)|] == Patches(a.trace)
    ensures NoConvertErr(a.trace) ==>
              (ok <==> NoConvertErr(b.trace) && Patches(b.trace)[|Patches(a.trace)|] == PatchObj(KeyOf(o), None))
    ensures NoConvertErr(b.trace) ==> NoConvertErr(a.trace)
  {
    hide Patches;
    StampedKey(o);
    var s := Stamped(o);
    var conv := if s.kind == Deployment then DoConvert(a) else Rep(a, None);
    var p := DoPatch(conv.api, s);
    b, ok := p.api, conv.err.None? && p.err.None?;
    if s.kind == Deployment { PatchesOneMore(a.trace, conv.api.trace[|a.trace|]); }
    PatchesOneMore(conv.api.trace, p.api.trace[|conv.api.trace|]);
    assert forall i :: 0 <= i < |a.trace| ==> b.trace[i] == a.trace[i];
    assert s.kind == Deployment ==> b.trace[|a.trace|] == conv.api.trace[|a.trace|];
  }

  /** The loop goes through all objects; it reports no error exactly if every conversion and every
      patch was accepted, and it keeps what the cluster reports for each. */
  lemma {:induction false} ApplyModuleMeaning(a: Api, list: seq<Obj>, applied: seq<Applied>, failed: bool)
    ensures var r := ApplyModule(a, list, applied, failed); var m := |Patches(a.trace)|;
      && |Patches(r.api.trace)| == m + |list| && Patches(r.api.trace)[..m] == Patches(a.trace)
      && (NoConvertErr(a.trace) ==>
            (!r.failed <==> !failed && NoConvertErr(r.api.trace) && PatchedFrom(r.api.trace, m, list)))
      && (NoConvertErr(r.api.trace) ==> NoConvertErr(a.trace)) && (failed ==> r.failed)
      && |r.applied| == |applied| + |list| && r.applied[..|applied|] == applied
      && AppliedAs(a.world, list, r.applied[|applied|..])
    decreases list
  {
    hide Patches, DoConvert, DoPatch, Stamped, StatusOf, IsDeployment, NoConvertErr;
    if list != [] {
      var b, ok := ApplyOne(a, list[0]);
      StampedKey(list[0]);
      var s := Applied(Stamped(list[0]), StatusOf(b.world, KeyOf(Stamped(list[0]))));
      var r := ApplyModule(b, list[1..], applied + [s], failed || !ok);
      assert r == ApplyModule(a, list, applied, failed);
      ApplyModuleMeaning(b, list[1..], applied + [s], failed || !ok);
      FirstPatched(a.trace, b.trace, r.api.trace, list);
      FirstApplied(a.world, b.world, list, r.applied, applied, s);
    }
  }

  lemma FirstPatched(t: seq<Call>, u: seq<Call>, w: seq<Call>, list: seq<Obj>)
    requires list != [] && |Patches(u)| == |Patches(t)| + 1 && Patches(u)[..|Patches(t)|] == Patches(t)
    requires |Patches(w)| == |Patches(u)| + |list| - 1 && Patches(w)[..|Patches(u)|] == Patches(u)
    ensures |Patches(w)| == |Patches(t)| + |list| && Patches(w)[..|Patches(t)|] == Patches(t)
    ensures PatchedFrom(w, |Patches(t)|, list) <==>
              Patches(u)[|Patches(t)|] == PatchObj(KeyOf(list[0]), None) && PatchedFrom(w, |Patches(u)|, list[1..])
  {
    hide Patches;
    var m := |Patches(t)|;
    assert Patches(w)[m] == Patches(w)[..m + 1][m] == Patches(u)[m];
    assert Patches(w)[..m] == Patches(w)[..m + 1][..m];
    if PatchedFrom(w, m, list) {
      forall i | 0 <= i < |list| - 1 ensures Patches(w)[m + 1 + i] == PatchObj(KeyOf(list[1..][i]), None) {
        assert Patches(w)[m + (i + 1)] == PatchObj(KeyOf(list[i + 1]), None);
      }
    }
    if Patches(u)[m] == PatchObj(KeyOf(list[0]), None) && PatchedFrom(w, m + 1, list[1..]) {
      forall i | 0 <= i < |list| ensures Patches(w)[m + i] == PatchObj(KeyOf(list[i]), None) {
        if i > 0 { assert Patches(w)[m + 1 + (i - 1)] == PatchObj(KeyOf(list[1..][i - 1]), None); }
      }
    }
  }

  lemma FirstApplied(w: World, x: World, list: seq<Obj>, all: seq<Applied>, applied: seq<Applied>, s: Applied)
    requires list != [] && x.statuses == w.statuses
    requires KeyOf(s.obj) == KeyOf(list[0]) && IsDeployment(s.obj) == IsDeployment(list[0]) && s.status == StatusOf(x, KeyOf(list[0]))
    requires |all| == |applied| + |list| && all[..|applied| + 1] == applied + [s]
    requires AppliedAs(x, list[1..], all[|applied| + 1..])
    ensures all[..|applied|] == applied && AppliedAs(w, list, all[|applied|..])
  {
    hide IsDeployment;
    var n := |applied|;
    assert all[..n] == all[..n + 1][..n] && all[n] == all[..n + 1][n] == s;
    forall i | 0 <= i < |list|
      ensures KeyOf(all[n..][i].obj) == KeyOf(list[i]) && IsDeployment(all[n..][i].obj) == IsDeployment(list[i])
      ensures all[n..][i].status == StatusOf(w, KeyOf(list[i]))
    {
      if i > 0 {
        assert all[n..][i] == all[n + 1..][i - 1] && list[i] == list[1..][i - 1];
      }
    }
  }

  // ---- one run ------------------------------------------------------------

  /** All module objects applied, nothing refused, and the cluster reports a healthy module. */
  ghost predicate Passed(w: World, objs: seq<Obj>, t: seq<Call>) {
    AllApplied(objs, t) && Healthy(w, objs)
  }

  /** Every object was patched, in order and accepted, and no conversion failed. */
  ghost predicate AllApplied(objs: seq<Obj>, t: seq<Call>) { NoConvertErr(t) && PatchedFrom(t, 0, objs) }

  predicate InstalledTrue(s: Status) { Has(s, Installed, True, {Verified}) }

  /** A status written after the calls t: Ready, or Warning, exactly if everything passed; and
      Installed=True exactly then or if it stood before and a failing Deployment left it standing. */
  ghost predicate Vouched(w: World, objs: seq<Obj>, was: Status, t: seq<Call>, s: Status) {
    && (s.state == Ready || s.state == Warning <==> Passed(w, objs, t))
    && (InstalledTrue(s) <==> Passed(w, objs, t)
                              || (AllApplied(objs, t) && FailingAt(w, objs, |objs|) != {} && InstalledTrue(was)))
  }

  /** Every status in the trace was vouched for by the calls before it. */
  ghost predicate AllVouched(w: World, objs: seq<Obj>, was: Status, t: seq<Call>) {
    forall i :: 0 <= i < |t| && t[i].UpdateStatus? ==> Vouched(w, objs, was, t[..i], t[i].status)
  }

  ghost predicate SameKeys(a: seq<Obj>, b: seq<Obj>) {
    |a| == |b| && forall i :: 0 <= i < |a| ==> KeyOf(b[i]) == KeyOf(a[i]) && IsDeployment(b[i]) == IsDeployment(a[i])
  }

  /** Before anything is applied. */
  ghost predicate Unapplied(v: RunState, was: Status) {
    && Patches(v.api.trace) == [] && NoConvertErr(v.api.trace) && NoStatusWrite(v.api.trace)
    && v.applied == [] && v.k.status == was && v.k.status.served == ServedTrue
    && !v.k.deleting && v.env.finalizer in v.k.finalizers
  }

  ghost predicate ReadyInv(v: RunState, w: World, objs: seq<Obj>, was: Status) {
    && v.api.world.statuses == w.statuses && SameKeys(objs, v.objs)
    && match v.fn
       case Verify =>
         && NoStatusWrite(v.api.trace) && NoConvertErr(v.api.trace) && PatchedFrom(v.api.trace, 0, objs)
         && AppliedAs(w, objs, v.applied) && v.k.status == was
       case HandleAddon => Good(v, w, objs)
       case GuardAddonInUse => Good(v, w, objs)
       case ApplyAddon => Good(v, w, objs)
       case DeleteAddon => Good(v, w, objs)
       case WriteStatus(_, _) => NoStatusWrite(v.api.trace) && Vouched(w, objs, was, v.api.trace, v.k.status)
       case EmitEvents(_, _) => AllVouched(w, objs, was, v.api.trace)
       case Nil => AllVouched(w, objs, was, v.api.trace)
       case DeleteResources => false
       case SafeDeletion => false
       case RemoveFinalizer => false
       case _ => Unapplied(v, was)
  }

  ghost predicate Good(v: RunState, w: World, objs: seq<Obj>) {
    NoStatusWrite(v.api.trace) && Passed(w, objs, v.api.trace) && v.k.status.state == Ready && InstalledTrue(v.k.status)
  }

  // ---- traces that grow ---------------------------------------------------

  lemma {:induction false} PatchesGrow(t: seq<Call>, u: seq<Call>)
    requires t <= u
    ensures Patches(t) <= Patches(u)
    decreases |u|
  {
    if |t| < |u| {
      PatchesGrow(t, u[..|u| - 1]);
    } else {
      assert t == u;
    }
  }

  lemma {:induction false} NoPatches(t: seq<Call>, u: seq<Call>)
    requires t <= u && forall i :: |t| <= i < |u| ==> !u[i].PatchObj?
    ensures Patches(t) == Patches(u)
    decreases |u|
  {
    if |t| < |u| {
      NoPatches(t, u[..|u| - 1]);
    } else {
      assert t == u;
    }
  }

  lemma AppliedGrows(objs: seq<Obj>, t: seq<Call>, u: seq<Call>)
    requires t <= u && AllApplied(objs, t) && forall i :: |t| <= i < |u| ==> !u[i].ConvertObj?
    ensures AllApplied(objs, u)
  {
    hide Patches;
    PatchesGrow(t, u);
    forall i | 0 <= i < |u| && u[i].ConvertObj? ensures u[i].err.None? {
      assert i < |t| && u[i] == t[i];
    }
    forall i | 0 <= i < |objs| ensures Patches(u)[i] == PatchObj(KeyOf(objs[i]), None) {
      assert Patches(u)[i] == Patches(t)[0 + i];
    }
  }

  /** Nothing was applied: no status can vouch for anything. */
  lemma NothingPassed(w: World, objs: seq<Obj>, t: seq<Call>)
    requires Patches(t) == []
    ensures !Passed(w, objs, t) && !(AllApplied(objs, t) && FailingAt(w, objs, |objs|) != {})
  {
    if AllApplied(objs, t) {
      assert objs == [];
      assert ReadyAt(w, objs, 0) == {};
    }
  }

  // ---- the steps ----------------------------------------------------------

  lemma SameKeysSame(a: seq<Obj>)
    ensures SameKeys(a, a)
  {
  }

  lemma EarlySteps(v: RunState, w: World, objs: seq<Obj>, was: Status)
    requires ReadyInv(v, w, objs, was)
    ensures v.fn.ServedFilter? ==> ReadyInv(StepServedFilter(v), w, objs, was)
    ensures v.fn.TakeSnapshot? ==> ReadyInv(StepTakeSnapshot(v), w, objs, was)
    ensures v.fn.Initialize? ==> ReadyInv(StepInitialize(v), w, objs, was)
    ensures v.fn.HandleAddon? ==> ReadyInv(StepHandleAddon(v), w, objs, was)
  {
    hide Patches, NoConvertErr, NoStatusWrite, SameKeys, Passed, FindCondition, DoUpdateMeta, FindServed;
  }

  lemma FailedIsVouched(w: World, objs: seq<Obj>, was: Status, t: seq<Call>, s: Status, r: Reason, e: Err)
    requires !Passed(w, objs, t) && !(AllApplied(objs, t) && FailingAt(w, objs, |objs|) != {})
    ensures Vouched(w, objs, was, t, Failed(s, Installed, r, e))
  {
    hide FindCondition, UniqueTypes, Passed, AllApplied;
  }

  lemma ValidationStep(v: RunState, w: World, objs: seq<Obj>, was: Status)
    requires ReadyInv(v, w, objs, was) && v.fn.BootstrapperValidation?
    ensures ReadyInv(StepValidation(v), w, objs, was)
  {
    hide Patches, NoConvertErr, NoStatusWrite, SameKeys, Passed, AllApplied, Vouched, Failed, Chain.HasRestricted;
    NothingPassed(w, objs, v.api.trace);
    FailedIsVouched(w, objs, was, v.api.trace, v.k.status, ValidationErr, RestrictedAnnotations(v.k.id.name));
  }

  lemma FindStep(v: RunState, c: Chain.Component, w: World, objs: seq<Obj>, was: Status)
    requires ReadyInv(v, w, objs, was) && v.fn == FindComponent(c)
    ensures ReadyInv(StepFindComponent(v, c), w, objs, was)
  {
    hide Patches, NoConvertErr, NoStatusWrite, SameKeys, Passed, AllApplied, Vouched, Failed, Chain.FirstIndex;
    NothingPassed(w, objs, v.api.trace);
    var reason := if c == Chain.WebhookPolicy then NetworkPolicyUpdateErr else DeploymentUpdateErr;
    FailedIsVouched(w, objs, was, v.api.trace, v.k.status, reason, NoSuchObject);
  }

  lemma EditedKeys(objs: seq<Obj>, list: seq<Obj>, u: nat, c: Chain.Component, e: Chain.Edit, s: KedaSpec, addr: string)
    requires SameKeys(objs, list) && u < |list|
    ensures SameKeys(objs, list[u := Chain.EditedObj(c, e, s, addr, list[u])])
  {
    hide Chain.EditedTemplate, Chain.HasData, Chain.PeeredIngress;
  }

  lemma OneConvert(t: seq<Call>, err: Option<Err>)
    requires Patches(t) == [] && NoConvertErr(t) && NoStatusWrite(t)
    ensures Patches(t + [ConvertObj(err)]) == [] && NoStatusWrite(t + [ConvertObj(err)])
    ensures NoConvertErr(t + [ConvertObj(err)]) <==> err.None?
  {
    var u := t + [ConvertObj(err)];
    assert u[..|t|] == t;
    assert u[|t|] == ConvertObj(err);
  }

  lemma UpdateStep(v: RunState, c: Chain.Component, e: nat, u: nat, w: World, objs: seq<Obj>, was: Status)
    requires ReadyInv(v, w, objs, was) && v.fn == UpdateObject(c, e, u) && u < |v.objs|
    ensures ReadyInv(StepUpdateObject(v, c, e, u), w, objs, was)
  {
    hide Patches, NoConvertErr, NoStatusWrite, SameKeys, Passed, AllApplied, Vouched, Failed, Chain.EditedObj, Chain.SanitizedSpec, Chain.HasData;
    var r := DoConvert(v.api);
    OneConvert(v.api.trace, r.err);
    NothingPassed(w, objs, r.api.trace);
    if r.err.Some? {
      FailedIsVouched(w, objs, was, r.api.trace, v.k.status, DeploymentUpdateErr, r.err.value);
    }
    if e < |Chain.Edits(c)| {
      EditedKeys(objs, v.objs, u, c, Chain.Edits(c)[e], v.k.spec, PeerAddress(v.env));
    }
  }

  lemma AllStampedKeys(objs: seq<Obj>, list: seq<Obj>)
    requires SameKeys(objs, list)
    ensures SameKeys(objs, AllStamped(list))
  {
    forall i | 0 <= i < |list| ensures KeyOf(AllStamped(list)[i]) == KeyOf(list[i]) && IsDeployment(AllStamped(list)[i]) == IsDeployment(list[i]) {
      StampedKey(list[i]);
    }
  }

  lemma SameKeysApplied(w: World, x: World, objs: seq<Obj>, list: seq<Obj>, applied: seq<Applied>, t: seq<Call>)
    requires SameKeys(objs, list) && x.statuses == w.statuses
    ensures AppliedAs(x, list, applied) ==> AppliedAs(w, objs, applied)
    ensures PatchedFrom(t, 0, list) <==> PatchedFrom(t, 0, objs)
  {
    hide Patches, IsDeployment;
    if PatchedFrom(t, 0, objs) {
      forall i | 0 <= i < |list| ensures Patches(t)[0 + i] == PatchObj(KeyOf(list[i]), None) {
        assert Patches(t)[0 + i] == PatchObj(KeyOf(objs[i]), None);
      }
    }
  }

  lemma ApplyStep(v: RunState, w: World, objs: seq<Obj>, was: Status)
    requires ReadyInv(v, w, objs, was) && v.fn.Apply?
    ensures ReadyInv(StepApply(v), w, objs, was)
  {
    hide Patches, NoConvertErr, NoStatusWrite, SameKeys, AppliedAs, PatchedFrom, Vouched, Failed, ApplyModule, AllStamped, Healthy, FindCondition;
    var r := ApplyModule(v.api, v.objs, v.applied, false);
    ApplyModuleMeaning(v.api, v.objs, v.applied, false);
    ApplyModuleFacts(v.api, v.objs, v.applied, false);
    assert r.applied[|v.applied|..] == r.applied;
    SameKeysApplied(w, v.api.world, objs, v.objs, r.applied, r.api.trace);
    AllStampedKeys(objs, v.objs);
    assert NoStatusWrite(r.api.trace) by { NoStatusWriteGrows(v.api.trace, r.api.trace); }
    if r.failed {
      FailedIsVouched(w, objs, was, r.api.trace, v.k.status, ApplyObjError, InstallationErr);
    }
  }

  lemma NoStatusWriteGrows(t: seq<Call>, u: seq<Call>)
    requires NoStatusWrite(t) && t <= u && forall i :: |t| <= i < |u| ==> !u[i].UpdateStatus?
    ensures NoStatusWrite(u)
  {
    forall i | 0 <= i < |u| ensures !u[i].UpdateStatus? {
      if i < |t| { assert u[i] == t[i]; }
    }
  }

  lemma {:induction false} VerifyErrs(a: Api, list: seq<Applied>, t: Tally)
    requires NoConvertErr(a.trace)
    ensures var r := VerifyAll(a, list, t); r.err.None? <==> NoConvertErr(r.api.trace)
    decreases list
  {
    if list != [] {
      if IsDeployment(list[0].obj) {
        var c := DoConvert(a);
        assert c.api.trace[|a.trace|] == ConvertObj(c.err);
        assert forall i :: 0 <= i < |a.trace| ==> c.api.trace[i] == a.trace[i];
        if c.err.None? {
          VerifyErrs(c.api, list[1..], Counted(t, list[0]));
        }
      } else {
        VerifyErrs(a, list[1..], t);
      }
    }
  }

  lemma SameHealth(w: World, x: World, objs: seq<Obj>)
    requires x.statuses == w.statuses
    ensures Healthy(x, objs) == Healthy(w, objs) && FailingAt(x, objs, |objs|) == FailingAt(w, objs, |objs|)
  {
    assert forall o :: ReadyDeployment(x, o) == ReadyDeployment(w, o) && FailingDeployment(x, o) == FailingDeployment(w, o);
    assert ReadyAt(x, objs, |objs|) == ReadyAt(w, objs, |objs|);
    assert FailingAt(x, objs, |objs|) == FailingAt(w, objs, |objs|);
  }

  lemma VerifyStep(v: RunState, w: World, objs: seq<Obj>, was: Status)
    requires ReadyInv(v, w, objs, was) && v.fn.Verify?
    ensures ReadyInv(StepVerify(v), w, objs, was)
  {
    hide Patches, NoConvertErr, NoStatusWrite, SameKeys, VerifyAll, Healthy, FailingAt, ReadyStatus, FindCondition, TraceGrows;
    var r := VerifyAll(v.api, v.applied, Tally(0, 0, ""));
    VerifyAllFacts(v.api, v.applied, Tally(0, 0, ""));
    VerifyErrs(v.api, v.applied, Tally(0, 0, ""));
    AppliedElsewhere(w, v.api.world, objs, v.applied);
    VerifyDecides(v, objs);
    SameHealth(w, v.api.world, objs);
    VerifyGrows(v.api.trace, r.api.trace, v.api, r.api);
    if PatchedFrom(v.api.trace, 0, objs) { SamePatched(objs, v.api.trace, r.api.trace); }
    VerifyStates(v);
  }

  lemma VerifyStates(v: RunState)
    ensures var u := StepVerify(v); u.fn.HandleAddon? || (u.fn.WriteStatus? && u.k.status.state in {Error, Processing})
    ensures StepVerify(v).k.status.state != Warning
  {
    hide VerifyAll, SetCondition, WithoutCondition;
  }

  lemma SamePatched(objs: seq<Obj>, t: seq<Call>, u: seq<Call>)
    requires Patches(u) == Patches(t) && PatchedFrom(t, 0, objs)
    ensures PatchedFrom(u, 0, objs)
  {
  }

  lemma VerifyGrows(t: seq<Call>, u: seq<Call>, a: Api, b: Api)
    requires t == a.trace && u == b.trace && TraceGrows(Verify, a, b) && NoStatusWrite(t)
    ensures NoStatusWrite(u) && Patches(u) == Patches(t)
  {
    hide Patches;
    NoStatusWriteGrows(t, u);
    NoPatches(t, u);
  }

  lemma AppliedElsewhere(w: World, x: World, objs: seq<Obj>, applied: seq<Applied>)
    requires x.statuses == w.statuses && AppliedAs(w, objs, applied)
    ensures AppliedAs(x, objs, applied)
  {
    hide IsDeployment;
  }

  lemma PassedGrows(w: World, objs: seq<Obj>, t: seq<Call>, u: seq<Call>)
    requires Passed(w, objs, t) && NoStatusWrite(t) && t <= u
    requires forall i :: |t| <= i < |u| ==> !u[i].ConvertObj? && !u[i].UpdateStatus?
    ensures Passed(w, objs, u) && NoStatusWrite(u)
  {
    AppliedGrows(objs, t, u);
    NoStatusWriteGrows(t, u);
  }

  lemma GoodIsVouched(w: World, objs: seq<Obj>, was: Status, t: seq<Call>, s: Status)
    requires Passed(w, objs, t) && (s.state == Ready || s.state == Warning) && InstalledTrue(s)
    ensures Vouched(w, objs, was, t, s)
  {
  }

  /** The add-on never takes anything back. */
  lemma AddonStatesVouch(v: RunState, u: RunState, w: World, objs: seq<Obj>, was: Status)
    requires ReadyInv(v, w, objs, was) && (v.fn.GuardAddonInUse? || v.fn.ApplyAddon? || v.fn.DeleteAddon?)
    requires Facts(v, u) && StatusStep(v.fn, v.k.status, u.k.status)
    requires u.fn.DeleteAddon? ==> u.k.status == v.k.status
    ensures ReadyInv(u, w, objs, was)
  {
    hide NoStatusWrite, SameKeys, Passed, FindCondition, UniqueTypes, Vouched;
    AddonTrace(v.fn, v.api, u.api);
    PassedGrows(w, objs, v.api.trace, u.api.trace);
    assert InstalledTrue(u.k.status);
    GoodIsVouched(w, objs, was, u.api.trace, u.k.status);
  }

  lemma AddonTrace(f: StateFn, a: Api, b: Api)
    requires (f.GuardAddonInUse? || f.ApplyAddon? || f.DeleteAddon?) && TraceGrows(f, a, b)
    ensures forall i :: |a.trace| <= i < |b.trace| ==> !b.trace[i].ConvertObj? && !b.trace[i].UpdateStatus?
  {
  }

  lemma GuardKeeps(v: RunState)
    requires v.fn.GuardAddonInUse? && StepGuardAddon(v).fn.DeleteAddon?
    ensures StepGuardAddon(v).k.status == v.k.status
  {
  }

  lemma WriteStep(v: RunState, u: RunState, w: World, objs: seq<Obj>, was: Status)
    requires ReadyInv(v, w, objs, was) && v.fn.WriteStatus? && Facts(v, u) && StatusWrite(v, u)
    ensures ReadyInv(u, w, objs, was)
  {
    hide Vouched, SameKeys, StoreStatus, FindKeda;
    var t := u.api.trace;
    assert t[..|v.api.trace|] == v.api.trace;
    forall i | 0 <= i < |t| && t[i].UpdateStatus? ensures Vouched(w, objs, was, t[..i], t[i].status) {
      assert i >= |v.api.trace|;
    }
  }

  lemma EventsStep(v: RunState, u: RunState, w: World, objs: seq<Obj>, was: Status)
    requires ReadyInv(v, w, objs, was) && v.fn.EmitEvents? && Facts(v, u)
    ensures ReadyInv(u, w, objs, was)
  {
    hide Vouched, SameKeys;
    var t := u.api.trace;
    forall i | 0 <= i < |t| && t[i].UpdateStatus? ensures Vouched(w, objs, was, t[..i], t[i].status) {
      if i < |v.api.trace| { assert t[i] == v.api.trace[i] && t[..i] == v.api.trace[..i]; }
    }
  }

  lemma StepVouches(v: RunState, w: World, objs: seq<Obj>, was: Status)
    requires ReadyInv(v, w, objs, was) && Sound(v) && !v.fn.Nil?
    ensures ReadyInv(Step(v), w, objs, was)
  {
    hide StepServedFilter, StepTakeSnapshot, StepInitialize, StepValidation, StepFindComponent, StepUpdateObject;
    hide StepApply, StepVerify, StepHandleAddon, StepGuardAddon, StepApplyAddon, StepDeleteAddon;
    hide StepDeleteResources, StepSafeDeletion, StepRemoveFinalizer, StepWriteStatus, StepEmitEvents;
    hide ReadyInv, Facts, StatusStep, MetaStep, StatusWrite;
    match v.fn {
      case BootstrapperValidation => ValidationStep(v, w, objs, was);
      case FindComponent(c) => FindStep(v, c, w, objs, was);
      case UpdateObject(c, e, u) => UpdateStep(v, c, e, u, w, objs, was);
      case Apply => ApplyStep(v, w, objs, was);
      case Verify => VerifyStep(v, w, objs, was);
      case GuardAddonInUse =>
        GuardAddonFacts(v);
        GuardStatus(v, StepGuardAddon(v));
        if StepGuardAddon(v).fn.DeleteAddon? { GuardKeeps(v); }
        AddonStatesVouch(v, StepGuardAddon(v), w, objs, was);
      case ApplyAddon => AddonEnds(v); StepFacts(v); AddonStatesVouch(v, Step(v), w, objs, was);
      case DeleteAddon => AddonEnds(v); StepFacts(v); AddonStatesVouch(v, Step(v), w, objs, was);
      case WriteStatus(_, _) => StepFacts(v); WriteStep(v, Step(v), w, objs, was);
      case EmitEvents(_, _) => StepFacts(v); EventsStep(v, Step(v), w, objs, was);
      case DeleteResources => NotDeleting(v, w, objs, was);
      case SafeDeletion => NotDeleting(v, w, objs, was);
      case RemoveFinalizer => NotDeleting(v, w, objs, was);
      case _ => EarlySteps(v, w, objs, was);
    }
  }

  lemma NotDeleting(v: RunState, w: World, objs: seq<Obj>, was: Status)
    requires ReadyInv(v, w, objs, was)
    ensures !v.fn.DeleteResources? && !v.fn.SafeDeletion? && !v.fn.RemoveFinalizer?
  {
  }

  lemma GuardStatus(v: RunState, u: RunState)
    requires v.fn.GuardAddonInUse? && Facts(v, u)
    ensures StatusStep(v.fn, v.k.status, u.k.status)
  {
    hide StatusStep, TraceGrows;
  }

  lemma AddonEnds(v: RunState)
    requires (v.fn.ApplyAddon? || v.fn.DeleteAddon?)
    ensures !Step(v).fn.DeleteAddon?
    ensures MetaStatus(v, Step(v)) ==> StatusStep(v.fn, v.k.status, Step(v).k.status)
  {
    hide StepApplyAddon, StepDeleteAddon, StatusStep, TraceGrows, MetaStep;
    StepFacts(v);
  }

  lemma {:induction false} RunVouches(v: RunState, w: World, objs: seq<Obj>, was: Status, n: nat)
    requires ReadyInv(v, w, objs, was) && Sound(v)
    ensures AllVouched(w, objs, was, Run(v, n).api.trace)
    decreases n
  {
    hide Step, ReadyInv, AllVouched;
    InvVouches(v, w, objs, was);
    if !Done(v) && n > 0 {
      StepVouches(v, w, objs, was);
      StepSound(v);
      RunVouches(Step(v), w, objs, was, n - 1);
    }
  }

  lemma InvVouches(v: RunState, w: World, objs: seq<Obj>, was: Status)
    requires ReadyInv(v, w, objs, was)
    ensures AllVouched(w, objs, was, v.api.trace)
  {
    hide Vouched, Passed, Patches, SameKeys;
  }

  /** Every run on a live, served CR with our finalizer, under any faults, cancelled anywhere: it writes
      Ready (or Warning) exactly if all objects were applied without error, three Deployments are ready
      and none fails; and Installed=True exactly then or if a failing Deployment left it standing. */
  lemma ReadyMeans(env: Env, k: KedaCR, objs: seq<Obj>, api: Api, n: nat)
    requires !k.deleting && k.status.served == ServedTrue && env.finalizer in k.finalizers && api.trace == []
    ensures AllVouched(api.world, objs, k.status, Run(StartRun(env, k, objs, api), n).api.trace)
  {
    hide Step, AllVouched;
    SameKeysSame(objs);
    RunVouches(StartRun(env, k, objs, api), api.world, objs, k.status, n);
  }
}
