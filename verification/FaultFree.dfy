/** A run without faults, as one function of what it reads: the chain of updates, the verification and
    the add-on in a single step (pkg/reconciler/fsm.go:284-311 over all states). */
module FaultFree {
  import opened KedaTypes
  import opened Objects
  import opened AddonManifest
  import opened Cluster
  import opened StateMachine
  import opened Transitions
  import opened RunLoop
  import opened ReadySoundness
  import X = AddonExactness
  import Chain = UpdateChain

  // ---- the updates of one component ---------------------------------------

  /** The spec as the edits of one component leave it in memory. */
  function SpecBy(c: Chain.Component, edits: seq<Chain.Edit>, s: KedaSpec): KedaSpec {
    if edits == [] then s else SpecBy(c, edits[1..], Chain.SanitizedSpec(c, edits[0], s))
  }

  lemma {:induction false} AliasedEditedBy(c: Chain.Component, edits: seq<Chain.Edit>, d: Chain.Component, f: Chain.Edit, s: KedaSpec, addr: string, o: Obj)
    ensures Chain.EditedBy(c, edits, Chain.SanitizedSpec(d, f, s), addr, o) == Chain.EditedBy(c, edits, s, addr, o)
    decreases edits
  {
    hide Chain.SanitizedSpec, Chain.EditedObj;
    if edits != [] {
      Chain.AliasedSpecSameEdits(c, edits[0], d, f, s, addr, o);
      AliasedEditedBy(c, edits[1..], d, f, s, addr, Chain.EditedObj(c, edits[0], s, addr, o));
    }
  }

  /** Between two states of a fault-free run that have called nothing with an effect. */
  ghost predicate Quietly(v: RunState, u: RunState) {
    u == v.(fn := u.fn, objs := u.objs, k := v.k.(spec := u.k.spec), api := v.api.(trace := u.api.trace))
  }

  lemma UpdateOnce(v: RunState, c: Chain.Component, e: nat, u: nat) returns (w: RunState)
    requires v.fn == UpdateObject(c, e, u) && e < |Chain.Edits(c)| && u < |v.objs| && v.api.faults == []
    requires v.result.None? && v.err.None?
    ensures w == StepUpdateObject(v, c, e, u) && Quietly(v, w) && w.fn == NextEdit(c, e, u)
    ensures w.objs == v.objs[u := Chain.EditedObj(c, Chain.Edits(c)[e], v.k.spec, PeerAddress(v.env), v.objs[u])]
    ensures w.k.spec == Chain.SanitizedSpec(c, Chain.Edits(c)[e], v.k.spec)
  {
    hide Chain.EditedTemplate, Chain.HasData;
    w := StepUpdateObject(v, c, e, u);
    SameWithoutData(c, Chain.Edits(c)[e], v.k.spec);
  }

  lemma SameWithoutData(c: Chain.Component, e: Chain.Edit, s: KedaSpec)
    ensures !Chain.HasData(c, e, s) ==> Chain.SanitizedSpec(c, e, s) == s
  {
  }

  lemma UpdateIsStep(v: RunState)
    requires v.fn.UpdateObject? && v.err.None? && v.fn.u < |v.objs|
    ensures Finish(v) == Finish(StepUpdateObject(v, v.fn.owner, v.fn.edit, v.fn.u))
  {
    hide StepUpdateObject, Finish;
    FinishStep(v);
  }

  /** From one edit of a component to the state after its last. */
  lemma {:induction false} ComponentRun(v: RunState, c: Chain.Component, e: nat, u: nat) returns (w: RunState)
    requires v.fn == UpdateObject(c, e, u) && e < |Chain.Edits(c)| && u < |v.objs| && v.api.faults == []
    requires v.result.None? && v.err.None?
    ensures Finish(v) == Finish(w) && Quietly(v, w) && w.fn == NextComponent(c)
    ensures w.objs == v.objs[u := Chain.EditedBy(c, Chain.Edits(c)[e..], v.k.spec, PeerAddress(v.env), v.objs[u])]
    ensures w.k.spec == SpecBy(c, Chain.Edits(c)[e..], v.k.spec)
    decreases |Chain.Edits(c)| - e
  {
    hide StepUpdateObject, Finish, Chain.EditedObj, Chain.SanitizedSpec, PeerAddress;
    var x := UpdateOnce(v, c, e, u);
    UpdateIsStep(v);
    var rest := Chain.Edits(c)[e + 1..];
    assert Chain.Edits(c)[e..][1..] == rest && Chain.Edits(c)[e..][0] == Chain.Edits(c)[e];
    if e + 1 < |Chain.Edits(c)| {
      w := ComponentRun(x, c, e + 1, u);
      AliasedEditedBy(c, rest, c, Chain.Edits(c)[e], v.k.spec, PeerAddress(v.env), x.objs[u]);
    } else {
      assert rest == [];
      w := x;
    }
  }

  lemma SpecByComponent(c: Chain.Component, s: KedaSpec)
    ensures SpecBy(c, Chain.Edits(c), s) == Chain.SanitizedSpec(c, Chain.Args, s)
  {
    var edits := Chain.Edits(c);
    if c == Chain.WebhookPolicy {
      assert edits[1..] == [];
    } else {
      OnlyArgsSanitize(c, edits[1..], Chain.SanitizedSpec(c, Chain.Args, s));
    }
  }

  lemma {:induction false} OnlyArgsSanitize(c: Chain.Component, edits: seq<Chain.Edit>, s: KedaSpec)
    requires Chain.Args !in edits
    ensures SpecBy(c, edits, s) == s
    decreases edits
  {
    if edits != [] {
      assert edits[0] in edits;
      OnlyArgsSanitize(c, edits[1..], s);
    }
  }

  // ---- the whole chain ----------------------------------------------------

  lemma FindIsStep(v: RunState)
    requires v.fn.FindComponent? && v.err.None?
    ensures Finish(v) == Finish(StepFindComponent(v, v.fn.c))
  {
    hide StepFindComponent, Finish;
    FinishStep(v);
  }

  /** Finding a component and editing it. */
  lemma FoundRun(v: RunState, c: Chain.Component) returns (w: RunState)
    requires v.fn == FindComponent(c) && v.api.faults == [] && v.result.None? && v.err.None?
    requires Chain.FirstIndex(v.objs, c) < |v.objs|
    ensures Finish(v) == Finish(w) && Quietly(v, w) && w.fn == NextComponent(c)
    ensures w.objs == Chain.Updated(c, v.k.spec, PeerAddress(v.env), v.objs)
    ensures w.k.spec == Chain.SanitizedSpec(c, Chain.Args, v.k.spec)
  {
    hide Finish, Chain.EditedBy, Chain.SanitizedSpec, PeerAddress, Chain.FirstIndex;
    var u := Chain.FirstIndex(v.objs, c);
    var x := v.(fn := UpdateObject(c, 0, u));
    assert StepFindComponent(v, c) == x;
    FindIsStep(v);
    w := ComponentRun(x, c, 0, u);
    assert Chain.Edits(c)[0..] == Chain.Edits(c);
    SpecByComponent(c, v.k.spec);
  }

  lemma AliasedUpdated(c: Chain.Component, d: Chain.Component, s: KedaSpec, addr: string, objs: seq<Obj>)
    ensures Chain.Updated(c, Chain.SanitizedSpec(d, Chain.Args, s), addr, objs) == Chain.Updated(c, s, addr, objs)
  {
    hide Chain.SanitizedSpec, Chain.EditedBy;
    var i := Chain.FirstIndex(objs, c);
    if i < |objs| {
      AliasedEditedBy(c, Chain.Edits(c), d, Chain.Args, s, addr, objs[i]);
    }
  }

  predicate AllFound(objs: seq<Obj>) {
    && Chain.FirstIndex(objs, Chain.Operator) < |objs| && Chain.FirstIndex(objs, Chain.MetricsServer) < |objs|
    && Chain.FirstIndex(objs, Chain.AdmissionWebhooks) < |objs| && Chain.FirstIndex(objs, Chain.WebhookPolicy) < |objs|
  }

  /** The components still to come, in order. */
  function ChainedFrom(c: Chain.Component, s: KedaSpec, addr: string, objs: seq<Obj>): seq<Obj>
    decreases RankAfter(c)
  {
    var r := Chain.Updated(c, s, addr, objs);
    match NextComponent(c)
    case FindComponent(d) => ChainedFrom(d, s, addr, r)
    case _ => r
  }

  function SpecFrom(c: Chain.Component, s: KedaSpec): KedaSpec
    decreases RankAfter(c)
  {
    var r := Chain.SanitizedSpec(c, Chain.Args, s);
    match NextComponent(c)
    case FindComponent(d) => SpecFrom(d, r)
    case _ => r
  }

  lemma ChainedIsFrom(s: KedaSpec, addr: string, objs: seq<Obj>)
    ensures ChainedFrom(Chain.Operator, s, addr, objs) == Chain.Chained(s, addr, objs)
    ensures SpecFrom(Chain.Operator, s) == Chain.SanitizedByChain(s)
  {
    hide Chain.Updated;
    var r1 := Chain.Updated(Chain.Operator, s, addr, objs);
    var r2 := Chain.Updated(Chain.MetricsServer, s, addr, r1);
    var r3 := Chain.Updated(Chain.AdmissionWebhooks, s, addr, r2);
    assert ChainedFrom(Chain.AdmissionWebhooks, s, addr, r2) == Chain.Updated(Chain.WebhookPolicy, s, addr, r3);
    assert ChainedFrom(Chain.MetricsServer, s, addr, r1) == ChainedFrom(Chain.AdmissionWebhooks, s, addr, r2);
    SpecChain(s);
  }

  lemma SpecChain(s: KedaSpec)
    ensures SpecFrom(Chain.Operator, s) == Chain.SanitizedByChain(s)
  {
    hide Chain.SanitizedSpec;
    var s1 := Chain.SanitizedSpec(Chain.Operator, Chain.Args, s);
    var s2 := Chain.SanitizedSpec(Chain.MetricsServer, Chain.Args, s1);
    var s3 := Chain.SanitizedSpec(Chain.AdmissionWebhooks, Chain.Args, s2);
    PolicySpec(s3);
    assert SpecFrom(Chain.WebhookPolicy, s3) == s3;
    assert SpecFrom(Chain.AdmissionWebhooks, s2) == s3;
  }

  lemma PolicySpec(s: KedaSpec)
    ensures Chain.SanitizedSpec(Chain.WebhookPolicy, Chain.Args, s) == s
  {
  }

  lemma {:induction false} AliasedFrom(c: Chain.Component, d: Chain.Component, s: KedaSpec, addr: string, objs: seq<Obj>)
    ensures ChainedFrom(c, Chain.SanitizedSpec(d, Chain.Args, s), addr, objs) == ChainedFrom(c, s, addr, objs)
    decreases RankAfter(c)
  {
    hide Chain.SanitizedSpec, Chain.Updated;
    AliasedUpdated(c, d, s, addr, objs);
    match NextComponent(c) {
      case FindComponent(next) => AliasedFrom(next, d, s, addr, Chain.Updated(c, s, addr, objs));
      case _ =>
    }
  }

  lemma StillFound(c: Chain.Component, s: KedaSpec, addr: string, objs: seq<Obj>)
    requires AllFound(objs)
    ensures AllFound(Chain.Updated(c, s, addr, objs))
  {
    hide Chain.Updated, Chain.FirstIndex;
    Chain.UpdatedKeepsMatches(c, s, addr, objs);
  }

  lemma FoundOne(objs: seq<Obj>, c: Chain.Component)
    requires AllFound(objs)
    ensures Chain.FirstIndex(objs, c) < |objs|
  {
    hide Chain.FirstIndex;
  }

  lemma {:induction false} RunFrom(v: RunState, c: Chain.Component) returns (w: RunState)
    requires v.fn == FindComponent(c) && v.api.faults == [] && v.result.None? && v.err.None?
    requires AllFound(v.objs)
    ensures Finish(v) == Finish(w) && Quietly(v, w) && w.fn == Apply
    ensures w.objs == ChainedFrom(c, v.k.spec, PeerAddress(v.env), v.objs) && w.k.spec == SpecFrom(c, v.k.spec)
    decreases RankAfter(c)
  {
    hide Finish, Chain.Updated, Chain.SanitizedSpec, PeerAddress, AllFound, Chain.FirstIndex;
    FoundOne(v.objs, c);
    var x := FoundRun(v, c);
    StillFound(c, v.k.spec, PeerAddress(v.env), v.objs);
    match NextComponent(c) {
      case FindComponent(d) =>
        w := RunFrom(x, d);
        AliasedFrom(d, c, v.k.spec, PeerAddress(v.env), x.objs);
      case _ => w := x;
    }
  }

  /** A fault-free run that has passed validation and finds all components reaches the apply state
      with the module objects rewritten by the whole chain. */
  lemma ChainRun(v: RunState) returns (w: RunState)
    requires v.fn == FindComponent(Chain.Operator) && v.api.faults == [] && v.result.None? && v.err.None?
    requires AllFound(v.objs)
    ensures Finish(v) == Finish(w) && Quietly(v, w) && w.fn == Apply
    ensures w.objs == Chain.Chained(v.k.spec, PeerAddress(v.env), v.objs)
    ensures w.k.spec == Chain.SanitizedByChain(v.k.spec)
  {
    hide Finish, Chain.Chained, Chain.SanitizedByChain, ChainedFrom, SpecFrom, PeerAddress, AllFound;
    w := RunFrom(v, Chain.Operator);
    ChainedIsFrom(v.k.spec, PeerAddress(v.env), v.objs);
  }

  // ---- what a fault-free run decides --------------------------------------

  /** The first component, from c on, that no object matches. */
  function MissingFrom(c: Chain.Component, objs: seq<Obj>): Option<Chain.Component>
    decreases RankAfter(c)
  {
    if Chain.FirstIndex(objs, c) == |objs| then Some(c)
    else match NextComponent(c)
      case FindComponent(d) => MissingFrom(d, objs)
      case _ => None
  }

  /** The version label of the last operator Deployment. */
  function VersionOf(objs: seq<Obj>, version: string): string {
    if objs == [] then version
    else VersionOf(objs[1..],
                   if IsDeployment(objs[0]) && objs[0].name == KedaOperator then
                     if VersionLabel in objs[0].labels then objs[0].labels[VersionLabel] else ""
                   else version)
  }

  /** The add-on's condition once the module is ready. */
  function AddonCondition(env: Env, ann: Annotations, w: World): Condition {
    var cfg := ReadAddonCfg(ann);
    var version, recorded := env.defaultVersion, Lookup(ann, InstalledVersion);
    if cfg.enabled then
      if version in env.src.manifests then Condition(AddonInstalled, True, HttpAddonInstalled, AddonInstalledText(version, cfg.EffectiveNamespace()))
      else Condition(AddonInstalled, False, HttpAddonInstallErr, OfErr(UnknownVersion(version)))
    else if ItemCount(w, HSO_GVK) > 0 then Condition(AddonInstalled, False, HttpAddonInUse, HsoStillExist(ItemCount(w, HSO_GVK)))
    else if recorded == "" then Condition(AddonInstalled, False, HttpAddonDisabled, AddonDisabledText)
    else if recorded in env.src.manifests then Condition(AddonInstalled, False, HttpAddonDeleted, AddonRemovedText)
    else Condition(AddonInstalled, False, HttpAddonDeleted, OfErr(UnknownVersion(recorded)))
  }

  /** The add-on is off but in use. */
  predicate Warns(ann: Annotations, w: World) { !ReadAddonCfg(ann).enabled && ItemCount(w, HSO_GVK) > 0 }

  function AddonStatus(env: Env, ann: Annotations, w: World, s: Status): Status {
    s.(conditions := SetCondition(s.conditions, AddonCondition(env, ann, w)), state := if Warns(ann, w) then Warning else s.state)
  }

  /** The status once all components have been found and updated. */
  function ModuleStatus(env: Env, ann: Annotations, s: Status, objs: seq<Obj>, w: World): Status {
    if FailingAt(w, objs, |objs|) != {} then
      With(s, Error, Condition(DeploymentFailure, True, DeploymentReplicaFailure, ReplicaFailureText))
    else if |ReadyAt(w, objs, |objs|)| != 3 then
      With(s, Processing, Condition(Installed, Unknown, Verification, VerificationInProgress))
    else AddonStatus(env, ann, w, ReadyStatus(s, VersionOf(objs, "")))
  }

  function MissingStatus(s: Status, c: Chain.Component): Status {
    Failed(s, Installed, if c == Chain.WebhookPolicy then NetworkPolicyUpdateErr else DeploymentUpdateErr, NoSuchObject)
  }

  /** The status that a fault-free run on a live, served CR with our finalizer computes. */
  function LiveStatus(env: Env, k: KedaCR, objs: seq<Obj>, w: World): Status {
    var s := k.status;
    if Chain.HasRestricted(k.spec) then Failed(s, Installed, ValidationErr, RestrictedAnnotations(k.id.name))
    else match MissingFrom(Chain.Operator, objs)
      case Some(c) => MissingStatus(s, c)
      case None => ModuleStatus(env, k.annotations, s, objs, w)
  }

  /** What a run returns: the result, if any, and the error. */
  type Answer = (Option<Result>, Option<Err>)

  const DONE: Answer := (None, None)

  const MISSING: Answer := (None, Some(NoSuchObject))

  function AddonAnswer(ann: Annotations, w: World): Answer {
    if Warns(ann, w) then (Some(RequeueAfter(30)), None) else DONE
  }

  function ModuleAnswer(ann: Annotations, objs: seq<Obj>, w: World): Answer {
    if Healthy(w, objs) then AddonAnswer(ann, w) else (Some(RequeueAfter(10)), None)
  }

  /** When that run wants to be repeated: soon while the module is not healthy, later while the add-on
      is off but in use, and after an error as the queue sees fit. */
  function LiveAnswer(k: KedaCR, objs: seq<Obj>, w: World): Answer {
    if Chain.HasRestricted(k.spec) then (None, Some(RestrictedAnnotations(k.id.name)))
    else if MissingFrom(Chain.Operator, objs).Some? then MISSING
    else ModuleAnswer(k.annotations, objs, w)
  }

  /** The annotations once the add-on has been installed or removed. */
  function AddonRecord(env: Env, ann: Annotations, w: World): Annotations {
    var cfg := ReadAddonCfg(ann);
    if cfg.enabled then
      if env.defaultVersion in env.src.manifests then Recorded(ann, env.defaultVersion, cfg.EffectiveNamespace()) else ann
    else if RemovesAddon(env, ann, w) then Recorded(ann, "", "")
    else ann
  }

  /** An installation is on record that can be fetched, it is switched off and nothing uses it. */
  predicate RemovesAddon(env: Env, ann: Annotations, w: World) {
    && !ReadAddonCfg(ann).enabled && ItemCount(w, HSO_GVK) == 0
    && Lookup(ann, InstalledVersion) != "" && Lookup(ann, InstalledVersion) in env.src.manifests
  }

  /** The annotations after that run: only a healthy module lets the add-on's records change. */
  function LiveRecord(env: Env, k: KedaCR, objs: seq<Obj>, w: World): Annotations {
    if Chain.HasRestricted(k.spec) || MissingFrom(Chain.Operator, objs).Some? then k.annotations
    else ModuleRecord(env, k.annotations, objs, w)
  }

  function ModuleRecord(env: Env, ann: Annotations, objs: seq<Obj>, w: World): Annotations {
    if Healthy(w, objs) then AddonRecord(env, ann, w) else ann
  }

  // ---- apply and verify ---------------------------------------------------

  lemma {:induction false} ApplyAccepted(a: Api, list: seq<Obj>, applied: seq<Applied>, failed: bool)
    requires a.faults == []
    ensures var r := ApplyModule(a, list, applied, failed); r.failed == failed && r.api.faults == []
    decreases list
  {
    hide Stamped, StatusOf;
    if list != [] {
      var o := Stamped(list[0]);
      var conv := if o.kind == Deployment then DoConvert(a) else Rep(a, None);
      var p := DoPatch(conv.api, o);
      ApplyAccepted(p.api, list[1..], applied + [Applied(o, StatusOf(p.api.world, KeyOf(o)))], failed || conv.err.Some? || p.err.Some?);
    }
  }

  /** The applied copies carry the version label of the originals. */
  lemma {:induction false} AppliedVersions(a: Api, list: seq<Obj>, applied: seq<Applied>, failed: bool)
    ensures var r := ApplyModule(a, list, applied, failed);
      |r.applied| == |applied| + |list| && r.applied[..|applied|] == applied
      && forall i :: 0 <= i < |list| ==> r.applied[|applied| + i].obj == Stamped(list[i])
    decreases list
  {
    hide Stamped, StatusOf, DoConvert, DoPatch;
    if list != [] {
      var o := Stamped(list[0]);
      var conv := if o.kind == Deployment then DoConvert(a) else Rep(a, None);
      var p := DoPatch(conv.api, o);
      var s := Applied(o, StatusOf(p.api.world, KeyOf(o)));
      var r := ApplyModule(p.api, list[1..], applied + [s], failed || conv.err.Some? || p.err.Some?);
      AppliedVersions(p.api, list[1..], applied + [s], failed || conv.err.Some? || p.err.Some?);
      assert r.applied[..|applied|] == r.applied[..|applied| + 1][..|applied|];
      assert r.applied[|applied|] == r.applied[..|applied| + 1][|applied|] == s;
      forall i | 0 <= i < |list| ensures r.applied[|applied| + i].obj == Stamped(list[i]) {
        if i > 0 { assert r.applied[|applied| + 1 + (i - 1)].obj == Stamped(list[1..][i - 1]); }
      }
    }
  }

  lemma {:induction false} VerifyVersion(a: Api, list: seq<Applied>, objs: seq<Obj>, t: Tally)
    requires |list| == |objs| && forall i :: 0 <= i < |objs| ==> list[i].obj == Stamped(objs[i])
    ensures var r := VerifyAll(a, list, t); r.err.None? ==> r.tally.version == VersionOf(objs, t.version)
    decreases list
  {
    hide DoConvert, IsDeployment;
    if list != [] {
      StampedSame(objs[0]);
      if IsDeployment(list[0].obj) {
        if DoConvert(a).err.None? {
          VerifyVersion(DoConvert(a).api, list[1..], objs[1..], Counted(t, list[0]));
        }
      } else {
        VerifyVersion(a, list[1..], objs[1..], t);
      }
    }
  }

  lemma StampedSame(o: Obj)
    ensures IsDeployment(Stamped(o)) == IsDeployment(o) && Stamped(o).name == o.name
    ensures (VersionLabel in Stamped(o).labels <==> VersionLabel in o.labels)
    ensures VersionLabel in o.labels ==> Stamped(o).labels[VersionLabel] == o.labels[VersionLabel]
  {
  }

  // ---- the add-on ---------------------------------------------------------

  /** A run in progress on a stored CR that is not being deleted. */
  ghost predicate Running(v: RunState) {
    && v.api.faults == [] && v.result.None? && v.err.None? && v.addonObjs == []
    && Stored(v).Some? && !Stored(v).value.deleting && !v.k.deleting
    && v.k.annotations == Stored(v).value.annotations && v.k.finalizers == Stored(v).value.finalizers
    && v.k.spec.podAnnotations == Stored(v).value.spec.podAnnotations
  }

  /** About to write that status; the stored CR has those annotations and can have got the spec in memory. */
  ghost predicate Decided(v: RunState, w: RunState, s: Status, r: Answer, a: Annotations) {
    && w.fn == WriteStatus(r.0, r.1) && w.err.None? && w.api.faults == [] && w.k.status == s && w.k.id == v.k.id
    && w.env == v.env && w.snapshot == v.snapshot
    && w.api.world.items == v.api.world.items && w.api.world.statuses == v.api.world.statuses
    && Stored(v).Some? && Stored(w).Some? && Touched(Stored(v).value, Stored(w).value)
    && Stored(w).value.annotations == a
  }

  ghost predicate Touched(a: KedaCR, b: KedaCR) {
    && b == a.(annotations := b.annotations, spec := b.spec)
    && b.spec.podAnnotations == a.spec.podAnnotations
    && SameConfig(a.annotations, b.annotations)
  }

  lemma PersistOutcome(v: RunState, w: RunState, ann: Annotations, st: Status)
    requires Running(v) && w == v.(api := w.api, addonObjs := w.addonObjs) && w.api.faults == []
    requires w.api.world == v.api.world.(objs := w.api.world.objs, namespaces := w.api.world.namespaces)
    requires SameConfig(v.k.annotations, ann)
    ensures Decided(v, Persist(w, ann, st), st, DONE, ann)
  {
    hide FindKeda, Without, UniqueIds, ReadAddonCfg, SameConfig;
    assert Stored(v).value.id == v.k.id;
  }

  lemma DropOutcome(v: RunState, a: Api, st: Status)
    requires Running(v) && a.faults == []
    requires a.world == v.api.world.(objs := a.world.objs, namespaces := a.world.namespaces)
    ensures Decided(v, Stop(WithStatus(v.(api := a), st), None, None), st, DONE, v.k.annotations)
    ensures Decided(v, Stop(WithStatus(v.(api := a), st), Some(RequeueAfter(30)), None), st, (Some(RequeueAfter(30)), None), v.k.annotations)
  {
    hide FindKeda, ReadAddonCfg;
    SameConfigItself(v.k.annotations);
  }

  lemma InstallOutcome(v: RunState, a: Api, version: string, ns: string, istio: bool)
    requires Running(v) && v.fn.ApplyAddon? && a.faults == []
    requires a.world == v.api.world.(objs := a.world.objs, namespaces := a.world.namespaces)
    ensures Decided(v, Install(v.(api := a), version, ns, istio),
              if version in v.env.src.manifests then WithAddon(v.k.status, True, HttpAddonInstalled, AddonInstalledText(version, ns))
              else WithAddon(v.k.status, False, HttpAddonInstallErr, OfErr(UnknownVersion(version))), DONE,
              if version in v.env.src.manifests then Recorded(v.k.annotations, version, ns) else v.k.annotations)
  {
    hide AddonObjects, ApplyAll, DeletePeerAuth, Persist, Recorded, WithAddon, FindKeda, Decided, Keys, Touched;
    var fetched := DoFetch(a, v.env.src, version, ns);
    if fetched.err.Some? {
      DropOutcome(v, fetched.api, WithAddon(v.k.status, False, HttpAddonInstallErr, OfErr(UnknownVersion(version))));
    } else {
      var list := AddonObjects(v.env.src, version, ns, istio);
      var applied := ApplyAll(fetched.api, list, None);
      if !istio { X.DeletePeer(applied.api, ns); }
      var peer := if istio then Rep(applied.api, None) else DeletePeerAuth(applied.api, ns);
      RecordedConfig(v.k.annotations, version, ns);
      PersistOutcome(v, v.(api := peer.api, addonObjs := list), Recorded(v.k.annotations, version, ns),
                     WithAddon(v.k.status, True, HttpAddonInstalled, AddonInstalledText(version, ns)));
    }
  }

  lemma AddonKeepsObjs(v: RunState)
    requires v.fn.ApplyAddon? || v.fn.DeleteAddon?
    ensures v.fn.ApplyAddon? ==> StepApplyAddon(v).objs == v.objs
    ensures v.fn.DeleteAddon? ==> StepDeleteAddon(v).objs == v.objs
  {
    hide AddonFacts, StepApplyAddon, StepDeleteAddon;
    if v.fn.ApplyAddon? { ApplyAddonFacts(v); FactsKeepObjs(v, StepApplyAddon(v)); } else { DeleteAddonFacts(v); FactsKeepObjs(v, StepDeleteAddon(v)); }
  }

  lemma FactsKeepObjs(v: RunState, u: RunState)
    requires AddonFacts(v, u) && (v.fn.ApplyAddon? || v.fn.DeleteAddon?)
    ensures u.objs == v.objs
  {
  }

  lemma ApplyAddonOutcome(v: RunState)
    requires Running(v) && v.fn.ApplyAddon? && ReadAddonCfg(v.k.annotations).enabled
    ensures Decided(v, StepApplyAddon(v), AddonStatus(v.env, v.k.annotations, v.api.world, v.k.status), DONE, AddonRecord(v.env, v.k.annotations, v.api.world))
  {
    hide CleanupOldAddon, Install, SetCondition, FindKeda, Decided, StaleAddon, ReadAddonCfg, TraceGrows;
    var cfg := ReadAddonCfg(v.k.annotations);
    var version, ns := v.env.defaultVersion, cfg.EffectiveNamespace();
    var created := DoCreateNamespace(v.api, ns);
    var stale := StaleAddon(v.k.annotations, version, ns);
    var cleaned := if stale.None? then created.api else CleanupOldAddon(created.api, v.env.src, stale.value.0, stale.value.1);
    if stale.Some? {
      CleanupExtends(created.api, v.env.src, stale.value.0, stale.value.1);
      X.FaultsStay(ApplyAddon, created.api, cleaned);
    }
    InstallOutcome(v, cleaned, version, ns, cfg.istioInjection);
  }

  lemma DeleteAddonOutcome(v: RunState)
    requires Running(v) && v.fn.DeleteAddon? && !ReadAddonCfg(v.k.annotations).enabled && ItemCount(v.api.world, HSO_GVK) == 0
    ensures Decided(v, StepDeleteAddon(v), AddonStatus(v.env, v.k.annotations, v.api.world, v.k.status), DONE, AddonRecord(v.env, v.k.annotations, v.api.world))
  {
    hide AddonObjects, DeleteAll, DeletePeerAuth, Persist, Recorded, SetCondition, FindKeda, Decided, ReadAddonCfg, Lookup, Keys;
    var version, recordedNs := Lookup(v.k.annotations, InstalledVersion), Lookup(v.k.annotations, InstalledNamespace);
    var ns := if recordedNs == "" then DEFAULT_ADDON_NAMESPACE else recordedNs;
    if version == "" {
      DropOutcome(v, v.api, WithAddon(v.k.status, False, HttpAddonDisabled, AddonDisabledText));
    } else {
      var fetched := DoFetch(v.api, v.env.src, version, ns);
      if fetched.err.Some? {
        DropOutcome(v, fetched.api, WithAddon(v.k.status, False, HttpAddonDeleted, OfErr(UnknownVersion(version))));
      } else {
        var list := AddonObjects(v.env.src, version, ns, false);
        var deleted := DeleteAll(fetched.api, list, None);
        X.DeletePeer(deleted.api, ns);
        var peer := DeletePeerAuth(deleted.api, ns);
        RecordedConfig(v.k.annotations, "", "");
        PersistOutcome(v, v.(api := peer.api, addonObjs := []), Recorded(v.k.annotations, "", ""),
                       WithAddon(v.k.status, False, HttpAddonDeleted, AddonRemovedText));
      }
    }
  }

  lemma DecidedFrom(v: RunState, x: RunState, w: RunState, st: Status, r: Answer, ann: Annotations)
    requires Decided(x, w, st, r, ann) && x.env == v.env && x.snapshot == v.snapshot && x.k.id == v.k.id
    requires x.api.world == v.api.world.(objs := x.api.world.objs)
    ensures Decided(v, w, st, r, ann)
  {
    hide FindKeda, SameConfig;
  }

  lemma GuardRun(v: RunState) returns (w: RunState)
    requires Running(v) && v.fn.GuardAddonInUse? && !ReadAddonCfg(v.k.annotations).enabled
    ensures Finish(v) == Finish(w)
    ensures Decided(v, w, AddonStatus(v.env, v.k.annotations, v.api.world, v.k.status), AddonAnswer(v.k.annotations, v.api.world),
                    AddonRecord(v.env, v.k.annotations, v.api.world)) && w.objs == v.objs
  {
    hide StepDeleteAddon, FindKeda, ReadAddonCfg, Decided, Finish, SetCondition;
    hide StepServedFilter, StepTakeSnapshot, StepInitialize, StepValidation, StepFindComponent, StepUpdateObject, StepHandleAddon, StepApplyAddon;
    hide StepApply, StepVerify, StepDeleteResources, StepSafeDeletion, StepRemoveFinalizer, StepWriteStatus, StepEmitEvents;
    FinishStep(v);
    w := StepGuardAddon(v);
    var r := DoListItems(v.api, HSO_GVK);
    if ItemCount(v.api.world, HSO_GVK) == 0 {
      var x := v.(fn := DeleteAddon, api := r.api);
      assert w == x;
      DeleteAddonOutcome(x);
      AddonKeepsObjs(x);
      FinishStep(x);
      w := StepDeleteAddon(x);
      DecidedFrom(v, x, w, AddonStatus(v.env, v.k.annotations, v.api.world, v.k.status), AddonAnswer(v.k.annotations, v.api.world),
                  AddonRecord(v.env, v.k.annotations, v.api.world));
    } else {
      DropOutcome(v, r.api, WithAddon(v.k.status, False, HttpAddonInUse, HsoStillExist(r.count)).(state := Warning));
    }
  }

  /** From the ready module to the status about to be written. */
  lemma AddonRun(v: RunState) returns (w: RunState)
    requires Running(v) && v.fn.HandleAddon?
    ensures Finish(v) == Finish(w)
    ensures Decided(v, w, AddonStatus(v.env, v.k.annotations, v.api.world, v.k.status), AddonAnswer(v.k.annotations, v.api.world),
                    AddonRecord(v.env, v.k.annotations, v.api.world)) && w.objs == v.objs
  {
    hide StepApplyAddon, StepDeleteAddon, AddonStatus, FindKeda, ReadAddonCfg, Decided, Finish;
    hide StepServedFilter, StepTakeSnapshot, StepInitialize, StepValidation, StepFindComponent, StepUpdateObject;
    hide StepApply, StepVerify, StepDeleteResources, StepSafeDeletion, StepRemoveFinalizer, StepWriteStatus, StepEmitEvents;
    FinishStep(v);
    if ReadAddonCfg(v.k.annotations).enabled {
      var x := v.(fn := ApplyAddon);
      ApplyAddonOutcome(x);
      AddonKeepsObjs(x);
      FinishStep(x);
      w := StepApplyAddon(x);
      DecidedFrom(v, x, w, AddonStatus(v.env, v.k.annotations, v.api.world, v.k.status), AddonAnswer(v.k.annotations, v.api.world),
                  AddonRecord(v.env, v.k.annotations, v.api.world));
    } else {
      var x := v.(fn := GuardAddonInUse);
      w := GuardRun(x);
      DecidedFrom(v, x, w, AddonStatus(v.env, v.k.annotations, v.api.world, v.k.status), AddonAnswer(v.k.annotations, v.api.world),
                  AddonRecord(v.env, v.k.annotations, v.api.world));
    }
  }

  // ---- the module ---------------------------------------------------------

  lemma RunningOn(v: RunState, x: RunState)
    requires Running(v) && x.api.faults == [] && x.result.None? && x.err.None? && x.addonObjs == []
    requires x.api.world == v.api.world.(objs := x.api.world.objs) && x.k == v.k.(spec := x.k.spec, status := x.k.status)
    requires x.k.spec.podAnnotations == v.k.spec.podAnnotations
    ensures Running(x) && Stored(x) == Stored(v)
  {
    hide FindKeda;
  }

  lemma StopDecides(v: RunState, a: Api, s: Status, r: Option<Result>, e: Option<Err>)
    requires Running(v) && a.faults == [] && a.world == v.api.world.(objs := a.world.objs)
    ensures Decided(v, Stop(WithStatus(v.(api := a), s), r, e), s, (r, e), v.k.annotations)
  {
    hide FindKeda;
    SameConfigItself(v.k.annotations);
  }

  lemma VerifyRun(v: RunState, objs: seq<Obj>) returns (w: RunState)
    requires Running(v) && v.fn.Verify? && AppliedAs(v.api.world, objs, v.applied)
    requires forall i :: 0 <= i < |objs| ==> v.applied[i].obj == Stamped(objs[i])
    ensures Finish(v) == Finish(w)
    ensures Decided(v, w, ModuleStatus(v.env, v.k.annotations, v.k.status, objs, v.api.world), ModuleAnswer(v.k.annotations, objs, v.api.world),
                    ModuleRecord(v.env, v.k.annotations, objs, v.api.world))
    ensures w.objs == v.objs
  {
    hide VerifyAll, FindKeda, Decided, Finish, ReadyStatus, AddonStatus, VersionOf, FailingAt, ReadyAt, AppliedAs, Stamped, With;
    hide StepServedFilter, StepTakeSnapshot, StepInitialize, StepValidation, StepFindComponent, StepUpdateObject, StepHandleAddon, StepApplyAddon;
    hide StepApply, StepGuardAddon, StepDeleteAddon, StepDeleteResources, StepSafeDeletion, StepRemoveFinalizer, StepWriteStatus, StepEmitEvents;
    FinishStep(v);
    var r := VerifyAll(v.api, v.applied, Tally(0, 0, ""));
    VerifyTallies(v, objs);
    w := StepVerify(v);
    if w.fn.HandleAddon? {
      var x := w;
      RunningOn(v, x);
      w := AddonRun(x);
      DecidedFrom(v, x, w, AddonStatus(v.env, v.k.annotations, v.api.world, x.k.status), AddonAnswer(v.k.annotations, v.api.world),
                  AddonRecord(v.env, v.k.annotations, v.api.world));
    } else {
      StopDecides(v, r.api, w.k.status, w.fn.result, w.fn.err);
    }
  }

  lemma VerifyTallies(v: RunState, objs: seq<Obj>)
    requires v.api.faults == [] && AppliedAs(v.api.world, objs, v.applied)
    requires forall i :: 0 <= i < |objs| ==> v.applied[i].obj == Stamped(objs[i])
    ensures var r := VerifyAll(v.api, v.applied, Tally(0, 0, ""));
      && r.err.None? && r.api.faults == [] && r.api.world == v.api.world
      && (r.tally.failures > 0 <==> FailingAt(v.api.world, objs, |objs|) != {})
      && r.tally.ready == |ReadyAt(v.api.world, objs, |objs|)| && r.tally.version == VersionOf(objs, "")
  {
    hide VerifyAll, Stamped, StatusOf, IsDeployment, VersionOf;
    VerifyAllFacts(v.api, v.applied, Tally(0, 0, ""));
    assert v.applied[0..] == v.applied;
    VerifyCounts(v.api.world, objs, v.api, v.applied, 0, Tally(0, 0, ""));
    VerifyVersion(v.api, v.applied, objs, Tally(0, 0, ""));
  }

  /** The apply state without faults: everything accepted, and what the cluster reports kept. */
  lemma ApplyOutcome(v: RunState) returns (x: RunState)
    requires Running(v) && v.fn.Apply? && v.applied == []
    ensures x == StepApply(v) && x == v.(fn := Verify, api := x.api, applied := x.applied, objs := AllStamped(v.objs))
    ensures x.api.faults == [] && x.api.world == v.api.world.(objs := x.api.world.objs)
    ensures AppliedAs(v.api.world, v.objs, x.applied)
    ensures forall i :: 0 <= i < |v.objs| ==> x.applied[i].obj == Stamped(v.objs[i])
  {
    hide ApplyModule, FindKeda, AllStamped, Stamped, Patches, NoConvertErr, PatchedFrom, StatusOf, IsDeployment;
    var r := ApplyModule(v.api, v.objs, v.applied, false);
    ApplyAccepted(v.api, v.objs, v.applied, false);
    ApplyModuleMeaning(v.api, v.objs, v.applied, false);
    ApplyModuleFacts(v.api, v.objs, v.applied, false);
    AppliedVersions(v.api, v.objs, v.applied, false);
    assert r.applied[0..] == r.applied;
    x := StepApply(v);
  }

  lemma ApplyRun(v: RunState) returns (w: RunState)
    requires Running(v) && v.fn.Apply? && v.applied == []
    ensures Finish(v) == Finish(w)
    ensures Decided(v, w, ModuleStatus(v.env, v.k.annotations, v.k.status, v.objs, v.api.world), ModuleAnswer(v.k.annotations, v.objs, v.api.world),
                    ModuleRecord(v.env, v.k.annotations, v.objs, v.api.world))
    ensures w.objs == AllStamped(v.objs)
  {
    hide FindKeda, Decided, Finish, AllStamped, ModuleStatus, ModuleAnswer, AppliedAs, Stamped;
    hide StepServedFilter, StepTakeSnapshot, StepInitialize, StepValidation, StepFindComponent, StepUpdateObject, StepHandleAddon, StepApplyAddon;
    hide StepApply, StepVerify, StepGuardAddon, StepDeleteAddon, StepDeleteResources, StepSafeDeletion, StepRemoveFinalizer, StepWriteStatus, StepEmitEvents;
    FinishStep(v);
    var x := ApplyOutcome(v);
    RunningOn(v, x);
    AppliedElsewhere(v.api.world, x.api.world, v.objs, x.applied);
    w := VerifyRun(x, v.objs);
    SameModuleStatus(v.env, v.k.annotations, v.k.status, v.objs, v.api.world, x.api.world);
    DecidedFrom(v, x, w, ModuleStatus(v.env, v.k.annotations, v.k.status, v.objs, v.api.world), ModuleAnswer(v.k.annotations, v.objs, v.api.world),
                ModuleRecord(v.env, v.k.annotations, v.objs, v.api.world));
  }

  lemma SameModuleStatus(env: Env, ann: Annotations, s: Status, objs: seq<Obj>, w: World, x: World)
    requires x.statuses == w.statuses && x.items == w.items
    ensures ModuleStatus(env, ann, s, objs, x) == ModuleStatus(env, ann, s, objs, w)
    ensures ModuleAnswer(ann, objs, x) == ModuleAnswer(ann, objs, w)
    ensures ModuleRecord(env, ann, objs, x) == ModuleRecord(env, ann, objs, w)
  {
    hide VersionOf, ReadyStatus;
    SameHealth(w, x, objs);
  }

  // ---- from the start of a run --------------------------------------------

  /** The same objects as far as finding, counting and naming go. */
  ghost predicate SameModule(a: seq<Obj>, b: seq<Obj>) {
    |a| == |b| && forall i :: 0 <= i < |a| ==> SameObject(a[i], b[i])
  }

  ghost predicate SameObject(a: Obj, b: Obj) {
    && b == a.(labels := b.labels, annotations := b.annotations, template := b.template, ingress := b.ingress)
    && Chain.SameAt(a.labels, b.labels, PurposeLabel) && Chain.SameAt(a.labels, b.labels, VersionLabel)
  }

  lemma SameModuleTransitive(a: seq<Obj>, b: seq<Obj>, c: seq<Obj>)
    requires SameModule(a, b) && SameModule(b, c)
    ensures SameModule(a, c)
  {
    forall i | 0 <= i < |a| ensures SameObject(a[i], c[i]) {
      assert SameObject(a[i], b[i]) && SameObject(b[i], c[i]);
    }
  }

  lemma UpdatedSame(c: Chain.Component, s: KedaSpec, addr: string, objs: seq<Obj>)
    ensures SameModule(objs, Chain.Updated(c, s, addr, objs))
  {
    hide Chain.Updated, Chain.EditedFor, Chain.FirstIndex;
    Chain.UpdatedKeepsMatches(c, s, addr, objs);
  }

  lemma ChainedSame(s: KedaSpec, addr: string, objs: seq<Obj>)
    ensures SameModule(objs, Chain.Chained(s, addr, objs))
  {
    hide Chain.Chained, Chain.OwnerOf;
    Chain.ChainFrame(s, addr, objs);
    forall i | 0 <= i < |objs| ensures SameObject(objs[i], Chain.Chained(s, addr, objs)[i]) {
      assert Chain.FramedAt(objs, Chain.Chained(s, addr, objs), i);
    }
  }

  lemma StampSame(objs: seq<Obj>)
    ensures SameModule(objs, AllStamped(objs))
  {
  }

  lemma SameIndices(a: seq<Obj>, b: seq<Obj>, c: Chain.Component)
    requires SameModule(a, b)
    ensures Chain.FirstIndex(a, c) == Chain.FirstIndex(b, c)
  {
    hide Chain.FirstIndex;
    var i, j := Chain.FirstIndex(a, c), Chain.FirstIndex(b, c);
    assert i < |a| ==> SameObject(a[i], b[i]);
    assert j < |a| ==> SameObject(a[j], b[j]);
  }

  lemma {:induction false} SameMissing(a: seq<Obj>, b: seq<Obj>, c: Chain.Component)
    requires SameModule(a, b)
    ensures MissingFrom(c, a) == MissingFrom(c, b)
    decreases RankAfter(c)
  {
    hide Chain.FirstIndex, SameModule;
    SameLength(a, b);
    SameIndices(a, b, c);
    match NextComponent(c) {
      case FindComponent(d) => SameMissing(a, b, d);
      case _ =>
    }
  }

  lemma SameLength(a: seq<Obj>, b: seq<Obj>)
    requires SameModule(a, b)
    ensures |a| == |b|
  {
  }

  lemma {:induction false} SameVersion(a: seq<Obj>, b: seq<Obj>, version: string)
    requires SameModule(a, b)
    ensures VersionOf(a, version) == VersionOf(b, version)
    decreases a
  {
    if a != [] {
      assert SameObject(a[0], b[0]);
      forall i | 0 <= i < |a[1..]| ensures SameObject(a[1..][i], b[1..][i]) { assert SameObject(a[i + 1], b[i + 1]); }
      SameVersion(a[1..], b[1..],
        if IsDeployment(a[0]) && a[0].name == KedaOperator then
          if VersionLabel in a[0].labels then a[0].labels[VersionLabel] else ""
        else version);
    }
  }

  lemma SameReport(a: seq<Obj>, b: seq<Obj>, w: World)
    requires SameModule(a, b)
    ensures ReadyAt(w, a, |a|) == ReadyAt(w, b, |b|) && FailingAt(w, a, |a|) == FailingAt(w, b, |b|)
  {
    hide StatusOf;
    forall i | 0 <= i < |a|
      ensures ReadyDeployment(w, a[i]) == ReadyDeployment(w, b[i]) && FailingDeployment(w, a[i]) == FailingDeployment(w, b[i])
    {
      assert SameObject(a[i], b[i]);
    }
  }

  lemma SameDecision(env: Env, ann: Annotations, s: Status, a: seq<Obj>, b: seq<Obj>, w: World)
    requires SameModule(a, b)
    ensures ModuleStatus(env, ann, s, a, w) == ModuleStatus(env, ann, s, b, w)
    ensures ModuleAnswer(ann, a, w) == ModuleAnswer(ann, b, w)
    ensures ModuleRecord(env, ann, a, w) == ModuleRecord(env, ann, b, w)
  {
    hide SameModule, ReadyAt, FailingAt, AddonStatus, ReadyStatus, VersionOf, With;
    SameReport(a, b, w);
    SameVersion(a, b, "");
  }

  lemma {:induction false} MissingRun(v: RunState, c: Chain.Component) returns (w: RunState)
    requires v.fn == FindComponent(c) && Running(v) && MissingFrom(c, v.objs).Some?
    ensures Finish(v) == Finish(w)
    ensures Decided(v, w, MissingStatus(v.k.status, MissingFrom(c, v.objs).value), MISSING, v.k.annotations) && SameModule(v.objs, w.objs)
    decreases RankAfter(c)
  {
    hide Finish, Chain.Updated, Chain.SanitizedSpec, PeerAddress, Chain.FirstIndex, SameModule, FindKeda, Decided, Failed;
    if Chain.FirstIndex(v.objs, c) == |v.objs| {
      FindIsStep(v);
      w := StepFindComponent(v, c);
      SameItself(v.objs);
      StopDecides(v, v.api, w.k.status, w.fn.result, w.fn.err);
    } else {
      var x := FoundRun(v, c);
      SpecKeepsAnnotations(c, v.k.spec);
      RunningOn(v, x);
      UpdatedSame(c, v.k.spec, PeerAddress(v.env), v.objs);
      match NextComponent(c) {
        case FindComponent(d) =>
          SameMissing(v.objs, x.objs, d);
          w := MissingRun(x, d);
          DecidedFrom(v, x, w, MissingStatus(v.k.status, MissingFrom(c, v.objs).value), MISSING, v.k.annotations);
          SameModuleTransitive(v.objs, x.objs, w.objs);
      }
    }
  }

  lemma SameItself(objs: seq<Obj>)
    ensures SameModule(objs, objs)
  {
  }

  lemma SpecKeepsAnnotations(c: Chain.Component, s: KedaSpec)
    ensures Chain.SanitizedSpec(c, Chain.Args, s).podAnnotations == s.podAnnotations
  {
  }

  lemma NoneMissing(objs: seq<Obj>)
    ensures MissingFrom(Chain.Operator, objs).None? <==> AllFound(objs)
  {
    hide Chain.FirstIndex;
    assert MissingFrom(Chain.WebhookPolicy, objs).None? <==> Chain.FirstIndex(objs, Chain.WebhookPolicy) != |objs|;
    assert MissingFrom(Chain.AdmissionWebhooks, objs).None? <==>
      Chain.FirstIndex(objs, Chain.AdmissionWebhooks) != |objs| && MissingFrom(Chain.WebhookPolicy, objs).None?;
  }

  lemma ChainKeepsAnnotations(s: KedaSpec)
    ensures Chain.SanitizedByChain(s).podAnnotations == s.podAnnotations
  {
  }

  /** From a validated spec to the status about to be written. */
  lemma UpdatesRun(v: RunState) returns (w: RunState)
    requires v.fn == FindComponent(Chain.Operator) && Running(v) && v.applied == [] && !Chain.HasRestricted(v.k.spec)
    ensures Finish(v) == Finish(w)
    ensures Decided(v, w, LiveStatus(v.env, v.k, v.objs, v.api.world), LiveAnswer(v.k, v.objs, v.api.world),
                    LiveRecord(v.env, v.k, v.objs, v.api.world)) && SameModule(v.objs, w.objs)
    ensures MissingFrom(Chain.Operator, v.objs).None? ==> w.objs == AllStamped(Chain.Chained(v.k.spec, PeerAddress(v.env), v.objs))
  {
    hide Finish, Chain.Chained, Chain.SanitizedByChain, PeerAddress, SameModule, FindKeda, Decided;
    hide MissingFrom, AllFound, ModuleStatus, MissingStatus, AllStamped, Chain.HasRestricted;
    NoneMissing(v.objs);
    if MissingFrom(Chain.Operator, v.objs).Some? {
      w := MissingRun(v, Chain.Operator);
    } else {
      var x := ChainRun(v);
      ChainKeepsAnnotations(v.k.spec);
      RunningOn(v, x);
      w := ApplyRun(x);
      ChainedSame(v.k.spec, PeerAddress(v.env), v.objs);
      StampSame(x.objs);
      SameModuleTransitive(v.objs, x.objs, w.objs);
      SameDecision(v.env, v.k.annotations, v.k.status, v.objs, x.objs, v.api.world);
      DecidedFrom(v, x, w, LiveStatus(v.env, v.k, v.objs, v.api.world), LiveAnswer(v.k, v.objs, v.api.world),
                  LiveRecord(v.env, v.k, v.objs, v.api.world));
    }
  }

  /** The CR that a live run works on: served, with our finalizer, as it is stored. */
  ghost predicate LiveCr(env: Env, k: KedaCR, w: World) {
    FindKeda(w.kedas, k.id) == Some(k) && k.status.served == ServedTrue && !k.deleting && env.finalizer in k.finalizers
  }

  /** A served CR gets to its initialization, its status remembered. */
  lemma ServedStart(env: Env, k: KedaCR, objs: seq<Obj>, w: World) returns (v: RunState)
    requires k.status.served == ServedTrue
    ensures v == StartRun(env, k, objs, Api(w, [], [])).(fn := Initialize, snapshot := k.status)
    ensures Finish(StartRun(env, k, objs, Api(w, [], []))) == Finish(v)
  {
    hide Finish, StepInitialize, StepDeleteResources, StepSafeDeletion, StepRemoveFinalizer, StepWriteStatus, StepEmitEvents;
    hide StepValidation, StepFindComponent, StepUpdateObject, StepHandleAddon, StepApplyAddon;
    hide StepApply, StepVerify, StepGuardAddon, StepDeleteAddon;
    var v0 := StartRun(env, k, objs, Api(w, [], []));
    var v1 := v0.(fn := TakeSnapshot);
    v := v1.(fn := Initialize, snapshot := k.status);
    FinishStep(v0);
    FinishStep(v1);
  }

  /** From the start: what the run decides, with the status it read as its snapshot. */
  lemma LiveDecision(env: Env, k: KedaCR, objs: seq<Obj>, w: World) returns (v: RunState, d: RunState)
    requires LiveCr(env, k, w)
    ensures v == StartRun(env, k, objs, Api(w, [], [])).(fn := BootstrapperValidation, snapshot := k.status)
    ensures Finish(StartRun(env, k, objs, Api(w, [], []))) == Finish(d)
    ensures Decided(v, d, LiveStatus(env, k, objs, w), LiveAnswer(k, objs, w), LiveRecord(env, k, objs, w)) && SameModule(objs, d.objs)
    ensures !Chain.HasRestricted(k.spec) && MissingFrom(Chain.Operator, objs).None? ==>
              d.objs == AllStamped(Chain.Chained(k.spec, PeerAddress(env), objs))
  {
    hide Finish, SameModule, FindKeda, Decided, MissingFrom, LiveStatus, Chain.HasRestricted, Chain.Chained, AllStamped, PeerAddress, Failed;
    hide StepApply, StepVerify, StepGuardAddon, StepDeleteAddon, StepDeleteResources, StepSafeDeletion, StepRemoveFinalizer, StepWriteStatus, StepEmitEvents;
    hide StepFindComponent, StepUpdateObject, StepHandleAddon, StepApplyAddon;
    var v2 := ServedStart(env, k, objs, w);
    v := v2.(fn := BootstrapperValidation);
    FinishStep(v2);
    FinishStep(v);
    assert Running(v);
    if Chain.HasRestricted(k.spec) {
      d := StepValidation(v);
      StopDecides(v, v.api, d.k.status, d.fn.result, d.fn.err);
      SameItself(objs);
      RestrictedStatus(env, k, objs, w);
    } else {
      var x := v.(fn := FindComponent(Chain.Operator));
      RunningOn(v, x);
      d := UpdatesRun(x);
      DecidedFrom(v, x, d, LiveStatus(env, k, objs, w), LiveAnswer(k, objs, w), LiveRecord(env, k, objs, w));
    }
  }

  lemma RestrictedStatus(env: Env, k: KedaCR, objs: seq<Obj>, w: World)
    requires Chain.HasRestricted(k.spec)
    ensures LiveStatus(env, k, objs, w) == Failed(k.status, Installed, ValidationErr, RestrictedAnnotations(k.id.name))
  {
  }

  // ---- writing the status -------------------------------------------------

  /** The last state functions of a fault-free run store the decided status. */
  lemma EndRun(d: RunState) returns (u: RunState)
    requires d.fn.WriteStatus? && d.err.None? && d.api.faults == [] && Stored(d).Some?
    ensures u == Finish(d) && u.fn.Nil? && u.objs == d.objs && u.k.status == d.k.status && u.env == d.env
    ensures u.api.world == d.api.world.(kedas := u.api.world.kedas)
    ensures FindKeda(u.api.world.kedas, d.k.id) == Some(Stored(d).value.(status := d.k.status))
    ensures (u.result, u.err) == (d.fn.result, d.fn.err)
    ensures Landed(d.k.id, d.k.status) in u.api.trace
  {
    hide Step, StepWriteStatus, StepEmitEvents, EmitAll, FindKeda, Finish;
    StepOfWrite(d);
    FinishStep(d);
    var x := WriteAccepted(d);
    StepOfWrite(x);
    FinishStep(x);
    u := StepEmitEvents(x, x.fn.result, x.fn.err);
    EmitAccepted(x);
    FinishNil(u);
  }

  /** A status write that the API server has accepted. */
  function Landed(id: KedaId, s: Status): Call { UpdateStatus(id, s, true, None) }

  lemma WriteAccepted(d: RunState) returns (x: RunState)
    requires d.fn.WriteStatus? && d.err.None? && d.api.faults == [] && Stored(d).Some?
    ensures x == StepWriteStatus(d, d.fn.result, d.fn.err) && x.fn == EmitEvents(d.fn.result, d.fn.err) && x.err.None?
    ensures x.objs == d.objs && x.env == d.env && x.k.status == d.k.status && x.api.world == d.api.world.(kedas := x.api.world.kedas)
    ensures FindKeda(x.api.world.kedas, d.k.id) == Some(Stored(d).value.(status := d.k.status))
    ensures Landed(d.k.id, d.k.status) in x.api.trace
  {
    hide FindKeda, Replaced, UniqueIds;
    x := StepWriteStatus(d, d.fn.result, d.fn.err);
    assert Stored(d).value.id == d.k.id;
    StoredStatus(d.api.world.kedas, Stored(d).value, d.k.status);
  }

  lemma StoredStatus(kedas: seq<KedaCR>, k: KedaCR, s: Status)
    requires FindKeda(kedas, k.id) == Some(k)
    ensures FindKeda(Replaced(kedas, k.(status := s)), k.id) == Some(k.(status := s))
  {
  }

  lemma EmitAccepted(x: RunState)
    requires x.fn.EmitEvents?
    ensures var u := StepEmitEvents(x, x.fn.result, x.fn.err);
      u.fn.Nil? && u.objs == x.objs && u.env == x.env && u.k == x.k && u.api.world == x.api.world
      && u.result == x.fn.result && u.err == x.fn.err && x.api.trace <= u.api.trace
  {
    EmitAllFacts(x.api, x.k.status.conditions, x.snapshot);
  }

  /** A fault-free run on a live, served CR with our finalizer, from the stored CR to the stored CR: it
      stores the decided status and the decided records of the add-on; otherwise it can write back the
      sanitized spec. The module objects keep their identity and, when all components exist, are the
      stamped result of the whole chain. */
  lemma LiveRunOutcome(env: Env, k: KedaCR, objs: seq<Obj>, w: World) returns (u: RunState)
    requires LiveCr(env, k, w)
    ensures u == Finish(StartRun(env, k, objs, Api(w, [], [])))
    ensures Concluded(env, k, objs, w, u)
  {
    hide Finish, SameModule, FindKeda, MissingFrom, LiveStatus, LiveRecord, Chain.HasRestricted, Chain.Chained, AllStamped, PeerAddress, SameConfig;
    var v, d := LiveDecision(env, k, objs, w);
    u := EndRun(d);
  }

  function AfterRun(u: RunState, id: KedaId): Option<KedaCR> { FindKeda(u.api.world.kedas, id) }

  ghost predicate Concluded(env: Env, k: KedaCR, objs: seq<Obj>, w: World, u: RunState) {
    && u.fn.Nil? && u.k.status == LiveStatus(env, k, objs, w) && (u.result, u.err) == LiveAnswer(k, objs, w)
    && Landed(k.id, LiveStatus(env, k, objs, w)) in u.api.trace
    && AfterRun(u, k.id).Some? && AfterRun(u, k.id).value.annotations == LiveRecord(env, k, objs, w)
    && Touched(k.(status := LiveStatus(env, k, objs, w)), AfterRun(u, k.id).value)
    && SameModule(objs, u.objs)
    && (!Chain.HasRestricted(k.spec) && MissingFrom(Chain.Operator, objs).None? ==>
          u.objs == AllStamped(Chain.Chained(k.spec, PeerAddress(env), objs)))
    && u.api.world.items == w.items && u.api.world.statuses == w.statuses
  }
}
