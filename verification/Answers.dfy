/** What a run returns to the queue, as its calls went: an error exactly when one of them obliges it to,
    and otherwise when to try again (pkg/reconciler/common.go, controllers/keda_controller.go:145-155, and
    the stops of all state functions). */
module Answers {
  import opened KedaTypes
  import opened Objects
  import opened AddonManifest
  import opened Cluster
  import opened StateMachine
  import opened Transitions
  import opened RunLoop
  import opened FaultFree
  import opened ModuleHealth
  import Chain = UpdateChain

  // ---- which calls oblige a run to return an error -------------------------

  ghost predicate NoDeleteBefore(t: seq<Call>, i: nat)
    requires i <= |t|
  {
    forall j :: 0 <= j < i ==> !t[j].DeleteObj?
  }

  /** By the CR the run started with. A conversion right before a patch belongs to the apply loop, whose
      errors are not returned; nor are those of the add-on. Only the first delete of a deletion, that of
      the PeerAuthentication, may find its kind missing. */
  ghost predicate Fails(finalizer: string, k: KedaCR, t: seq<Call>, i: nat)
    requires i < |t|
  {
    match t[i]
    case ListKedas(err) => err.Some?
    case ListItems(_, count, err) => k.deleting && (count > 0 || (err.Some? && err != Some(NotFound)))
    case ConvertObj(err) => err.Some? && !(i + 1 < |t| && t[i + 1].PatchObj?)
    case DeleteObj(_, _, err) => k.deleting && err.Some? && err != Some(NotFound) && !(err == Some(NoMatch) && NoDeleteBefore(t, i))
    case UpdateMeta(_, _, _, _, err) => err.Some? && if k.deleting then err != Some(NotFound) else finalizer !in k.finalizers
    case UpdateStatus(_, _, _, err) => err.Some?
    case _ => false
  }

  ghost predicate AnyFails(finalizer: string, k: KedaCR, t: seq<Call>) { exists i :: 0 <= i < |t| && Fails(finalizer, k, t, i) }

  /** A live, served CR with our finalizer. */
  predicate Live(finalizer: string, k: KedaCR) { k.status.served == ServedTrue && !k.deleting && finalizer in k.finalizers }

  /** The run cannot even begin to apply: a reserved annotation is asked for, or a component is missing. */
  ghost predicate Hopeless(finalizer: string, k: KedaCR, objs: seq<Obj>) {
    Live(finalizer, k) && (AsksReserved(k.spec) || !Complete(objs))
  }

  // ---- when to try again --------------------------------------------------

  ghost predicate HasUpdate(t: seq<Call>) { exists i :: 0 <= i < |t| && t[i].UpdateMeta? }

  /** Resources were found, or could not be counted. */
  ghost predicate InUse(t: seq<Call>) {
    exists i :: 0 <= i < |t| && t[i].ListItems? && (t[i].count > 0 || (t[i].err.Some? && t[i].err != Some(NotFound) && t[i].err != Some(NoMatch)))
  }

  /** It was the add-on's turn. */
  ghost predicate AddonTurn(t: seq<Call>) { exists i :: 0 <= i < |t| && (t[i].ListItems? || t[i].CreateNamespace?) }

  predicate Refused(c: Call) { (c.PatchObj? || c.ConvertObj?) && c.err.Some? }

  ghost predicate AnyRefused(t: seq<Call>) { exists i :: 0 <= i < |t| && Refused(t[i]) }

  /** At once while the CR is being elected, prepared or deleted; in half a minute if the add-on is in
      use; in ten seconds if everything was applied and is not healthy yet; else not at all. */
  ghost function Wait(finalizer: string, k: KedaCR, t: seq<Call>): Option<Result> {
    if k.status.served != ServedTrue then Some(Requeue)
    else if k.deleting then if finalizer !in k.finalizers || HasUpdate(t) then None else Some(Requeue)
    else if finalizer !in k.finalizers then Some(Requeue)
    else if InUse(t) then Some(RequeueAfter(30))
    else if AddonTurn(t) || AnyRefused(t) then None
    else Some(RequeueAfter(10))
  }

  /** Result and error fit the calls. */
  ghost predicate Answered(finalizer: string, k: KedaCR, objs: seq<Obj>, t: seq<Call>, r: Option<Result>, e: Option<Err>) {
    && (e.Some? <==> AnyFails(finalizer, k, t) || Hopeless(finalizer, k, objs))
    && (e.None? ==> r == Wait(finalizer, k, t))
    && (e.Some? ==> r == if k.deleting && HasUpdate(t) then Some(Requeue) else None)
  }

  // ---- where a run can be -------------------------------------------------

  /** Only conversions and patches, all accepted. */
  ghost predicate Clean(t: seq<Call>) { forall i :: 0 <= i < |t| ==> (t[i].ConvertObj? || t[i].PatchObj?) && t[i].err.None? }

  predicate Fresh(v: RunState, k: KedaCR, objs: seq<Obj>) {
    v.k == k && v.objs == objs && v.addonObjs == [] && v.api.trace == []
  }

  ghost predicate SamePlaces(a: seq<Obj>, b: seq<Obj>) {
    |a| == |b| && forall c :: Chain.FirstIndex(a, c) == Chain.FirstIndex(b, c)
  }

  predicate FoundUpTo(objs: seq<Obj>, c: Chain.Component) {
    && (c != Chain.Operator ==> Chain.FirstIndex(objs, Chain.Operator) < |objs|)
    && (c == Chain.AdmissionWebhooks || c == Chain.WebhookPolicy ==> Chain.FirstIndex(objs, Chain.MetricsServer) < |objs|)
    && (c == Chain.WebhookPolicy ==> Chain.FirstIndex(objs, Chain.AdmissionWebhooks) < |objs|)
  }

  ghost predicate AnswerInv(v: RunState, k: KedaCR, objs: seq<Obj>) {
    var f, t := v.env.finalizer, v.api.trace;
    match v.fn
    case ServedFilter => Fresh(v, k, objs)
    case TakeSnapshot => Fresh(v, k, objs) && k.status.served == ServedTrue
    case Initialize => Fresh(v, k, objs) && k.status.served == ServedTrue
    case BootstrapperValidation => Fresh(v, k, objs) && Live(f, k)
    case FindComponent(c) => Live(f, k) && !AsksReserved(k.spec) && Clean(t) && SamePlaces(objs, v.objs) && FoundUpTo(objs, c)
    case UpdateObject(c, _, u) =>
      Live(f, k) && !AsksReserved(k.spec) && Clean(t) && SamePlaces(objs, v.objs) && FoundUpTo(objs, c) && u == Chain.FirstIndex(objs, c) < |objs|
    case Apply => Live(f, k) && !AsksReserved(k.spec) && Complete(objs) && Clean(t)
    case Verify => Live(f, k) && !AsksReserved(k.spec) && Complete(objs) && Clean(t)
    case HandleAddon => Live(f, k) && !AsksReserved(k.spec) && Complete(objs) && Clean(t)
    case GuardAddonInUse => Live(f, k) && !AsksReserved(k.spec) && Complete(objs) && Clean(t)
    case ApplyAddon => Live(f, k) && !AsksReserved(k.spec) && Complete(objs) && Clean(t)
    case DeleteAddon =>
      && Live(f, k) && !AsksReserved(k.spec) && Complete(objs)
      && AddonTurn(t) && !InUse(t) && !AnyFails(f, k, t)
    case DeleteResources => Fresh(v, k, objs) && Doomed(f, k)
    case SafeDeletion => Fresh(v, k, objs) && Doomed(f, k)
    case RemoveFinalizer => Doomed(f, k) && !AnyFails(f, k, t) && !HasUpdate(t)
    case WriteStatus(r, e) => Answered(f, k, objs, t, r, e) && (k.deleting ==> !HasUpdate(t))
    case EmitEvents(r, e) => Answered(f, k, objs, t, r, e)
    case Nil => Answered(f, k, objs, t, v.result, v.err)
  }

  predicate Doomed(finalizer: string, k: KedaCR) { k.status.served == ServedTrue && k.deleting && finalizer in k.finalizers }

  // ---- traces that grow ---------------------------------------------------

  /** A call that is no patch does not change what earlier calls oblige to. */
  lemma OneMoreCall(f: string, k: KedaCR, t: seq<Call>, c: Call)
    requires !c.PatchObj?
    ensures AnyFails(f, k, t + [c]) <==> AnyFails(f, k, t) || Fails(f, k, t + [c], |t|)
    ensures HasUpdate(t + [c]) <==> HasUpdate(t) || c.UpdateMeta?
  {
    var u := t + [c];
    assert u[|t|] == c;
    assert forall j :: 0 <= j < |t| ==> u[j] == t[j];
    forall i | 0 <= i < |t| ensures u[i] == t[i] && (Fails(f, k, u, i) <==> Fails(f, k, t, i)) {
      assert NoDeleteBefore(u, i) <==> NoDeleteBefore(t, i);
      assert i + 1 < |t| ==> u[i + 1] == t[i + 1];
    }
    if AnyFails(f, k, t) {
      var i :| 0 <= i < |t| && Fails(f, k, t, i);
      assert Fails(f, k, u, i);
    }
    if HasUpdate(t) {
      var i :| 0 <= i < |t| && t[i].UpdateMeta?;
      assert u[i].UpdateMeta?;
    }
  }

  lemma SameWait(f: string, k: KedaCR, t: seq<Call>, c: Call)
    requires c.UpdateStatus? || c.Emit?
    ensures Wait(f, k, t + [c]) == Wait(f, k, t)
  {
    var u := t + [c];
    assert forall i :: 0 <= i < |t| ==> u[i] == t[i];
    assert u[|t|] == c;
    assert HasUpdate(u) <==> HasUpdate(t);
    assert InUse(u) <==> InUse(t);
    assert AddonTurn(u) <==> AddonTurn(t);
    assert AnyRefused(u) <==> AnyRefused(t);
  }

  lemma CleanMeaning(f: string, k: KedaCR, t: seq<Call>)
    requires Clean(t)
    ensures !AnyFails(f, k, t) && !HasUpdate(t) && !InUse(t) && !AddonTurn(t) && !AnyRefused(t)
  {
  }

  lemma NothingCalled(f: string, k: KedaCR)
    ensures Clean([]) && !AnyFails(f, k, []) && !HasUpdate([])
  {
  }

  // ---- the steps without loops --------------------------------------------

  lemma FilterStep(v: RunState, k: KedaCR, objs: seq<Obj>)
    requires AnswerInv(v, k, objs) && v.fn.ServedFilter?
    ensures AnswerInv(StepServedFilter(v), k, objs)
  {
    hide FindServed, Failed, Wait, AnyFails, Complete;
    if k.status.served != ServedTrue {
      var r := DoListKedas(v.api);
      var c := ListKedas(r.err);
      OneMoreCall(v.env.finalizer, k, [], c);
      NothingCalled(v.env.finalizer, k);
      assert r.api.trace == [] + [c];
      WaitUnserved(v.env.finalizer, k, r.api.trace);
    }
  }

  lemma WaitUnserved(f: string, k: KedaCR, t: seq<Call>)
    ensures k.status.served != ServedTrue ==> Wait(f, k, t) == Some(Requeue)
    ensures !k.deleting && f !in k.finalizers ==> Wait(f, k, t) == Some(Requeue)
    ensures Doomed(f, k) && !HasUpdate(t) ==> Wait(f, k, t) == Some(Requeue)
  {
  }

  lemma InitializeStep(v: RunState, k: KedaCR, objs: seq<Obj>)
    requires AnswerInv(v, k, objs) && v.fn.Initialize?
    ensures AnswerInv(StepInitialize(v), k, objs)
  {
    hide StoreMeta, FindKeda, With, Wait, AnyFails, Complete, HasUpdate;
    var f := v.env.finalizer;
    NothingCalled(f, k);
    if !k.deleting && f !in k.finalizers {
      var sent := k.(finalizers := k.finalizers + {f});
      var r := DoUpdateMeta(v.api, sent);
      var c := r.api.trace[0];
      assert r.api.trace == [] + [c];
      OneMoreCall(f, k, [], c);
      WaitUnserved(f, k, r.api.trace);
    } else if k.deleting && f !in k.finalizers {
      WaitGone(f, k);
    }
  }

  lemma WaitGone(f: string, k: KedaCR)
    requires k.status.served == ServedTrue && k.deleting && f !in k.finalizers
    ensures Wait(f, k, []).None?
  {
  }

  lemma CallFreeStep(v: RunState, k: KedaCR, objs: seq<Obj>)
    requires AnswerInv(v, k, objs)
    ensures v.fn.TakeSnapshot? ==> AnswerInv(StepTakeSnapshot(v), k, objs)
    ensures v.fn.BootstrapperValidation? ==> AnswerInv(StepValidation(v), k, objs)
    ensures v.fn.HandleAddon? ==> AnswerInv(StepHandleAddon(v), k, objs)
    ensures v.fn.DeleteResources? ==> AnswerInv(StepDeleteResources(v), k, objs)
  {
    hide Failed, With, Wait, AnyFails, Complete, HasUpdate, FindCondition, Chain.FirstIndex, ReadAddonCfg, Chain.HasRestricted, AsksReserved, Clean;
    NothingCalled(v.env.finalizer, k);
    ReservedMeaning(k.spec);
    WaitUnserved(v.env.finalizer, k, []);
  }

  lemma FindStep(v: RunState, c: Chain.Component, k: KedaCR, objs: seq<Obj>)
    requires AnswerInv(v, k, objs) && v.fn == FindComponent(c)
    ensures AnswerInv(StepFindComponent(v, c), k, objs)
  {
    hide Failed, Complete, Chain.FirstIndex, AsksReserved, Clean, Answered;
    CompleteMeaning(objs);
    if Hopeless(v.env.finalizer, k, objs) { HopelessAnswered(v.env.finalizer, k, objs, v.api.trace, NoSuchObject); }
  }

  lemma HopelessAnswered(f: string, k: KedaCR, objs: seq<Obj>, t: seq<Call>, e: Err)
    requires Clean(t) && Hopeless(f, k, objs)
    ensures Answered(f, k, objs, t, None, Some(e)) && (k.deleting ==> !HasUpdate(t))
  {
    hide Complete, AsksReserved, AnyFails, HasUpdate, Wait;
    CleanMeaning(f, k, t);
  }

  /** In an update state, and after its edit. */
  ghost predicate Editing(v: RunState, c: Chain.Component, k: KedaCR, objs: seq<Obj>) {
    && Live(v.env.finalizer, k) && !AsksReserved(k.spec) && Clean(v.api.trace) && SamePlaces(objs, v.objs)
    && FoundUpTo(objs, c) && Chain.FirstIndex(objs, c) < |objs|
  }

  lemma NextStep(v: RunState, c: Chain.Component, e: nat, k: KedaCR, objs: seq<Obj>)
    requires Editing(v, c, k, objs) && v.fn == NextEdit(c, e, Chain.FirstIndex(objs, c))
    ensures AnswerInv(v, k, objs)
  {
    hide Complete, Chain.FirstIndex, AsksReserved, Clean, SamePlaces;
    CompleteMeaning(objs);
  }

  lemma UpdateStep(v: RunState, c: Chain.Component, e: nat, u: nat, k: KedaCR, objs: seq<Obj>)
    requires AnswerInv(v, k, objs) && v.fn == UpdateObject(c, e, u)
    ensures AnswerInv(StepUpdateObject(v, c, e, u), k, objs)
  {
    hide Failed, Complete, Chain.FirstIndex, AsksReserved, Chain.EditedObj, Chain.SanitizedSpec, Chain.HasData, Clean, SamePlaces, FoundUpTo, AnswerInv, NextEdit, NextComponent;
    EditingHere(v, c, e, u, k, objs);
    var w := StepUpdateObject(v, c, e, u);
    if e < |Chain.Edits(c)| {
      var r := DoConvert(v.api);
      OneMoreClean(v.api.trace, r.err);
      EditKeepsPlaces(objs, v.objs, c, Chain.Edits(c)[e], v.k.spec, PeerAddress(v.env), u);
      if Chain.HasData(c, Chain.Edits(c)[e], v.k.spec) && r.err.Some? {
        ConversionFails(v, r, w, k, objs);
      } else {
        NextStep(w, c, e, k, objs);
      }
    } else {
      PastEdits(c, e, u);
      NextStep(w, c, e, k, objs);
    }
  }

  lemma PastEdits(c: Chain.Component, e: nat, u: nat)
    requires e >= |Chain.Edits(c)|
    ensures NextEdit(c, e, u) == NextComponent(c)
  {
  }

  lemma EditingHere(v: RunState, c: Chain.Component, e: nat, u: nat, k: KedaCR, objs: seq<Obj>)
    requires AnswerInv(v, k, objs) && v.fn == UpdateObject(c, e, u)
    ensures Editing(v, c, k, objs) && u == Chain.FirstIndex(objs, c) < |v.objs|
  {
    hide Chain.FirstIndex, AsksReserved, Clean, FoundUpTo;
  }

  /** The run stops at a failed conversion. */
  lemma ConversionFails(v: RunState, r: Rep, w: RunState, k: KedaCR, objs: seq<Obj>)
    requires Live(v.env.finalizer, k) && Clean(v.api.trace) && r.err.Some? && w.env == v.env
    requires w.fn == WriteStatus(None, r.err) && w.api.trace == v.api.trace + [ConvertObj(r.err)]
    ensures AnswerInv(w, k, objs)
  {
    hide AnyFails, Complete, AsksReserved, Clean, HasUpdate, Wait;
    CleanMeaning(v.env.finalizer, k, v.api.trace);
    OneMoreCall(v.env.finalizer, k, v.api.trace, ConvertObj(r.err));
  }

  lemma OneMoreClean(t: seq<Call>, err: Option<Err>)
    requires Clean(t)
    ensures err.None? ==> Clean(t + [ConvertObj(err)])
  {
  }

  lemma EditKeepsPlaces(objs: seq<Obj>, list: seq<Obj>, c: Chain.Component, e: Chain.Edit, s: KedaSpec, addr: string, u: nat)
    requires SamePlaces(objs, list) && u < |list|
    ensures SamePlaces(objs, list[u := Chain.EditedObj(c, e, s, addr, list[u])])
  {
    hide Chain.FirstIndex, Chain.EditedTemplate, Chain.HasData, Chain.PeeredIngress;
    var r := list[u := Chain.EditedObj(c, e, s, addr, list[u])];
    forall i | 0 <= i < |list| ensures Chain.SameIdentity(list[i], r[i]) { }
    Chain.SameIdentitySameIndex(list, r);
  }

  // ---- the apply loop and the verification --------------------------------

  /** From position n on: conversions and patches, each conversion right before a patch. */
  ghost predicate Paired(t: seq<Call>, n: nat) {
    && (forall i :: n <= i < |t| ==> t[i].ConvertObj? || t[i].PatchObj?)
    && (forall i :: n <= i < |t| && t[i].ConvertObj? ==> i + 1 < |t| && t[i + 1].PatchObj?)
  }

  ghost predicate RefusedSince(t: seq<Call>, n: nat) { exists i :: n <= i < |t| && Refused(t[i]) }

  lemma PairedParts(t: seq<Call>, u: seq<Call>, w: seq<Call>)
    requires t <= u <= w && Paired(u, |t|) && Paired(w, |u|)
    ensures Paired(w, |t|) && (RefusedSince(w, |t|) <==> RefusedSince(u, |t|) || RefusedSince(w, |u|))
  {
    assert forall i :: 0 <= i < |u| ==> w[i] == u[i];
    if RefusedSince(u, |t|) {
      var i :| |t| <= i < |u| && Refused(u[i]);
      assert Refused(w[i]);
    }
  }

  lemma OnePatched(a: Api, o: Obj)
    ensures var conv := if o.kind == Deployment then DoConvert(a) else Rep(a, None); var p := DoPatch(conv.api, o);
      && a.trace <= p.api.trace && Paired(p.api.trace, |a.trace|)
      && (RefusedSince(p.api.trace, |a.trace|) <==> conv.err.Some? || p.err.Some?)
  {
    var conv := if o.kind == Deployment then DoConvert(a) else Rep(a, None);
    var t := DoPatch(conv.api, o).api.trace;
    assert t[|conv.api.trace|].PatchObj?;
    assert o.kind == Deployment ==> t[|a.trace|] == ConvertObj(conv.err);
  }

  lemma {:induction false} ApplyCalls(a: Api, list: seq<Obj>, applied: seq<Applied>, failed: bool)
    ensures var r := ApplyModule(a, list, applied, failed);
      && a.trace <= r.api.trace && Paired(r.api.trace, |a.trace|)
      && (r.failed <==> failed || RefusedSince(r.api.trace, |a.trace|))
    decreases list
  {
    hide Paired, RefusedSince, Stamped, StatusOf, DoConvert, DoPatch;
    if list != [] {
      var o := Stamped(list[0]);
      var conv := if o.kind == Deployment then DoConvert(a) else Rep(a, None);
      var p := DoPatch(conv.api, o);
      OnePatched(a, o);
      var now := failed || conv.err.Some? || p.err.Some?;
      var later := applied + [Applied(o, StatusOf(p.api.world, KeyOf(o)))];
      ApplyCalls(p.api, list[1..], later, now);
      PairedParts(a.trace, p.api.trace, ApplyModule(p.api, list[1..], later, now).api.trace);
    } else {
      NothingPaired(a.trace);
    }
  }

  lemma NothingPaired(t: seq<Call>)
    ensures Paired(t, |t|) && !RefusedSince(t, |t|)
  {
  }

  /** No error of the loop is returned. */
  lemma PairedIsSilent(f: string, k: KedaCR, t: seq<Call>, u: seq<Call>)
    requires Clean(t) && t <= u && Paired(u, |t|)
    ensures !AnyFails(f, k, u) && !HasUpdate(u) && !InUse(u) && !AddonTurn(u)
    ensures AnyRefused(u) <==> RefusedSince(u, |t|)
    ensures !RefusedSince(u, |t|) ==> Clean(u)
  {
    assert forall i :: 0 <= i < |t| ==> u[i] == t[i];
  }

  lemma ApplyStep(v: RunState, k: KedaCR, objs: seq<Obj>)
    requires AnswerInv(v, k, objs) && v.fn.Apply?
    ensures AnswerInv(StepApply(v), k, objs)
  {
    hide ApplyModule, Failed, Complete, AsksReserved, Clean, AllStamped, AnyFails, HasUpdate, InUse, AddonTurn, AnyRefused, Paired, RefusedSince;
    var r := ApplyModule(v.api, v.objs, v.applied, false);
    ApplyCalls(v.api, v.objs, v.applied, false);
    PairedIsSilent(v.env.finalizer, k, v.api.trace, r.api.trace);
  }

  /** Only the last conversion can have failed. */
  ghost predicate Checked(t: seq<Call>, u: seq<Call>, ok: bool) {
    && t <= u && (forall i :: |t| <= i < |u| ==> u[i].ConvertObj?)
    && (forall i :: |t| <= i < |u| - 1 ==> u[i].err.None?)
    && (if ok then |u| > |t| ==> u[|u| - 1].err.None? else |u| > |t| && u[|u| - 1].err.Some?)
  }

  lemma {:induction false} VerifyCalls(a: Api, list: seq<Applied>, t: Tally)
    ensures var r := VerifyAll(a, list, t); Checked(a.trace, r.api.trace, r.err.None?)
    decreases list
  {
    hide IsDeployment;
    if list != [] {
      if IsDeployment(list[0].obj) {
        var c := DoConvert(a);
        if c.err.None? {
          VerifyCalls(c.api, list[1..], Counted(t, list[0]));
          CheckedOn(a.trace, c.api.trace, VerifyAll(c.api, list[1..], Counted(t, list[0])).api.trace, VerifyAll(a, list, t).err.None?);
        }
      } else {
        VerifyCalls(a, list[1..], t);
      }
    }
  }

  lemma CheckedOn(t: seq<Call>, u: seq<Call>, w: seq<Call>, ok: bool)
    requires u == t + [ConvertObj(None)] && Checked(u, w, ok)
    ensures Checked(t, w, ok)
  {
    assert w[|t|] == u[|t|];
  }

  lemma CheckedMeaning(f: string, k: KedaCR, t: seq<Call>, u: seq<Call>, ok: bool)
    requires Clean(t) && Checked(t, u, ok)
    ensures ok ==> Clean(u)
    ensures !ok ==> AnyFails(f, k, u)
    ensures !HasUpdate(u)
  {
    assert forall i :: 0 <= i < |t| ==> u[i] == t[i];
    assert !ok ==> Fails(f, k, u, |u| - 1);
  }

  lemma VerifyStep(v: RunState, k: KedaCR, objs: seq<Obj>)
    requires AnswerInv(v, k, objs) && v.fn.Verify?
    ensures AnswerInv(StepVerify(v), k, objs)
  {
    hide VerifyAll, ReadyStatus, Failed, With, Complete, AsksReserved, Clean, AnyFails, HasUpdate, InUse, AddonTurn, AnyRefused, Checked;
    var r := VerifyAll(v.api, v.applied, Tally(0, 0, ""));
    VerifyCalls(v.api, v.applied, Tally(0, 0, ""));
    CheckedMeaning(v.env.finalizer, k, v.api.trace, r.api.trace, r.err.None?);
    if r.err.None? { CleanMeaning(v.env.finalizer, k, r.api.trace); }
  }

  // ---- the add-on ---------------------------------------------------------

  lemma OneList(f: string, k: KedaCR, t: seq<Call>, c: Call)
    requires Clean(t) && c.ListItems? && !k.deleting
    ensures !AnyFails(f, k, t + [c]) && AddonTurn(t + [c]) && !HasUpdate(t + [c])
    ensures InUse(t + [c]) <==> c.count > 0 || (c.err.Some? && c.err != Some(NotFound) && c.err != Some(NoMatch))
  {
    var u := t + [c];
    assert forall i :: 0 <= i < |t| ==> u[i] == t[i];
    assert u[|t|] == c;
  }

  lemma GuardStep(v: RunState, k: KedaCR, objs: seq<Obj>)
    requires AnswerInv(v, k, objs) && v.fn.GuardAddonInUse?
    ensures AnswerInv(StepGuardAddon(v), k, objs)
  {
    hide WithAddon, Complete, AsksReserved, Clean, AnyFails, HasUpdate, InUse, AddonTurn, AnyRefused;
    var r := DoListItems(v.api, HSO_GVK);
    OneList(v.env.finalizer, k, v.api.trace, ListItems(HSO_GVK, r.count, r.err));
  }

  /** Whatever the add-on states call on a live CR, none of it is returned as an error. */
  lemma AddonCalls(v: RunState, u: RunState, k: KedaCR)
    requires (v.fn.ApplyAddon? || v.fn.DeleteAddon?) && TraceGrows(v.fn, v.api, u.api) && Live(v.env.finalizer, k)
    requires !AnyFails(v.env.finalizer, k, v.api.trace) && !InUse(v.api.trace)
    requires AddonTurn(u.api.trace)
    ensures !AnyFails(v.env.finalizer, k, u.api.trace) && Wait(v.env.finalizer, k, u.api.trace).None?
  {
    var t, w := v.api.trace, u.api.trace;
    assert forall i :: 0 <= i < |t| ==> w[i] == t[i];
    forall i | 0 <= i < |w| ensures !Fails(v.env.finalizer, k, w, i) {
      if i < |t| {
        assert !Fails(v.env.finalizer, k, t, i);
        assert i + 1 < |t| ==> w[i + 1] == t[i + 1];
      }
    }
    assert !InUse(w);
  }

  lemma TurnComes(v: RunState)
    requires v.fn.ApplyAddon?
    ensures AddonTurn(StepApplyAddon(v).api.trace)
  {
    hide StepApplyAddon, StatusStep, MetaStep;
    ApplyAddonFacts(v);
    var t := StepApplyAddon(v).api.trace;
    FirstIsCreate(v);
    assert t[|v.api.trace|].CreateNamespace?;
  }

  lemma FirstIsCreate(v: RunState)
    requires v.fn.ApplyAddon?
    ensures var t := StepApplyAddon(v).api.trace; |v.api.trace| < |t| && t[|v.api.trace|].CreateNamespace?
  {
    hide CleanupOldAddon, Install, StaleAddon, ReadAddonCfg;
    var cfg := ReadAddonCfg(v.k.annotations);
    var version, ns := v.env.defaultVersion, cfg.EffectiveNamespace();
    var created := DoCreateNamespace(v.api, ns);
    var stale := StaleAddon(v.k.annotations, version, ns);
    var cleaned := if stale.None? then created.api else CleanupOldAddon(created.api, v.env.src, stale.value.0, stale.value.1);
    if stale.Some? { CleanupExtends(created.api, v.env.src, stale.value.0, stale.value.1); }
    var w := v.(api := cleaned);
    NothingMore(v.fn, cleaned);
    InstallFacts(w, cleaned, version, ns, cfg.istioInjection);
    assert w.(api := cleaned) == w;
    assert created.api.trace <= cleaned.trace;
    assert cleaned.trace <= Install(w, version, ns, cfg.istioInjection).api.trace;
  }

  lemma NothingMore(f: StateFn, a: Api)
    ensures Extends(f, a, a)
  {
    NoCall(f, a);
  }

  lemma AddonStep(v: RunState, k: KedaCR, objs: seq<Obj>)
    requires AnswerInv(v, k, objs) && (v.fn.ApplyAddon? || v.fn.DeleteAddon?) && Sound(v)
    ensures AnswerInv(Step(v), k, objs)
  {
    hide Complete, AsksReserved, Clean, AnyFails, HasUpdate, InUse, AddonTurn, AnyRefused, StatusStep, MetaStep, MetaStatus, TraceGrows, Wait;
    hide StepApplyAddon, StepDeleteAddon;
    StepFacts(v);
    AddonWrites(v);
    if v.fn.ApplyAddon? {
      CleanMeaning(v.env.finalizer, k, v.api.trace);
      TurnComes(v);
    } else {
      TurnStays(v.fn, v.api, Step(v).api);
    }
    AddonCalls(v, Step(v), k);
  }

  lemma TurnStays(f: StateFn, a: Api, b: Api)
    requires TraceGrows(f, a, b) && AddonTurn(a.trace)
    ensures AddonTurn(b.trace)
  {
    var i :| 0 <= i < |a.trace| && (a.trace[i].ListItems? || a.trace[i].CreateNamespace?);
    assert b.trace[i] == a.trace[i];
  }

  lemma AddonWrites(v: RunState)
    requires v.fn.ApplyAddon? || v.fn.DeleteAddon?
    ensures Step(v).fn == WriteStatus(None, None)
  {
    hide CleanupOldAddon, AddonObjects, ApplyAll, DeleteAll, DeletePeerAuth, DoUpdateMeta, WithAddon, Recorded, StaleAddon;
  }

  // ---- the deletion -------------------------------------------------------

  /** Conversions and lists, no more. */
  ghost predicate ChecksOnly(t: seq<Call>, n: nat) { forall i :: n <= i < |t| ==> t[i].ConvertObj? || t[i].ListItems? }

  predicate Stops(c: Call) {
    || (c.ConvertObj? && c.err.Some?)
    || (c.ListItems? && (c.count > 0 || (c.err.Some? && c.err != Some(NotFound))))
  }

  /** The check ends at the first call that stops it, and only there with an error. */
  ghost predicate CheckEnds(t: seq<Call>, u: seq<Call>, ok: bool) {
    && t <= u && ChecksOnly(u, |t|)
    && (if ok then forall i :: |t| <= i < |u| ==> !Stops(u[i]) else |u| > |t| && Stops(u[|u| - 1]))
  }

  lemma {:induction false} CrdCalls(a: Api, objs: seq<Obj>)
    ensures var r := CheckCrdOrphans(a, objs); CheckEnds(a.trace, r.api.trace, r.err.None?)
    decreases objs
  {
    hide IsCrd, CrdGvk, CheckEnds;
    if objs == [] {
      NothingChecked(a.trace);
    } else if !IsCrd(objs[0]) {
      CrdCalls(a, objs[1..]);
    } else {
      var c := DoConvert(a);
      OneCheck(a.trace, ConvertObj(c.err));
      if c.err.None? {
        var l := DoListItems(c.api, CrdGvk(objs[0]));
        OneCheck(c.api.trace, ListItems(CrdGvk(objs[0]), l.count, l.err));
        if IgnoreNotFound(l.err).None? && l.count == 0 {
          CrdCalls(l.api, objs[1..]);
          var r := CheckCrdOrphans(l.api, objs[1..]);
          MoreChecks(c.api.trace, l.api.trace, r.api.trace, r.err.None?);
          MoreChecks(a.trace, c.api.trace, r.api.trace, r.err.None?);
        } else {
          MoreChecks(a.trace, c.api.trace, l.api.trace, false);
        }
      }
    }
  }

  lemma NothingChecked(t: seq<Call>)
    ensures CheckEnds(t, t, true)
  {
  }

  lemma OneCheck(t: seq<Call>, c: Call)
    requires c.ConvertObj? || c.ListItems?
    ensures CheckEnds(t, t + [c], !Stops(c))
  {
  }

  lemma MoreChecks(t: seq<Call>, u: seq<Call>, w: seq<Call>, ok: bool)
    requires CheckEnds(t, u, true) && CheckEnds(u, w, ok)
    ensures CheckEnds(t, w, ok)
  {
    hide Stops;
    assert forall i :: 0 <= i < |u| ==> w[i] == u[i];
  }

  lemma ChecksFail(f: string, k: KedaCR, t: seq<Call>)
    requires ChecksOnly(t, 0) && k.deleting
    ensures AnyFails(f, k, t) <==> exists i :: 0 <= i < |t| && Stops(t[i])
    ensures !HasUpdate(t)
  {
    forall i | 0 <= i < |t| ensures Fails(f, k, t, i) <==> Stops(t[i]) {
    }
    if AnyFails(f, k, t) {
      var i :| 0 <= i < |t| && Fails(f, k, t, i);
      assert Stops(t[i]);
    }
  }

  predicate BadDelete(c: Call, first: bool) {
    c.DeleteObj? && c.err.Some? && c.err != Some(NotFound) && !(c.err == Some(NoMatch) && first)
  }

  /** Checks that passed, then deletes: only the first of them may find its kind missing. */
  lemma DeletesFail(f: string, k: KedaCR, t: seq<Call>, u: seq<Call>)
    requires ChecksOnly(t, 0) && k.deleting && !AnyFails(f, k, t)
    requires t <= u && forall i :: |t| <= i < |u| ==> u[i].DeleteObj?
    ensures AnyFails(f, k, u) <==> exists i :: |t| <= i < |u| && BadDelete(u[i], i == |t|)
    ensures !HasUpdate(u)
  {
    assert forall i :: 0 <= i < |t| ==> u[i] == t[i];
    forall i | 0 <= i < |t| ensures !Fails(f, k, u, i) {
      assert !Fails(f, k, t, i);
    }
    forall i | |t| <= i < |u| ensures Fails(f, k, u, i) <==> BadDelete(u[i], i == |t|) {
      assert NoDeleteBefore(u, i) <==> i == |t| by {
        if i > |t| { assert u[|t|].DeleteObj?; }
      }
    }
    if AnyFails(f, k, u) {
      var i :| 0 <= i < |u| && Fails(f, k, u, i);
      assert BadDelete(u[i], i == |t|);
    }
    if i :| |t| <= i < |u| && BadDelete(u[i], i == |t|) {
      assert Fails(f, k, u, i);
    }
  }

  /** The deletes of a run that knows no add-on objects. */
  lemma DeleteCalls(v: RunState) returns (own: Rep, r: Rep)
    requires v.addonObjs == []
    ensures own == DeletePeerAuth(v.api, DEFAULT_ADDON_NAMESPACE) && r == DeleteAll(own.api, v.objs + LEASES, None)
    ensures DeleteAddonObjs(v.api, v.addonObjs).api == own.api && (DeleteAddonObjs(v.api, v.addonObjs).err.Some? <==> own.err.Some?)
    ensures v.api.trace <= own.api.trace <= r.api.trace && |own.api.trace| == |v.api.trace| + 1
    ensures forall i :: |v.api.trace| <= i < |r.api.trace| ==> r.api.trace[i].DeleteObj?
    ensures own.err.Some? <==> BadDelete(own.api.trace[|v.api.trace|], true)
    ensures r.err.Some? <==> exists i :: |own.api.trace| <= i < |r.api.trace| && BadDelete(r.api.trace[i], false)
  {
    hide DeleteAll, Keys;
    own := DeletePeerAuth(v.api, DEFAULT_ADDON_NAMESPACE);
    r := DeleteAll(own.api, v.objs + LEASES, None);
    OnePeer(v.api, own);
    var n := |own.api.trace|;
    assert r.api.trace[|v.api.trace|] == own.api.trace[|v.api.trace|];
    forall i | n <= i < |r.api.trace| ensures BadDelete(r.api.trace[i], false) <==> IgnoreNotFound(r.api.trace[i].err).Some? {
      assert r.api.trace[i].DeleteObj?;
    }
    if r.err.Some? {
      var i :| n <= i < |r.api.trace| && !IgnoreNotFound(r.api.trace[i].err).None?;
      assert BadDelete(r.api.trace[i], false);
    }
  }

  lemma OnePeer(a: Api, own: Rep)
    requires own == DeletePeerAuth(a, DEFAULT_ADDON_NAMESPACE)
    ensures DeleteAddonObjs(a, []).api == own.api && (DeleteAddonObjs(a, []).err.Some? <==> own.err.Some?)
  {
    assert DeleteAll(a, [], None) == Rep(a, None);
    assert [DEFAULT_ADDON_NAMESPACE][1..] == [];
    assert DeletePeerAuths(a, [DEFAULT_ADDON_NAMESPACE], None) == DeletePeerAuths(own.api, [], Join(None, own.err));
  }

  /** The deletes fail exactly if one of them obliges to an error. */
  lemma DeletionFails(f: string, v: RunState, k: KedaCR) returns (own: Rep, r: Rep)
    requires v.addonObjs == [] && k.deleting && ChecksOnly(v.api.trace, 0) && !AnyFails(f, k, v.api.trace)
    ensures own.api == DeleteAddonObjs(v.api, v.addonObjs).api && (DeleteAddonObjs(v.api, v.addonObjs).err.Some? <==> own.err.Some?)
    ensures r == DeleteAll(own.api, v.objs + LEASES, None)
    ensures AnyFails(f, k, own.api.trace) <==> own.err.Some?
    ensures own.err.None? ==> (AnyFails(f, k, r.api.trace) <==> r.err.Some?)
    ensures !HasUpdate(own.api.trace) && !HasUpdate(r.api.trace)
  {
    hide DeleteAll, DeleteAddonObjs, DeletePeerAuth, AnyFails, HasUpdate, BadDelete, ChecksOnly;
    own, r := DeleteCalls(v);
    var t := v.api.trace;
    DeletesFail(f, k, t, own.api.trace);
    DeletesFail(f, k, t, r.api.trace);
    OnlyDeletes(t, own, r);
    if own.err.None? && r.err.None? {
      NoBadDelete(t, own.api.trace, r.api.trace);
    }
  }

  lemma ModuleStep(v: RunState, k: KedaCR, objs: seq<Obj>)
    requires v.addonObjs == [] && v.k == k && Doomed(v.env.finalizer, k)
    requires ChecksOnly(v.api.trace, 0) && !AnyFails(v.env.finalizer, k, v.api.trace)
    ensures AnswerInv(DeleteModule(v), k, objs)
  {
    hide DeleteAll, DeleteAddonObjs, Failed, With, Complete, AsksReserved, AnyFails, HasUpdate, FindCondition, Wait, ChecksOnly;
    var own, r := DeletionFails(v.env.finalizer, v, k);
    WaitUnserved(v.env.finalizer, k, r.api.trace);
  }

  /** How the two parts of the deletion add up. */
  lemma OnlyDeletes(t: seq<Call>, own: Rep, r: Rep)
    requires |own.api.trace| == |t| + 1 && own.api.trace <= r.api.trace
    ensures (exists i :: |t| <= i < |own.api.trace| && BadDelete(own.api.trace[i], i == |t|)) <==> BadDelete(own.api.trace[|t|], true)
    ensures (exists i :: |own.api.trace| <= i < |r.api.trace| && BadDelete(r.api.trace[i], false)) ==>
              exists i :: |t| <= i < |r.api.trace| && BadDelete(r.api.trace[i], i == |t|)
  {
    hide BadDelete;
    if BadDelete(own.api.trace[|t|], true) {
      assert BadDelete(own.api.trace[|t|], |t| == |t|);
    }
    if i :| |own.api.trace| <= i < |r.api.trace| && BadDelete(r.api.trace[i], false) {
      assert BadDelete(r.api.trace[i], i == |t|);
    }
  }

  lemma NoBadDelete(t: seq<Call>, u: seq<Call>, w: seq<Call>)
    requires |u| == |t| + 1 && u <= w && !BadDelete(u[|t|], true)
    requires !exists i :: |u| <= i < |w| && BadDelete(w[i], false)
    ensures !exists i :: |t| <= i < |w| && BadDelete(w[i], i == |t|)
  {
    hide BadDelete;
    forall i | |t| <= i < |w| ensures !BadDelete(w[i], i == |t|) {
      if i == |t| { assert w[i] == u[i]; } else { assert !BadDelete(w[i], false); }
    }
  }

  lemma SafeDeletionStep(v: RunState, k: KedaCR, objs: seq<Obj>)
    requires AnswerInv(v, k, objs) && v.fn.SafeDeletion?
    ensures AnswerInv(StepSafeDeletion(v), k, objs)
  {
    hide CheckCrdOrphans, DeleteModule, Warned, Complete, AsksReserved, AnyFails, HasUpdate, Wait, Stops;
    var crds := CheckCrdOrphans(v.api, v.objs);
    CrdCalls(v.api, v.objs);
    ChecksFail(v.env.finalizer, k, crds.api.trace);
    if crds.err.None? {
      ModuleStep(v.(api := crds.api), k, objs);
    }
  }

  lemma RemovalAnswered(f: string, k: KedaCR, objs: seq<Obj>, t: seq<Call>, c: Call)
    requires Doomed(f, k) && !AnyFails(f, k, t) && c.UpdateMeta?
    ensures Answered(f, k, objs, t + [c], if IgnoreNotFound(c.err).Some? then Some(Requeue) else None, IgnoreNotFound(c.err))
  {
    hide Complete, AsksReserved, AnyFails, HasUpdate;
    OneMoreCall(f, k, t, c);
  }

  lemma RemovalHere(v: RunState, k: KedaCR, objs: seq<Obj>)
    requires AnswerInv(v, k, objs) && v.fn.RemoveFinalizer?
    ensures Doomed(v.env.finalizer, k) && !AnyFails(v.env.finalizer, k, v.api.trace)
  {
    hide AnyFails, HasUpdate;
  }

  lemma RemovalStep(v: RunState, k: KedaCR, objs: seq<Obj>)
    requires AnswerInv(v, k, objs) && v.fn.RemoveFinalizer?
    ensures AnswerInv(StepRemoveFinalizer(v), k, objs)
  {
    hide StoreMeta, FindKeda, AnyFails, HasUpdate, Answered, AnswerInv;
    var u := StepRemoveFinalizer(v);
    RemovalHere(v, k, objs);
    RemovalAnswered(v.env.finalizer, k, objs, v.api.trace, u.api.trace[|v.api.trace|]);
    EndAnswered(u, k, objs);
  }

  // ---- the end ------------------------------------------------------------

  lemma WriteAnswered(f: string, k: KedaCR, objs: seq<Obj>, t: seq<Call>, c: Call, r: Option<Result>, e: Option<Err>)
    requires Answered(f, k, objs, t, r, e) && (k.deleting ==> !HasUpdate(t)) && c.UpdateStatus?
    ensures if c.err.None? then Answered(f, k, objs, t + [c], r, e) else Answered(f, k, objs, t + [c], None, if e.Some? then e else c.err)
  {
    hide Hopeless, AnyFails, HasUpdate, Wait;
    OneMoreCall(f, k, t, c);
    SameWait(f, k, t, c);
  }

  lemma WriteStep(v: RunState, k: KedaCR, objs: seq<Obj>)
    requires AnswerInv(v, k, objs) && v.fn.WriteStatus?
    ensures AnswerInv(StepWriteStatus(v, v.fn.result, v.fn.err), k, objs)
  {
    hide StoreStatus, FindKeda, Answered, HasUpdate, AnswerInv;
    var u := StepWriteStatus(v, v.fn.result, v.fn.err);
    AnsweredHere(v, k, objs);
    WriteAnswered(v.env.finalizer, k, objs, v.api.trace, u.api.trace[|v.api.trace|], v.fn.result, v.fn.err);
    EndAnswered(u, k, objs);
  }

  lemma AnsweredHere(v: RunState, k: KedaCR, objs: seq<Obj>)
    requires AnswerInv(v, k, objs) && v.fn.WriteStatus?
    ensures Answered(v.env.finalizer, k, objs, v.api.trace, v.fn.result, v.fn.err) && (k.deleting ==> !HasUpdate(v.api.trace))
  {
    hide Answered, HasUpdate;
  }

  lemma EndAnswered(u: RunState, k: KedaCR, objs: seq<Obj>)
    requires u.fn.EmitEvents? ==> Answered(u.env.finalizer, k, objs, u.api.trace, u.fn.result, u.fn.err)
    requires u.fn.Nil? ==> Answered(u.env.finalizer, k, objs, u.api.trace, u.result, u.err)
    ensures u.fn.EmitEvents? || u.fn.Nil? ==> AnswerInv(u, k, objs)
  {
    hide Answered;
  }

  lemma {:induction false} EventsAppended(f: string, k: KedaCR, objs: seq<Obj>, t: seq<Call>, more: seq<Call>, r: Option<Result>, e: Option<Err>)
    requires Answered(f, k, objs, t, r, e) && forall i :: 0 <= i < |more| ==> more[i].Emit?
    ensures Answered(f, k, objs, t + more, r, e)
    decreases |more|
  {
    hide AnyFails, HasUpdate, Wait, Hopeless;
    if more != [] {
      var front, last := more[..|more| - 1], more[|more| - 1];
      EventsAppended(f, k, objs, t, front, r, e);
      OneMoreCall(f, k, t + front, last);
      SameWait(f, k, t + front, last);
      assert t + more == t + front + [last];
    } else {
      assert t + more == t;
    }
  }

  lemma EmitStep(v: RunState, k: KedaCR, objs: seq<Obj>)
    requires AnswerInv(v, k, objs) && v.fn.EmitEvents?
    ensures AnswerInv(StepEmitEvents(v, v.fn.result, v.fn.err), k, objs)
  {
    hide EmitAll, Answered;
    EmitAllFacts(v.api, v.k.status.conditions, v.snapshot);
    var t := StepEmitEvents(v, v.fn.result, v.fn.err).api.trace;
    EventsAppended(v.env.finalizer, k, objs, v.api.trace, t[|v.api.trace|..], v.fn.result, v.fn.err);
    assert t == v.api.trace + t[|v.api.trace|..];
  }

  lemma StepKeepsAnswer(v: RunState, k: KedaCR, objs: seq<Obj>)
    requires AnswerInv(v, k, objs) && Sound(v) && !v.fn.Nil?
    ensures AnswerInv(Step(v), k, objs)
  {
    hide StepServedFilter, StepTakeSnapshot, StepInitialize, StepValidation, StepFindComponent, StepUpdateObject;
    hide StepApply, StepVerify, StepHandleAddon, StepGuardAddon, StepApplyAddon, StepDeleteAddon;
    hide StepDeleteResources, StepSafeDeletion, StepRemoveFinalizer, StepWriteStatus, StepEmitEvents, AnswerInv;
    match v.fn {
      case ServedFilter => FilterStep(v, k, objs);
      case Initialize => InitializeStep(v, k, objs);
      case FindComponent(c) => FindStep(v, c, k, objs);
      case UpdateObject(c, e, u) => UpdateStep(v, c, e, u, k, objs);
      case Apply => ApplyStep(v, k, objs);
      case Verify => VerifyStep(v, k, objs);
      case GuardAddonInUse => GuardStep(v, k, objs);
      case ApplyAddon => AddonStep(v, k, objs);
      case DeleteAddon => AddonStep(v, k, objs);
      case SafeDeletion => SafeDeletionStep(v, k, objs);
      case RemoveFinalizer => RemovalStep(v, k, objs);
      case WriteStatus(_, _) => WriteStep(v, k, objs);
      case EmitEvents(_, _) => EmitStep(v, k, objs);
      case _ => CallFreeStep(v, k, objs);
    }
  }

  lemma {:induction false} RunAnswers(v: RunState, k: KedaCR, objs: seq<Obj>, n: nat)
    requires AnswerInv(v, k, objs) && Sound(v)
    ensures Run(v, n).fn.Nil? ==> AnswerInv(Run(v, n), k, objs)
    decreases n
  {
    hide Step, AnswerInv;
    if !Done(v) && n > 0 {
      StepKeepsAnswer(v, k, objs);
      StepSound(v);
      RunAnswers(Step(v), k, objs, n - 1);
    }
  }

  /** Every run that ends by itself, under any faults: it returns an error exactly if one of its calls
      obliges it to or it was hopeless from the start, and otherwise asks to be repeated as its calls
      tell. */
  lemma QueueAnswer(env: Env, k: KedaCR, objs: seq<Obj>, api: Api, n: nat)
    requires api.trace == [] && Run(StartRun(env, k, objs, api), n).fn.Nil?
    ensures var u := Run(StartRun(env, k, objs, api), n); Answered(env.finalizer, k, objs, u.api.trace, u.result, u.err)
  {
    hide Step, Run, Answered;
    RunAnswers(StartRun(env, k, objs, api), k, objs, n);
    EnvKept(StartRun(env, k, objs, api), n);
  }

  /** In particular: a delete of the module or of a lease that fails is never taken for success. */
  lemma FailedDeleteIsReturned(env: Env, k: KedaCR, objs: seq<Obj>, api: Api, n: nat, i: nat)
    requires api.trace == [] && Run(StartRun(env, k, objs, api), n).fn.Nil? && k.deleting
    requires var t := Run(StartRun(env, k, objs, api), n).api.trace;
      && i < |t| && t[i].DeleteObj? && t[i].err.Some? && t[i].err != Some(NotFound) && t[i].err != Some(NoMatch)
    ensures Run(StartRun(env, k, objs, api), n).err.Some?
  {
    hide Run, Hopeless, Wait, NoDeleteBefore;
    QueueAnswer(env, k, objs, api, n);
    assert Fails(env.finalizer, k, Run(StartRun(env, k, objs, api), n).api.trace, i);
  }
}
