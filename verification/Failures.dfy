/** What a run stopped by a failed call reports: the state, the reason and the error of that call
    (pkg/reconciler/update_objects.go:200-216, apply.go:60-73, verify.go:25-35, addon.go:277-296,
    delete_resources.go:78-143). */
module Failures {
  import opened KedaTypes
  import opened Objects
  import opened AddonManifest
  import opened Cluster
  import opened StateMachine
  import opened Transitions
  import opened RunLoop
  import opened ModuleHealth
  import opened Answers
  import R = ReadySoundness
  import A = AddonRecords
  import Chain = UpdateChain

  // ---- what is told -------------------------------------------------------

  ghost predicate HasPatch(t: seq<Call>) { exists i :: 0 <= i < |t| && t[i].PatchObj? }

  ghost predicate HasDelete(t: seq<Call>) { exists i :: 0 <= i < |t| && t[i].DeleteObj? }

  /** On a CR marked for deletion, after the calls t: the check's own error, or the deletes'. */
  ghost predicate TellsOfDeletion(f: string, k: KedaCR, t: seq<Call>, s: Status) {
    if HasDelete(t) then
      AnyFails(f, k, t) ==> s.state == Error && exists e :: Find(s, Deleted) == Some(Condition(Deleted, False, DeletionErr, OfErr(e)))
    else t != [] ==>
      var c := t[|t| - 1];
      && (c.ConvertObj? && c.err.Some? ==> s.state == Warning && Find(s, Deleted) == Some(Condition(Deleted, False, DeletionErr, OfErr(c.err.value))))
      && (c.ListItems? && c.err.Some? && c.err != Some(NotFound) ==>
            s.state == Warning && Find(s, Deleted) == Some(Condition(Deleted, False, DeletionErr, OfErr(c.err.value))))
      && (c.ListItems? && (c.err.None? || c.err == Some(NotFound)) && c.count > 0 ==>
            s.state == Warning && Find(s, Deleted) == Some(Condition(Deleted, False, DeletionErr, OfErr(OrphanItems(c.count)))))
  }

  /** On a live CR: a conversion that failed before or after the patches, the apply loop as a whole, or
      the count of HTTPScaledObjects. */
  ghost predicate TellsOfLife(f: string, k: KedaCR, t: seq<Call>, s: Status) {
    t != [] ==>
      var c := t[|t| - 1];
      if c.ListItems? then
        && (c.err.Some? && c.err != Some(NotFound) && c.err != Some(NoMatch) ==>
              s.state == Warning && Find(s, AddonInstalled) == Some(Condition(AddonInstalled, False, HttpAddonInUse, HsoUnverified(ListHsoErr(c.err.value)))))
        && (c.err.None? && c.count > 0 ==>
              s.state == Warning && Find(s, AddonInstalled) == Some(Condition(AddonInstalled, False, HttpAddonInUse, HsoStillExist(c.count))))
      else if AddonTurn(t) then true
      else if c.ConvertObj? && c.err.Some? then
        s.state == Error
        && Find(s, Installed) == Some(Condition(Installed, False, if HasPatch(t) then VerificationErr else DeploymentUpdateErr, OfErr(c.err.value)))
      else AnyRefused(t) ==> s.state == Error && Find(s, Installed) == Some(Condition(Installed, False, ApplyObjError, OfErr(InstallationErr)))
  }

  ghost predicate Tells(f: string, k: KedaCR, t: seq<Call>, s: Status) {
    && (Doomed(f, k) ==> TellsOfDeletion(f, k, t, s))
    && (Live(f, k) ==> TellsOfLife(f, k, t, s))
  }

  ghost predicate AllTell(f: string, k: KedaCR, t: seq<Call>) {
    forall i :: 0 <= i < |t| && t[i].UpdateStatus? ==> Tells(f, k, t[..i], t[i].status)
  }

  /** Beside where a run can be: what its last calls were. */
  ghost predicate TellInv(v: RunState, k: KedaCR, objs: seq<Obj>) {
    var f, t := v.env.finalizer, v.api.trace;
    && AnswerInv(v, k, objs) && |v.objs| == |objs|
    && match v.fn
       case EmitEvents(_, _) => AllTell(f, k, t)
       case Nil => AllTell(f, k, t)
       case WriteStatus(_, _) => NoStatusWrite(t) && Tells(f, k, t, v.k.status)
       case FindComponent(_) => NoStatusWrite(t) && !HasPatch(t)
       case UpdateObject(_, _, _) => NoStatusWrite(t) && !HasPatch(t)
       case Verify => NoStatusWrite(t) && HasPatch(t)
       case _ => NoStatusWrite(t)
  }

  // ---- the stops ----------------------------------------------------------

  lemma FailedTells(s: Status, t: ConditionType, r: Reason, e: Err)
    ensures Failed(s, t, r, e).state == Error && Find(Failed(s, t, r, e), t) == Some(Condition(t, False, r, OfErr(e)))
    ensures Warned(s, t, r, e).state == Warning && Find(Warned(s, t, r, e), t) == Some(Condition(t, False, r, OfErr(e)))
  {
  }

  /** Nothing has failed, or the CR is neither live nor doomed. */
  lemma NothingToTell(f: string, k: KedaCR, t: seq<Call>, s: Status)
    requires t == [] || (Clean(t) && !k.deleting) || (!Live(f, k) && !Doomed(f, k))
    ensures Tells(f, k, t, s)
  {
  }

  lemma EarlyTells(v: RunState, k: KedaCR, objs: seq<Obj>)
    requires TellInv(v, k, objs)
    ensures v.fn.ServedFilter? && StepServedFilter(v).fn.WriteStatus? ==> !Live(v.env.finalizer, k) && !Doomed(v.env.finalizer, k)
    ensures v.fn.Initialize? && StepInitialize(v).fn.WriteStatus? ==> !Live(v.env.finalizer, k) && !Doomed(v.env.finalizer, k)
    ensures v.fn.BootstrapperValidation? ==> StepValidation(v).api == v.api && v.api.trace == []
    ensures v.fn.DeleteResources? ==> StepDeleteResources(v).api == v.api && v.api.trace == []
    ensures v.fn.TakeSnapshot? ==> StepTakeSnapshot(v).api == v.api && v.api.trace == []
  {
    hide FindServed, DoUpdateMeta, With, Failed, FindCondition, Answered, Complete, Chain.HasRestricted;
  }

  lemma ConversionTells(f: string, k: KedaCR, t: seq<Call>, u: seq<Call>, e: Err, s: Status, r: Reason)
    requires Live(f, k) && Clean(t) && t <= u && |u| > |t| && u[|u| - 1] == ConvertObj(Some(e)) && !AddonTurn(u)
    requires r == if HasPatch(u) then VerificationErr else DeploymentUpdateErr
    ensures Tells(f, k, u, Failed(s, Installed, r, e))
  {
    hide Failed, HasPatch, AddonTurn;
    FailedTells(s, Installed, r, e);
  }

  lemma OneConversion(t: seq<Call>, e: Option<Err>)
    requires Clean(t)
    ensures !AddonTurn(t + [ConvertObj(e)]) && (HasPatch(t + [ConvertObj(e)]) <==> HasPatch(t))
  {
    var u := t + [ConvertObj(e)];
    assert forall i :: 0 <= i < |t| ==> u[i] == t[i];
  }

  lemma UpdateTells(v: RunState, c: Chain.Component, e: nat, u: nat, k: KedaCR, objs: seq<Obj>)
    requires TellInv(v, k, objs) && v.fn == UpdateObject(c, e, u)
    ensures var w := StepUpdateObject(v, c, e, u);
      && (w.fn.WriteStatus? ==> Tells(v.env.finalizer, k, w.api.trace, w.k.status))
      && !HasPatch(w.api.trace)
  {
    hide Failed, Complete, AsksReserved, Chain.FirstIndex, Chain.EditedObj, Chain.SanitizedSpec, Chain.HasData, Answered, Clean, SamePlaces, Tells, HasPatch, AddonTurn;
    var r := DoConvert(v.api);
    OneConversion(v.api.trace, r.err);
    if r.err.Some? {
      ConversionTells(v.env.finalizer, k, v.api.trace, r.api.trace, r.err.value, v.k.status, DeploymentUpdateErr);
    }
    NotAStop(c, e, u);
  }

  lemma NotAStop(c: Chain.Component, e: nat, u: nat)
    ensures !NextEdit(c, e, u).WriteStatus? && !NextComponent(c).WriteStatus?
  {
  }

  lemma {:induction false} ApplyPatches(a: Api, list: seq<Obj>, applied: seq<Applied>, failed: bool)
    requires list != []
    ensures HasPatch(ApplyModule(a, list, applied, failed).api.trace)
  {
    hide Stamped, StatusOf;
    var o := Stamped(list[0]);
    var conv := if o.kind == Deployment then DoConvert(a) else Rep(a, None);
    var p := DoPatch(conv.api, o);
    var later := applied + [Applied(o, StatusOf(p.api.world, KeyOf(o)))];
    ApplyModuleFacts(p.api, list[1..], later, failed || conv.err.Some? || p.err.Some?);
    var t := ApplyModule(a, list, applied, failed).api.trace;
    assert t[|conv.api.trace|] == p.api.trace[|conv.api.trace|];
  }

  /** A patch is the last call of the apply loop. */
  lemma PairedEnd(t: seq<Call>, u: seq<Call>)
    requires t <= u && RefusedSince(u, |t|) && Paired(u, |t|)
    ensures u[|u| - 1].PatchObj?
  {
  }

  lemma ApplyTells(v: RunState, k: KedaCR, objs: seq<Obj>)
    requires TellInv(v, k, objs) && v.fn.Apply?
    ensures var w := StepApply(v);
      && (w.fn.WriteStatus? ==> Tells(v.env.finalizer, k, w.api.trace, w.k.status))
      && HasPatch(w.api.trace) && |w.objs| == |objs|
  {
    hide ApplyModule, Failed, AsksReserved, AllStamped, HasPatch, Paired, RefusedSince, Clean, AnyRefused, AddonTurn, AnyFails, HasUpdate, InUse;
    var r := ApplyModule(v.api, v.objs, v.applied, false);
    ApplyCalls(v.api, v.objs, v.applied, false);
    PairedIsSilent(v.env.finalizer, k, v.api.trace, r.api.trace);
    ApplyPatches(v.api, v.objs, v.applied, false);
    R.ApplyModuleMeaning(v.api, v.objs, v.applied, false);
    FailedTells(v.k.status, Installed, ApplyObjError, InstallationErr);
    StampedAll(v.objs);
    if r.failed { PairedEnd(v.api.trace, r.api.trace); }
  }

  lemma StampedAll(objs: seq<Obj>)
    ensures |AllStamped(objs)| == |objs|
  {
  }

  lemma CheckedTurn(t: seq<Call>, u: seq<Call>, ok: bool)
    requires Clean(t) && Checked(t, u, ok) && HasPatch(t)
    ensures !AddonTurn(u) && HasPatch(u)
  {
    assert forall i :: 0 <= i < |t| ==> u[i] == t[i];
  }

  lemma {:induction false} VerifyErr(a: Api, list: seq<Applied>, t: Tally)
    ensures var r := VerifyAll(a, list, t); r.err.Some? ==> |r.api.trace| > 0 && r.api.trace[|r.api.trace| - 1] == ConvertObj(r.err)
    decreases list
  {
    hide IsDeployment;
    if list != [] {
      if IsDeployment(list[0].obj) {
        if DoConvert(a).err.None? { VerifyErr(DoConvert(a).api, list[1..], Counted(t, list[0])); }
      } else {
        VerifyErr(a, list[1..], t);
      }
    }
  }

  lemma VerifyTells(v: RunState, k: KedaCR, objs: seq<Obj>)
    requires TellInv(v, k, objs) && v.fn.Verify?
    ensures var w := StepVerify(v); w.fn.WriteStatus? ==> Tells(v.env.finalizer, k, w.api.trace, w.k.status)
  {
    hide VerifyAll, ReadyStatus, Failed, With, Complete, AsksReserved, Clean, AddonTurn, Checked, HasPatch, Tells;
    var r := VerifyAll(v.api, v.applied, Tally(0, 0, ""));
    VerifyCalls(v.api, v.applied, Tally(0, 0, ""));
    VerifyErr(v.api, v.applied, Tally(0, 0, ""));
    CheckedTurn(v.api.trace, r.api.trace, r.err.None?);
    CheckedMeaning(v.env.finalizer, k, v.api.trace, r.api.trace, r.err.None?);
    if r.err.Some? {
      CheckedLonger(v.api.trace, r.api.trace);
      ConversionTells(v.env.finalizer, k, v.api.trace, r.api.trace, r.err.value, v.k.status, VerificationErr);
    } else {
      NothingToTell(v.env.finalizer, k, r.api.trace, StepVerify(v).k.status);
    }
  }

  lemma CheckedLonger(t: seq<Call>, u: seq<Call>)
    requires Checked(t, u, false)
    ensures t <= u && |u| > |t|
  {
  }

  lemma GuardTells(v: RunState, k: KedaCR, objs: seq<Obj>)
    requires TellInv(v, k, objs) && v.fn.GuardAddonInUse?
    ensures var w := StepGuardAddon(v); w.fn.WriteStatus? ==> Tells(v.env.finalizer, k, w.api.trace, w.k.status)
  {
    hide UniqueTypes, Complete, AsksReserved, Clean, AddonTurn, AnyRefused, HasPatch;
    var r := DoListItems(v.api, HSO_GVK);
    var u := r.api.trace;
    assert u[|u| - 1] == ListItems(HSO_GVK, r.count, r.err);
  }

  lemma AddonTells(v: RunState, u: RunState, k: KedaCR, objs: seq<Obj>)
    requires TellInv(v, k, objs) && (v.fn.ApplyAddon? || v.fn.DeleteAddon?) && TraceGrows(v.fn, v.api, u.api) && AddonTurn(u.api.trace)
    ensures Tells(v.env.finalizer, k, u.api.trace, u.k.status)
  {
    hide Complete, AsksReserved, AnyRefused, HasPatch, AddonTurn, AnyFails;
    var t := u.api.trace;
    if t != [] && t[|t| - 1].ListItems? {
      assert t == v.api.trace;
    }
  }

  // ---- the deletion -------------------------------------------------------

  /** An error of the check is that of its last call, or the number of resources it counted. */
  function CheckError(c: Call): Option<Err> {
    match c
    case ConvertObj(err) => err
    case ListItems(_, count, err) => if err.Some? && err != Some(NotFound) then err else Some(OrphanItems(count))
    case _ => None
  }

  lemma {:induction false} CheckErr(a: Api, objs: seq<Obj>)
    ensures var r := CheckCrdOrphans(a, objs); r.err.Some? ==> |r.api.trace| > 0 && r.err == CheckError(r.api.trace[|r.api.trace| - 1])
    decreases objs
  {
    hide IsCrd, CrdGvk;
    if objs != [] {
      if !IsCrd(objs[0]) {
        CheckErr(a, objs[1..]);
      } else {
        var c := DoConvert(a);
        if c.err.None? {
          var l := DoListItems(c.api, CrdGvk(objs[0]));
          if IgnoreNotFound(l.err).None? && l.count == 0 {
            CheckErr(l.api, objs[1..]);
          }
        }
      }
    }
  }

  lemma CheckTells(f: string, k: KedaCR, t: seq<Call>, e: Err, s: Status)
    requires ChecksOnly(t, 0) && t != [] && Stops(t[|t| - 1]) && CheckError(t[|t| - 1]) == Some(e) && k.deleting
    ensures Tells(f, k, t, Warned(s, Deleted, DeletionErr, e))
  {
    hide Warned, AnyFails;
    FailedTells(s, Deleted, DeletionErr, e);
  }

  /** A list of calls with a delete among them, or that obliges to nothing. */
  lemma DeletesTell(f: string, k: KedaCR, t: seq<Call>, s: Status)
    requires k.deleting && HasDelete(t)
    requires AnyFails(f, k, t) ==> s.state == Error && exists e :: Find(s, Deleted) == Some(Condition(Deleted, False, DeletionErr, OfErr(e)))
    ensures Tells(f, k, t, s)
  {
    hide AnyFails;
  }

  lemma PeerIsDelete(t: seq<Call>, u: seq<Call>, w: seq<Call>)
    requires t <= u <= w && |u| == |t| + 1 && u[|t|].DeleteObj?
    ensures HasDelete(u) && HasDelete(w)
  {
    assert w[|t|] == u[|t|];
  }

  lemma ModuleTells(v: RunState, k: KedaCR)
    requires v.addonObjs == [] && Doomed(v.env.finalizer, k)
    requires ChecksOnly(v.api.trace, 0) && !AnyFails(v.env.finalizer, k, v.api.trace)
    ensures var w := DeleteModule(v); w.fn.WriteStatus? ==> Tells(v.env.finalizer, k, w.api.trace, w.k.status)
  {
    hide DeleteAll, DeleteAddonObjs, DeletePeerAuth, Failed, With, AnyFails, HasUpdate, FindCondition, HasDelete, ChecksOnly, Tells;
    var own, r := DeletionFails(v.env.finalizer, v, k);
    var own2, r2 := DeleteCalls(v);
    PeerIsDelete(v.api.trace, own2.api.trace, r2.api.trace);
    var w := DeleteModule(v);
    var e := DeleteAddonObjs(v.api, v.addonObjs).err;
    if e.Some? {
      FailedTells(v.k.status, Deleted, DeletionErr, e.value);
      DeletesTell(v.env.finalizer, k, own.api.trace, w.k.status);
    } else {
      if r.err.Some? { FailedTells(v.k.status, Deleted, DeletionErr, r.err.value); }
      DeletesTell(v.env.finalizer, k, r.api.trace, w.k.status);
    }
  }

  lemma SafeDeletionTells(v: RunState, k: KedaCR, objs: seq<Obj>)
    requires TellInv(v, k, objs) && v.fn.SafeDeletion?
    ensures var w := StepSafeDeletion(v); w.fn.WriteStatus? ==> Tells(v.env.finalizer, k, w.api.trace, w.k.status)
  {
    hide CheckCrdOrphans, DeleteModule, Warned, AnyFails, HasUpdate, Stops, CheckError, Tells;
    var crds := CheckCrdOrphans(v.api, v.objs);
    CrdCalls(v.api, v.objs);
    CheckErr(v.api, v.objs);
    ChecksFail(v.env.finalizer, k, crds.api.trace);
    if crds.err.None? {
      ModuleTells(v.(api := crds.api), k);
    } else {
      CheckTells(v.env.finalizer, k, crds.api.trace, crds.err.value, v.k.status);
    }
  }

  // ---- every run ----------------------------------------------------------

  lemma WrittenLast(f: string, k: KedaCR, t: seq<Call>, c: Call)
    requires NoStatusWrite(t) && c.UpdateStatus? && Tells(f, k, t, c.status)
    ensures AllTell(f, k, t + [c])
  {
    hide Tells;
    assert (t + [c])[..|t|] == t;
  }

  lemma MoreTell(f: string, k: KedaCR, t: seq<Call>, u: seq<Call>)
    requires AllTell(f, k, t) && t <= u && forall i :: |t| <= i < |u| ==> !u[i].UpdateStatus?
    ensures AllTell(f, k, u)
  {
    hide Tells;
    forall i | 0 <= i < |u| && u[i].UpdateStatus? ensures Tells(f, k, u[..i], u[i].status) {
      assert i < |t| && u[i] == t[i] && u[..i] == t[..i];
    }
  }

  lemma NotWritten(v: RunState, u: RunState)
    requires TraceGrows(v.fn, v.api, u.api) && NoStatusWrite(v.api.trace) && !v.fn.WriteStatus? && !v.fn.EmitEvents?
    ensures NoStatusWrite(u.api.trace)
  {
    forall i | 0 <= i < |u.api.trace| ensures !u.api.trace[i].UpdateStatus? {
      if i < |v.api.trace| { assert u.api.trace[i] == v.api.trace[i]; }
    }
  }

  /** At each stop the status tells. */
  lemma StopTells(v: RunState, k: KedaCR, objs: seq<Obj>)
    requires TellInv(v, k, objs) && Sound(v) && !v.fn.Nil? && Step(v).fn.WriteStatus?
    ensures Tells(v.env.finalizer, k, Step(v).api.trace, Step(v).k.status)
  {
    hide StepServedFilter, StepTakeSnapshot, StepInitialize, StepValidation, StepFindComponent, StepUpdateObject;
    hide StepApply, StepVerify, StepHandleAddon, StepGuardAddon, StepApplyAddon, StepDeleteAddon;
    hide StepDeleteResources, StepSafeDeletion, StepRemoveFinalizer, StepWriteStatus, StepEmitEvents, TellInv, Tells, AnswerInv;
    var f, t, s := v.env.finalizer, Step(v).api.trace, Step(v).k.status;
    match v.fn {
      case ServedFilter => EarlyTells(v, k, objs); NothingToTell(f, k, t, s);
      case Initialize => EarlyTells(v, k, objs); NothingToTell(f, k, t, s);
      case BootstrapperValidation => EarlyTells(v, k, objs); NothingToTell(f, k, t, s);
      case DeleteResources => EarlyTells(v, k, objs); NothingToTell(f, k, t, s);
      case FindComponent(c) => FindTells(v, c, k, objs);
      case UpdateObject(c, e, u) => UpdateTells(v, c, e, u, k, objs);
      case Apply => ApplyTells(v, k, objs);
      case Verify => VerifyTells(v, k, objs);
      case GuardAddonInUse => GuardTells(v, k, objs);
      case ApplyAddon => TurnComes(v); AddonGrows(v); AddonTells(v, Step(v), k, objs);
      case DeleteAddon => TurnKept(v, k, objs); AddonGrows(v); AddonTells(v, Step(v), k, objs);
      case SafeDeletion => SafeDeletionTells(v, k, objs);
      case _ => NoStop(v);
    }
  }

  lemma NoStop(v: RunState)
    requires v.fn.TakeSnapshot? || v.fn.HandleAddon? || v.fn.RemoveFinalizer? || v.fn.WriteStatus? || v.fn.EmitEvents?
    ensures !Step(v).fn.WriteStatus?
  {
    hide DoUpdateMeta, DoUpdateStatus, EmitAll;
  }

  lemma AddonGrows(v: RunState)
    requires (v.fn.ApplyAddon? || v.fn.DeleteAddon?) && Sound(v)
    ensures TraceGrows(v.fn, v.api, Step(v).api)
  {
    hide Step, StatusStep, MetaStep, MetaStatus, TraceGrows;
    StepFacts(v);
  }

  lemma TurnKept(v: RunState, k: KedaCR, objs: seq<Obj>)
    requires TellInv(v, k, objs) && v.fn.DeleteAddon? && Sound(v)
    ensures AddonTurn(Step(v).api.trace)
  {
    hide Step, AddonTurn, AnyFails, InUse, Complete, TraceGrows;
    AddonGrows(v);
    TurnStays(v.fn, v.api, Step(v).api);
  }

  lemma FindTells(v: RunState, c: Chain.Component, k: KedaCR, objs: seq<Obj>)
    requires TellInv(v, k, objs) && v.fn == FindComponent(c)
    ensures var w := StepFindComponent(v, c); w.api == v.api && Tells(v.env.finalizer, k, v.api.trace, w.k.status)
  {
    hide Clean, Tells, Failed, Chain.FirstIndex, AsksReserved;
    NothingToTell(v.env.finalizer, k, v.api.trace, StepFindComponent(v, c).k.status);
  }

  lemma StepKeepsTelling(v: RunState, k: KedaCR, objs: seq<Obj>)
    requires TellInv(v, k, objs) && Sound(v) && !v.fn.Nil?
    ensures TellInv(Step(v), k, objs)
  {
    hide Step, AnswerInv, Tells, AllTell, TraceGrows, StatusStep, MetaStep, MetaStatus, NoStatusWrite, HasPatch;
    var u := Step(v);
    StepKeepsAnswer(v, k, objs);
    StepFacts(v);
    if v.fn.WriteStatus? {
      WriteTold(v, u, k);
    } else if v.fn.EmitEvents? {
      EventsTold(v, u, k);
    } else {
      NotWritten(v, u);
      if u.fn.WriteStatus? { StopTells(v, k, objs); }
      if u.fn.Nil? { QuietTells(v.env.finalizer, k, u.api.trace); }
      PatchStep(v, k, objs);
    }
  }

  lemma QuietTells(f: string, k: KedaCR, t: seq<Call>)
    requires NoStatusWrite(t)
    ensures AllTell(f, k, t)
  {
    hide Tells;
  }

  lemma WriteTold(v: RunState, u: RunState, k: KedaCR)
    requires TraceGrows(v.fn, v.api, u.api)
    requires v.fn.WriteStatus? && NoStatusWrite(v.api.trace) && Tells(v.env.finalizer, k, v.api.trace, v.k.status) && StatusWrite(v, u)
    ensures AllTell(v.env.finalizer, k, u.api.trace)
  {
    hide Tells, NoStatusWrite, AllTell, StoreStatus;
    WrittenLast(v.env.finalizer, k, v.api.trace, u.api.trace[|v.api.trace|]);
    assert u.api.trace == v.api.trace + [u.api.trace[|v.api.trace|]];
  }

  lemma EventsTold(v: RunState, u: RunState, k: KedaCR)
    requires v.fn.EmitEvents? && AllTell(v.env.finalizer, k, v.api.trace) && TraceGrows(v.fn, v.api, u.api)
    ensures AllTell(v.env.finalizer, k, u.api.trace)
  {
    hide AllTell;
    MoreTell(v.env.finalizer, k, v.api.trace, u.api.trace);
  }

  /** Whether there have been patches. */
  lemma PatchStep(v: RunState, k: KedaCR, objs: seq<Obj>)
    requires TellInv(v, k, objs) && Sound(v) && !v.fn.Nil?
    ensures Step(v).fn.Verify? ==> HasPatch(Step(v).api.trace)
    ensures Step(v).fn.FindComponent? || Step(v).fn.UpdateObject? ==> !HasPatch(Step(v).api.trace)
  {
    hide StepServedFilter, StepTakeSnapshot, StepInitialize, StepFindComponent, StepUpdateObject;
    hide StepApply, StepVerify, StepHandleAddon, StepGuardAddon, StepApplyAddon, StepDeleteAddon;
    hide StepDeleteResources, StepSafeDeletion, StepRemoveFinalizer, StepWriteStatus, StepEmitEvents, TellInv, Tells, AnswerInv, TraceGrows, StatusStep, MetaStep, MetaStatus;
    StepFacts(v);
    match v.fn {
      case BootstrapperValidation => EarlyTells(v, k, objs);
      case FindComponent(c) => FindTells(v, c, k, objs); StillNone(v, k, objs);
      case UpdateObject(c, e, u) => UpdateTells(v, c, e, u, k, objs);
      case Apply => ApplyTells(v, k, objs);
      case _ =>
    }
  }

  lemma StillNone(v: RunState, k: KedaCR, objs: seq<Obj>)
    requires TellInv(v, k, objs) && v.fn.FindComponent?
    ensures !HasPatch(v.api.trace)
  {
    hide AnswerInv, HasPatch;
  }

  lemma {:induction false} RunTells(v: RunState, k: KedaCR, objs: seq<Obj>, n: nat)
    requires TellInv(v, k, objs) && Sound(v)
    ensures AllTell(v.env.finalizer, k, Run(v, n).api.trace)
    decreases n
  {
    hide Step, TellInv, AllTell;
    if Done(v) || n == 0 {
      ToldSoFar(v, k, objs);
    } else {
      StepKeepsTelling(v, k, objs);
      StepSound(v);
      SameFinalizer(v);
      RunTells(Step(v), k, objs, n - 1);
    }
  }

  lemma SameFinalizer(v: RunState)
    requires Sound(v) && !v.fn.Nil?
    ensures Step(v).env == v.env
  {
    hide Step, StatusStep, TraceGrows, MetaStep, MetaStatus;
    StepFacts(v);
  }

  lemma ToldSoFar(v: RunState, k: KedaCR, objs: seq<Obj>)
    requires TellInv(v, k, objs)
    ensures AllTell(v.env.finalizer, k, v.api.trace)
  {
    hide Tells, AnswerInv;
  }

  /** Every run, under any faults, cut off anywhere: each status it writes tells of the call that stopped it. */
  lemma FailuresAreTold(env: Env, k: KedaCR, objs: seq<Obj>, api: Api, n: nat)
    requires api.trace == []
    ensures AllTell(env.finalizer, k, Run(StartRun(env, k, objs, api), n).api.trace)
  {
    hide Step, AllTell;
    RunTells(StartRun(env, k, objs, api), k, objs, n);
  }

  // ---- the add-on's errors ------------------------------------------------

  /** What stopped the installation: the namespace, or the last call, unless that was a patch. */
  ghost predicate InstallTells(s: Status, ns: string, t: seq<Call>, n: nat, r: Status) {
    && n < |t|
    && (t[n].CreateNamespace? && t[n].err.Some? && t[n].err != Some(AlreadyExists) ==> r == A.InstallFailed(s, NamespaceErr(ns, t[n].err.value)))
    && var c := t[|t| - 1];
    && (c.FetchManifest? && c.err.Some? ==> r == A.InstallFailed(s, c.err.value))
    && (c.DeleteObj? && c.err.Some? && c.err != Some(NotFound) && c.err != Some(NoMatch) ==> r == A.InstallFailed(s, c.err.value))
  }

  lemma InstallEnds(v: RunState, version: string, ns: string, istio: bool)
    ensures var u := Install(v, version, ns, istio); var t := u.api.trace;
      && v.api.trace <= t && |t| > |v.api.trace|
      && var c := t[|t| - 1];
      && (c.FetchManifest? && c.err.Some? ==> u.k.status == A.InstallFailed(v.k.status, c.err.value))
      && (c.DeleteObj? && c.err.Some? && c.err != Some(NotFound) && c.err != Some(NoMatch) ==> u.k.status == A.InstallFailed(v.k.status, c.err.value))
  {
    hide AddonObjects, ApplyAll, Recorded, WithAddon, Keys, StoreMeta, FindKeda;
    var fetched := DoFetch(v.api, v.env.src, version, ns);
    if fetched.err.None? {
      var list := AddonObjects(v.env.src, version, ns, istio);
      var applied := ApplyAll(fetched.api, list, None);
      var t := applied.api.trace;
      assert fetched.api.trace <= t;
      assert |t| > |fetched.api.trace| ==> t[|t| - 1].PatchObj?;
      assert |t| == |fetched.api.trace| ==> t == fetched.api.trace;
    }
  }

  /** The status after the installing state carries the error that stopped it. */
  lemma AddonErrorIsTold(v: RunState)
    requires v.fn.ApplyAddon?
    ensures InstallTells(v.k.status, ReadAddonCfg(v.k.annotations).EffectiveNamespace(), StepApplyAddon(v).api.trace, |v.api.trace|, StepApplyAddon(v).k.status)
  {
    hide CleanupOldAddon, Install, StaleAddon, ReadAddonCfg, WithAddon;
    var cfg := ReadAddonCfg(v.k.annotations);
    var version, ns := v.env.defaultVersion, cfg.EffectiveNamespace();
    var created := DoCreateNamespace(v.api, ns);
    if created.err.None? || created.err == Some(AlreadyExists) {
      var stale := StaleAddon(v.k.annotations, version, ns);
      var cleaned := if stale.None? then created.api else CleanupOldAddon(created.api, v.env.src, stale.value.0, stale.value.1);
      if stale.Some? {
        CleanupExtends(created.api, v.env.src, stale.value.0, stale.value.1);
        A.ExtendsPrefix(ApplyAddon, created.api, cleaned);
      }
      var w := v.(api := cleaned);
      InstallEnds(w, version, ns, cfg.istioInjection);
      var t := Install(w, version, ns, cfg.istioInjection).api.trace;
      assert t[|v.api.trace|] == cleaned.trace[|v.api.trace|] == created.api.trace[|v.api.trace|];
    }
  }

  // ---- errors joined ------------------------------------------------------

  /** The error is among those joined. */
  predicate Carries(joined: Option<Err>, e: Err)
    decreases joined
  {
    joined.Some? && joined.value.Joined? && (joined.value.last == e || Carries(joined.value.earlier, e))
  }

  lemma JoinCarries(acc: Option<Err>, err: Option<Err>, e: Err)
    ensures Carries(acc, e) || err == Some(e) ==> Carries(Join(acc, err), e)
    ensures Carries(Join(acc, err), e) ==> Carries(acc, e) || err == Some(e)
  {
  }

  /** The error of a loop of deletes carries exactly the errors of its calls, missing objects aside, and
      what it began with. */
  lemma {:induction false} DeleteErrors(a: Api, list: seq<Obj>, acc: Option<Err>, e: Err)
    ensures var r := DeleteAll(a, list, acc); var n := |a.trace|;
      Carries(r.err, e) <==> Carries(acc, e) || exists i :: n <= i < |r.api.trace| && IgnoreNotFound(r.api.trace[i].err) == Some(e)
    decreases list
  {
    hide Carries, Join, Keys;
    if list != [] {
      var p := DoDelete(a, KeyOf(list[0]));
      var now := Join(acc, IgnoreNotFound(p.err));
      JoinCarries(acc, IgnoreNotFound(p.err), e);
      DeleteErrors(p.api, list[1..], now, e);
      var t := DeleteAll(p.api, list[1..], now).api.trace;
      assert t[|a.trace|] == p.api.trace[|a.trace|];
    }
  }

  /** Likewise for a loop of patches. */
  lemma {:induction false} PatchErrors(a: Api, list: seq<Obj>, acc: Option<Err>, e: Err)
    ensures var r := ApplyAll(a, list, acc); var n := |a.trace|;
      Carries(r.err, e) <==> Carries(acc, e) || exists i :: n <= i < |r.api.trace| && r.api.trace[i].err == Some(e)
    decreases list
  {
    hide Carries, Join, Keys;
    if list != [] {
      var p := DoPatch(a, list[0]);
      var now := Join(acc, p.err);
      JoinCarries(acc, p.err, e);
      PatchErrors(p.api, list[1..], now, e);
      var t := ApplyAll(p.api, list[1..], now).api.trace;
      assert t[|a.trace|] == p.api.trace[|a.trace|];
    }
  }
}
