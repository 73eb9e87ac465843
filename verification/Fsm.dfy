/** The reconciler's fsm as an object: its state functions update the in-memory instance, the
    shared module objects and the cluster in place, each exactly as its step on values says. */
module Fsm {
  import opened KedaTypes
  import opened Objects
  import opened AddonManifest
  import opened Cluster
  import opened StateMachine
  import Chain = UpdateChain

  class Fsm {
    const env: Env
    const client: Client
    const inst: Keda
    /** The module's objects; the array is shared with every other run of the process. */
    const objs: array<Obj>
    var fn: StateFn
    var snapshot: Status
    var applied: seq<Applied>
    var addonObjs: seq<Obj>

    /** The run state, given the state function to run next and what the last one returned. */
    ghost function View(next: StateFn, result: Option<Result>, err: Option<Err>): RunState
      reads this, client, inst, objs
    {
      RunState(env, next, result, err, inst.Value(), snapshot, applied, objs[..], addonObjs, client.View())
    }

    ghost function Now(): RunState
      reads this, client, inst, objs
    {
      View(fn, None, None)
    }

    /** An update closure points at an object that exists, and only a run's last state function
        returns a result or an error. */
    predicate Continues(next: StateFn, result: Option<Result>, err: Option<Err>)
      reads this
    {
      && (next.UpdateObject? ==> next.edit < |Chain.Edits(next.owner)| && next.u < objs.Length)
      && (!next.Nil? ==> result.None? && err.None?)
    }

    /** NewFsm and the systemState that Run starts from. */
    constructor (env: Env, client: Client, inst: Keda, objs: array<Obj>)
      ensures this.env == env && this.client == client && this.inst == inst && this.objs == objs
      ensures Now() == StartRun(env, inst.Value(), objs[..], client.View())
    {
      this.env, this.client, this.inst, this.objs := env, client, inst, objs;
      fn, snapshot, applied, addonObjs := ServedFilter, EMPTY_STATUS, [], [];
    }

    // ---- served_filter.go, take_snapshot.go, initialize.go ----------------

    method SFnServedFilter() returns (next: StateFn, result: Option<Result>, err: Option<Err>)
      modifies client, inst
      ensures View(next, result, err) == StepServedFilter(old(Now()))
      ensures Continues(next, result, err)
    {
      result, err := None, None;
      if inst.status.served == ServedEmpty || inst.status.served == ServedFalse {
        var served, listErr := client.FindServedKeda();
        if listErr.Some? {
          return WriteStatus(None, listErr), None, None;
        }
        inst.status := inst.status.(served := ServedTrue);
        if served.Some? {
          inst.status := inst.status.(served := ServedFalse);
          inst.UpdateStateFromErr(Installed, KedaDuplicated, Duplicated(served.value.id.ns, served.value.id.name));
        }
        return WriteStatus(Some(Requeue), None), None, None;
      }
      next := TakeSnapshot;
    }

    method SFnTakeSnapshot() returns (next: StateFn, result: Option<Result>, err: Option<Err>)
      modifies this`snapshot
      ensures View(next, result, err) == StepTakeSnapshot(old(Now()))
      ensures Continues(next, result, err)
    {
      snapshot := inst.status;
      next, result, err := Initialize, None, None;
    }

    method SFnInitialize() returns (next: StateFn, result: Option<Result>, err: Option<Err>)
      modifies client, inst
      ensures View(next, result, err) == StepInitialize(old(Now()))
      ensures Continues(next, result, err)
    {
      result, err := None, None;
      if !inst.deleting && env.finalizer !in inst.finalizers {
        inst.finalizers := inst.finalizers + {env.finalizer};
        var updateErr := client.Update(inst);
        if updateErr.Some? {
          return WriteStatus(None, updateErr), None, None;
        }
        inst.UpdateStateProcessing(Installed, Initialized, InitializedText);
        return WriteStatus(Some(Requeue), None), None, None;
      }
      if inst.deleting && env.finalizer !in inst.finalizers {
        return Nil, None, None;
      }
      if inst.deleting {
        return DeleteResources, None, None;
      }
      next := BootstrapperValidation;
    }

    // ---- validate.go, update_objects.go -----------------------------------

    method SFnBootstrapperValidation() returns (next: StateFn, result: Option<Result>, err: Option<Err>)
      modifies inst
      ensures View(next, result, err) == StepValidation(old(Now()))
      ensures Continues(next, result, err)
    {
      result, err := None, None;
      var restricted := Chain.CheckRestricted(inst.spec);
      if restricted {
        var e := RestrictedAnnotations(inst.id.name);
        inst.UpdateStateFromErr(Installed, ValidationErr, e);
        return WriteStatus(None, Some(e)), None, None;
      }
      next := FindComponent(Chain.Operator);
    }

    /** firstUnstructed */
    method FirstUnstructured(c: Chain.Component) returns (u: nat)
      ensures u == Chain.FirstIndex(objs[..], c)
    {
      u := 0;
      while u < objs.Length
        invariant u <= objs.Length
        invariant Chain.FirstIndex(objs[..], c) == u + Chain.FirstIndex(objs[u..], c)
      {
        assert objs[u..][1..] == objs[u+1..];
        if Chain.Matches(c, objs[u]) {
          return;
        }
        u := u + 1;
      }
    }

    method SFnFindComponent(c: Chain.Component) returns (next: StateFn, result: Option<Result>, err: Option<Err>)
      modifies inst
      ensures View(next, result, err) == StepFindComponent(old(Now()), c)
      ensures Continues(next, result, err)
    {
      result, err := None, None;
      var u := FirstUnstructured(c);
      if u == objs.Length {
        var reason := if c == Chain.WebhookPolicy then NetworkPolicyUpdateErr else DeploymentUpdateErr;
        inst.UpdateStateFromErr(Installed, reason, NoSuchObject);
        return WriteStatus(None, Some(NoSuchObject)), None, None;
      }
      next := UpdateObject(c, 0, u);
    }

    /** The closure that buildSfnUpdateObject returns for one edit of one object. */
    method SFnUpdateObject(c: Chain.Component, e: nat, u: nat) returns (next: StateFn, result: Option<Result>, err: Option<Err>)
      requires e < |Chain.Edits(c)| && u < objs.Length
      modifies client, inst, objs
      ensures View(next, result, err) == StepUpdateObject(old(Now()), c, e, u)
      ensures Continues(next, result, err)
    {
      result, err := None, None;
      var edit := Chain.Edits(c)[e];
      next := NextEdit(c, e, u);
      if Chain.HasData(c, edit, inst.spec) {
        var convErr := client.Convert();
        if convErr.Some? {
          inst.UpdateStateFromErr(Installed, DeploymentUpdateErr, convErr.value);
          return WriteStatus(None, convErr), None, None;
        }
        var spec := inst.spec;
        Chain.UpdateObj(objs, u, c, edit, spec, PeerAddress(env));
        inst.spec := Chain.SanitizedSpec(c, edit, spec);
      }
    }

    // ---- apply.go, verify.go ----------------------------------------------

    method ApplyObjs() returns (isError: bool)
      modifies this`applied, client, objs
      ensures RepApplied(client.View(), applied, isError)
           == ApplyModule(old(client.View()), old(objs[..]), old(applied), false)
      ensures objs[..] == AllStamped(old(objs[..]))
    {
      hide DoConvert, DoPatch, Stamped, StatusOf;
      isError := false;
      for i := 0 to objs.Length
        invariant forall j :: 0 <= j < i ==> objs[j] == Stamped(old(objs[j]))
        invariant forall j :: i <= j < objs.Length ==> objs[j] == old(objs[j])
        invariant ApplyModule(client.View(), old(objs[..])[i..], applied, isError)
               == ApplyModule(old(client.View()), old(objs[..]), old(applied), false)
      {
        assert old(objs[..])[i..][1..] == old(objs[..])[i+1..];
        assert old(objs[..])[i..][0] == objs[i];
        objs[i] := Stamped(objs[i]);
        var o := objs[i];
        if o.kind == Deployment {
          var convErr := client.Convert();
          if convErr.Some? {
            isError := true;
          }
        }
        var patchErr := client.Patch(o);
        if patchErr.Some? {
          isError := true;
        }
        applied := applied + [Applied(o, StatusOf(client.world, KeyOf(o)))];
      }
    }

    method SFnApply() returns (next: StateFn, result: Option<Result>, err: Option<Err>)
      modifies this`applied, client, inst, objs
      ensures View(next, result, err) == StepApply(old(Now()))
      ensures Continues(next, result, err)
    {
      hide ApplyModule, AllStamped;
      result, err := None, None;
      var isError := ApplyObjs();
      if !isError {
        return Verify, None, None;
      }
      inst.UpdateStateFromErr(Installed, ApplyObjError, InstallationErr);
      next := WriteStatus(None, None);
    }

    method SFnVerify() returns (next: StateFn, result: Option<Result>, err: Option<Err>)
      modifies client, inst
      ensures View(next, result, err) == StepVerify(old(Now()))
      ensures Continues(next, result, err)
    {
      result, err := None, None;
      var t := Tally(0, 0, "");
      for i := 0 to |applied|
        invariant inst.Value() == old(inst.Value())
        invariant VerifyAll(client.View(), applied[i..], t) == VerifyAll(old(client.View()), applied, Tally(0, 0, ""))
      {
        assert applied[i..][1..] == applied[i+1..];
        var d := applied[i];
        if IsDeployment(d.obj) {
          var convErr := client.Convert();
          if convErr.Some? {
            inst.UpdateStateFromErr(Installed, VerificationErr, convErr.value);
            return WriteStatus(None, convErr), None, None;
          }
          if d.obj.name == KedaOperator {
            t := t.(version := if VersionLabel in d.obj.labels then d.obj.labels[VersionLabel] else "");
          }
          if d.status.ready {
            t := t.(ready := t.ready + 1);
          }
          if d.status.replicaFailure {
            t := t.(failures := t.failures + 1);
          }
        }
      }
      if t.failures > 0 {
        inst.UpdateStateReplicaFailure(DeploymentFailure, DeploymentReplicaFailure, ReplicaFailureText);
        return WriteStatus(Some(RequeueAfter(10)), None), None, None;
      }
      if t.ready != 3 {
        inst.UpdateStateProcessing(Installed, Verification, VerificationInProgress);
        return WriteStatus(Some(RequeueAfter(10)), None), None, None;
      }
      inst.RemoveCondition(DeploymentFailure);
      inst.status := inst.status.(kedaVersion := t.version);
      inst.UpdateStateReady(Installed, Verified, DeploymentsReady);
      next := HandleAddon;
    }

    // ---- addon.go ---------------------------------------------------------

    method SFnHandleAddon() returns (next: StateFn, result: Option<Result>, err: Option<Err>)
      ensures View(next, result, err) == StepHandleAddon(old(Now()))
      ensures Continues(next, result, err)
    {
      next := if ReadAddonCfg(inst.annotations).enabled then ApplyAddon else GuardAddonInUse;
      result, err := None, None;
    }

    method HttpScaledObjectsInUse() returns (count: nat, err: Option<Err>)
      modifies client
      ensures RepItems(client.View(), count, err) == HsoInUse(old(client.View()))
    {
      count, err := client.ListOf(HSO_GVK);
      if err.Some? {
        if err == Some(NoMatch) || err == Some(NotFound) {
          return 0, None;
        }
        return 0, Some(ListHsoErr(err.value));
      }
    }

    method SFnGuardAddonInUse() returns (next: StateFn, result: Option<Result>, err: Option<Err>)
      modifies client, inst
      ensures View(next, result, err) == StepGuardAddon(old(Now()))
      ensures Continues(next, result, err)
    {
      result, err := None, None;
      var count, listErr := HttpScaledObjectsInUse();
      if listErr.Some? {
        inst.SetAddonCondition(False, HttpAddonInUse, HsoUnverified(listErr.value));
        inst.status := inst.status.(state := Warning);
        return WriteStatus(Some(RequeueAfter(30)), None), None, None;
      }
      if count == 0 {
        return DeleteAddon, None, None;
      }
      inst.SetAddonCondition(False, HttpAddonInUse, HsoStillExist(count));
      inst.status := inst.status.(state := Warning);
      next := WriteStatus(Some(RequeueAfter(30)), None);
    }

    method FetchAddonObjs(version: string, ns: string, istio: bool) returns (list: seq<Obj>, err: Option<Err>)
      modifies client
      ensures Rep(client.View(), err) == DoFetch(old(client.View()), env.src, version, ns)
      ensures err.None? ==> version in env.src.manifests && list == AddonObjects(env.src, version, ns, istio)
    {
      err := client.Fetch(env.src, version, ns);
      list := [];
      if err.Some? {
        return;
      }
      var manifest := env.src.manifests[version];
      var fetched := new Obj[|manifest|](i requires 0 <= i < |manifest| => manifest[i]);
      assert fetched[..] == manifest;
      OverrideNamespace(fetched, ns, istio);
      list := fetched[..] + NetworkPolicies(env.src, ns);
      if istio {
        list := list + [PeerAuth(ns)];
      }
    }

    method RunCleanupOldAddon(version: string, ns: string)
      modifies client
      ensures client.View() == CleanupOldAddon(old(client.View()), env.src, version, ns)
    {
      var list, err := FetchAddonObjs(version, ns, false);
      if err.Some? {
        return;
      }
      var _ := client.DeleteObjects(list);
      var _ := client.DeletePeerAuthentication(ns);
    }

    method FailAddon(e: Err) returns (next: StateFn, result: Option<Result>, err: Option<Err>)
      modifies inst
      ensures View(next, result, err) == AddonFailed(old(Now()), e)
      ensures Continues(next, result, err)
    {
      inst.SetAddonCondition(False, HttpAddonInstallErr, OfErr(e));
      next, result, err := WriteStatus(None, None), None, None;
    }

    /** Record the annotations on the CR and keep the computed status. */
    method PersistRecord(version: string, ns: string, s: ConditionStatus, r: Reason, m: Message)
      returns (next: StateFn, result: Option<Result>, err: Option<Err>)
      modifies client, inst
      ensures View(next, result, err)
           == Persist(old(Now()), Recorded(old(inst.annotations), version, ns), WithAddon(old(inst.status), s, r, m))
      ensures Continues(next, result, err)
    {
      hide DoUpdateMeta;
      inst.SetAnnotation(InstalledVersion, version);
      inst.SetAnnotation(InstalledNamespace, ns);
      inst.SetAddonCondition(s, r, m);
      var desired := inst.status;
      var _ := client.Update(inst);
      inst.status := desired;
      next, result, err := WriteStatus(None, None), None, None;
    }

    method InstallAddon(version: string, ns: string, istio: bool)
      returns (next: StateFn, result: Option<Result>, err: Option<Err>)
      modifies this`addonObjs, client, inst
      ensures View(next, result, err) == Install(old(Now()), version, ns, istio)
      ensures Continues(next, result, err)
    {
      hide DoFetch, ApplyAll, DeletePeerAuth, Persist, AddonFailed, AddonObjects, Recorded, WithAddon;
      var list, fetchErr := FetchAddonObjs(version, ns, istio);
      if fetchErr.Some? {
        next, result, err := FailAddon(fetchErr.value);
        return;
      }
      var applyErr := client.ApplyObjects(list);
      if applyErr.Some? {
        next, result, err := FailAddon(applyErr.value);
        return;
      }
      if !istio {
        var peerErr := client.DeletePeerAuthentication(ns);
        if peerErr.Some? {
          next, result, err := FailAddon(peerErr.value);
          return;
        }
      }
      addonObjs := list;
      next, result, err := PersistRecord(version, ns, True, HttpAddonInstalled, AddonInstalledText(version, ns));
    }

    method SFnApplyAddon() returns (next: StateFn, result: Option<Result>, err: Option<Err>)
      modifies this`addonObjs, client, inst
      ensures View(next, result, err) == StepApplyAddon(old(Now()))
      ensures Continues(next, result, err)
    {
      hide DoCreateNamespace, CleanupOldAddon, Install, AddonFailed, Lookup;
      var cfg := ReadAddonCfg(inst.annotations);
      var version, ns := env.defaultVersion, cfg.EffectiveNamespace();
      var prevVersion, prevNs := Lookup(inst.annotations, InstalledVersion), Lookup(inst.annotations, InstalledNamespace);
      var createErr := client.Create(ns);
      if createErr.Some? && createErr.value != AlreadyExists {
        next, result, err := FailAddon(NamespaceErr(ns, createErr.value));
        return;
      }
      if prevVersion != "" {
        if prevNs != "" && prevNs != ns {
          RunCleanupOldAddon(prevVersion, prevNs);
        } else if prevVersion != version {
          RunCleanupOldAddon(prevVersion, ns);
        }
      }
      next, result, err := InstallAddon(version, ns, cfg.istioInjection);
    }

    method SFnDeleteAddon() returns (next: StateFn, result: Option<Result>, err: Option<Err>)
      modifies this`addonObjs, client, inst
      ensures View(next, result, err) == StepDeleteAddon(old(Now()))
      ensures Continues(next, result, err)
    {
      hide DoFetch, DeleteAll, DeletePeerAuth, Persist, AddonFailed, AddonObjects, Recorded, WithAddon, Lookup;
      var list := addonObjs;
      var lastVersion, lastNs := Lookup(inst.annotations, InstalledVersion), DEFAULT_ADDON_NAMESPACE;
      if Lookup(inst.annotations, InstalledNamespace) != "" {
        lastNs := Lookup(inst.annotations, InstalledNamespace);
      }
      if |list| == 0 {
        if lastVersion == "" {
          inst.SetAddonCondition(False, HttpAddonDisabled, AddonDisabledText);
          return WriteStatus(None, None), None, None;
        }
        var fetchErr;
        list, fetchErr := FetchAddonObjs(lastVersion, lastNs, false);
        if fetchErr.Some? {
          inst.SetAddonCondition(False, HttpAddonDeleted, OfErr(fetchErr.value));
          return WriteStatus(None, None), None, None;
        }
      }
      var delErr := client.DeleteObjects(list);
      if delErr.Some? {
        next, result, err := FailAddon(delErr.value);
        return;
      }
      var peerErr := client.DeletePeerAuthentication(lastNs);
      if peerErr.Some? {
        next, result, err := FailAddon(peerErr.value);
        return;
      }
      addonObjs := [];
      next, result, err := PersistRecord("", "", False, HttpAddonDeleted, AddonRemovedText);
    }

    // ---- delete_resources.go, remove_finalizer.go -------------------------

    method SFnDeleteResources() returns (next: StateFn, result: Option<Result>, err: Option<Err>)
      modifies inst
      ensures View(next, result, err) == StepDeleteResources(old(Now()))
      ensures Continues(next, result, err)
    {
      result, err := None, None;
      if Find(inst.status, Deleted).None? {
        inst.UpdateStateDeletion(Deleted, Deletion, DeletionInProgress);
        return WriteStatus(Some(Requeue), None), None, None;
      }
      next := SafeDeletion;
    }

    method RunCheckAddonOrphans() returns (err: Option<Err>)
      modifies client
      ensures Rep(client.View(), err) == CheckAddonOrphans(old(client.View()), addonObjs)
    {
      if |addonObjs| == 0 {
        return None;
      }
      var count, listErr := HttpScaledObjectsInUse();
      if listErr.Some? {
        return listErr;
      }
      err := if count > 0 then Some(AddonItems(count)) else None;
    }

    method RunCheckCrdOrphans() returns (err: Option<Err>)
      modifies client
      ensures Rep(client.View(), err) == CheckCrdOrphans(old(client.View()), objs[..])
    {
      for i := 0 to objs.Length
        invariant CheckCrdOrphans(client.View(), objs[..][i..]) == CheckCrdOrphans(old(client.View()), objs[..])
      {
        assert objs[..][i..][1..] == objs[..][i+1..];
        if IsCrd(objs[i]) {
          var convErr := client.Convert();
          if convErr.Some? {
            return convErr;
          }
          var count, listErr := client.ListOf(CrdGvk(objs[i]));
          if IgnoreNotFound(listErr).Some? {
            return listErr;
          }
          if count > 0 {
            return Some(OrphanItems(count));
          }
        }
      }
      err := None;
    }

    method RunDeleteAddonObjs() returns (delErr: Option<Err>)
      modifies client
      ensures Rep(client.View(), delErr) == DeleteAddonObjs(old(client.View()), addonObjs)
    {
      var namespaces := [DEFAULT_ADDON_NAMESPACE];
      for i := 0 to |addonObjs|
        invariant AddonNamespaces(addonObjs[i..], namespaces) == AddonNamespaces(addonObjs, [DEFAULT_ADDON_NAMESPACE])
      {
        assert addonObjs[i..][1..] == addonObjs[i+1..];
        if addonObjs[i].ns != "" && addonObjs[i].ns !in namespaces {
          namespaces := namespaces + [addonObjs[i].ns];
        }
      }
      delErr := client.DeleteObjects(addonObjs);
      label deleted:
      ghost var firstErr := delErr;
      for i := 0 to |namespaces|
        invariant DeletePeerAuths(client.View(), namespaces[i..], delErr)
               == DeletePeerAuths(old@deleted(client.View()), namespaces, firstErr)
      {
        assert namespaces[i..][1..] == namespaces[i+1..];
        var err := client.DeletePeerAuthentication(namespaces[i]);
        delErr := Join(delErr, err);
      }
    }

    method SFnSafeDeletion() returns (next: StateFn, result: Option<Result>, err: Option<Err>)
      modifies client, inst
      ensures View(next, result, err) == StepSafeDeletion(old(Now()))
      ensures Continues(next, result, err)
    {
      result, err := None, None;
      var orphanErr := RunCheckAddonOrphans();
      if orphanErr.Some? {
        inst.UpdateStateFromWarning(Deleted, HttpAddonInUse, orphanErr.value);
        return WriteStatus(None, orphanErr), None, None;
      }
      orphanErr := RunCheckCrdOrphans();
      if orphanErr.Some? {
        inst.UpdateStateFromWarning(Deleted, DeletionErr, orphanErr.value);
        return WriteStatus(None, orphanErr), None, None;
      }
      next, result, err := RunDeleteModule();
    }

    method RunDeleteModule() returns (next: StateFn, result: Option<Result>, err: Option<Err>)
      modifies client, inst
      ensures View(next, result, err) == DeleteModule(old(Now()))
      ensures Continues(next, result, err)
    {
      result, err := None, None;
      var delErr := RunDeleteAddonObjs();
      if delErr.Some? {
        inst.UpdateStateFromErr(Deleted, DeletionErr, delErr.value);
        return WriteStatus(None, delErr), None, None;
      }
      delErr := client.DeleteObjects(objs[..] + LEASES);
      if delErr.Some? {
        inst.UpdateStateFromErr(Deleted, DeletionErr, delErr.value);
        return WriteStatus(None, delErr), None, None;
      }
      var c := Find(inst.status, Deleted);
      if c.None? || c.value.status == True {
        return RemoveFinalizer, None, None;
      }
      inst.UpdateStateDeletionTrue(Deleted, DeletionDone, ModuleDeleted);
      next := WriteStatus(Some(Requeue), None);
    }

    method SFnRemoveFinalizer() returns (next: StateFn, result: Option<Result>, err: Option<Err>)
      modifies client, inst
      ensures View(next, result, err) == StepRemoveFinalizer(old(Now()))
      ensures Continues(next, result, err)
    {
      inst.finalizers := inst.finalizers - {env.finalizer};
      var updateErr := client.Update(inst);
      if IgnoreNotFound(updateErr).Some? {
        return Nil, Some(Requeue), updateErr;
      }
      next, result, err := Nil, None, None;
    }

    // ---- update_status.go, emmit_event.go ---------------------------------

    method SFnUpdateStatus(r: Option<Result>, e: Option<Err>) returns (next: StateFn, result: Option<Result>, err: Option<Err>)
      modifies client, inst
      ensures View(next, result, err) == StepWriteStatus(old(Now()), r, e)
      ensures Continues(next, result, err)
    {
      var updateErr := client.StatusUpdate(inst);
      if updateErr.Some? {
        return Nil, None, if e.None? then updateErr else e;
      }
      next, result, err := EmitEvents(r, e), None, None;
    }

    method SFnEmitEvents(r: Option<Result>, e: Option<Err>) returns (next: StateFn, result: Option<Result>, err: Option<Err>)
      modifies client
      ensures View(next, result, err) == StepEmitEvents(old(Now()), r, e)
      ensures Continues(next, result, err)
    {
      var conds := inst.status.conditions;
      for i := 0 to |conds|
        invariant EmitAll(client.View(), conds[i..], snapshot) == EmitAll(old(client.View()), conds, snapshot)
      {
        assert conds[i..][1..] == conds[i+1..];
        if !Unchanged(conds[i], snapshot) {
          client.Event(EventOf(conds[i]));
        }
      }
      next, result, err := Nil, r, e;
    }

    // ---- fsm.go: Run ------------------------------------------------------

    method CallState() returns (next: StateFn, result: Option<Result>, err: Option<Err>)
      requires Continues(fn, None, None) && !fn.Nil?
      modifies this`snapshot, this`applied, this`addonObjs, client, inst, objs
      ensures View(next, result, err) == Step(old(Now()))
      ensures Continues(next, result, err)
    {
      hide StepServedFilter, StepTakeSnapshot, StepInitialize, StepValidation, StepFindComponent, StepUpdateObject;
      hide StepApply, StepVerify, StepHandleAddon, StepGuardAddon, StepApplyAddon, StepDeleteAddon;
      hide StepDeleteResources, StepSafeDeletion, StepRemoveFinalizer, StepWriteStatus, StepEmitEvents;
      match fn {
        case ServedFilter => next, result, err := SFnServedFilter();
        case TakeSnapshot => next, result, err := SFnTakeSnapshot();
        case Initialize => next, result, err := SFnInitialize();
        case BootstrapperValidation => next, result, err := SFnBootstrapperValidation();
        case FindComponent(c) => next, result, err := SFnFindComponent(c);
        case UpdateObject(c, e, u) => next, result, err := SFnUpdateObject(c, e, u);
        case Apply => next, result, err := SFnApply();
        case Verify => next, result, err := SFnVerify();
        case HandleAddon => next, result, err := SFnHandleAddon();
        case GuardAddonInUse => next, result, err := SFnGuardAddonInUse();
        case ApplyAddon => next, result, err := SFnApplyAddon();
        case DeleteAddon => next, result, err := SFnDeleteAddon();
        case DeleteResources => next, result, err := SFnDeleteResources();
        case SafeDeletion => next, result, err := SFnSafeDeletion();
        case RemoveFinalizer => next, result, err := SFnRemoveFinalizer();
        case WriteStatus(r, e) => next, result, err := SFnUpdateStatus(r, e);
        case EmitEvents(r, e) => next, result, err := SFnEmitEvents(r, e);
      }
    }

    /** The loop; the context is cancelled when n state functions have run. */
    method Run(n: nat) returns (result: Option<Result>, err: Option<Err>)
      requires Continues(fn, None, None)
      modifies this, client, inst, objs
      ensures View(fn, result, err) == StateMachine.Run(old(Now()), n)
    {
      hide Step;
      result, err := None, None;
      var left := n;
      while !fn.Nil? && err.None?
        invariant fn.Nil? || err == Some(Canceled) || Continues(fn, result, err)
        invariant StateMachine.Run(View(fn, result, err), left) == StateMachine.Run(old(Now()), n)
        decreases left, !fn.Nil? && err.None?
      {
        if left == 0 {
          err := Some(Canceled);
        } else {
          fn, result, err := CallState();
          left := left - 1;
        }
      }
    }
  }
}
