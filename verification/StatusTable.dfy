/** The table of statuses: which condition goes with which state, kept by every run under every
    fault and cancellation (api/v1alpha1/keda_types.go:334-420 and its callers in pkg/reconciler). */
module StatusTable {
  import opened KedaTypes
  import opened Cluster
  import opened StateMachine
  import opened Transitions

  // ---- the table ----------------------------------------------------------

  const INSTALL_ERRORS := {DeploymentUpdateErr, NetworkPolicyUpdateErr, VerificationErr, ApplyObjError, ValidationErr, KedaDuplicated}

  /** The status and reason that a condition of each type can carry. */
  predicate Allowed(c: Condition) {
    match c.typ
    case Installed =>
      || (c.status == True && c.reason == Verified)
      || (c.status == Unknown && c.reason in {Initialized, Verification})
      || (c.status == False && c.reason in INSTALL_ERRORS)
    case DeploymentFailure => c.status == True && c.reason == DeploymentReplicaFailure
    case Deleted =>
      || (c.status == Unknown && c.reason == Deletion)
      || (c.status == True && c.reason == DeletionDone)
      || (c.status == False && c.reason in {DeletionErr, HttpAddonInUse})
    case AddonInstalled =>
      || (c.status == True && c.reason == HttpAddonInstalled)
      || (c.status == False && c.reason in ADDON_REASONS + {HttpAddonInUse})
  }

  ghost predicate AllAllowed(s: Status) {
    forall t :: Find(s, t).Some? ==> Allowed(Find(s, t).value)
  }

  /** The condition that has to stand beside a state. */
  predicate Explained(s: Status) {
    match s.state
    case NoState => s.conditions == []
    case Ready => Has(s, Installed, True, {Verified}) && Find(s, DeploymentFailure).None?
    case Processing => Has(s, Installed, Unknown, {Initialized, Verification})
    case Deleting => Has(s, Deleted, Unknown, {Deletion}) || Has(s, Deleted, True, {DeletionDone})
    case Warning => Has(s, AddonInstalled, False, {HttpAddonInUse}) || Has(s, Deleted, False, {DeletionErr, HttpAddonInUse})
    case Error =>
      || Has(s, Installed, False, INSTALL_ERRORS)
      || Has(s, Deleted, False, {DeletionErr})
      || Has(s, DeploymentFailure, True, {DeploymentReplicaFailure})
  }

  /** At most one condition per type, each of them allowed, the state explained. */
  ghost predicate InTable(s: Status) {
    UniqueTypes(s.conditions) && AllAllowed(s) && Explained(s)
  }

  ghost predicate AllInTable(kedas: seq<KedaCR>) {
    forall k :: k in kedas ==> InTable(k.status)
  }

  // ---- one step -----------------------------------------------------------

  /** The stored CRs and the instance in memory; the add-on states start from Ready. */
  ghost predicate TableInv(v: RunState) {
    && AllInTable(v.api.world.kedas) && InTable(v.k.status)
    && (v.fn.HandleAddon? || v.fn.GuardAddonInUse? || v.fn.ApplyAddon? || v.fn.DeleteAddon? ==> v.k.status.state == Ready)
  }

  lemma PutStaysInTable(s: Status, u: Status, state: State, t: ConditionType, st: ConditionStatus, reasons: set<Reason>)
    requires InTable(s) && Put(s, u, state, t, st, reasons)
    requires forall r, m :: r in reasons ==> Allowed(Condition(t, st, r, m))
    ensures UniqueTypes(u.conditions) && AllAllowed(u) && u.state == state && Has(u, t, st, reasons)
    ensures t == AddonInstalled && state == Ready && s.state == Ready ==> InTable(u)
  {
    hide UniqueTypes, FindCondition;
    forall x | Find(u, x).Some? ensures Allowed(Find(u, x).value) {
      if x != t {
        assert Find(u, x) == Find(s, x);
      } else {
        assert Allowed(Condition(t, st, Find(u, t).value.reason, Find(u, t).value.message));
        assert Find(u, t).value.typ == t;
      }
    }
  }

  predicate IsAddonState(f: StateFn) {
    f.HandleAddon? || f.GuardAddonInUse? || f.ApplyAddon? || f.DeleteAddon?
  }

  /** Whatever a state does to the status stays in the table. */
  lemma StatusStepKeepsTable(f: StateFn, s: Status, u: Status)
    requires InTable(s) && StatusStep(f, s, u)
    requires IsAddonState(f) ==> s.state == Ready
    ensures InTable(u)
  {
    hide UniqueTypes, Put, PutReady;
    if u != s {
      match f {
        case ServedFilter => ServedKeepsTable(s, u);
        case Initialize => PutStaysInTable(s, u, Processing, Installed, Unknown, {Initialized});
        case BootstrapperValidation => PutStaysInTable(s, u, Error, Installed, False, {ValidationErr});
        case FindComponent(_) => PutStaysInTable(s, u, Error, Installed, False, {DeploymentUpdateErr, NetworkPolicyUpdateErr});
        case UpdateObject(_, _, _) => PutStaysInTable(s, u, Error, Installed, False, {DeploymentUpdateErr});
        case Apply => PutStaysInTable(s, u, Error, Installed, False, {ApplyObjError});
        case Verify => VerifyKeepsTable(s, u);
        case GuardAddonInUse => PutStaysInTable(s, u, Warning, AddonInstalled, False, {HttpAddonInUse});
        case ApplyAddon =>
          if Put(s, u, s.state, AddonInstalled, True, {HttpAddonInstalled}) {
            PutStaysInTable(s, u, s.state, AddonInstalled, True, {HttpAddonInstalled});
          } else {
            PutStaysInTable(s, u, s.state, AddonInstalled, False, ADDON_REASONS);
          }
        case DeleteAddon => PutStaysInTable(s, u, s.state, AddonInstalled, False, ADDON_REASONS);
        case DeleteResources => PutStaysInTable(s, u, Deleting, Deleted, Unknown, {Deletion});
        case SafeDeletion => DeletionKeepsTable(s, u);
      }
    }
  }

  lemma ServedKeepsTable(s: Status, u: Status)
    requires InTable(s) && StatusStep(ServedFilter, s, u)
    ensures InTable(u)
  {
    hide UniqueTypes;
    var w := s.(served := ServedFalse);
    assert AllAllowed(w) && UniqueTypes(w.conditions) by {
      assert forall t :: Find(w, t) == Find(s, t);
    }
    if Put(w, u, Error, Installed, False, {KedaDuplicated}) {
      assert InTable(w) by { assert forall t :: Find(w, t) == Find(s, t); }
      PutStaysInTable(w, u, Error, Installed, False, {KedaDuplicated});
    } else {
      assert forall t :: Find(u, t) == Find(s, t);
    }
  }

  lemma VerifyKeepsTable(s: Status, u: Status)
    requires InTable(s) && StatusStep(Verify, s, u)
    ensures InTable(u)
  {
    hide UniqueTypes, Put;
    if Put(s, u, Error, Installed, False, {VerificationErr}) {
      PutStaysInTable(s, u, Error, Installed, False, {VerificationErr});
    } else if Put(s, u, Error, DeploymentFailure, True, {DeploymentReplicaFailure}) {
      PutStaysInTable(s, u, Error, DeploymentFailure, True, {DeploymentReplicaFailure});
    } else if Put(s, u, Processing, Installed, Unknown, {Verification}) {
      PutStaysInTable(s, u, Processing, Installed, Unknown, {Verification});
    } else if u != s {
      forall t | Find(u, t).Some? ensures Allowed(Find(u, t).value) {
        assert Find(u, Installed).value.typ == Installed;
        assert t == Deleted || t == AddonInstalled ==> Find(u, t) == Find(s, t);
      }
    }
  }

  lemma DeletionKeepsTable(s: Status, u: Status)
    requires InTable(s) && StatusStep(SafeDeletion, s, u)
    ensures InTable(u)
  {
    hide UniqueTypes, Put;
    if Put(s, u, Warning, Deleted, False, {HttpAddonInUse, DeletionErr}) {
      PutStaysInTable(s, u, Warning, Deleted, False, {HttpAddonInUse, DeletionErr});
    } else if Put(s, u, Error, Deleted, False, {DeletionErr}) {
      PutStaysInTable(s, u, Error, Deleted, False, {DeletionErr});
    } else if u != s {
      PutStaysInTable(s, u, Deleting, Deleted, True, {DeletionDone});
    }
  }

  /** An add-on state is only entered with a Ready status. */
  lemma AddonStatesAreReady(v: RunState)
    requires Sound(v) && !v.fn.Nil? && (IsAddonState(v.fn) ==> v.k.status.state == Ready)
    ensures IsAddonState(Step(v).fn) ==> Step(v).k.status.state == Ready
  {
    hide StepServedFilter, StepTakeSnapshot, StepInitialize, StepValidation, StepFindComponent, StepUpdateObject;
    hide StepApply, StepApplyAddon, StepDeleteAddon, VerifyAll, HsoInUse;
    hide StepDeleteResources, StepSafeDeletion, StepRemoveFinalizer, StepWriteStatus, StepEmitEvents;
    hide StatusStep, TraceGrows, SetCondition, WithoutCondition;
    StepFacts(v);
  }

  // ---- the states that write a CR -----------------------------------------

  lemma StoredMetaInTable(w: World, k: KedaCR)
    requires AllInTable(w.kedas)
    ensures AllInTable(StoreMeta(w, k).kedas)
    ensures FindKeda(w.kedas, k.id).Some? ==> InTable(FindKeda(w.kedas, k.id).value.status)
  {
    hide InTable;
  }

  lemma StoredStatusInTable(w: World, k: KedaCR)
    requires AllInTable(w.kedas) && InTable(k.status)
    ensures AllInTable(StoreStatus(w, k).kedas)
  {
    hide InTable;
  }

  lemma MetaStepKeepsTable(v: RunState, u: RunState)
    requires TableInv(v) && WritesMeta(v.fn) && MetaStep(v, u) && MetaStatus(v, u)
    ensures AllInTable(u.api.world.kedas) && InTable(u.k.status)
  {
    hide InTable, AllInTable, StoreMeta, StatusStep, Put;
    StoredMetaInTable(v.api.world, Sent(v, u));
    match v.fn {
      case Initialize =>
        if u.k.status != v.k.status {
          assert StatusStep(Initialize, Stored(v).value.status, u.k.status) by { PutIsStep(Stored(v).value.status, u.k.status); }
          StatusStepKeepsTable(Initialize, Stored(v).value.status, u.k.status);
        }
      case RemoveFinalizer =>
      case _ => StatusStepKeepsTable(v.fn, v.k.status, u.k.status);
    }
  }

  lemma PutIsStep(s: Status, u: Status)
    requires Put(s, u, Processing, Installed, Unknown, {Initialized})
    ensures StatusStep(Initialize, s, u)
  {
    hide Put;
  }

  lemma StepKeepsTable(v: RunState)
    requires TableInv(v) && Sound(v) && !v.fn.Nil?
    ensures TableInv(Step(v))
  {
    hide Step, InTable, AllInTable, StatusStep, MetaStep, MetaStatus, TraceGrows, StoreStatus;
    var u := Step(v);
    StepFacts(v);
    AddonStatesAreReady(v);
    if WritesMeta(v.fn) {
      MetaStepKeepsTable(v, u);
    } else if v.fn.WriteStatus? {
      StoredStatusInTable(v.api.world, v.k);
      assert InTable(u.k.status);
    } else {
      StatusStepKeepsTable(v.fn, v.k.status, u.k.status);
    }
  }

  /** A whole run, whatever fails and wherever it is cancelled: the stored statuses and the one in
      memory stay in the table. */
  lemma {:induction false} RunKeepsTable(v: RunState, n: nat)
    requires TableInv(v) && Sound(v)
    ensures TableInv(Run(v, n))
    decreases n
  {
    hide Step, TableInv;
    if !Done(v) {
      if n == 0 {
        CancelKeepsTable(v);
      } else {
        StepKeepsTable(v);
        StepSound(v);
        RunKeepsTable(Step(v), n - 1);
      }
    }
  }

  lemma CancelKeepsTable(v: RunState)
    requires TableInv(v)
    ensures TableInv(v.(err := Some(Canceled)))
  {
  }
}
