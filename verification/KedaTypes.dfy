/** The Keda custom resource: its spec, its status with the condition list, and the
    in-memory instance that one reconciliation updates (api/v1alpha1/keda_types.go). */
module KedaTypes {

  datatype Option<+T> = None | Some(value: T)

  // ---- errors -------------------------------------------------------------

  /** The first group is what an API call can answer; the rest are built by the reconciler. */
  datatype Err =
    | NotFound | NoMatch | AlreadyExists | ServerError(code: int)
    | Joined(earlier: Option<Err>, last: Err)
    | Canceled
    | NamespaceErr(ns: string, cause: Err)
    | ListHsoErr(cause: Err)
    | OrphanItems(count: nat)
    | AddonItems(count: nat)
    | Duplicated(ns: string, name: string)
    | RestrictedAnnotations(name: string)
    | NoSuchObject
    | InstallationErr
    | UnknownVersion(version: string)

  /** client.IgnoreNotFound */
  function IgnoreNotFound(e: Option<Err>): Option<Err> {
    if e == Some(NotFound) then None else e
  }

  // ---- conditions ---------------------------------------------------------

  datatype ConditionType = Installed | Deleted | DeploymentFailure | AddonInstalled

  datatype ConditionStatus = True | False | Unknown

  datatype Reason =
    | DeploymentUpdateErr | NetworkPolicyUpdateErr | VerificationErr | Verified
    | DeploymentReplicaFailure | ApplyObjError | Verification | ValidationErr
    | Initialized | KedaDuplicated | Deletion | DeletionErr | DeletionDone
    | HttpAddonInstalled | HttpAddonDeleted | HttpAddonInstallErr | HttpAddonDisabled | HttpAddonInUse

  /** One constructor per fixed text or format string, with its arguments. */
  datatype Message =
    | DeletionInProgress | ModuleDeleted | InitializedText | VerificationInProgress
    | DeploymentsReady | ReplicaFailureText | AddonDisabledText | AddonRemovedText
    | AddonInstalledText(version: string, ns: string)
    | HsoStillExist(count: nat) | HsoUnverified(cause: Err)
    | OfErr(e: Err)

  datatype Condition = Condition(typ: ConditionType, status: ConditionStatus, reason: Reason, message: Message)

  ghost predicate UniqueTypes(conds: seq<Condition>) {
    forall i, j :: 0 <= i < j < |conds| ==> conds[i].typ != conds[j].typ
  }

  /** meta.FindStatusCondition */
  function FindCondition(conds: seq<Condition>, t: ConditionType): (r: Option<Condition>)
    ensures r.Some? ==> r.value in conds && r.value.typ == t
    ensures r.None? <==> forall c :: c in conds ==> c.typ != t
  {
    if conds == [] then None
    else if conds[0].typ == t then Some(conds[0])
    else FindCondition(conds[1..], t)
  }

  /** meta.SetStatusCondition: update the entry of that type where it stands, else append. */
  function SetCondition(conds: seq<Condition>, c: Condition): (r: seq<Condition>)
    ensures forall t :: FindCondition(r, t) == if t == c.typ then Some(c) else FindCondition(conds, t)
    ensures UniqueTypes(conds) ==> UniqueTypes(r)
  {
    if conds == [] then [c]
    else if conds[0].typ == c.typ then
      var r := [c] + conds[1..];
      assert r[1..] == conds[1..];
      r
    else
      var rest := SetCondition(conds[1..], c);
      var r := [conds[0]] + rest;
      assert r[1..] == rest;
      assert UniqueTypes(conds) ==> UniqueTypes(r) by {
        if UniqueTypes(conds) {
          assert FindCondition(conds[1..], conds[0].typ).None?;
          assert FindCondition(rest, conds[0].typ).None?;
          assert forall j :: 0 < j < |r| ==> r[j] in rest;
        }
      }
      r
  }

  lemma {:induction false} SetConditionAt(conds: seq<Condition>, c: Condition, i: nat)
    requires i <= |conds| && forall j :: 0 <= j < i ==> conds[j].typ != c.typ
    requires i < |conds| ==> conds[i].typ == c.typ
    ensures SetCondition(conds, c) == if i < |conds| then conds[i := c] else conds + [c]
  {
    hide FindCondition, UniqueTypes;
    if i == 0 {
      assert conds != [] ==> [c] + conds[1..] == conds[0 := c];
    } else {
      var rest := conds[1..];
      SetConditionAt(rest, c, i - 1);
      if i < |conds| {
        assert [conds[0]] + rest[i - 1 := c] == conds[i := c];
      } else {
        assert [conds[0]] + (rest + [c]) == conds + [c];
      }
    }
  }

  /** meta.RemoveStatusCondition */
  function WithoutCondition(conds: seq<Condition>, t: ConditionType): (r: seq<Condition>)
    ensures forall u :: FindCondition(r, u) == if u == t then None else FindCondition(conds, u)
    ensures forall c :: c in r ==> c in conds
    ensures UniqueTypes(conds) ==> UniqueTypes(r)
  {
    if conds == [] then []
    else
      var rest := WithoutCondition(conds[1..], t);
      if conds[0].typ == t then rest
      else
        var r := [conds[0]] + rest;
        assert r[1..] == rest;
        assert UniqueTypes(conds) ==> UniqueTypes(r) by {
          if UniqueTypes(conds) {
            assert forall j :: 0 < j < |r| ==> r[j] in conds[1..];
          }
        }
        r
  }

  // ---- status -------------------------------------------------------------

  datatype State = NoState | Ready | Error | Warning | Processing | Deleting

  datatype Served = ServedEmpty | ServedTrue | ServedFalse

  datatype Status = Status(state: State, served: Served, kedaVersion: string, conditions: seq<Condition>)

  const EMPTY_STATUS := Status(NoState, ServedEmpty, "", [])

  function With(s: Status, state: State, c: Condition): Status {
    s.(state := state, conditions := SetCondition(s.conditions, c))
  }

  function Failed(s: Status, t: ConditionType, r: Reason, e: Err): Status {
    With(s, Error, Condition(t, False, r, OfErr(e)))
  }

  function Warned(s: Status, t: ConditionType, r: Reason, e: Err): Status {
    With(s, Warning, Condition(t, False, r, OfErr(e)))
  }

  function WithAddon(s: Status, status: ConditionStatus, r: Reason, m: Message): Status {
    s.(conditions := SetCondition(s.conditions, Condition(AddonInstalled, status, r, m)))
  }

  function Find(s: Status, t: ConditionType): Option<Condition> { FindCondition(s.conditions, t) }

  // ---- spec ---------------------------------------------------------------

  datatype LoggingCommonCfg = LoggingCommonCfg(level: Option<string>, format: Option<string>, timeEncoding: Option<string>)

  datatype LoggingCfg = LoggingCfg(
    operator: Option<LoggingCommonCfg>, metricsServer: Option<LoggingCommonCfg>, admissionWebhook: Option<LoggingCommonCfg>)

  datatype Istio = Istio(operator: Option<bool>, metricServer: Option<bool>)

  datatype Resources = Resources(operator: Option<string>, metricsServer: Option<string>, admissionWebhook: Option<string>)

  /** A label or annotation key of an object: the ones the reconciler names in its constants,
      in the order of their texts below, and every other key by its text.
        kyma-project.io/module, app.kubernetes.io/part-of, app.kubernetes.io/managed-by,
        app.kubernetes.io/version, purpose, sidecar.istio.io/inject,
        traffic.sidecar.istio.io/excludeInboundPorts, the three rt-cfg.kyma-project.io keys
        (add-img-pull-secret, alter-img-registry, set-fips-mode), the do-not-edit disclaimer */
  datatype MetaKey = ModuleLabel | PartOfLabel | ManagedByLabel | VersionLabel | PurposeLabel | SidecarInject
                   | ExcludeInboundPorts | AddImgPullSecret | AlterImgRegistry | SetFipsMode | Disclaimer
                   | OtherKey(text: string)

  type Meta = map<MetaKey, string>

  datatype PodAnnotations = PodAnnotations(operator: Meta, metricsServer: Meta, admissionWebhook: Meta)

  datatype EnvVar = EnvVar(name: string, value: string, valueFrom: Option<string>)

  datatype KedaSpec = KedaSpec(
    istio: Option<Istio>, logging: Option<LoggingCfg>, resources: Option<Resources>,
    env: seq<EnvVar>, podAnnotations: Option<PodAnnotations>)

  // ---- the custom resource ------------------------------------------------

  /** The five annotations of the HTTP add-on, and every other key by its text. */
  datatype AnnotationKey = AddonEnabled | AddonNamespace | AddonIstioInjection
                         | InstalledVersion | InstalledNamespace | OtherAnnotation(text: string)

  type Annotations = map<AnnotationKey, string>

  datatype KedaId = KedaId(ns: string, name: string)

  /** A Keda CR as a value: what the API server stores and what a Get returns.
      The uid tells a re-created CR from its predecessor of the same name. */
  datatype KedaCR = KedaCR(id: KedaId, uid: nat, deleting: bool, finalizers: set<string>,
                           annotations: Annotations, spec: KedaSpec, status: Status)

  const DEFAULT_ADDON_NAMESPACE := "kyma-system"

  datatype AddonCfg = AddonCfg(enabled: bool, namespace: string, istioInjection: bool) {
    function EffectiveNamespace(): string {
      if namespace == "" then DEFAULT_ADDON_NAMESPACE else namespace
    }
  }

  function Lookup(ann: Annotations, key: AnnotationKey): string {
    if key in ann then ann[key] else ""
  }

  /** strings.EqualFold(s, "true") */
  predicate IsTrueFold(s: string) {
    |s| == 4 && s[0] in {'t', 'T'} && s[1] in {'r', 'R'} && s[2] in {'u', 'U'} && s[3] in {'e', 'E'}
  }

  function ReadAddonCfg(ann: Annotations): AddonCfg {
    AddonCfg(IsTrueFold(Lookup(ann, AddonEnabled)), Lookup(ann, AddonNamespace), IsTrueFold(Lookup(ann, AddonIstioInjection)))
  }

  /** An empty value removes the key. */
  function WithAnnotation(ann: Annotations, key: AnnotationKey, value: string): (r: Annotations)
    ensures Lookup(r, key) == value
    ensures forall k :: k != key ==> Lookup(r, k) == Lookup(ann, k)
  {
    if value == "" then ann - {key} else ann[key := value]
  }

  /** The instance held in memory during one run (systemState.instance). Its methods
      change the receiver in place. */
  class Keda {
    var id: KedaId
    var uid: nat
    var deleting: bool
    var finalizers: set<string>
    var annotations: Annotations
    var spec: KedaSpec
    var status: Status

    ghost function Value(): KedaCR
      reads this
    {
      KedaCR(id, uid, deleting, finalizers, annotations, spec, status)
    }

    constructor (k: KedaCR)
      ensures Value() == k
    {
      id, uid, deleting, finalizers := k.id, k.uid, k.deleting, k.finalizers;
      annotations, spec, status := k.annotations, k.spec, k.status;
    }

    /** The instance becomes what the API server answered to an Update. */
    method Overwrite(k: KedaCR)
      modifies this
      ensures Value() == k
    {
      id, uid := k.id, k.uid;
      deleting, finalizers := k.deleting, k.finalizers;
      annotations, spec, status := k.annotations, k.spec, k.status;
    }

    method SetStatusCondition(c: Condition)
      modifies this`status
      ensures status == old(status).(conditions := SetCondition(old(status.conditions), c))
    {
      var i := 0;
      var conds := status.conditions;
      while i < |conds| && conds[i].typ != c.typ
        invariant 0 <= i <= |conds|
        invariant forall j :: 0 <= j < i ==> conds[j].typ != c.typ
      {
        i := i + 1;
      }
      SetConditionAt(conds, c, i);
      if i < |conds| {
        conds := conds[i := c];
      } else {
        conds := conds + [c];
      }
      status := status.(conditions := conds);
    }

    method RemoveCondition(t: ConditionType)
      modifies this`status
      ensures status == old(status).(conditions := WithoutCondition(old(status.conditions), t))
    {
      hide FindCondition, UniqueTypes;
      var kept: seq<Condition> := [];
      var conds := status.conditions;
      for i := 0 to |conds|
        invariant WithoutCondition(conds, t) == kept + WithoutCondition(conds[i..], t)
      {
        assert conds[i..][1..] == conds[i+1..];
        if conds[i].typ != t {
          kept := kept + [conds[i]];
        }
      }
      status := status.(conditions := kept);
    }

    method UpdateState(state: State, c: Condition)
      modifies this`status
      ensures status == With(old(status), state, c)
    {
      status := status.(state := state);
      SetStatusCondition(c);
    }

    method UpdateStateFromErr(t: ConditionType, r: Reason, e: Err)
      modifies this`status
      ensures status == Failed(old(status), t, r, e)
    {
      UpdateState(Error, Condition(t, False, r, OfErr(e)));
    }

    method UpdateStateFromWarning(t: ConditionType, r: Reason, e: Err)
      modifies this`status
      ensures status == Warned(old(status), t, r, e)
    {
      UpdateState(Warning, Condition(t, False, r, OfErr(e)));
    }

    method UpdateStateReplicaFailure(t: ConditionType, r: Reason, m: Message)
      modifies this`status
      ensures status == With(old(status), Error, Condition(t, True, r, m))
    {
      UpdateState(Error, Condition(t, True, r, m));
    }

    method UpdateStateReady(t: ConditionType, r: Reason, m: Message)
      modifies this`status
      ensures status == With(old(status), Ready, Condition(t, True, r, m))
    {
      UpdateState(Ready, Condition(t, True, r, m));
    }

    method UpdateStateProcessing(t: ConditionType, r: Reason, m: Message)
      modifies this`status
      ensures status == With(old(status), Processing, Condition(t, Unknown, r, m))
    {
      UpdateState(Processing, Condition(t, Unknown, r, m));
    }

    method UpdateStateDeletion(t: ConditionType, r: Reason, m: Message)
      modifies this`status
      ensures status == With(old(status), Deleting, Condition(t, Unknown, r, m))
    {
      UpdateState(Deleting, Condition(t, Unknown, r, m));
    }

    method UpdateStateDeletionTrue(t: ConditionType, r: Reason, m: Message)
      modifies this`status
      ensures status == With(old(status), Deleting, Condition(t, True, r, m))
    {
      UpdateState(Deleting, Condition(t, True, r, m));
    }

    method SetAddonCondition(s: ConditionStatus, r: Reason, m: Message)
      modifies this`status
      ensures status == WithAddon(old(status), s, r, m)
    {
      SetStatusCondition(Condition(AddonInstalled, s, r, m));
    }

    method SetAnnotation(key: AnnotationKey, value: string)
      modifies this`annotations
      ensures annotations == WithAnnotation(old(annotations), key, value)
    {
      if value == "" {
        annotations := annotations - {key};
      } else {
        annotations := annotations[key := value];
      }
    }
  }
}
