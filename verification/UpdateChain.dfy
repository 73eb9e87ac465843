/** The chain of in-place updates to the three Deployments and the webhook NetworkPolicy
    (pkg/reconciler/update_objects.go and the update functions of pkg/reconciler/fsm.go). */
module UpdateChain {
  import opened KedaTypes
  import opened Objects
  import L = Logging
  import E = EnvVars

  const PRIORITY_CLASS := "keda-priority-class"

  datatype Component = Operator | MetricsServer | AdmissionWebhooks | WebhookPolicy

  /** Which object of the manifest a component is. */
  predicate Matches(c: Component, o: Obj) {
    match c
    case Operator => o.name == KedaOperator && IsDeployment(o)
    case MetricsServer => o.name == KedaMetricsApiserver && IsDeployment(o)
    case AdmissionWebhooks => o.name == KedaAdmissionWebhooks && IsDeployment(o)
    case WebhookPolicy => o.kind == NetworkPolicy && o.group == Networking && o.version == V1
                          && PurposeLabel in o.labels && o.labels[PurposeLabel] == "webhook"
  }

  /** |objs| when nothing matches. */
  function FirstIndex(objs: seq<Obj>, c: Component): (i: nat)
    ensures i <= |objs|
    ensures i < |objs| ==> Matches(c, objs[i])
    ensures forall j :: 0 <= j < i ==> !Matches(c, objs[j])
  {
    if objs == [] then 0
    else if Matches(c, objs[0]) then 0
    else
      var i := FirstIndex(objs[1..], c);
      assert forall j :: 0 < j < 1 + i ==> objs[j] == objs[1..][j - 1];
      1 + i
  }

  datatype Edit = Args | Labels | Annotations | PriorityClass | ResourceNeeds | Env | Peer

  /** The states of one component, in the order in which each names its successor. */
  function Edits(c: Component): seq<Edit> {
    match c
    case Operator => [Args, Labels, Annotations, PriorityClass, ResourceNeeds, Env]
    case MetricsServer => [Args, Labels, Annotations, PriorityClass, ResourceNeeds, Env]
    case AdmissionWebhooks => [Args, Labels, Annotations, ResourceNeeds, PriorityClass]
    case WebhookPolicy => [Peer]
  }

  // ---- the data each edit takes from the spec ------------------------------

  function LoggingOf(c: Component, s: KedaSpec): Option<LoggingCommonCfg> {
    if s.logging.None? then None
    else match c
      case Operator => s.logging.value.operator
      case MetricsServer => s.logging.value.metricsServer
      case AdmissionWebhooks => s.logging.value.admissionWebhook
      case WebhookPolicy => None
  }

  /** A component without an Istio setting, and the webhooks always, get no sidecar. */
  function SidecarOf(c: Component, s: KedaSpec): bool {
    match c
    case Operator => s.istio.Some? && s.istio.value.operator == Some(true)
    case MetricsServer => s.istio.Some? && s.istio.value.metricServer == Some(true)
    case AdmissionWebhooks => false
    case WebhookPolicy => false
  }

  /** The metrics server always has annotation data; with a sidecar its port is exempted first,
      so that the user's own entry for that key wins. */
  function AnnotationsOf(c: Component, s: KedaSpec): Option<Meta> {
    match c
    case Operator => if s.podAnnotations.Some? then Some(s.podAnnotations.value.operator) else None
    case MetricsServer =>
      var base := if SidecarOf(c, s) then map[ExcludeInboundPorts := "6443"] else map[];
      Some(if s.podAnnotations.Some? then base + s.podAnnotations.value.metricsServer else base)
    case AdmissionWebhooks => if s.podAnnotations.Some? then Some(s.podAnnotations.value.admissionWebhook) else None
    case WebhookPolicy => None
  }

  function ResourcesOf(c: Component, s: KedaSpec): Option<string> {
    if s.resources.None? then None
    else match c
      case Operator => s.resources.value.operator
      case MetricsServer => s.resources.value.metricsServer
      case AdmissionWebhooks => s.resources.value.admissionWebhook
      case WebhookPolicy => None
  }

  predicate HasData(c: Component, e: Edit, s: KedaSpec) {
    match e
    case Args => LoggingOf(c, s).Some?
    case Annotations => AnnotationsOf(c, s).Some?
    case ResourceNeeds => ResourcesOf(c, s).Some?
    case _ => true
  }

  // ---- specification of one edit -------------------------------------------

  /** Containers[0]; a template without containers is left alone. */
  function OnContainer0(t: PodTemplate, c: Container): PodTemplate {
    if t.containers == [] then t else t.(containers := t.containers[0 := c])
  }

  function Container0(t: PodTemplate): Container {
    if t.containers == [] then Container("", [], [], "", "") else t.containers[0]
  }

  function NewArgs(c: Component, cfg: LoggingCommonCfg, args: seq<string>): seq<string> {
    if c == MetricsServer then L.RewrittenMetricsLogging(L.SanitizedCfg(cfg), args)
    else L.RewrittenLogging(L.SanitizedCfg(cfg), args)
  }

  function NewLabels(sidecar: bool, labels: Meta): Meta {
    WithCommonLabels(labels)[SidecarInject := if sidecar then "true" else "false"]
  }

  function PeeredRule(addr: string, r: IngressRule): IngressRule {
    if r.from == [] && 9443 in r.ports then r.(from := [addr]) else r
  }

  function PeeredIngress(addr: string, rules: seq<IngressRule>): seq<IngressRule> {
    seq(|rules|, i requires 0 <= i < |rules| => PeeredRule(addr, rules[i]))
  }

  function EditedTemplate(c: Component, e: Edit, s: KedaSpec, t: PodTemplate): PodTemplate
    requires HasData(c, e, s)
  {
    match e
    case Args => OnContainer0(t, Container0(t).(args := NewArgs(c, LoggingOf(c, s).value, Container0(t).args)))
    case Labels => t.(labels := NewLabels(SidecarOf(c, s), t.labels))
    case Annotations => t.(annotations := t.annotations + AnnotationsOf(c, s).value)
    case PriorityClass => t.(priorityClass := PRIORITY_CLASS)
    case ResourceNeeds => OnContainer0(t, Container0(t).(resources := ResourcesOf(c, s).value))
    case Env => OnContainer0(t, Container0(t).(env := E.Sanitized(s.env)))
    case Peer => t
  }

  function EditedObj(c: Component, e: Edit, s: KedaSpec, addr: string, o: Obj): Obj {
    if !HasData(c, e, s) then o
    else if e == Peer then o.(ingress := PeeredIngress(addr, o.ingress))
    else o.(template := EditedTemplate(c, e, s, o.template))
  }

  /** Sanitize works on the spec's own logging configuration, so the alias "text" disappears from the
      in-memory instance, too. */
  function SanitizedSpec(c: Component, e: Edit, s: KedaSpec): KedaSpec {
    if e != Args || LoggingOf(c, s).None? then s
    else
      var cfg := Some(L.SanitizedCfg(LoggingOf(c, s).value));
      match c
      case Operator => s.(logging := Some(s.logging.value.(operator := cfg)))
      case MetricsServer => s.(logging := Some(s.logging.value.(metricsServer := cfg)))
      case AdmissionWebhooks => s.(logging := Some(s.logging.value.(admissionWebhook := cfg)))
      case WebhookPolicy => s
  }

  // ---- the loops of the source ---------------------------------------------

  /** Merging a map entry by entry, in whatever order the entries come. */
  method MergeAnnotations(existing: Meta, annotations: Meta) returns (r: Meta)
    ensures r == existing + annotations
  {
    r := existing;
    var todo := annotations.Keys;
    while todo != {}
      invariant todo <= annotations.Keys
      invariant r == existing + (map k | k in annotations && k !in todo :: annotations[k])
      decreases todo
    {
      var k :| k in todo;
      r := r[k := annotations[k]];
      todo := todo - {k};
    }
  }

  method PeerIngress(rules: seq<IngressRule>, addr: string) returns (r: seq<IngressRule>)
    ensures r == PeeredIngress(addr, rules)
  {
    r := rules;
    for i := 0 to |rules|
      invariant |r| == |rules|
      invariant forall k :: 0 <= k < i ==> r[k] == PeeredRule(addr, rules[k])
      invariant forall k :: i <= k < |rules| ==> r[k] == rules[k]
    {
      var ports := r[i].ports;
      for j := 0 to |ports|
        invariant |r| == |rules| && r[i].ports == ports
        invariant r[i] == PeeredRule(addr, rules[i].(ports := ports[..j])).(ports := ports)
        invariant forall k :: 0 <= k < |rules| && k != i ==> r[k] == if k < i then PeeredRule(addr, rules[k]) else rules[k]
      {
        assert ports[..j+1] == ports[..j] + [ports[j]];
        if ports[j] == 9443 && |r[i].from| == 0 {
          r := r[i := r[i].(from := [addr])];
        }
      }
      assert ports[..|ports|] == ports;
    }
  }

  method UpdateTemplate(t: PodTemplate, c: Component, e: Edit, s: KedaSpec) returns (r: PodTemplate)
    requires HasData(c, e, s)
    ensures r == EditedTemplate(c, e, s, t)
  {
    r := t;
    match e {
      case Args =>
        if t.containers != [] {
          var cfg := L.SanitizedCfg(LoggingOf(c, s).value);
          var args := t.containers[0].args;
          if c == MetricsServer {
            args := L.UpdateFirst(L.StderrProp(cfg.format), args);
          }
          args := L.UpdateContainerArgs(L.Props(cfg), args);
          r := OnContainer0(t, t.containers[0].(args := args));
        }
      case Labels =>
        var labels := WithCommonLabels(t.labels);
        r := t.(labels := labels[SidecarInject := if SidecarOf(c, s) then "true" else "false"]);
      case Annotations =>
        var annotations := MergeAnnotations(t.annotations, AnnotationsOf(c, s).value);
        r := t.(annotations := annotations);
      case PriorityClass =>
        r := t.(priorityClass := PRIORITY_CLASS);
      case ResourceNeeds =>
        if t.containers != [] {
          r := OnContainer0(t, t.containers[0].(resources := ResourcesOf(c, s).value));
        }
      case Env =>
        if t.containers != [] {
          var env := E.Complete(s.env, E.REQUIRED);
          r := OnContainer0(t, t.containers[0].(env := env));
        }
      case Peer =>
    }
  }

  /** One update state acting on the shared object it points at. */
  method UpdateObj(objs: array<Obj>, u: nat, c: Component, e: Edit, s: KedaSpec, addr: string)
    requires u < objs.Length && HasData(c, e, s)
    modifies objs
    ensures objs[..] == old(objs[..])[u := EditedObj(c, e, s, addr, old(objs[u]))]
  {
    var o := objs[u];
    if e == Peer {
      var ingress := PeerIngress(o.ingress, addr);
      o := o.(ingress := ingress);
    } else {
      var t := UpdateTemplate(o.template, c, e, s);
      o := o.(template := t);
    }
    objs[u] := o;
  }

  // ---- the whole chain -----------------------------------------------------

  function EditedBy(c: Component, edits: seq<Edit>, s: KedaSpec, addr: string, o: Obj): Obj {
    if edits == [] then o else EditedBy(c, edits[1..], s, addr, EditedObj(c, edits[0], s, addr, o))
  }

  /** All edits of one component on the first object that matches it. */
  function Updated(c: Component, s: KedaSpec, addr: string, objs: seq<Obj>): (r: seq<Obj>)
    ensures |r| == |objs|
  {
    var i := FirstIndex(objs, c);
    if i == |objs| then objs else objs[i := EditedBy(c, Edits(c), s, addr, objs[i])]
  }

  function Chained(s: KedaSpec, addr: string, objs: seq<Obj>): (r: seq<Obj>)
    ensures |r| == |objs|
  {
    Updated(WebhookPolicy, s, addr, Updated(AdmissionWebhooks, s, addr, Updated(MetricsServer, s, addr, Updated(Operator, s, addr, objs))))
  }

  /** Only the pod template and the ingress rules are ever written. */
  predicate SameIdentity(a: Obj, b: Obj) {
    b == a.(template := b.template, ingress := b.ingress)
  }

  lemma {:induction false} EditedByIdentity(c: Component, edits: seq<Edit>, s: KedaSpec, addr: string, o: Obj)
    ensures SameIdentity(o, EditedBy(c, edits, s, addr, o))
  {
    if edits != [] {
      EditedByIdentity(c, edits[1..], s, addr, EditedObj(c, edits[0], s, addr, o));
    }
  }

  lemma ComponentsDisjoint(c: Component, d: Component, o: Obj)
    requires Matches(c, o) && Matches(d, o)
    ensures c == d
  {
  }

  /** An edited pod template, field by field. */
  function TemplateAfter(c: Component, s: KedaSpec, t: PodTemplate): PodTemplate {
    var c0 := Container0(t);
    var args := if LoggingOf(c, s).Some? then NewArgs(c, LoggingOf(c, s).value, c0.args) else c0.args;
    var res := if ResourcesOf(c, s).Some? then ResourcesOf(c, s).value else c0.resources;
    var env := if c == AdmissionWebhooks then c0.env else E.Sanitized(s.env);
    PodTemplate(
      NewLabels(SidecarOf(c, s), t.labels),
      if AnnotationsOf(c, s).Some? then t.annotations + AnnotationsOf(c, s).value else t.annotations,
      PRIORITY_CLASS,
      if t.containers == [] then [] else t.containers[0 := c0.(args := args, resources := res, env := env)])
  }

  function Try(c: Component, e: Edit, s: KedaSpec, t: PodTemplate): PodTemplate {
    if HasData(c, e, s) then EditedTemplate(c, e, s, t) else t
  }

  lemma {:induction false} EditsOnTemplate(c: Component, a: Edit, rest: seq<Edit>, s: KedaSpec, addr: string, o: Obj)
    requires a != Peer
    ensures EditedBy(c, [a] + rest, s, addr, o) == EditedBy(c, rest, s, addr, o.(template := Try(c, a, s, o.template)))
  {
    assert ([a] + rest)[1..] == rest;
  }

  lemma ThreeEdits(c: Component, a: Edit, b: Edit, d: Edit, rest: seq<Edit>, s: KedaSpec, addr: string, o: Obj)
    requires a != Peer && b != Peer && d != Peer
    ensures EditedBy(c, [a, b, d] + rest, s, addr, o)
         == EditedBy(c, rest, s, addr, o.(template := Try(c, d, s, Try(c, b, s, Try(c, a, s, o.template)))))
  {
    var o1 := o.(template := Try(c, a, s, o.template));
    var o2 := o1.(template := Try(c, b, s, o1.template));
    assert [a, b, d] + rest == [a] + ([b] + ([d] + rest));
    EditsOnTemplate(c, a, [b] + ([d] + rest), s, addr, o);
    EditsOnTemplate(c, b, [d] + rest, s, addr, o1);
    EditsOnTemplate(c, d, rest, s, addr, o2);
  }

  /** The state order of each Deployment amounts to the field-by-field form. */
  lemma DeploymentClosedForm(c: Component, s: KedaSpec, addr: string, o: Obj)
    requires c != WebhookPolicy
    ensures EditedBy(c, Edits(c), s, addr, o) == o.(template := TemplateAfter(c, s, o.template))
  {
    var t := o.template;
    var t3 := Try(c, Annotations, s, Try(c, Labels, s, Try(c, Args, s, t)));
    var o3 := o.(template := t3);
    if c == AdmissionWebhooks {
      assert Edits(c) == [Args, Labels, Annotations] + [ResourceNeeds, PriorityClass];
      ThreeEdits(c, Args, Labels, Annotations, [ResourceNeeds, PriorityClass], s, addr, o);
      assert [ResourceNeeds, PriorityClass] == [ResourceNeeds] + ([PriorityClass] + []);
      EditsOnTemplate(c, ResourceNeeds, [PriorityClass] + [], s, addr, o3);
      EditsOnTemplate(c, PriorityClass, [], s, addr, o3.(template := Try(c, ResourceNeeds, s, t3)));
      WebhookClosedForm(s, t);
    } else {
      assert Edits(c) == [Args, Labels, Annotations] + ([PriorityClass, ResourceNeeds, Env] + []);
      ThreeEdits(c, Args, Labels, Annotations, [PriorityClass, ResourceNeeds, Env] + [], s, addr, o);
      ThreeEdits(c, PriorityClass, ResourceNeeds, Env, [], s, addr, o3);
      OperatorClosedForm(c, s, t);
    }
  }

  /** Container edits and map edits do not see each other. */
  lemma TryFields(c: Component, e: Edit, s: KedaSpec, t: PodTemplate)
    ensures var r := Try(c, e, s, t);
      && r.labels == (if e == Labels then NewLabels(SidecarOf(c, s), t.labels) else t.labels)
      && r.annotations == (if e == Annotations && AnnotationsOf(c, s).Some? then t.annotations + AnnotationsOf(c, s).value else t.annotations)
      && r.priorityClass == (if e == PriorityClass then PRIORITY_CLASS else t.priorityClass)
      && r.containers == (if t.containers == [] then [] else t.containers[0 := TryContainer(c, e, s, t.containers[0])])
  {
    if t.containers != [] && !HasData(c, e, s) {
      assert t.containers[0 := t.containers[0]] == t.containers;
    }
    assert t.containers != [] ==> t.containers[0 := t.containers[0]] == t.containers;
  }

  function TryContainer(c: Component, e: Edit, s: KedaSpec, c0: Container): Container {
    if e == Args && LoggingOf(c, s).Some? then c0.(args := NewArgs(c, LoggingOf(c, s).value, c0.args))
    else if e == ResourceNeeds && ResourcesOf(c, s).Some? then c0.(resources := ResourcesOf(c, s).value)
    else if e == Env then c0.(env := E.Sanitized(s.env))
    else c0
  }

  lemma WebhookClosedForm(s: KedaSpec, t: PodTemplate)
    ensures var c := AdmissionWebhooks;
      Try(c, PriorityClass, s, Try(c, ResourceNeeds, s, Try(c, Annotations, s, Try(c, Labels, s, Try(c, Args, s, t)))))
      == TemplateAfter(c, s, t)
  {
    var c := AdmissionWebhooks;
    var t1 := Try(c, Args, s, t);
    var t2 := Try(c, Labels, s, t1);
    var t3 := Try(c, Annotations, s, t2);
    var t4 := Try(c, ResourceNeeds, s, t3);
    TryFields(c, Args, s, t);
    TryFields(c, Labels, s, t1);
    TryFields(c, Annotations, s, t2);
    TryFields(c, ResourceNeeds, s, t3);
    TryFields(c, PriorityClass, s, t4);
  }

  lemma OperatorClosedForm(c: Component, s: KedaSpec, t: PodTemplate)
    requires c == Operator || c == MetricsServer
    ensures Try(c, Env, s, Try(c, ResourceNeeds, s, Try(c, PriorityClass, s,
              Try(c, Annotations, s, Try(c, Labels, s, Try(c, Args, s, t)))))) == TemplateAfter(c, s, t)
  {
    var t1 := Try(c, Args, s, t);
    var t2 := Try(c, Labels, s, t1);
    var t3 := Try(c, Annotations, s, t2);
    var t4 := Try(c, PriorityClass, s, t3);
    var t5 := Try(c, ResourceNeeds, s, t4);
    TryFields(c, Args, s, t);
    TryFields(c, Labels, s, t1);
    TryFields(c, Annotations, s, t2);
    TryFields(c, PriorityClass, s, t3);
    TryFields(c, ResourceNeeds, s, t4);
    TryFields(c, Env, s, t5);
  }

  lemma NewArgsFixed(c: Component, cfg: LoggingCommonCfg, args: seq<string>)
    ensures NewArgs(c, cfg, NewArgs(c, cfg, args)) == NewArgs(c, cfg, args)
  {
    var san := L.SanitizedCfg(cfg);
    L.PropsDisjoint(san, san.format);
    L.PinnedRewriteIsFixed(L.Props(san), L.StderrProp(san.format), args);
    L.LoggingRewritten(san, args);
  }

  lemma TemplateAfterFixed(c: Component, s: KedaSpec, t: PodTemplate)
    ensures TemplateAfter(c, s, TemplateAfter(c, s, t)) == TemplateAfter(c, s, t)
  {
    var d := TemplateAfter(c, s, t);
    if LoggingOf(c, s).Some? {
      NewArgsFixed(c, LoggingOf(c, s).value, Container0(t).args);
    }
    assert NewLabels(SidecarOf(c, s), d.labels) == d.labels;
    assert AnnotationsOf(c, s).Some? ==> d.annotations + AnnotationsOf(c, s).value == d.annotations;
    assert TemplateAfter(c, s, d).containers == d.containers;
  }

  /** Everything a component's edits do is done the first time. */
  lemma EditsFixed(c: Component, s: KedaSpec, addr: string, o: Obj)
    ensures EditedBy(c, Edits(c), s, addr, EditedBy(c, Edits(c), s, addr, o)) == EditedBy(c, Edits(c), s, addr, o)
  {
    if c == WebhookPolicy {
      var p := EditedObj(c, Peer, s, addr, o);
      assert Edits(c)[1..] == [];
      assert EditedBy(c, Edits(c), s, addr, o) == p;
      assert PeeredIngress(addr, p.ingress) == p.ingress;
    } else {
      DeploymentClosedForm(c, s, addr, o);
      DeploymentClosedForm(c, s, addr, o.(template := TemplateAfter(c, s, o.template)));
      TemplateAfterFixed(c, s, o.template);
    }
  }

  lemma UpdatedKeepsMatches(c: Component, s: KedaSpec, addr: string, objs: seq<Obj>)
    ensures var r := Updated(c, s, addr, objs);
      && |r| == |objs|
      && (forall i :: 0 <= i < |objs| ==>
            SameIdentity(objs[i], r[i]) && r[i] == EditedFor(if i == FirstIndex(objs, c) then Some(c) else None, s, addr, objs[i]))
      && (forall d :: FirstIndex(r, d) == FirstIndex(objs, d))
  {
    var r := Updated(c, s, addr, objs);
    var k := FirstIndex(objs, c);
    if k < |objs| {
      EditedByIdentity(c, Edits(c), s, addr, objs[k]);
    }
    SameIdentitySameIndex(objs, r);
  }

  lemma MatchesByIdentity(d: Component, a: Obj, b: Obj)
    requires SameIdentity(a, b)
    ensures Matches(d, a) <==> Matches(d, b)
  {
  }

  lemma SameIdentitySameIndex(objs: seq<Obj>, r: seq<Obj>)
    requires |objs| == |r| && forall i :: 0 <= i < |objs| ==> SameIdentity(objs[i], r[i])
    ensures forall d :: FirstIndex(r, d) == FirstIndex(objs, d)
  {
    forall d ensures FirstIndex(r, d) == FirstIndex(objs, d) {
      var i, j := FirstIndex(objs, d), FirstIndex(r, d);
      if i < |objs| { MatchesByIdentity(d, objs[i], r[i]); }
      if j < |objs| { MatchesByIdentity(d, objs[j], r[j]); }
    }
  }

  /** The component whose edits reach index i. */
  function OwnerOf(objs: seq<Obj>, i: nat): Option<Component> {
    if i == FirstIndex(objs, Operator) then Some(Operator)
    else if i == FirstIndex(objs, MetricsServer) then Some(MetricsServer)
    else if i == FirstIndex(objs, AdmissionWebhooks) then Some(AdmissionWebhooks)
    else if i == FirstIndex(objs, WebhookPolicy) then Some(WebhookPolicy)
    else None
  }

  function EditedFor(owner: Option<Component>, s: KedaSpec, addr: string, o: Obj): Obj {
    if owner.None? then o else EditedBy(owner.value, Edits(owner.value), s, addr, o)
  }

  lemma IndicesDisjoint(objs: seq<Obj>, c: Component, d: Component)
    requires c != d && FirstIndex(objs, c) < |objs|
    ensures FirstIndex(objs, c) != FirstIndex(objs, d)
  {
    if FirstIndex(objs, c) == FirstIndex(objs, d) {
      ComponentsDisjoint(c, d, objs[FirstIndex(objs, c)]);
    }
  }

  lemma ChainAt(s: KedaSpec, addr: string, objs: seq<Obj>, i: nat)
    requires i < |objs|
    ensures Chained(s, addr, objs)[i] == EditedFor(OwnerOf(objs, i), s, addr, objs[i])
    ensures SameIdentity(objs[i], Chained(s, addr, objs)[i])
    ensures forall d :: FirstIndex(Chained(s, addr, objs), d) == FirstIndex(objs, d)
  {
    var o1 := Updated(Operator, s, addr, objs);
    UpdatedKeepsMatches(Operator, s, addr, objs);
    var o2 := Updated(MetricsServer, s, addr, o1);
    UpdatedKeepsMatches(MetricsServer, s, addr, o1);
    var o3 := Updated(AdmissionWebhooks, s, addr, o2);
    UpdatedKeepsMatches(AdmissionWebhooks, s, addr, o2);
    var o4 := Updated(WebhookPolicy, s, addr, o3);
    UpdatedKeepsMatches(WebhookPolicy, s, addr, o3);
    assert SameIdentity(objs[i], o1[i]) && SameIdentity(o1[i], o2[i]) && SameIdentity(o2[i], o3[i]) && SameIdentity(o3[i], o4[i]);
    if i == FirstIndex(objs, Operator) {
      IndicesDisjoint(objs, Operator, MetricsServer);
      IndicesDisjoint(objs, Operator, AdmissionWebhooks);
      IndicesDisjoint(objs, Operator, WebhookPolicy);
    } else if i == FirstIndex(objs, MetricsServer) {
      IndicesDisjoint(objs, MetricsServer, AdmissionWebhooks);
      IndicesDisjoint(objs, MetricsServer, WebhookPolicy);
    } else if i == FirstIndex(objs, AdmissionWebhooks) {
      IndicesDisjoint(objs, AdmissionWebhooks, WebhookPolicy);
    }
  }

  /** Only the first object of a component differs, and it in template and ingress only. */
  predicate FramedAt(objs: seq<Obj>, r: seq<Obj>, i: nat)
    requires i < |objs| && |r| == |objs|
  {
    SameIdentity(objs[i], r[i]) && (OwnerOf(objs, i).None? ==> r[i] == objs[i])
  }

  /** The chain rewrites the first matching object of each component and nothing else,
      and of that object only the pod template or the ingress rules. */
  lemma ChainFrame(s: KedaSpec, addr: string, objs: seq<Obj>)
    ensures forall i :: 0 <= i < |objs| ==> FramedAt(objs, Chained(s, addr, objs), i)
  {
    var r := Chained(s, addr, objs);
    forall i | 0 <= i < |objs| ensures FramedAt(objs, r, i) {
      ChainAt(s, addr, objs, i);
    }
  }

  lemma ChainFixedAt(s: KedaSpec, addr: string, objs: seq<Obj>, i: nat)
    requires i < |objs|
    ensures var r := Chained(s, addr, objs);
      Chained(s, addr, r)[i] == r[i]
  {
    var r := Chained(s, addr, objs);
    ChainAt(s, addr, objs, i);
    ChainAt(s, addr, r, i);
    var owner := OwnerOf(objs, i);
    assert OwnerOf(r, i) == owner;
    if owner.Some? {
      EditsFixed(owner.value, s, addr, objs[i]);
    }
  }

  /** Running the chain again with the same spec and API server address changes nothing. */
  lemma ChainIdempotent(s: KedaSpec, addr: string, objs: seq<Obj>)
    ensures Chained(s, addr, Chained(s, addr, objs)) == Chained(s, addr, objs)
  {
    var r := Chained(s, addr, objs);
    forall i | 0 <= i < |r| ensures Chained(s, addr, r)[i] == r[i] {
      ChainFixedAt(s, addr, objs, i);
    }
  }

  // ---- the aliased spec ----------------------------------------------------

  /** The spec as the three argument edits leave it in memory. */
  function SanitizedByChain(s: KedaSpec): KedaSpec {
    SanitizedSpec(AdmissionWebhooks, Args, SanitizedSpec(MetricsServer, Args, SanitizedSpec(Operator, Args, s)))
  }

  lemma SanitizedCfgFixed(cfg: LoggingCommonCfg)
    ensures L.SanitizedCfg(L.SanitizedCfg(cfg)) == L.SanitizedCfg(cfg)
  {
    assert "console"[0] == 'c' && "text"[0] == 't';
  }

  /** Writing into the spec is harmless to the objects: every edit reads the
      same from the rewritten spec. */
  lemma AliasedSpecSameEdits(c: Component, e: Edit, d: Component, f: Edit, s: KedaSpec, addr: string, o: Obj)
    ensures EditedObj(c, e, SanitizedSpec(d, f, s), addr, o) == EditedObj(c, e, s, addr, o)
  {
    if LoggingOf(d, s).Some? {
      SanitizedCfgFixed(LoggingOf(d, s).value);
    }
  }

  // ---- restricted annotations ----------------------------------------------

  const RESTRICTED := [AddImgPullSecret, AlterImgRegistry, SetFipsMode]

  predicate HasRestricted(s: KedaSpec) {
    s.podAnnotations.Some? &&
    exists k :: k in RESTRICTED &&
      var p := s.podAnnotations.value;
      k in p.admissionWebhook || k in p.operator || k in p.metricsServer
  }

  method CheckRestricted(s: KedaSpec) returns (found: bool)
    ensures found == HasRestricted(s)
  {
    if s.podAnnotations.None? {
      return false;
    }
    var p := s.podAnnotations.value;
    var restricted := RESTRICTED;
    for i := 0 to |restricted|
      invariant forall j :: 0 <= j < i ==>
        restricted[j] !in p.admissionWebhook && restricted[j] !in p.operator && restricted[j] !in p.metricsServer
    {
      if restricted[i] in p.admissionWebhook || restricted[i] in p.operator || restricted[i] in p.metricsServer {
        return true;
      }
    }
    found := false;
  }

  /** Same presence and same value of one key. */
  predicate SameAt(a: Meta, b: Meta, key: MetaKey) {
    (key in a <==> key in b) && (key in a ==> a[key] == b[key])
  }

  ghost predicate SameRestricted(a: Meta, b: Meta) {
    forall k :: k in RESTRICTED ==> SameAt(a, b, k)
  }

  /** No edit with data from a validated spec touches them. */
  lemma EditKeepsRestricted(c: Component, e: Edit, s: KedaSpec, addr: string, o: Obj)
    requires !HasRestricted(s)
    ensures SameRestricted(o.template.annotations, EditedObj(c, e, s, addr, o).template.annotations)
  {
    if e == Annotations && AnnotationsOf(c, s).Some? {
      assert forall k :: k in RESTRICTED ==> k !in AnnotationsOf(c, s).value;
    }
  }
}
