/** The desired state in terms of the fields of the spec: what the chain of updates makes of each
    component, text by text (pkg/reconciler/update_objects.go, pkg/reconciler/fsm.go:66-192,
    pkg/reconciler/apply.go, api/v1alpha1/keda_types.go:46-316). */
module DesiredState {
  import opened KedaTypes
  import opened Objects
  import opened UpdateChain
  import L = Logging
  import E = EnvVars

  // ---- which object is which component ------------------------------------

  predicate DeploymentNamed(o: Obj, name: Name) { o.kind == Deployment && o.group == Apps && o.version == V1 && o.name == name }

  predicate FirstDeployment(objs: seq<Obj>, i: nat, name: Name) {
    i < |objs| && DeploymentNamed(objs[i], name) && forall j :: 0 <= j < i ==> !DeploymentNamed(objs[j], name)
  }

  predicate IsWebhookPolicy(o: Obj) {
    && o.kind == NetworkPolicy && o.group == Networking && o.version == V1
    && PurposeLabel in o.labels && o.labels[PurposeLabel] == "webhook"
  }

  predicate FirstPolicy(objs: seq<Obj>, i: nat) {
    i < |objs| && IsWebhookPolicy(objs[i]) && forall j :: 0 <= j < i ==> !IsWebhookPolicy(objs[j])
  }

  lemma FirstMeaning(objs: seq<Obj>, i: nat)
    ensures FirstDeployment(objs, i, KedaOperator) <==> i == FirstIndex(objs, Operator) < |objs|
    ensures FirstDeployment(objs, i, KedaMetricsApiserver) <==> i == FirstIndex(objs, MetricsServer) < |objs|
    ensures FirstDeployment(objs, i, KedaAdmissionWebhooks) <==> i == FirstIndex(objs, AdmissionWebhooks) < |objs|
    ensures FirstPolicy(objs, i) <==> i == FirstIndex(objs, WebhookPolicy) < |objs|
  {
    hide Matches, FirstIndex, DeploymentNamed, IsWebhookPolicy;
    forall o: Obj
      ensures Matches(Operator, o) <==> DeploymentNamed(o, KedaOperator)
      ensures Matches(MetricsServer, o) <==> DeploymentNamed(o, KedaMetricsApiserver)
      ensures Matches(AdmissionWebhooks, o) <==> DeploymentNamed(o, KedaAdmissionWebhooks)
      ensures Matches(WebhookPolicy, o) <==> IsWebhookPolicy(o)
    {
      MatchesMeaning(o);
    }
    SameFirst(objs, i, Operator);
    SameFirst(objs, i, MetricsServer);
    SameFirst(objs, i, AdmissionWebhooks);
    SameFirst(objs, i, WebhookPolicy);
  }

  lemma MatchesMeaning(o: Obj)
    ensures Matches(Operator, o) <==> DeploymentNamed(o, KedaOperator)
    ensures Matches(MetricsServer, o) <==> DeploymentNamed(o, KedaMetricsApiserver)
    ensures Matches(AdmissionWebhooks, o) <==> DeploymentNamed(o, KedaAdmissionWebhooks)
    ensures Matches(WebhookPolicy, o) <==> IsWebhookPolicy(o)
  {
  }

  lemma SameFirst(objs: seq<Obj>, i: nat, c: Component)
    ensures i == FirstIndex(objs, c) < |objs| <==>
              i < |objs| && Matches(c, objs[i]) && forall j :: 0 <= j < i ==> !Matches(c, objs[j])
  {
    hide Matches;
  }

  // ---- logging arguments --------------------------------------------------

  /** Some argument begins with the flag, and every one that does is the flag with that value. */
  ghost predicate Shows(args: seq<string>, flag: string, value: string) {
    && (exists i :: 0 <= i < |args| && flag <= args[i])
    && (forall i :: 0 <= i < |args| && flag <= args[i] ==> args[i] == flag + "=" + value)
  }

  predicate IsZap(arg: string) { "--zap-log-level" <= arg || "--zap-encoder" <= arg || "--zap-time-encoding" <= arg }

  function Given(value: Option<string>, default: string): string { if value.Some? then value.value else default }

  function Encoder(format: Option<string>): string {
    if format.None? || format.value == "text" then "console" else format.value
  }

  /** The three flags show what is configured or their defaults; nothing else is touched, and at most the
      three flags are appended. */
  ghost predicate ZapArgs(cfg: LoggingCommonCfg, before: seq<string>, after: seq<string>) {
    && Shows(after, "--zap-log-level", Given(cfg.level, "info"))
    && Shows(after, "--zap-encoder", Encoder(cfg.format))
    && Shows(after, "--zap-time-encoding", Given(cfg.timeEncoding, "rfc3339"))
    && |before| <= |after| <= |before| + 3
    && (forall i :: 0 <= i < |before| && !IsZap(before[i]) ==> after[i] == before[i])
    && (forall i :: |before| <= i < |after| ==> IsZap(after[i]))
  }

  /** The first argument of that flag is replaced, or the text appended if there is none. */
  ghost predicate PinnedIn(flag: string, text: string, before: seq<string>, after: seq<string>) {
    || (exists i :: 0 <= i < |before| && flag <= before[i] && (forall j :: 0 <= j < i ==> !(flag <= before[j])) && after == before[i := text])
    || ((forall j :: 0 <= j < |before| ==> !(flag <= before[j])) && after == before + [text])
  }

  /** The flags of the metrics server: klog's own flag first, then the three. */
  ghost predicate MetricsArgs(cfg: LoggingCommonCfg, before: seq<string>, after: seq<string>) {
    exists pinned ::
      && PinnedIn("--logtostderr", if cfg.format == Some("json") then "--logtostderr=false" else "--logtostderr=true", before, pinned)
      && ZapArgs(cfg, pinned, after)
  }

  lemma PropsMeaning(cfg: LoggingCommonCfg)
    ensures L.Props(L.SanitizedCfg(cfg)) == [
      L.MatchStringer("--zap-log-level", Given(cfg.level, "info")),
      L.MatchStringer("--zap-encoder", Encoder(cfg.format)),
      L.MatchStringer("--zap-time-encoding", Given(cfg.timeEncoding, "rfc3339"))]
  {
  }

  lemma FlagRewritten(props: seq<L.MatchStringer>, before: seq<string>, after: seq<string>, p: L.MatchStringer)
    requires L.IsRewriting(props, before, after) && p in props
    ensures L.Mentioned(p, after) && forall i :: 0 <= i < |after| && p.Match(after[i]) ==> after[i] == p.String()
  {
    hide L.Mentioned;
  }

  lemma ShownBy(p: L.MatchStringer, after: seq<string>)
    requires L.Mentioned(p, after) && forall i :: 0 <= i < |after| && p.Match(after[i]) ==> after[i] == p.String()
    ensures Shows(after, p.prefix, p.value)
  {
    var i :| 0 <= i < |after| && p.Match(after[i]);
    assert p.prefix <= after[i];
  }

  ghost predicate RenderedBy(props: seq<L.MatchStringer>, arg: string) { exists p :: p in props && arg == p.String() }

  lemma OthersKept(props: seq<L.MatchStringer>, before: seq<string>, after: seq<string>)
    requires L.IsRewriting(props, before, after)
    ensures |before| <= |after| <= |before| + |props|
    ensures forall i :: 0 <= i < |before| && (forall p :: p in props ==> !p.Match(before[i])) ==> after[i] == before[i]
    ensures forall i :: |before| <= i < |after| ==> RenderedBy(props, after[i])
  {
    forall i | |before| <= i < |after| ensures RenderedBy(props, after[i]) {
      var arg := after[i];
      var p :| p in props && arg == p.String() && !L.Mentioned(p, before);
    }
  }

  lemma ZapMatches(cfg: LoggingCommonCfg, arg: string)
    ensures IsZap(arg) <==> exists p :: p in L.Props(L.SanitizedCfg(cfg)) && p.Match(arg)
  {
    var props := L.Props(L.SanitizedCfg(cfg));
    assert props[0] in props && props[1] in props && props[2] in props;
    assert props[0].prefix == "--zap-log-level" && props[1].prefix == "--zap-encoder" && props[2].prefix == "--zap-time-encoding";
    assert props[0].Match(arg) || props[1].Match(arg) || props[2].Match(arg) <==> IsZap(arg);
  }

  lemma ZapMeaning(cfg: LoggingCommonCfg, before: seq<string>)
    ensures ZapArgs(cfg, before, L.RewrittenLogging(L.SanitizedCfg(cfg), before))
  {
    hide L.RewrittenLogging, L.IsRewriting, L.Props, L.Mentioned, Shows, IsZap, Encoder, Given;
    var san := L.SanitizedCfg(cfg);
    var props, after := L.Props(san), L.RewrittenLogging(san, before);
    PropsMeaning(cfg);
    L.LoggingRewritten(san, before);
    OthersKept(props, before, after);
    forall k | 0 <= k < |props| ensures Shows(after, props[k].prefix, props[k].value) {
      FlagRewritten(props, before, after, props[k]);
      ShownBy(props[k], after);
    }
    assert Shows(after, props[0].prefix, props[0].value) && Shows(after, props[1].prefix, props[1].value) && Shows(after, props[2].prefix, props[2].value);
    forall i | 0 <= i < |before| && !IsZap(before[i]) ensures after[i] == before[i] {
      ZapMatches(cfg, before[i]);
    }
    forall i | |before| <= i < |after| ensures IsZap(after[i]) {
      ZapMatches(cfg, after[i]);
      var p :| p in props && after[i] == p.String();
      L.StringMatches(p);
    }
  }

  lemma {:induction false} PinnedMeaning(p: L.MatchStringer, before: seq<string>)
    ensures PinnedIn(p.prefix, p.String(), before, L.WithFirst(p, before))
    decreases before
  {
    if before != [] {
      if p.Match(before[0]) {
        assert L.WithFirst(p, before) == before[0 := p.String()];
      } else {
        var rest, text := before[1..], p.String();
        PinnedMeaning(p, rest);
        var r := L.WithFirst(p, rest);
        if i :| 0 <= i < |rest| && p.prefix <= rest[i] && (forall j :: 0 <= j < i ==> !(p.prefix <= rest[j])) && r == rest[i := text] {
          assert p.prefix <= before[i + 1];
          assert forall j :: 0 < j < i + 1 ==> before[j] == rest[j - 1];
          assert L.WithFirst(p, before) == before[i + 1 := text];
        } else {
          assert forall j :: 0 < j < |before| ==> before[j] == rest[j - 1];
          assert L.WithFirst(p, before) == before + [text];
        }
      }
    }
  }

  lemma MetricsMeaning(cfg: LoggingCommonCfg, before: seq<string>)
    ensures MetricsArgs(cfg, before, L.RewrittenMetricsLogging(L.SanitizedCfg(cfg), before))
  {
    hide ZapArgs, PinnedIn, L.RewrittenArgs;
    var p := L.StderrProp(L.SanitizedCfg(cfg).format);
    var pinned := L.WithFirst(p, before);
    PinnedMeaning(p, before);
    ZapMeaning(cfg, pinned);
    assert p.String() == if cfg.format == Some("json") then "--logtostderr=false" else "--logtostderr=true" by { StderrText(cfg); }
  }

  lemma StderrText(cfg: LoggingCommonCfg)
    ensures L.StderrProp(L.SanitizedCfg(cfg).format).String() == if cfg.format == Some("json") then "--logtostderr=false" else "--logtostderr=true"
  {
    assert "console"[0] == 'c' && "json"[0] == 'j' && "text"[0] == 't';
    assert "--logtostderr" + "=" + "false" == "--logtostderr=false";
    assert "--logtostderr" + "=" + "true" == "--logtostderr=true";
  }

  // ---- labels, annotations, environment -----------------------------------

  /** The three labels of the module and the sidecar label; all others as before. */
  ghost predicate LabelsAre(before: Meta, sidecar: bool, after: Meta) {
    && CommonLabels(before, after - {SidecarInject}, {SidecarInject})
    && SidecarInject in after && after[SidecarInject] == (if sidecar then "true" else "false")
  }

  ghost predicate CommonLabels(before: Meta, after: Meta, except: set<MetaKey>) {
    && ModuleLabel in after && after[ModuleLabel] == "keda"
    && PartOfLabel in after && after[PartOfLabel] == "keda-manager"
    && ManagedByLabel in after && after[ManagedByLabel] == "keda-manager"
    && forall k :: k !in {ModuleLabel, PartOfLabel, ManagedByLabel} + except ==> SameAt(before, after, k)
  }

  /** The entries given win, all others are as before. */
  ghost predicate Overlaid(before: Meta, given: Meta, after: Meta) {
    forall k :: if k in given then k in after && after[k] == given[k] else SameAt(before, after, k)
  }

  predicate RequiredVar(e: EnvVar) {
    || e == EnvVar("WATCH_NAMESPACE", "", None)
    || e == EnvVar("POD_NAME", "", Some("metadata.name"))
    || e == EnvVar("POD_NAMESPACE", "", Some("metadata.namespace"))
    || e == EnvVar("OPERATOR_NAME", "keda-operator", None)
    || e == EnvVar("KEDA_HTTP_DEFAULT_TIMEOUT", "3000", None)
    || e == EnvVar("KEDA_HTTP_MIN_TLS_VERSION", "TLS12", None)
  }

  /** The user's variables, followed by the required ones whose names they do not use. */
  ghost predicate EnvIs(given: seq<EnvVar>, after: seq<EnvVar>) {
    && |given| <= |after| && after[..|given|] == given
    && forall e :: e in after[|given|..] <==> RequiredVar(e) && forall i :: 0 <= i < |given| ==> given[i].name != e.name
  }

  lemma EnvMeaning(given: seq<EnvVar>)
    ensures EnvIs(given, E.Sanitized(given))
  {
    E.SanitizedMeaning(given);
    forall e ensures e in E.REQUIRED <==> RequiredVar(e) {
    }
  }

  // ---- the components -----------------------------------------------------

  /** Of the object only the pod template differs, and of that the annotations, the labels, the priority
      class and the first container, of which only arguments, environment and resources differ. */
  ghost predicate OnlyTemplate(o: Obj, r: Obj) {
    && r == o.(template := r.template)
    && |r.template.containers| == |o.template.containers|
    && (forall i :: 0 < i < |o.template.containers| ==> r.template.containers[i] == o.template.containers[i])
    && (o.template.containers != [] ==>
          var c, d := o.template.containers[0], r.template.containers[0]; d == c.(args := d.args, env := d.env, resources := d.resources))
  }

  ghost predicate TemplateIs(o: Obj, r: Obj, sidecar: bool, annotations: Meta, resources: Option<string>) {
    && OnlyTemplate(o, r)
    && LabelsAre(o.template.labels, sidecar, r.template.labels)
    && Overlaid(o.template.annotations, annotations, r.template.annotations)
    && r.template.priorityClass == "keda-priority-class"
    && (o.template.containers != [] ==>
          r.template.containers[0].resources == if resources.Some? then resources.value else o.template.containers[0].resources)
  }

  ghost predicate OperatorWanted(s: KedaSpec, o: Obj, r: Obj) {
    && TemplateIs(o, r, s.istio.Some? && s.istio.value.operator == Some(true),
                  if s.podAnnotations.Some? then s.podAnnotations.value.operator else map[],
                  if s.resources.Some? then s.resources.value.operator else None)
    && (o.template.containers != [] ==>
          var c, d := o.template.containers[0], r.template.containers[0];
          && EnvIs(s.env, d.env)
          && (if s.logging.Some? && s.logging.value.operator.Some? then ZapArgs(s.logging.value.operator.value, c.args, d.args) else d.args == c.args))
  }

  /** With a sidecar the port of the metrics is exempted, unless the user says otherwise. */
  ghost predicate MetricsServerWanted(s: KedaSpec, o: Obj, r: Obj) {
    var sidecar := s.istio.Some? && s.istio.value.metricServer == Some(true);
    var user := if s.podAnnotations.Some? then s.podAnnotations.value.metricsServer else map[];
    && TemplateIs(o, r, sidecar,
                  if sidecar && ExcludeInboundPorts !in user then user[ExcludeInboundPorts := "6443"] else user,
                  if s.resources.Some? then s.resources.value.metricsServer else None)
    && (o.template.containers != [] ==>
          var c, d := o.template.containers[0], r.template.containers[0];
          && EnvIs(s.env, d.env)
          && (if s.logging.Some? && s.logging.value.metricsServer.Some? then MetricsArgs(s.logging.value.metricsServer.value, c.args, d.args) else d.args == c.args))
  }

  /** The webhooks get no sidecar and keep their environment. */
  ghost predicate WebhooksWanted(s: KedaSpec, o: Obj, r: Obj) {
    && TemplateIs(o, r, false,
                  if s.podAnnotations.Some? then s.podAnnotations.value.admissionWebhook else map[],
                  if s.resources.Some? then s.resources.value.admissionWebhook else None)
    && (o.template.containers != [] ==>
          var c, d := o.template.containers[0], r.template.containers[0];
          && d.env == c.env
          && (if s.logging.Some? && s.logging.value.admissionWebhook.Some? then ZapArgs(s.logging.value.admissionWebhook.value, c.args, d.args) else d.args == c.args))
  }

  /** Rules for the webhook port that admit everybody admit only that address, and no other rule changes. */
  ghost predicate PolicyWanted(addr: string, o: Obj, r: Obj) {
    && r == o.(ingress := r.ingress) && |r.ingress| == |o.ingress|
    && forall i :: 0 <= i < |o.ingress| ==>
         r.ingress[i] == if 9443 in o.ingress[i].ports && |o.ingress[i].from| == 0 then IngressRule(o.ingress[i].ports, [addr]) else o.ingress[i]
  }

  lemma LabelsMeaning(sidecar: bool, labels: Meta)
    ensures LabelsAre(labels, sidecar, NewLabels(sidecar, labels))
  {
  }

  lemma OnlyTemplateAfter(c: Component, s: KedaSpec, o: Obj)
    ensures OnlyTemplate(o, o.(template := TemplateAfter(c, s, o.template)))
  {
    hide NewArgs, NewLabels, AnnotationsOf, ResourcesOf, LoggingOf, E.Sanitized;
  }

  lemma ClosedAt(s: KedaSpec, addr: string, objs: seq<Obj>, c: Component)
    requires FirstIndex(objs, c) < |objs| && c != WebhookPolicy
    ensures var i := FirstIndex(objs, c); Chained(s, addr, objs)[i] == objs[i].(template := TemplateAfter(c, s, objs[i].template))
  {
    hide Chained, TemplateAfter, EditedBy;
    var i := FirstIndex(objs, c);
    ChainAt(s, addr, objs, i);
    OwnedBy(objs, c);
    DeploymentClosedForm(c, s, addr, objs[i]);
  }

  lemma OwnedBy(objs: seq<Obj>, c: Component)
    requires FirstIndex(objs, c) < |objs|
    ensures OwnerOf(objs, FirstIndex(objs, c)) == Some(c)
  {
    forall d: Component ensures d != c ==> FirstIndex(objs, d) != FirstIndex(objs, c) {
      if d != c { IndicesDisjoint(objs, c, d); }
    }
  }

  /** The operator after the chain. */
  lemma OperatorDesired(s: KedaSpec, addr: string, objs: seq<Obj>, i: nat)
    requires FirstDeployment(objs, i, KedaOperator)
    ensures OperatorWanted(s, objs[i], Chained(s, addr, objs)[i])
  {
    hide Chained, FirstIndex, FirstDeployment, ZapArgs, EnvIs, LabelsAre, E.Sanitized, NewLabels, OnlyTemplate, L.RewrittenLogging, L.SanitizedCfg;
    FirstMeaning(objs, i);
    ClosedAt(s, addr, objs, Operator);
    OnlyTemplateAfter(Operator, s, objs[i]);
    LabelsMeaning(SidecarOf(Operator, s), objs[i].template.labels);
    EnvMeaning(s.env);
    if s.logging.Some? && s.logging.value.operator.Some? {
      ZapMeaning(s.logging.value.operator.value, Container0(objs[i].template).args);
    }
  }

  lemma MetricsAnnotations(s: KedaSpec, before: Meta)
    ensures AnnotationsOf(MetricsServer, s).Some?
    ensures var sidecar := s.istio.Some? && s.istio.value.metricServer == Some(true);
      var user := if s.podAnnotations.Some? then s.podAnnotations.value.metricsServer else map[];
      Overlaid(before, if sidecar && ExcludeInboundPorts !in user then user[ExcludeInboundPorts := "6443"] else user,
               before + AnnotationsOf(MetricsServer, s).value)
  {
  }

  /** The metrics server after the chain. */
  lemma MetricsServerDesired(s: KedaSpec, addr: string, objs: seq<Obj>, i: nat)
    requires FirstDeployment(objs, i, KedaMetricsApiserver)
    ensures MetricsServerWanted(s, objs[i], Chained(s, addr, objs)[i])
  {
    hide Chained, FirstIndex, FirstDeployment, MetricsArgs, EnvIs, AnnotationsOf, Overlaid, LabelsAre, E.Sanitized, NewLabels, OnlyTemplate, L.RewrittenMetricsLogging, L.SanitizedCfg;
    FirstMeaning(objs, i);
    ClosedAt(s, addr, objs, MetricsServer);
    OnlyTemplateAfter(MetricsServer, s, objs[i]);
    LabelsMeaning(SidecarOf(MetricsServer, s), objs[i].template.labels);
    MetricsAnnotations(s, objs[i].template.annotations);
    EnvMeaning(s.env);
    if s.logging.Some? && s.logging.value.metricsServer.Some? {
      MetricsMeaning(s.logging.value.metricsServer.value, Container0(objs[i].template).args);
    }
  }

  /** The admission webhooks after the chain. */
  lemma WebhooksDesired(s: KedaSpec, addr: string, objs: seq<Obj>, i: nat)
    requires FirstDeployment(objs, i, KedaAdmissionWebhooks)
    ensures WebhooksWanted(s, objs[i], Chained(s, addr, objs)[i])
  {
    hide Chained, FirstIndex, FirstDeployment, ZapArgs, LabelsAre, E.Sanitized, NewLabels, OnlyTemplate, L.RewrittenLogging, L.SanitizedCfg;
    FirstMeaning(objs, i);
    ClosedAt(s, addr, objs, AdmissionWebhooks);
    OnlyTemplateAfter(AdmissionWebhooks, s, objs[i]);
    LabelsMeaning(SidecarOf(AdmissionWebhooks, s), objs[i].template.labels);
    if s.logging.Some? && s.logging.value.admissionWebhook.Some? {
      ZapMeaning(s.logging.value.admissionWebhook.value, Container0(objs[i].template).args);
    }
  }

  /** The webhook NetworkPolicy after the chain. */
  lemma PolicyDesired(s: KedaSpec, addr: string, objs: seq<Obj>, i: nat)
    requires FirstPolicy(objs, i)
    ensures PolicyWanted(addr, objs[i], Chained(s, addr, objs)[i])
  {
    hide Chained, FirstIndex, FirstPolicy;
    FirstMeaning(objs, i);
    ChainAt(s, addr, objs, i);
    OwnedBy(objs, WebhookPolicy);
    var p := EditedObj(WebhookPolicy, Peer, s, addr, objs[i]);
    assert Edits(WebhookPolicy)[1..] == [];
    assert EditedBy(WebhookPolicy, Edits(WebhookPolicy), s, addr, objs[i]) == EditedBy(WebhookPolicy, [], s, addr, p) == p;
  }

  // ---- the spec in memory -------------------------------------------------

  /** The same logging settings, but for the alias "text" of "console". */
  predicate Unaliased(cfg: Option<LoggingCommonCfg>, r: Option<LoggingCommonCfg>) {
    if cfg.None? then r.None?
    else r == Some(LoggingCommonCfg(cfg.value.level, if cfg.value.format == Some("text") then Some("console") else cfg.value.format, cfg.value.timeEncoding))
  }

  /** The edits leave the spec as it was, but for that alias in each of the three logging settings. */
  lemma SpecInMemory(s: KedaSpec)
    ensures var r := SanitizedByChain(s);
      && r == s.(logging := r.logging) && (s.logging.None? <==> r.logging.None?)
      && (s.logging.Some? ==>
            && Unaliased(s.logging.value.operator, r.logging.value.operator)
            && Unaliased(s.logging.value.metricsServer, r.logging.value.metricsServer)
            && Unaliased(s.logging.value.admissionWebhook, r.logging.value.admissionWebhook))
  {
  }
}
