/** The HTTP add-on's objects for a version and a namespace: the fetched manifest with its
    namespace overridden, the fixed NetworkPolicies, and the PeerAuthentication
    (pkg/reconciler/addon.go:58-209, pkg/addon). */
module AddonManifest {
  import opened KedaTypes
  import opened Objects

  /** Where manifests come from: a fixed list of objects per known version, and the policy file. */
  datatype AddonSource = AddonSource(manifests: map<string, seq<Obj>>, policies: seq<Obj>)

  predicate IsNamespaceEnv(name: string) {
    name == "KEDA_HTTP_SCALER_TARGET_ADMIN_NAMESPACE" || name == "KEDA_HTTP_OPERATOR_NAMESPACE"
  }

  // ---- specification ------------------------------------------------------

  function PatchedEnvVar(ns: string, e: EnvVar): EnvVar {
    if IsNamespaceEnv(e.name) then e.(value := ns) else e
  }

  function PatchedEnv(ns: string, env: seq<EnvVar>): seq<EnvVar> {
    seq(|env|, i requires 0 <= i < |env| => PatchedEnvVar(ns, env[i]))
  }

  function PatchedContainers(ns: string, cs: seq<Container>): seq<Container> {
    seq(|cs|, i requires 0 <= i < |cs| => cs[i].(env := PatchedEnv(ns, cs[i].env)))
  }

  function PatchedSubject(ns: string, s: Subject): Subject {
    if s.kind == ServiceAccount && s.ns != "" then s.(ns := ns) else s
  }

  function PatchedSubjects(ns: string, subjects: seq<Subject>): seq<Subject> {
    seq(|subjects|, i requires 0 <= i < |subjects| => PatchedSubject(ns, subjects[i]))
  }

  function PatchedAnnotations(istio: bool, a: Meta): Meta {
    if istio then a[ExcludeInboundPorts := "9090"][SidecarInject := "true"] else a[SidecarInject := "false"]
  }

  function PatchedTemplate(ns: string, istio: bool, t: PodTemplate): PodTemplate {
    PodTemplate(t.labels[ModuleLabel := "keda"], PatchedAnnotations(istio, t.annotations), t.priorityClass,
                PatchedContainers(ns, t.containers))
  }

  function OverriddenObj(o: Obj, ns: string, istio: bool): Obj {
    var o1 := o.(ns := if o.ns != "" then ns else o.ns, labels := WithCommonLabels(o.labels));
    if o.kind == ClusterRoleBinding || o.kind == RoleBinding then o1.(subjects := PatchedSubjects(ns, o.subjects))
    else if o.kind == Deployment then o1.(template := PatchedTemplate(ns, istio, o.template))
    else o1
  }

  function Overridden(objs: seq<Obj>, ns: string, istio: bool): seq<Obj> {
    seq(|objs|, i requires 0 <= i < |objs| => OverriddenObj(objs[i], ns, istio))
  }

  function NetworkPolicies(src: AddonSource, ns: string): seq<Obj> {
    seq(|src.policies|, i requires 0 <= i < |src.policies| => src.policies[i].(ns := ns))
  }

  function PeerAuth(ns: string): Obj {
    Obj(SecurityIstio, V1, PeerAuthentication, EnvoyMetrics, ns, WithCommonLabels(map[]), map[], map[],
        EMPTY_TEMPLATE, [], [], CrdSpec(OtherGroup(""), "", []), "port 15090 PERMISSIVE")
  }

  function PeerAuthKey(ns: string): ObjKey { KeyOf(PeerAuth(ns)) }

  /** fetchAddonObjs for a version that can be fetched. */
  function AddonObjects(src: AddonSource, version: string, ns: string, istio: bool): seq<Obj>
    requires version in src.manifests
  {
    Overridden(src.manifests[version], ns, istio) + NetworkPolicies(src, ns) + if istio then [PeerAuth(ns)] else []
  }

  // ---- the loops of the source --------------------------------------------

  method PatchSubjectsNamespace(subjects: seq<Subject>, ns: string) returns (r: seq<Subject>)
    ensures r == PatchedSubjects(ns, subjects)
  {
    r := subjects;
    for i := 0 to |subjects|
      invariant |r| == |subjects|
      invariant forall k :: 0 <= k < i ==> r[k] == PatchedSubject(ns, subjects[k])
      invariant forall k :: i <= k < |subjects| ==> r[k] == subjects[k]
    {
      if r[i].kind == ServiceAccount && r[i].ns != "" && r[i].ns != ns {
        r := r[i := r[i].(ns := ns)];
      }
    }
  }

  method PatchEnvList(env: seq<EnvVar>, ns: string) returns (r: seq<EnvVar>)
    ensures r == PatchedEnv(ns, env)
  {
    r := env;
    for i := 0 to |env|
      invariant |r| == |env|
      invariant forall k :: 0 <= k < i ==> r[k] == PatchedEnvVar(ns, env[k])
      invariant forall k :: i <= k < |env| ==> r[k] == env[k]
    {
      if IsNamespaceEnv(r[i].name) && r[i].value != ns {
        r := r[i := r[i].(value := ns)];
      }
    }
  }

  method PatchDeploymentEnvNamespace(cs: seq<Container>, ns: string) returns (r: seq<Container>)
    ensures r == PatchedContainers(ns, cs)
  {
    r := cs;
    for i := 0 to |cs|
      invariant |r| == |cs|
      invariant forall k :: 0 <= k < i ==> r[k] == cs[k].(env := PatchedEnv(ns, cs[k].env))
      invariant forall k :: i <= k < |cs| ==> r[k] == cs[k]
    {
      var env := PatchEnvList(r[i].env, ns);
      r := r[i := r[i].(env := env)];
    }
  }

  method PatchDeployment(t: PodTemplate, ns: string, istio: bool) returns (r: PodTemplate)
    ensures r == PatchedTemplate(ns, istio, t)
  {
    var cs := PatchDeploymentEnvNamespace(t.containers, ns);
    var annotations := t.annotations;
    if istio {
      annotations := annotations[ExcludeInboundPorts := "9090"];
      annotations := annotations[SidecarInject := "true"];
    } else {
      annotations := annotations[SidecarInject := "false"];
    }
    r := PodTemplate(t.labels[ModuleLabel := "keda"], annotations, t.priorityClass, cs);
  }

  method OverrideObj(o: Obj, ns: string, istio: bool) returns (r: Obj)
    ensures r == OverriddenObj(o, ns, istio)
  {
    r := o;
    if r.ns != "" {
      r := r.(ns := ns);
    }
    r := r.(labels := WithCommonLabels(r.labels));
    if o.kind == ClusterRoleBinding || o.kind == RoleBinding {
      var subjects := PatchSubjectsNamespace(o.subjects, ns);
      r := r.(subjects := subjects);
    } else if o.kind == Deployment {
      var t := PatchDeployment(o.template, ns, istio);
      r := r.(template := t);
    }
  }

  /** In place, object by object. */
  method OverrideNamespace(objs: array<Obj>, ns: string, istio: bool)
    modifies objs
    ensures objs[..] == Overridden(old(objs[..]), ns, istio)
  {
    for i := 0 to objs.Length
      invariant forall k :: 0 <= k < i ==> objs[k] == OverriddenObj(old(objs[k]), ns, istio)
      invariant forall k :: i <= k < objs.Length ==> objs[k] == old(objs[k])
    {
      objs[i] := OverrideObj(objs[i], ns, istio);
    }
  }

  // ---- the algebra of the override ----------------------------------------

  /** Overriding to A and then to B is overriding to B, so twice is once; cluster-scoped
      objects stay cluster-scoped and namespaced ones move. */
  lemma OverrideLastWins(o: Obj, a: string, b: string, istio: bool)
    requires a != "" && b != ""
    ensures OverriddenObj(OverriddenObj(o, a, istio), b, istio) == OverriddenObj(o, b, istio)
    ensures OverriddenObj(o, b, istio).ns == if o.ns == "" then "" else b
  {
    assert WithCommonLabels(WithCommonLabels(o.labels)) == WithCommonLabels(o.labels);
    assert PatchedSubjects(b, PatchedSubjects(a, o.subjects)) == PatchedSubjects(b, o.subjects);
    TemplateLastWins(o.template, a, b, istio);
  }

  lemma TemplateLastWins(t: PodTemplate, a: string, b: string, istio: bool)
    ensures PatchedTemplate(b, istio, PatchedTemplate(a, istio, t)) == PatchedTemplate(b, istio, t)
  {
    assert t.labels[ModuleLabel := "keda"][ModuleLabel := "keda"] == t.labels[ModuleLabel := "keda"];
    assert PatchedAnnotations(istio, PatchedAnnotations(istio, t.annotations)) == PatchedAnnotations(istio, t.annotations);
    forall i | 0 <= i < |t.containers|
      ensures PatchedEnv(b, PatchedEnv(a, t.containers[i].env)) == PatchedEnv(b, t.containers[i].env)
    {
      EnvLastWins(t.containers[i].env, a, b);
    }
    assert PatchedContainers(b, PatchedContainers(a, t.containers)) == PatchedContainers(b, t.containers);
  }

  lemma EnvLastWins(env: seq<EnvVar>, a: string, b: string)
    ensures PatchedEnv(b, PatchedEnv(a, env)) == PatchedEnv(b, env)
  {
    forall i | 0 <= i < |env| ensures PatchedEnvVar(b, PatchedEnvVar(a, env[i])) == PatchedEnvVar(b, env[i]) {
    }
  }

  /** What the override leaves alone: kind, group, name and every subject that is not a
      namespaced ServiceAccount, every environment variable but the two namespace ones. */
  lemma OverrideFrame(o: Obj, ns: string, istio: bool)
    ensures var r := OverriddenObj(o, ns, istio);
      && r.kind == o.kind && r.group == o.group && r.name == o.name && r.selector == o.selector
      && |r.subjects| == |o.subjects|
      && (forall i :: 0 <= i < |o.subjects| && (o.subjects[i].kind != ServiceAccount || o.subjects[i].ns == "") ==>
            r.subjects[i] == o.subjects[i])
      && |r.template.containers| == |o.template.containers|
      && (forall i, j :: 0 <= i < |o.template.containers| && 0 <= j < |o.template.containers[i].env| ==>
            && |r.template.containers[i].env| == |o.template.containers[i].env|
            && (!IsNamespaceEnv(o.template.containers[i].env[j].name) ==>
                  r.template.containers[i].env[j] == o.template.containers[i].env[j]))
  {
  }

  ghost predicate Selects(selector: Meta, labels: Meta) {
    forall k :: k in selector ==> k in labels && labels[k] == selector[k]
  }

  /** A Deployment goes on selecting its own pods exactly if its selector does not ask for
      another Kyma module. */
  lemma SelectorStaysContained(o: Obj, ns: string, istio: bool)
    requires o.kind == Deployment && Selects(o.selector, o.template.labels)
    ensures var r := OverriddenObj(o, ns, istio);
      Selects(r.selector, r.template.labels) <==> (ModuleLabel in o.selector ==> o.selector[ModuleLabel] == "keda")
  {
    var r := OverriddenObj(o, ns, istio);
    if Selects(r.selector, r.template.labels) && ModuleLabel in o.selector {
      assert r.template.labels[ModuleLabel] == "keda";
    }
  }

  // ---- keys ---------------------------------------------------------------

  function Keys(objs: seq<Obj>): set<ObjKey> {
    set i | 0 <= i < |objs| :: KeyOf(objs[i])
  }

  /** Everything an installation of that version in that namespace can own, sidecar or not. */
  function AddonKeys(src: AddonSource, version: string, ns: string): set<ObjKey>
    requires version in src.manifests
  {
    Keys(AddonObjects(src, version, ns, true))
  }

  /** The sidecar setting changes contents, and the PeerAuthentication, but no other key. */
  lemma AddonKeysByIstio(src: AddonSource, version: string, ns: string)
    requires version in src.manifests
    ensures AddonKeys(src, version, ns) == Keys(AddonObjects(src, version, ns, false)) + {PeerAuthKey(ns)}
  {
    var on := AddonObjects(src, version, ns, true);
    var off := AddonObjects(src, version, ns, false);
    assert |on| == |off| + 1 && on[|off|] == PeerAuth(ns);
    forall i | 0 <= i < |off| ensures KeyOf(off[i]) == KeyOf(on[i]) {
      var n := |src.manifests[version]|;
      if i < n {
        OverrideFrame(src.manifests[version][i], ns, true);
        OverrideFrame(src.manifests[version][i], ns, false);
      } else {
        assert off[i] == NetworkPolicies(src, ns)[i - n] == on[i];
      }
    }
    forall k | k in AddonKeys(src, version, ns) ensures k in Keys(off) + {PeerAuthKey(ns)} {
      var i :| 0 <= i < |on| && KeyOf(on[i]) == k;
      if i < |off| { assert KeyOf(off[i]) == k; }
    }
    forall k | k in Keys(off) + {PeerAuthKey(ns)} ensures k in AddonKeys(src, version, ns) {
      if k in Keys(off) {
        var i :| 0 <= i < |off| && KeyOf(off[i]) == k;
        assert KeyOf(on[i]) == k;
      } else {
        assert KeyOf(on[|off|]) == k;
      }
    }
  }
}
