/** The add-on's objects field by field: what the namespace override makes of a manifest, and what the
    cluster then holds (pkg/reconciler/addon.go:58-209, pkg/addon). */
module AddonContents {
  import opened KedaTypes
  import opened Objects
  import opened AddonManifest
  import opened AddonPlacement
  import opened Cluster
  import opened StateMachine
  import opened Controller
  import opened AddonExactness
  import opened AddonHistory
  import opened Convergence
  import opened DesiredState
  import opened DesiredCluster
  import Histories

  // ---- one object ---------------------------------------------------------

  /** A ServiceAccount of some namespace moves, any other subject stays. */
  predicate SubjectMoved(s: Subject, ns: string, r: Subject) {
    r == if s.kind == ServiceAccount && s.ns != "" then Subject(ServiceAccount, s.name, ns) else s
  }

  /** The two variables that name the namespace follow it, any other stays. */
  predicate VariableMoved(e: EnvVar, ns: string, r: EnvVar) {
    r == if e.name == "KEDA_HTTP_SCALER_TARGET_ADMIN_NAMESPACE" || e.name == "KEDA_HTTP_OPERATOR_NAMESPACE" then EnvVar(e.name, ns, e.valueFrom)
         else e
  }

  ghost predicate ContainerMoved(c: Container, ns: string, r: Container) {
    && r == c.(env := r.env) && |r.env| == |c.env|
    && forall i :: 0 <= i < |c.env| ==> VariableMoved(c.env[i], ns, r.env[i])
  }

  /** The sidecar is asked for with the metrics port exempted, or declined. */
  ghost predicate SidecarAsked(before: Meta, istio: bool, after: Meta) {
    Overlaid(before, if istio then map[SidecarInject := "true", ExcludeInboundPorts := "9090"] else map[SidecarInject := "false"], after)
  }

  ghost predicate TemplateMoved(t: PodTemplate, ns: string, istio: bool, r: PodTemplate) {
    && r.priorityClass == t.priorityClass
    && Overlaid(t.labels, map[ModuleLabel := "keda"], r.labels)
    && SidecarAsked(t.annotations, istio, r.annotations)
    && |r.containers| == |t.containers|
    && forall i :: 0 <= i < |t.containers| ==> ContainerMoved(t.containers[i], ns, r.containers[i])
  }

  /** An object of a manifest under another namespace. */
  ghost predicate MovedTo(o: Obj, ns: string, istio: bool, r: Obj) {
    && r == o.(ns := r.ns, labels := r.labels, subjects := r.subjects, template := r.template)
    && r.ns == (if o.ns == "" then "" else ns)
    && CommonLabels(o.labels, r.labels, {})
    && |r.subjects| == |o.subjects|
    && (forall i :: 0 <= i < |o.subjects| ==>
          if o.kind == ClusterRoleBinding || o.kind == RoleBinding then SubjectMoved(o.subjects[i], ns, r.subjects[i]) else r.subjects[i] == o.subjects[i])
    && (if o.kind == Deployment then TemplateMoved(o.template, ns, istio, r.template) else r.template == o.template)
  }

  lemma TemplateMeaning(t: PodTemplate, ns: string, istio: bool)
    ensures TemplateMoved(t, ns, istio, PatchedTemplate(ns, istio, t))
  {
    var r := PatchedTemplate(ns, istio, t);
    forall i | 0 <= i < |t.containers| ensures ContainerMoved(t.containers[i], ns, r.containers[i]) {
      forall j | 0 <= j < |t.containers[i].env| ensures VariableMoved(t.containers[i].env[j], ns, r.containers[i].env[j]) {
      }
    }
  }

  /** The override moves exactly what names the namespace, for every kind of object. */
  lemma OverrideMeaning(o: Obj, ns: string, istio: bool)
    ensures MovedTo(o, ns, istio, OverriddenObj(o, ns, istio))
  {
    hide PatchedTemplate, TemplateMoved;
    TemplateMeaning(o.template, ns, istio);
  }

  // ---- all objects --------------------------------------------------------

  /** The PeerAuthentication that opens the metrics port. */
  predicate IsPeerAuth(o: Obj, ns: string) {
    && o.group == SecurityIstio && o.version == V1 && o.kind == PeerAuthentication && o.name == EnvoyMetrics && o.ns == ns
    && o.labels == map[ModuleLabel := "keda", PartOfLabel := "keda-manager", ManagedByLabel := "keda-manager"]
    && o.rest == "port 15090 PERMISSIVE"
  }

  /** The moved manifest, then the policies under the namespace, then with sidecars the PeerAuthentication. */
  ghost predicate InstalledList(src: AddonSource, version: string, ns: string, istio: bool, list: seq<Obj>)
    requires version in src.manifests
  {
    var m, n := src.manifests[version], |src.manifests[version]| + |src.policies|;
    && |list| == n + (if istio then 1 else 0)
    && (forall i :: 0 <= i < |m| ==> MovedTo(m[i], ns, istio, list[i]))
    && (forall i :: |m| <= i < n ==> list[i] == src.policies[i - |m|].(ns := ns))
    && (istio ==> IsPeerAuth(list[n], ns))
  }

  lemma AddonObjectsMeaning(src: AddonSource, version: string, ns: string, istio: bool)
    requires version in src.manifests
    ensures InstalledList(src, version, ns, istio, AddonObjects(src, version, ns, istio))
  {
    hide MovedTo, OverriddenObj;
    var m := src.manifests[version];
    forall i | 0 <= i < |m| ensures MovedTo(m[i], ns, istio, AddonObjects(src, version, ns, istio)[i]) {
      OverrideMeaning(m[i], ns, istio);
    }
  }

  // ---- in the cluster -----------------------------------------------------

  /** Wherever the add-on is in place, the cluster holds each of its objects in the moved form. */
  lemma ClusterHoldsAddon(s: Sys, id: KedaId, p: Placement) returns (list: seq<Obj>)
    requires InPlace(s, id, p) && p.Placed?
    ensures p.version in s.env.src.manifests && InstalledList(s.env.src, p.version, p.ns, p.istio, list)
    ensures forall i :: 0 <= i < |list| && LastOfItsKey(list, i) ==>
              var key := ObjKey(list[i].group, list[i].kind, list[i].ns, list[i].name); key in s.world.objs && s.world.objs[key] == list[i]
  {
    hide FindKeda, Exact, Suitable, Records, Histories.SysInv, InstalledList, AddonObjects, LastOfItsKey;
    ExactIsKnown(s.env.src, s.world.objs, p);
    list := AddonObjects(s.env.src, p.version, p.ns, p.istio);
    AddonObjectsMeaning(s.env.src, p.version, p.ns, p.istio);
    forall i | 0 <= i < |list| && LastOfItsKey(list, i)
      ensures KeyOf(list[i]) in s.world.objs && s.world.objs[KeyOf(list[i])] == list[i]
    {
      InstalledAt(s.env.src, s.world.objs, p, list, i);
    }
  }

  lemma InstalledAt(src: AddonSource, objs: map<ObjKey, Obj>, p: Placement, list: seq<Obj>, i: nat)
    requires Exact(src, objs, p) && p.Placed? && p.version in src.manifests && list == AddonObjects(src, p.version, p.ns, p.istio)
    requires i < |list| && LastOfItsKey(list, i)
    ensures KeyOf(list[i]) in objs && objs[KeyOf(list[i])] == list[i]
  {
    hide AddonObjects, AsStored, IsAddonKey, LastOfItsKey;
    AddonListKeys(src, p.version, p.ns, p.istio);
    LastStored(map[], list, i);
    var key := KeyOf(list[i]);
    assert key in Keys(list);
    assert Agrees(objs, Contents(src, p), key);
  }
}
