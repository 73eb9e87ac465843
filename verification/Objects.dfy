/** Kubernetes objects as the reconciler handles them: the fields it reads or patches, and
    everything else as one opaque payload. An absent map or list is an empty one. */
module Objects {
  import opened KedaTypes

  datatype Kind = Deployment | NetworkPolicy | CustomResourceDefinition | ClusterRoleBinding | RoleBinding
                | PeerAuthentication | Lease | OtherKind(text: string)

  /** apps, networking.k8s.io, apiextensions.k8s.io, coordination.k8s.io, security.istio.io, http.keda.sh */
  datatype Group = Apps | Networking | ApiExtensions | Coordination | SecurityIstio | HttpKeda | OtherGroup(text: string)

  datatype Version = V1 | V1Alpha1 | NoVersion | OtherVersion(text: string)

  /** The names the reconciler looks for or creates: keda-operator, keda-operator-metrics-apiserver,
      keda-admission-webhooks, operator.keda.sh, 4123c01c.operator.kyma-project.io,
      keda-add-ons-http-envoy-metrics; every other name by its text. */
  datatype Name = KedaOperator | KedaMetricsApiserver | KedaAdmissionWebhooks | OperatorLease | ManagerLease
                | EnvoyMetrics | OtherName(text: string)

  datatype Container = Container(name: string, args: seq<string>, env: seq<EnvVar>, resources: string, rest: string)

  datatype PodTemplate = PodTemplate(
    labels: Meta, annotations: Meta, priorityClass: string, containers: seq<Container>)

  datatype SubjectKind = ServiceAccount | OtherSubject

  datatype Subject = Subject(kind: SubjectKind, name: string, ns: string)

  /** Port numbers, and the peers the rule admits (none: everybody). */
  datatype IngressRule = IngressRule(ports: seq<int>, from: seq<string>)

  datatype CrdVersion = CrdVersion(name: Version, storage: bool)

  datatype CrdSpec = CrdSpec(group: Group, kind: string, versions: seq<CrdVersion>)

  datatype Obj = Obj(
    group: Group, version: Version, kind: Kind, name: Name, ns: string,
    labels: Meta, annotations: Meta,
    selector: Meta, template: PodTemplate, subjects: seq<Subject>,
    ingress: seq<IngressRule>, crd: CrdSpec, rest: string)

  /** What a Get, Patch or Delete addresses. */
  datatype ObjKey = ObjKey(group: Group, kind: Kind, ns: string, name: Name)

  function KeyOf(o: Obj): ObjKey { ObjKey(o.group, o.kind, o.ns, o.name) }

  /** The kind of resource a List asks for. */
  datatype Gvk = Gvk(group: Group, version: Version, kind: string)

  /** setCommonLabels */
  function WithCommonLabels(labels: Meta): Meta {
    labels[ModuleLabel := "keda"][PartOfLabel := "keda-manager"][ManagedByLabel := "keda-manager"]
  }

  const EMPTY_TEMPLATE := PodTemplate(map[], map[], "", [])

  function LeaseObj(name: Name): Obj {
    Obj(Coordination, V1, Lease, name, "kyma-system", map[], map[], map[], EMPTY_TEMPLATE, [], [],
        CrdSpec(OtherGroup(""), "", []), "")
  }

  const LEASES := [LeaseObj(ManagerLease), LeaseObj(OperatorLease)]

  predicate IsCrd(o: Obj) { o.kind == CustomResourceDefinition && o.group == ApiExtensions }

  /** The first version marked as the storage version. */
  function StoredVersion(versions: seq<CrdVersion>): Version {
    if versions == [] then NoVersion else if versions[0].storage then versions[0].name else StoredVersion(versions[1..])
  }

  function CrdGvk(o: Obj): Gvk { Gvk(o.crd.group, StoredVersion(o.crd.versions), o.crd.kind) }

  predicate IsDeployment(o: Obj) { o.kind == Deployment && o.group == Apps && o.version == V1 }
}
