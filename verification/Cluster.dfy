/** The cluster behind an API client whose every call may fail.
    A call consumes one fault from a list fixed in advance: no fault (the server answers
    truthfully), a refusal (an error and no effect), or a lost reply (the effect and an error).
    An exhausted list means no more faults, so [] is a fault-free run. */
module Cluster {
  import opened KedaTypes
  import opened Objects
  import opened AddonManifest

  datatype DeploymentStatus = DeploymentStatus(ready: bool, replicaFailure: bool)

  /** The stored Keda CRs in list order, the other objects, the number of resources per listable
      kind, what the Deployments' controllers report, and the namespaces. */
  datatype World = World(kedas: seq<KedaCR>, objs: map<ObjKey, Obj>, items: map<Gvk, nat>,
                         statuses: map<ObjKey, DeploymentStatus>, namespaces: set<string>)

  datatype Fault = NoFault | Refused(e: Err) | Lost(e: Err)

  datatype Event = Event(warning: bool, reason: Reason, message: Message)

  /** One entry per call, in order; landed tells whether the write reached the server. */
  datatype Call =
    | ListKedas(err: Option<Err>)
    | ListItems(gvk: Gvk, count: nat, err: Option<Err>)
    | CreateNamespace(ns: string, err: Option<Err>)
    | FetchManifest(version: string, ns: string, err: Option<Err>)
    | ConvertObj(err: Option<Err>)
    | PatchObj(key: ObjKey, err: Option<Err>)
    | DeleteObj(key: ObjKey, landed: bool, err: Option<Err>)
    | UpdateMeta(id: KedaId, finalizers: set<string>, annotations: Annotations, landed: bool, err: Option<Err>)
    | UpdateStatus(id: KedaId, status: Status, landed: bool, err: Option<Err>)
    | Emit(event: Event)

  datatype Api = Api(world: World, faults: seq<Fault>, trace: seq<Call>) {
    function Fault(): Fault { if faults == [] then NoFault else faults[0] }

    /** The state after one call. */
    function After(w: World, c: Call): Api {
      Api(w, if faults == [] then [] else faults[1..], trace + [c])
    }
  }

  predicate Lands(f: Fault) { !f.Refused? }

  function ReplyTo(f: Fault, truth: Option<Err>): Option<Err> {
    match f
    case NoFault => truth
    case Refused(e) => Some(e)
    case Lost(e) => Some(e)
  }

  datatype Rep = Rep(api: Api, err: Option<Err>)

  // ---- the stored CRs -----------------------------------------------------

  ghost predicate UniqueIds(kedas: seq<KedaCR>) {
    forall i, j :: 0 <= i < j < |kedas| ==> kedas[i].id != kedas[j].id
  }

  function FindKeda(kedas: seq<KedaCR>, id: KedaId): (r: Option<KedaCR>)
    ensures r.Some? ==> r.value in kedas && r.value.id == id
    ensures r.None? <==> forall k :: k in kedas ==> k.id != id
    ensures UniqueIds(kedas) ==> forall k :: k in kedas && k.id == id ==> r == Some(k)
  {
    if kedas == [] then None
    else if kedas[0].id == id then Some(kedas[0])
    else FindKeda(kedas[1..], id)
  }

  function Replaced(kedas: seq<KedaCR>, k: KedaCR): (r: seq<KedaCR>)
    ensures |r| == |kedas|
    ensures forall i :: 0 <= i < |r| ==> r[i] == if kedas[i].id == k.id then k else kedas[i]
    ensures forall id :: FindKeda(r, id) == if id == k.id && FindKeda(kedas, id).Some? then Some(k) else FindKeda(kedas, id)
    ensures UniqueIds(kedas) ==> UniqueIds(r)
  {
    if kedas == [] then []
    else
      var rest := Replaced(kedas[1..], k);
      var r := [if kedas[0].id == k.id then k else kedas[0]] + rest;
      assert r[1..] == rest;
      r
  }

  function Without(kedas: seq<KedaCR>, id: KedaId): (r: seq<KedaCR>)
    ensures forall k :: k in r <==> k in kedas && k.id != id
    ensures forall i :: FindKeda(r, i) == if i == id then None else FindKeda(kedas, i)
    ensures UniqueIds(kedas) ==> UniqueIds(r)
  {
    if kedas == [] then []
    else
      var rest := Without(kedas[1..], id);
      if kedas[0].id == id then rest
      else
        var r := [kedas[0]] + rest;
        assert r[1..] == rest;
        assert UniqueIds(kedas) ==> UniqueIds(r) by {
          if UniqueIds(kedas) {
            assert forall j :: 0 < j < |r| ==> r[j] in kedas[1..];
          }
        }
        r
  }

  /** A list of CRs by its first one and the rest. */
  lemma Prepended(c: KedaCR, rest: seq<KedaCR>)
    ensures forall d :: d in [c] + rest <==> d == c || d in rest
    ensures forall id :: FindKeda([c] + rest, id) == if c.id == id then Some(c) else FindKeda(rest, id)
    ensures UniqueIds([c] + rest) <==> UniqueIds(rest) && FindKeda(rest, c.id).None?
  {
    var r := [c] + rest;
    assert r[1..] == rest;
    assert forall i :: 0 <= i < |rest| ==> r[i + 1] == rest[i];
    if UniqueIds(r) {
      forall d | d in rest ensures d.id != c.id {
        var i :| 0 <= i < |rest| && rest[i] == d;
        assert r[0].id != r[i + 1].id;
      }
      forall i, j | 0 <= i < j < |rest| ensures rest[i].id != rest[j].id {
        assert r[i + 1].id != r[j + 1].id;
      }
    }
    if UniqueIds(rest) && FindKeda(rest, c.id).None? {
      forall i, j | 0 <= i < j < |r| ensures r[i].id != r[j].id {
        assert r[j] in rest;
      }
    }
  }

  /** A new CR at some place of the list, or at its end. */
  function Inserted(kedas: seq<KedaCR>, at: nat, k: KedaCR): (r: seq<KedaCR>)
    ensures forall c :: c in r <==> c == k || c in kedas
    ensures FindKeda(kedas, k.id).None? ==> forall id :: FindKeda(r, id) == if id == k.id then Some(k) else FindKeda(kedas, id)
    ensures UniqueIds(kedas) && FindKeda(kedas, k.id).None? ==> UniqueIds(r)
  {
    hide FindKeda, UniqueIds;
    if at == 0 || kedas == [] then
      Prepended(k, kedas);
      [k] + kedas
    else
      var rest := Inserted(kedas[1..], at - 1, k);
      assert kedas == [kedas[0]] + kedas[1..];
      Prepended(kedas[0], kedas[1..]);
      Prepended(kedas[0], rest);
      [kedas[0]] + rest
  }

  /** The served CR that a scan of the list meets first. */
  function FindServed(kedas: seq<KedaCR>): (r: Option<KedaCR>)
    ensures r.Some? ==> r.value in kedas && r.value.status.served == ServedTrue
    ensures r.None? <==> forall k :: k in kedas ==> k.status.served != ServedTrue
  {
    if kedas == [] then None
    else if kedas[0].status.served == ServedTrue then Some(kedas[0])
    else FindServed(kedas[1..])
  }

  /** A metadata and spec update keeps the stored status; the last finalizer leaving a CR
      marked for deletion removes the CR. */
  function StoreMeta(w: World, k: KedaCR): World {
    match FindKeda(w.kedas, k.id)
    case None => w
    case Some(s) =>
      if s.deleting && k.finalizers == {} then w.(kedas := Without(w.kedas, k.id))
      else w.(kedas := Replaced(w.kedas, s.(finalizers := k.finalizers, annotations := k.annotations, spec := k.spec)))
  }

  function StoreStatus(w: World, k: KedaCR): World {
    match FindKeda(w.kedas, k.id)
    case None => w
    case Some(s) => w.(kedas := Replaced(w.kedas, s.(status := k.status)))
  }

  function ExistsErr(w: World, id: KedaId): Option<Err> {
    if FindKeda(w.kedas, id).None? then Some(NotFound) else None
  }

  // ---- single calls -------------------------------------------------------

  datatype RepKedas = RepKedas(api: Api, items: seq<KedaCR>, err: Option<Err>)

  function DoListKedas(a: Api): RepKedas {
    var err := ReplyTo(a.Fault(), None);
    RepKedas(a.After(a.world, ListKedas(err)), if err.None? then a.world.kedas else [], err)
  }

  datatype RepItems = RepItems(api: Api, count: nat, err: Option<Err>)

  function ItemCount(w: World, gvk: Gvk): nat { if gvk in w.items then w.items[gvk] else 0 }

  function DoListItems(a: Api, gvk: Gvk): RepItems {
    var err := ReplyTo(a.Fault(), None);
    var count := if err.None? then ItemCount(a.world, gvk) else 0;
    RepItems(a.After(a.world, ListItems(gvk, count, err)), count, err)
  }

  function DoCreateNamespace(a: Api, ns: string): Rep {
    var err := ReplyTo(a.Fault(), if ns in a.world.namespaces then Some(AlreadyExists) else None);
    var w := if Lands(a.Fault()) then a.world.(namespaces := a.world.namespaces + {ns}) else a.world;
    Rep(a.After(w, CreateNamespace(ns, err)), err)
  }

  function DoFetch(a: Api, src: AddonSource, version: string, ns: string): (r: Rep)
    ensures r.err.None? ==> version in src.manifests
  {
    var err := ReplyTo(a.Fault(), if version in src.manifests then None else Some(UnknownVersion(version)));
    Rep(a.After(a.world, FetchManifest(version, ns, err)), err)
  }

  /** Converting between an unstructured and a typed object; only a fault makes it fail. */
  function DoConvert(a: Api): Rep {
    var err := ReplyTo(a.Fault(), None);
    Rep(a.After(a.world, ConvertObj(err)), err)
  }

  /** A forced server-side apply leaves the applied content in the store. */
  function DoPatch(a: Api, o: Obj): Rep {
    var err := ReplyTo(a.Fault(), None);
    var w := if Lands(a.Fault()) then a.world.(objs := a.world.objs[KeyOf(o) := o]) else a.world;
    Rep(a.After(w, PatchObj(KeyOf(o), err)), err)
  }

  function DoDelete(a: Api, key: ObjKey): Rep {
    var err := ReplyTo(a.Fault(), if key in a.world.objs then None else Some(NotFound));
    var w := if Lands(a.Fault()) then a.world.(objs := a.world.objs - {key}) else a.world;
    Rep(a.After(w, DeleteObj(key, Lands(a.Fault()), err)), err)
  }

  datatype RepKeda = RepKeda(api: Api, keda: KedaCR, err: Option<Err>)

  /** A successful Update overwrites the caller's instance with the stored CR, old status included. */
  function DoUpdateMeta(a: Api, k: KedaCR): RepKeda {
    var err := ReplyTo(a.Fault(), ExistsErr(a.world, k.id));
    var landed := Lands(a.Fault()) && FindKeda(a.world.kedas, k.id).Some?;
    var w := if landed then StoreMeta(a.world, k) else a.world;
    var reply := if err.None? && landed then
                   FindKeda(a.world.kedas, k.id).value.(finalizers := k.finalizers, annotations := k.annotations, spec := k.spec)
                 else k;
    RepKeda(a.After(w, UpdateMeta(k.id, k.finalizers, k.annotations, landed, err)), reply, err)
  }

  function DoUpdateStatus(a: Api, k: KedaCR): RepKeda {
    var err := ReplyTo(a.Fault(), ExistsErr(a.world, k.id));
    var landed := Lands(a.Fault()) && FindKeda(a.world.kedas, k.id).Some?;
    var w := if landed then StoreStatus(a.world, k) else a.world;
    var reply := if err.None? && landed then FindKeda(a.world.kedas, k.id).value.(status := k.status) else k;
    RepKeda(a.After(w, UpdateStatus(k.id, k.status, landed, err)), reply, err)
  }

  function DoEmit(a: Api, e: Event): Api { a.(trace := a.trace + [Emit(e)]) }

  // ---- lists of calls -----------------------------------------------------

  /** errors.Join */
  function Join(acc: Option<Err>, e: Option<Err>): Option<Err> {
    if e.None? then acc else Some(Joined(acc, e.value))
  }

  function AsStored(objs: map<ObjKey, Obj>, list: seq<Obj>): map<ObjKey, Obj>
    decreases list
  {
    if list == [] then objs else AsStored(objs[KeyOf(list[0]) := list[0]], list[1..])
  }

  /** Patch every object, whatever happened to the ones before. */
  function ApplyAll(a: Api, list: seq<Obj>, acc: Option<Err>): (r: Rep)
    decreases list
    ensures r.api.world == a.world.(objs := r.api.world.objs)
    ensures a.trace <= r.api.trace && |r.api.trace| == |a.trace| + |list|
    ensures forall i {:trigger r.api.trace[i]} :: |a.trace| <= i < |r.api.trace| ==>
              r.api.trace[i].PatchObj? && r.api.trace[i].key == KeyOf(list[i - |a.trace|])
    ensures r.err.None? <==> acc.None? && forall i :: |a.trace| <= i < |r.api.trace| ==> r.api.trace[i].err.None?
    ensures a.faults == [] ==>
              r.api.faults == [] && r.err == acc && r.api.world.objs == AsStored(a.world.objs, list)
    ensures forall k :: k !in Keys(list) ==>
              (k in r.api.world.objs <==> k in a.world.objs) && (k in a.world.objs ==> r.api.world.objs[k] == a.world.objs[k])
  {
    if list == [] then Rep(a, acc)
    else
      var p := DoPatch(a, list[0]);
      var r := ApplyAll(p.api, list[1..], Join(acc, p.err));
      assert KeyOf(list[0]) in Keys(list);
      assert forall k :: k in Keys(list[1..]) ==> k in Keys(list) by {
        forall k | k in Keys(list[1..]) ensures k in Keys(list) {
          var i :| 0 <= i < |list[1..]| && KeyOf(list[1..][i]) == k;
          assert KeyOf(list[i + 1]) == k;
        }
      }
      assert r.api.trace[|a.trace|] == p.api.trace[|a.trace|];
      r
  }

  /** Delete every object, whatever happened to the ones before; NotFound is no error. */
  function DeleteAll(a: Api, list: seq<Obj>, acc: Option<Err>): (r: Rep)
    decreases list
    ensures r.api.world == a.world.(objs := r.api.world.objs)
    ensures a.trace <= r.api.trace && |r.api.trace| == |a.trace| + |list|
    ensures forall i {:trigger r.api.trace[i]} :: |a.trace| <= i < |r.api.trace| ==>
              r.api.trace[i].DeleteObj? && r.api.trace[i].key == KeyOf(list[i - |a.trace|])
    ensures r.err.None? <==> acc.None? && forall i :: |a.trace| <= i < |r.api.trace| ==> IgnoreNotFound(r.api.trace[i].err).None?
    ensures a.faults == [] ==> r.api.faults == [] && r.err == acc && r.api.world.objs == a.world.objs - Keys(list)
    ensures forall k :: k !in Keys(list) ==>
              (k in r.api.world.objs <==> k in a.world.objs) && (k in a.world.objs ==> r.api.world.objs[k] == a.world.objs[k])
  {
    if list == [] then Rep(a, acc)
    else
      var p := DoDelete(a, KeyOf(list[0]));
      var r := DeleteAll(p.api, list[1..], Join(acc, IgnoreNotFound(p.err)));
      assert Keys(list) == {KeyOf(list[0])} + Keys(list[1..]) by {
        forall k | k in Keys(list[1..]) ensures k in Keys(list) {
          var i :| 0 <= i < |list[1..]| && KeyOf(list[1..][i]) == k;
          assert KeyOf(list[i + 1]) == k;
        }
        forall k | k in Keys(list) ensures k in {KeyOf(list[0])} + Keys(list[1..]) {
          var i :| 0 <= i < |list| && KeyOf(list[i]) == k;
          if i > 0 { assert KeyOf(list[1..][i - 1]) == k; }
        }
      }
      assert r.api.trace[|a.trace|] == p.api.trace[|a.trace|];
      r
  }

  /** NotFound and a missing Istio installation are fine. */
  function DeletePeerAuth(a: Api, ns: string): Rep {
    var r := DoDelete(a, PeerAuthKey(ns));
    Rep(r.api, if r.err == Some(NotFound) || r.err == Some(NoMatch) then None else r.err)
  }

  // ---- the client ---------------------------------------------------------

  class Client {
    var world: World
    var faults: seq<Fault>
    var trace: seq<Call>

    ghost function View(): Api
      reads this
    {
      Api(world, faults, trace)
    }

    constructor (w: World, fs: seq<Fault>)
      ensures View() == Api(w, fs, [])
    {
      world, faults, trace := w, fs, [];
    }

    /** Take the next fault. */
    method Next() returns (f: Fault)
      modifies this`faults
      ensures f == old(View()).Fault()
      ensures faults == if old(faults) == [] then [] else old(faults)[1..]
    {
      f := NoFault;
      if faults != [] {
        f := faults[0];
        faults := faults[1..];
      }
    }

    method List() returns (items: seq<KedaCR>, err: Option<Err>)
      modifies this
      ensures RepKedas(View(), items, err) == DoListKedas(old(View()))
    {
      var f := Next();
      err := ReplyTo(f, None);
      items := if err.None? then world.kedas else [];
      trace := trace + [ListKedas(err)];
    }

    method ListOf(gvk: Gvk) returns (count: nat, err: Option<Err>)
      modifies this
      ensures RepItems(View(), count, err) == DoListItems(old(View()), gvk)
    {
      var f := Next();
      err := ReplyTo(f, None);
      count := if err.None? then ItemCount(world, gvk) else 0;
      trace := trace + [ListItems(gvk, count, err)];
    }

    method Create(ns: string) returns (err: Option<Err>)
      modifies this
      ensures Rep(View(), err) == DoCreateNamespace(old(View()), ns)
    {
      var f := Next();
      err := ReplyTo(f, if ns in world.namespaces then Some(AlreadyExists) else None);
      if Lands(f) {
        world := world.(namespaces := world.namespaces + {ns});
      }
      trace := trace + [CreateNamespace(ns, err)];
    }

    method Fetch(src: AddonSource, version: string, ns: string) returns (err: Option<Err>)
      modifies this
      ensures Rep(View(), err) == DoFetch(old(View()), src, version, ns)
    {
      var f := Next();
      err := ReplyTo(f, if version in src.manifests then None else Some(UnknownVersion(version)));
      trace := trace + [FetchManifest(version, ns, err)];
    }

    method Convert() returns (err: Option<Err>)
      modifies this
      ensures Rep(View(), err) == DoConvert(old(View()))
    {
      var f := Next();
      err := ReplyTo(f, None);
      trace := trace + [ConvertObj(err)];
    }

    method Patch(o: Obj) returns (err: Option<Err>)
      modifies this
      ensures Rep(View(), err) == DoPatch(old(View()), o)
    {
      var f := Next();
      err := ReplyTo(f, None);
      if Lands(f) {
        world := world.(objs := world.objs[KeyOf(o) := o]);
      }
      trace := trace + [PatchObj(KeyOf(o), err)];
    }

    method Delete(key: ObjKey) returns (err: Option<Err>)
      modifies this
      ensures Rep(View(), err) == DoDelete(old(View()), key)
    {
      var f := Next();
      err := ReplyTo(f, if key in world.objs then None else Some(NotFound));
      if Lands(f) {
        world := world.(objs := world.objs - {key});
      }
      trace := trace + [DeleteObj(key, Lands(f), err)];
    }

    /** The value the API server is sent. */
    method Snapshot(k: Keda) returns (v: KedaCR)
      ensures v == k.Value()
    {
      v := KedaCR(k.id, k.uid, k.deleting, k.finalizers, k.annotations, k.spec, k.status);
    }

    method Update(k: Keda) returns (err: Option<Err>)
      modifies this, k
      ensures RepKeda(View(), k.Value(), err) == DoUpdateMeta(old(View()), old(k.Value()))
    {
      var f := Next();
      var v := Snapshot(k);
      var stored := FindKeda(world.kedas, k.id);
      err := ReplyTo(f, ExistsErr(world, k.id));
      var landed := Lands(f) && stored.Some?;
      if landed {
        world := StoreMeta(world, v);
        if err.None? {
          k.Overwrite(stored.value.(finalizers := v.finalizers, annotations := v.annotations, spec := v.spec));
        }
      }
      trace := trace + [UpdateMeta(v.id, v.finalizers, v.annotations, landed, err)];
    }

    method StatusUpdate(k: Keda) returns (err: Option<Err>)
      modifies this, k
      ensures RepKeda(View(), k.Value(), err) == DoUpdateStatus(old(View()), old(k.Value()))
    {
      var f := Next();
      var v := Snapshot(k);
      var stored := FindKeda(world.kedas, k.id);
      err := ReplyTo(f, ExistsErr(world, k.id));
      var landed := Lands(f) && stored.Some?;
      if landed {
        world := StoreStatus(world, v);
        if err.None? {
          k.Overwrite(stored.value.(status := v.status));
        }
      }
      trace := trace + [UpdateStatus(v.id, v.status, landed, err)];
    }

    method Event(e: Event)
      modifies this`trace
      ensures View() == DoEmit(old(View()), e)
    {
      trace := trace + [Emit(e)];
    }

    method ApplyObjects(list: seq<Obj>) returns (applyErr: Option<Err>)
      modifies this
      ensures Rep(View(), applyErr) == ApplyAll(old(View()), list, None)
    {
      applyErr := None;
      for i := 0 to |list|
        invariant ApplyAll(View(), list[i..], applyErr) == ApplyAll(old(View()), list, None)
      {
        assert list[i..][1..] == list[i+1..];
        var err := Patch(list[i]);
        applyErr := Join(applyErr, err);
      }
    }

    method DeleteObjects(list: seq<Obj>) returns (delErr: Option<Err>)
      modifies this
      ensures Rep(View(), delErr) == DeleteAll(old(View()), list, None)
    {
      delErr := None;
      for i := 0 to |list|
        invariant DeleteAll(View(), list[i..], delErr) == DeleteAll(old(View()), list, None)
      {
        assert list[i..][1..] == list[i+1..];
        var err := Delete(KeyOf(list[i]));
        delErr := Join(delErr, IgnoreNotFound(err));
      }
    }

    method DeletePeerAuthentication(ns: string) returns (err: Option<Err>)
      modifies this
      ensures Rep(View(), err) == DeletePeerAuth(old(View()), ns)
    {
      err := Delete(PeerAuthKey(ns));
      if err == Some(NotFound) || err == Some(NoMatch) {
        err := None;
      }
    }

    /** findServedKeda */
    method FindServedKeda() returns (served: Option<KedaCR>, err: Option<Err>)
      modifies this
      ensures var r := DoListKedas(old(View()));
        View() == r.api && err == r.err && served == FindServed(r.items)
    {
      var items;
      items, err := List();
      served := None;
      if err.Some? {
        return;
      }
      for i := 0 to |items|
        invariant FindServed(items) == FindServed(items[i..])
      {
        assert items[i..][1..] == items[i+1..];
        if items[i].status.served == ServedTrue {
          return Some(items[i]), None;
        }
      }
    }
  }
}
