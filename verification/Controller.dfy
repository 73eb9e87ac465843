/** The controller around the state machine: what survives between runs, and everything that can
    happen between two of them (controllers/keda_controller.go). */
module Controller {
  import opened KedaTypes
  import opened Objects
  import opened Cluster
  import opened StateMachine
  import Fsm

  // ---- the system ---------------------------------------------------------

  /** A finished or cancelled run: the CR it read, the module objects it started with, its calls. */
  datatype Past = Past(start: KedaCR, objs: seq<Obj>, trace: seq<Call>)

  /** The reconciler's configuration and module objects, the cluster, the next free uid and the runs
      so far. The add-on objects of a run are not here: each run gets a copy of the configuration. */
  datatype Sys = Sys(env: Env, objs: seq<Obj>, world: World, nextUid: nat, past: seq<Past>)

  /** One worker: runs do not overlap, and everything else happens between them. */
  datatype Action =
    | Reconcile(id: KedaId, faults: seq<Fault>, n: nat)
    | UserCreate(at: nat, id: KedaId, finalizers: set<string>, annotations: Annotations, spec: KedaSpec)
    | UserEdit(id: KedaId, finalizers: set<string>, annotations: Annotations, spec: KedaSpec)
    | UserDelete(id: KedaId)
    | Others(objs: map<ObjKey, Obj>, items: map<Gvk, nat>, statuses: map<ObjKey, DeploymentStatus>, namespaces: set<string>)
    | Restart(env: Env, loaded: seq<Obj>)

  function RunOf(s: Sys, k: KedaCR, faults: seq<Fault>, n: nat): RunState {
    Run(StartRun(s.env, k, s.objs, Api(s.world, faults, [])), n)
  }

  /** Reconcile: a request for a CR that is gone does nothing. */
  function Reconciled(s: Sys, id: KedaId, faults: seq<Fault>, n: nat): Sys {
    match FindKeda(s.world.kedas, id)
    case None => s
    case Some(k) =>
      var u := RunOf(s, k, faults, n);
      s.(objs := u.objs, world := u.api.world, past := s.past + [Past(k, s.objs, u.api.trace)])
  }

  /** The annotations a user writes; the two records are the reconciler's. */
  function UserAnnotations(ours: Annotations, theirs: Annotations): Annotations {
    var config := theirs - {InstalledVersion, InstalledNamespace};
    var withVersion := if InstalledVersion in ours then config[InstalledVersion := ours[InstalledVersion]] else config;
    if InstalledNamespace in ours then withVersion[InstalledNamespace := ours[InstalledNamespace]] else withVersion
  }

  /** A new CR has no status, no records and not our finalizer; the list order is the server's. */
  function AfterCreate(s: Sys, a: Action): Sys
    requires a.UserCreate?
  {
    if FindKeda(s.world.kedas, a.id).Some? then s
    else
      var k := KedaCR(a.id, s.nextUid, false, a.finalizers - {s.env.finalizer}, UserAnnotations(map[], a.annotations), a.spec, EMPTY_STATUS);
      s.(world := s.world.(kedas := Inserted(s.world.kedas, a.at, k)), nextUid := s.nextUid + 1)
  }

  /** An edit keeps our finalizer and our records. */
  function AfterEdit(s: Sys, a: Action): Sys
    requires a.UserEdit?
  {
    match FindKeda(s.world.kedas, a.id)
    case None => s
    case Some(k) =>
      var finalizers := (a.finalizers - {s.env.finalizer}) + (k.finalizers * {s.env.finalizer});
      s.(world := StoreMeta(s.world, k.(finalizers := finalizers, annotations := UserAnnotations(k.annotations, a.annotations), spec := a.spec)))
  }

  /** A CR with finalizers is marked, any other is gone at once. */
  function AfterDelete(s: Sys, id: KedaId): Sys {
    match FindKeda(s.world.kedas, id)
    case None => s
    case Some(k) =>
      s.(world := s.world.(kedas := if k.finalizers == {} then Without(s.world.kedas, id) else Replaced(s.world.kedas, k.(deleting := true))))
  }

  function Act(s: Sys, a: Action): Sys {
    match a
    case Reconcile(id, faults, n) => Reconciled(s, id, faults, n)
    case UserCreate(_, _, _, _, _) => AfterCreate(s, a)
    case UserEdit(_, _, _, _) => AfterEdit(s, a)
    case UserDelete(id) => AfterDelete(s, id)
    case Others(objs, items, statuses, namespaces) => s.(world := World(s.world.kedas, objs, items, statuses, namespaces))
    case Restart(env, loaded) => s.(env := env.(finalizer := s.env.finalizer), objs := loaded)
  }

  function Execute(s: Sys, actions: seq<Action>): Sys
    decreases actions
  {
    if actions == [] then s else Execute(Act(s, actions[0]), actions[1..])
  }

  /** A fresh reconciler on a cluster without Keda CRs. */
  function Boot(env: Env, objs: seq<Obj>, w: World): Sys { Sys(env, objs, w.(kedas := []), 0, []) }

  // ---- the controller object ----------------------------------------------

  class KedaReconciler {
    const env: Env
    const client: Client
    const objs: array<Obj>

    constructor (env: Env, client: Client, objs: array<Obj>)
      ensures this.env == env && this.client == client && this.objs == objs
    {
      this.env, this.client, this.objs := env, client, objs;
    }

    /** Get the CR and run a new fsm on it; n state functions until the context is cancelled. A read
        error is returned unless the CR is just gone, and asks for another try in any case. */
    method Reconcile(id: KedaId, getErr: Option<Err>, n: nat) returns (result: Option<Result>, err: Option<Err>)
      modifies client, objs
      ensures var found := FindKeda(old(client.world.kedas), id);
        if getErr.Some? || found.None? then
          result == Some(Requeue) && err == (if getErr.Some? then IgnoreNotFound(getErr) else None)
          && client.View() == old(client.View()) && objs[..] == old(objs[..])
        else
          var u := Run(StartRun(env, found.value, old(objs[..]), old(client.View())), n);
          client.View() == u.api && objs[..] == u.objs && result == u.result && err == u.err
    {
      hide Step;
      var found := FindKeda(client.world.kedas, id);
      if getErr.Some? || found.None? {
        return Some(Requeue), IgnoreNotFound(if getErr.Some? then getErr else Some(NotFound));
      }
      var inst := new Keda(found.value);
      var fsm := new Fsm.Fsm(env, client, inst, objs);
      result, err := fsm.Run(n);
    }

    /** The requests queued when a Keda CR has been deleted: one for each CR that is left. */
    method RetriggerAllKedaCRs() returns (queued: seq<KedaId>)
      modifies client
      ensures client.View() == DoListKedas(old(client.View())).api
      ensures queued == Ids(DoListKedas(old(client.View())).items)
    {
      var items, err := client.List();
      queued := [];
      if err.Some? {
        return;
      }
      for i := 0 to |items|
        invariant queued == Ids(items[..i])
      {
        queued := queued + [items[i].id];
      }
      assert items[..|items|] == items;
    }
  }

  function Ids(kedas: seq<KedaCR>): seq<KedaId> {
    seq(|kedas|, i requires 0 <= i < |kedas| => kedas[i].id)
  }
}
