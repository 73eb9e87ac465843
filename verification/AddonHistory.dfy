/** The add-on over whole histories: fault-free runs with any changes of its configuration, of the
    installed version and of everything else in between. */
module AddonHistory {
  import opened KedaTypes
  import opened Objects
  import opened AddonPlacement
  import opened Cluster
  import opened StateMachine
  import opened Transitions
  import opened Election
  import opened OwnCr
  import opened Controller
  import opened AddonExactness
  import Histories

  /** The served CR is live, the cluster holds the add-on exactly as p says, and the CR's records say p. */
  ghost predicate InPlace(s: Sys, id: KedaId, p: Placement) {
    && Histories.SysInv(s)
    && ServedAt(s.world.kedas, id) && !FindKeda(s.world.kedas, id).value.deleting
    && Suitable(s.env, s.objs)
    && Exact(s.env.src, s.world.objs, p)
    && Records(FindKeda(s.world.kedas, id).value.annotations, p)
  }

  /** No faults; the CR is not deleted; nobody else touches the add-on's objects; a new manager knows
      the same manifests. Everything else may happen. */
  ghost predicate Tame(s: Sys, id: KedaId, a: Action) {
    match a
    case Reconcile(_, faults, _) => faults == []
    case UserDelete(i) => i != id
    case Others(objs, _, _, _) => forall key :: IsAddonKey(s.env.src, key) ==> Agrees(objs, s.world.objs, key)
    case Restart(env, loaded) => env.src == s.env.src && Suitable(env, loaded)
    case _ => true
  }

  ghost predicate AllTame(s: Sys, id: KedaId, actions: seq<Action>)
    decreases actions
  {
    actions == [] || (Tame(s, id, actions[0]) && AllTame(Act(s, actions[0]), id, actions[1..]))
  }

  // ---- runs on other CRs --------------------------------------------------

  /** A run on a CR that is not served, from the served filter on. */
  predicate Bystander(v: RunState) {
    (v.fn.ServedFilter? && v.k.status.served != ServedTrue) || v.fn.WriteStatus? || v.fn.EmitEvents? || v.fn.Nil?
  }

  lemma FilterStops(v: RunState)
    requires v.fn.ServedFilter? && v.k.status.served != ServedTrue
    ensures StepServedFilter(v).fn.WriteStatus?
  {
  }

  lemma BystanderStep(v: RunState)
    requires Bystander(v) && Sound(v) && !v.fn.Nil?
    ensures Bystander(Step(v)) && Step(v).api.world.objs == v.api.world.objs && Step(v).objs == v.objs
  {
    hide StepServedFilter, StepWriteStatus, StepEmitEvents;
    hide TraceGrows, StatusStep, MetaStep, MetaStatus, StatusWrite;
    StepFacts(v);
    if v.fn.ServedFilter? { FilterStops(v); }
  }

  /** It changes no object. */
  lemma {:induction false} BystanderRun(v: RunState, n: nat)
    requires Bystander(v) && Sound(v)
    ensures Run(v, n).api.world.objs == v.api.world.objs && Run(v, n).objs == v.objs
    decreases n
  {
    hide Step;
    if !Done(v) && n > 0 {
      BystanderStep(v);
      StepSound(v);
      BystanderRun(Step(v), n - 1);
    }
  }

  // ---- one action ---------------------------------------------------------

  /** Where that run on the served CR leaves the add-on. */
  ghost function PlacedByRun(s: Sys, id: KedaId, faults: seq<Fault>, n: nat, p: Placement): Placement {
    match FindKeda(s.world.kedas, id)
    case None => p
    case Some(k) => PlacedBy(RunOf(s, k, faults, n).api.trace, s.env, k.annotations, p)
  }

  lemma OwnRunPlaces(s: Sys, id: KedaId, n: nat, p: Placement)
    requires InPlace(s, id, p)
    ensures InPlace(Reconciled(s, id, [], n), id, PlacedByRun(s, id, [], n, p))
  {
    hide Step, Run, Exact, Suitable, Records, Histories.SysInv, FindKeda, Wanted, Acted;
    var k := FindKeda(s.world.kedas, id).value;
    assert k.id == id;
    var v := StartRun(s.env, k, s.objs, Api(s.world, [], []));
    RunPlaces(v, p, n);
    EnvKept(v, n);
    Histories.ReconcileKeeps(s, id, [], n);
    Histories.RunDescends(s, k, [], n);
  }

  lemma OtherRunPlaces(s: Sys, id: KedaId, other: KedaId, n: nat, p: Placement)
    requires InPlace(s, id, p) && other != id
    ensures InPlace(Reconciled(s, other, [], n), id, p)
  {
    hide Step, Run, Exact, Suitable, Records, FindKeda, Histories.AllGuarded, Histories.PassesRecorded, Histories.SecondPasses, Histories.UidsFresh, UniqueIds, LandedIn, Histories.RunGuarded, Descends;
    var found := FindKeda(s.world.kedas, other);
    if found.Some? {
      var k := found.value;
      assert k.id == other;
      assert k.status.served != ServedTrue by { assert !ServedAt(s.world.kedas, other); }
      var v := StartRun(s.env, k, s.objs, Api(s.world, [], []));
      BystanderRun(v, n);
      EnvKept(v, n);
      Histories.OneRun(s, k, [], n);
      Histories.ReconcileKeeps(s, other, [], n);
    }
  }

  lemma RecordsSurviveEdit(ours: Annotations, theirs: Annotations, p: Placement)
    requires Records(ours, p)
    ensures Records(UserAnnotations(ours, theirs), p)
  {
  }

  /** The served CR is as it was, or edited in what does not matter. */
  lemma UsersPlace(s: Sys, t: Sys, id: KedaId, p: Placement)
    requires InPlace(s, id, p) && Histories.SysInv(t)
    requires t == s.(world := s.world.(kedas := t.world.kedas), nextUid := t.nextUid)
    requires FindKeda(t.world.kedas, id).Some?
    requires var k, l := FindKeda(s.world.kedas, id).value, FindKeda(t.world.kedas, id).value;
      l.status == k.status && l.deleting == k.deleting && Records(l.annotations, p)
    ensures InPlace(t, id, p)
  {
    hide Histories.SysInv, FindKeda, Exact, Suitable, Records;
  }

  lemma CreatePlaces(s: Sys, id: KedaId, a: Action, p: Placement)
    requires InPlace(s, id, p) && a.UserCreate?
    ensures InPlace(AfterCreate(s, a), id, p)
  {
    hide FindKeda, Exact, Suitable, Records, UserAnnotations, Histories.SysInv, Inserted, UniqueIds;
    Histories.CreateKeeps(s, a);
    if FindKeda(s.world.kedas, a.id).None? {
      UsersPlace(s, AfterCreate(s, a), id, p);
    }
  }

  lemma EditPlaces(s: Sys, id: KedaId, a: Action, p: Placement)
    requires InPlace(s, id, p) && a.UserEdit?
    ensures InPlace(AfterEdit(s, a), id, p)
  {
    hide FindKeda, Replaced, Without, Exact, Suitable, UserAnnotations, Histories.SysInv, UniqueIds, Records;
    Histories.EditKeeps(s, a);
    var found := FindKeda(s.world.kedas, a.id);
    if found.Some? {
      var k := found.value;
      assert k.id == a.id;
      var finalizers := (a.finalizers - {s.env.finalizer}) + (k.finalizers * {s.env.finalizer});
      var edited := k.(finalizers := finalizers, annotations := UserAnnotations(k.annotations, a.annotations), spec := a.spec);
      OwnReplaced(s.world.kedas, edited, k);
      if a.id == id { RecordsSurviveEdit(k.annotations, a.annotations, p); }
      UsersPlace(s, AfterEdit(s, a), id, p);
    }
  }

  lemma DeletePlaces(s: Sys, id: KedaId, other: KedaId, p: Placement)
    requires InPlace(s, id, p) && other != id
    ensures InPlace(AfterDelete(s, other), id, p)
  {
    hide FindKeda, Replaced, Without, Exact, Suitable, Histories.SysInv, UniqueIds, Records;
    Histories.DeleteKeeps(s, other);
    var found := FindKeda(s.world.kedas, other);
    if found.Some? {
      assert found.value.id == other;
      OwnReplaced(s.world.kedas, found.value.(deleting := true), found.value);
      UsersPlace(s, AfterDelete(s, other), id, p);
    }
  }

  /** The placement after one action: only a run on the served CR whose calls show an add-on state at
      work replaces it, by what the configuration then wanted. */
  ghost function NextPlacement(s: Sys, id: KedaId, a: Action, p: Placement): Placement {
    if a.Reconcile? && a.id == id then PlacedByRun(s, id, a.faults, a.n, p) else p
  }

  lemma ActPlaces(s: Sys, id: KedaId, a: Action, p: Placement)
    requires InPlace(s, id, p) && Tame(s, id, a)
    ensures InPlace(Act(s, a), id, NextPlacement(s, id, a, p))
  {
    hide Reconciled, AfterCreate, AfterEdit, AfterDelete, InPlace, PlacedByRun;
    match a {
      case Reconcile(i, _, n) =>
        if i == id { OwnRunPlaces(s, id, n, p); } else { OtherRunPlaces(s, id, i, n, p); }
      case UserCreate(_, _, _, _, _) => CreatePlaces(s, id, a, p);
      case UserEdit(_, _, _, _) => EditPlaces(s, id, a, p);
      case UserDelete(i) => DeletePlaces(s, id, i, p);
      case Others(_, _, _, _) => OthersPlace(s, id, a, p);
      case Restart(_, _) => RestartPlaces(s, id, a, p);
    }
  }

  lemma OthersPlace(s: Sys, id: KedaId, a: Action, p: Placement)
    requires InPlace(s, id, p) && Tame(s, id, a) && a.Others?
    ensures InPlace(Act(s, a), id, p)
  {
    hide FindKeda, Exact, Suitable, Records, Histories.SysInv, IsAddonKey;
    Histories.OthersKeep(s, Act(s, a));
    SparedIsExact(s.env.src, s.world.objs, a.objs, p);
  }

  lemma RestartPlaces(s: Sys, id: KedaId, a: Action, p: Placement)
    requires InPlace(s, id, p) && Tame(s, id, a) && a.Restart?
    ensures InPlace(Act(s, a), id, p)
  {
    hide FindKeda, Exact, Records, Histories.SysInv, IsAddonKey, WellFormed;
    Histories.OthersKeep(s, Act(s, a));
  }

  /** The placement after a history, action by action. */
  ghost function PlacementAfter(s: Sys, id: KedaId, actions: seq<Action>, p: Placement): Placement
    decreases actions
  {
    if actions == [] then p
    else PlacementAfter(Act(s, actions[0]), id, actions[1..], NextPlacement(s, id, actions[0], p))
  }

  /** Over every history of fault-free runs on a live, served CR, the add-on's objects in the cluster
      are exactly those that the configuration asked for when a run last applied or removed them: the
      recorded version in the recorded namespace, with the PeerAuthentication if sidecars were on at
      that run, and none without a record. */
  lemma {:induction false} AddonStaysExact(s: Sys, id: KedaId, actions: seq<Action>, p: Placement)
    requires InPlace(s, id, p) && AllTame(s, id, actions)
    ensures InPlace(Execute(s, actions), id, PlacementAfter(s, id, actions, p))
    decreases actions
  {
    hide Act, InPlace, Tame, NextPlacement;
    if actions != [] {
      ActPlaces(s, id, actions[0], p);
      AddonStaysExact(Act(s, actions[0]), id, actions[1..], NextPlacement(s, id, actions[0], p));
    }
  }
}
