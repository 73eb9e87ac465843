/** What holds in every state the system can reach: any users, any faults, any cancellations, any
    restarts of the manager. */
module Histories {
  import opened KedaTypes
  import opened Objects
  import opened Cluster
  import opened StateMachine
  import opened Transitions
  import opened RunLoop
  import opened StatusTable
  import opened Election
  import opened OwnCr
  import opened Controller
  import D = Deletion
  import LiveRuns

  // ---- the invariant ------------------------------------------------------

  predicate SameUid(kedas: seq<KedaCR>, i: KedaId, j: KedaId) {
    FindKeda(kedas, i).Some? && FindKeda(kedas, j).Some? && FindKeda(kedas, i).value.uid == FindKeda(kedas, j).value.uid
  }

  /** Uids are never reused. */
  ghost predicate UidsFresh(s: Sys) {
    && (forall id :: FindKeda(s.world.kedas, id).Some? ==> FindKeda(s.world.kedas, id).value.uid < s.nextUid)
    && (forall i, j :: SameUid(s.world.kedas, i, j) ==> i == j)
  }

  /** A run that deleted everything and then stored Deleted=True. */
  ghost predicate RecordedPass(p: Past) {
    exists w :: 0 <= w < |p.trace| && p.trace[w].UpdateStatus? && p.trace[w].landed
                && D.DeletedTrue(p.trace[w].status) && D.FullPass(p.objs, p.trace[..w])
  }

  ghost predicate PassedBefore(past: seq<Past>, n: nat, uid: nat)
    requires n <= |past|
  {
    exists j :: 0 <= j < n && past[j].start.uid == uid && RecordedPass(past[j])
  }

  /** The update at position m of run i takes our finalizer away. */
  predicate TakesFinalizer(finalizer: string, p: Past, m: nat)
    requires m < |p.trace|
  {
    p.trace[m].UpdateMeta? && finalizer in p.start.finalizers && finalizer !in p.trace[m].finalizers
  }

  /** It comes after a full pass of its own run, on a served CR marked for deletion, and an earlier
      run for the same CR had recorded a full pass. */
  ghost predicate SecondPass(past: seq<Past>, i: nat, m: nat)
    requires i < |past| && m < |past[i].trace|
  {
    && past[i].start.deleting && past[i].start.status.served == ServedTrue
    && D.FullPass(past[i].objs, past[i].trace[..m])
    && PassedBefore(past, i, past[i].start.uid)
  }

  /** One run's calls: guarded by what was listed, whichever way it went. */
  ghost predicate RunGuarded(finalizer: string, p: Past) {
    if p.start.deleting then D.DeletionTrace(finalizer, p.start, p.objs, p.trace) else LiveRuns.LiveTrace(finalizer, p.start, p.trace)
  }

  ghost predicate SysInv(s: Sys) {
    && AllInTable(s.world.kedas)
    && Elected(s.world.kedas, s.env.finalizer)
    && UidsFresh(s)
    && PassesRecorded(s)
    && SecondPasses(s.env.finalizer, s.past)
    && AllGuarded(s.env.finalizer, s.past)
  }

  ghost predicate AllGuarded(finalizer: string, past: seq<Past>) {
    forall i :: 0 <= i < |past| ==> RunGuarded(finalizer, past[i])
  }

  /** A stored Deleted=True was put there after a full pass. */
  ghost predicate PassesRecorded(s: Sys) {
    forall id :: FindKeda(s.world.kedas, id).Some? && D.DeletedTrue(FindKeda(s.world.kedas, id).value.status) ==>
      PassedBefore(s.past, |s.past|, FindKeda(s.world.kedas, id).value.uid)
  }

  ghost predicate SecondPasses(finalizer: string, past: seq<Past>) {
    forall i, m :: 0 <= i < |past| && 0 <= m < |past[i].trace| && TakesFinalizer(finalizer, past[i], m) ==> SecondPass(past, i, m)
  }

  // ---- one run ------------------------------------------------------------

  lemma OneRun(s: Sys, k: KedaCR, faults: seq<Fault>, n: nat)
    requires AllInTable(s.world.kedas) && Elected(s.world.kedas, s.env.finalizer) && FindKeda(s.world.kedas, k.id) == Some(k)
    ensures var u := RunOf(s, k, faults, n);
      && AllInTable(u.api.world.kedas) && Elected(u.api.world.kedas, s.env.finalizer)
      && Descends(s.world.kedas, u.api.world.kedas)
      && OnlyOwn(s.world.kedas, u.api.world.kedas, k.id, u.api.trace)
      && RunGuarded(s.env.finalizer, Past(k, s.objs, u.api.trace))
  {
    hide Step, AllInTable, InTable, Descends, OnlyOwn, Elected, RunGuarded;
    var api := Api(s.world, faults, []);
    var v := StartRun(s.env, k, s.objs, api);
    assert TableInv(v) by { TableAtStart(s.env, k, s.objs, api); }
    RunKeepsTable(v, n);
    TableAtEnd(Run(v, n));
    StartElects(s.env, k, s.objs, api);
    RunElects(v, n);
    EnvKept(v, n);
    ElectedAtEnd(Run(v, n));
    assert UniqueIds(s.world.kedas) by { ElectedIsUnique(s.world.kedas, s.env.finalizer); }
    RunTouchesOwn(v, n);
    RunIsGuarded(s.env, k, s.objs, api, n);
  }

  lemma TableAtStart(env: Env, k: KedaCR, objs: seq<Obj>, api: Api)
    requires AllInTable(api.world.kedas) && FindKeda(api.world.kedas, k.id) == Some(k)
    ensures TableInv(StartRun(env, k, objs, api))
  {
    hide InTable;
  }

  lemma TableAtEnd(v: RunState)
    requires TableInv(v)
    ensures AllInTable(v.api.world.kedas)
  {
  }

  lemma ElectedAtEnd(v: RunState)
    requires ElectionInv(v)
    ensures Elected(v.api.world.kedas, v.env.finalizer)
  {
  }

  lemma ElectedIsUnique(kedas: seq<KedaCR>, finalizer: string)
    requires Elected(kedas, finalizer)
    ensures UniqueIds(kedas)
  {
  }

  lemma RunIsGuarded(env: Env, k: KedaCR, objs: seq<Obj>, api: Api, n: nat)
    requires api.trace == [] && FindKeda(api.world.kedas, k.id) == Some(k)
    ensures RunGuarded(env.finalizer, Past(k, objs, Run(StartRun(env, k, objs, api), n).api.trace))
  {
    hide Step;
    if k.deleting {
      D.DeletionRun(env, k, objs, api, n);
    } else {
      LiveRuns.LiveRun(env, k, objs, api, n);
    }
  }

  // ---- one run added to the history ---------------------------------------

  lemma PassedLater(past: seq<Past>, p: Past, n: nat, uid: nat)
    requires n <= |past| && PassedBefore(past, n, uid)
    ensures PassedBefore(past + [p], n, uid) && PassedBefore(past + [p], |past| + 1, uid)
  {
    hide RecordedPass;
    var j :| 0 <= j < n && past[j].start.uid == uid && RecordedPass(past[j]);
    assert (past + [p])[j] == past[j];
  }

  lemma JustPassed(past: seq<Past>, p: Past)
    requires RecordedPass(p)
    ensures PassedBefore(past + [p], |past| + 1, p.start.uid)
  {
    hide RecordedPass;
    assert (past + [p])[|past|] == p;
  }

  /** A run that stores Deleted=True has either found it so or made a full pass. */
  lemma StoredAfterPass(finalizer: string, p: Past, st: Status)
    requires RunGuarded(finalizer, p) && LandedIn(p.trace, st) && D.DeletedTrue(st)
    ensures D.DeletedTrue(p.start.status) || RecordedPass(p)
  {
    hide D.FullPass, D.Guarded, D.Blocked, LiveRuns.HsoBlocked, LiveRuns.HsoClear, FindCondition;
    var w :| 0 <= w < |p.trace| && LandedWrite(p.trace[w], st);
  }

  /** A run that takes the finalizer away makes a full pass, and found Deleted=True. */
  lemma TakenAfterPass(finalizer: string, p: Past, m: nat)
    requires RunGuarded(finalizer, p) && m < |p.trace| && TakesFinalizer(finalizer, p, m)
    ensures p.start.deleting && p.start.status.served == ServedTrue && D.DeletedTrue(p.start.status)
    ensures D.FullPass(p.objs, p.trace[..m])
  {
    hide D.FullPass, D.Guarded, D.Blocked, LiveRuns.HsoBlocked, LiveRuns.HsoClear, FindCondition, SameConfig;
  }

  lemma RunKeepsPasses(s: Sys, k: KedaCR, u: RunState, p: Past)
    requires PassesRecorded(s) && FindKeda(s.world.kedas, k.id) == Some(k)
    requires p == Past(k, s.objs, u.api.trace) && RunGuarded(s.env.finalizer, p)
    requires OnlyOwn(s.world.kedas, u.api.world.kedas, k.id, u.api.trace)
    ensures PassesRecorded(s.(objs := u.objs, world := u.api.world, past := s.past + [p]))
  {
    hide FindKeda, RunGuarded, PassedBefore, D.DeletedTrue, RecordedPass, UniqueIds;
    var before, after := s.world.kedas, u.api.world.kedas;
    forall id | FindKeda(after, id).Some? && D.DeletedTrue(FindKeda(after, id).value.status)
      ensures PassedBefore(s.past + [p], |s.past| + 1, FindKeda(after, id).value.uid)
    {
      if id == k.id && FindKeda(after, id).value.status != k.status {
        StoredAfterPass(s.env.finalizer, p, FindKeda(after, id).value.status);
      }
      if id == k.id && RecordedPass(p) {
        JustPassed(s.past, p);
      } else {
        PassedLater(s.past, p, |s.past|, FindKeda(before, id).value.uid);
      }
    }
  }

  lemma RunKeepsSecondPasses(s: Sys, k: KedaCR, p: Past)
    requires SecondPasses(s.env.finalizer, s.past) && PassesRecorded(s) && FindKeda(s.world.kedas, k.id) == Some(k)
    requires p.start == k && RunGuarded(s.env.finalizer, p)
    ensures SecondPasses(s.env.finalizer, s.past + [p])
  {
    hide FindKeda, RunGuarded, PassedBefore, D.DeletedTrue, D.FullPass, TakesFinalizer;
    var past := s.past + [p];
    forall i, m | 0 <= i < |past| && 0 <= m < |past[i].trace| && TakesFinalizer(s.env.finalizer, past[i], m)
      ensures SecondPass(past, i, m)
    {
      if i < |s.past| {
        assert past[i] == s.past[i] && SecondPass(s.past, i, m);
        PassedLater(s.past, p, i, past[i].start.uid);
      } else {
        TakenAfterPass(s.env.finalizer, p, m);
        PassedLater(s.past, p, |s.past|, k.uid);
      }
    }
  }

  lemma ReconcileKeeps(s: Sys, id: KedaId, faults: seq<Fault>, n: nat)
    requires SysInv(s)
    ensures SysInv(Reconciled(s, id, faults, n))
  {
    hide Step, FindKeda, AllInTable, RunGuarded, PassesRecorded, SecondPasses, Run;
    var found := FindKeda(s.world.kedas, id);
    if found.Some? {
      var k := found.value;
      assert k.id == id;
      var u := RunOf(s, k, faults, n);
      OneRun(s, k, faults, n);
      var p := Past(k, s.objs, u.api.trace);
      RunKeepsPasses(s, k, u, p);
      RunKeepsSecondPasses(s, k, p);
      UidsAfterRun(s, k, u, p);
    }
  }

  lemma UidsAfterRun(s: Sys, k: KedaCR, u: RunState, p: Past)
    requires UidsFresh(s) && OnlyOwn(s.world.kedas, u.api.world.kedas, k.id, u.api.trace)
    ensures UidsFresh(s.(objs := u.objs, world := u.api.world, past := s.past + [p]))
  {
    hide FindKeda, LandedIn, UniqueIds;
    forall i, j | SameUid(u.api.world.kedas, i, j) ensures i == j {
      assert SameUid(s.world.kedas, i, j);
    }
  }

  // ---- everything else that happens ---------------------------------------

  lemma CreateKeeps(s: Sys, a: Action)
    requires SysInv(s) && a.UserCreate?
    ensures SysInv(AfterCreate(s, a))
  {
    hide FindKeda, UniqueIds, SecondPasses, AllGuarded, InTable, PassedBefore, D.DeletedTrue, Inserted;
    if FindKeda(s.world.kedas, a.id).None? {
      var k := KedaCR(a.id, s.nextUid, false, a.finalizers - {s.env.finalizer}, UserAnnotations(map[], a.annotations), a.spec, EMPTY_STATUS);
      FreshKeeps(s, AfterCreate(s, a), k);
    }
  }

  lemma EmptyStatusInTable()
    ensures InTable(EMPTY_STATUS) && !D.DeletedTrue(EMPTY_STATUS)
  {
  }

  /** A CR that is new: no status, our finalizer absent, a fresh uid. */
  lemma FreshKeeps(s: Sys, t: Sys, k: KedaCR)
    requires SysInv(s) && t == s.(world := t.world, nextUid := s.nextUid + 1)
    requires k.uid == s.nextUid && k.status == EMPTY_STATUS && s.env.finalizer !in k.finalizers
    requires FindKeda(s.world.kedas, k.id).None? && UniqueIds(t.world.kedas)
    requires forall c :: c in t.world.kedas <==> c == k || c in s.world.kedas
    requires forall id :: FindKeda(t.world.kedas, id) == if id == k.id then Some(k) else FindKeda(s.world.kedas, id)
    ensures SysInv(t)
  {
    hide FindKeda, UniqueIds, SecondPasses, AllGuarded, InTable, PassedBefore, D.DeletedTrue;
    EmptyStatusInTable();
    assert forall id :: ServedAt(t.world.kedas, id) ==> ServedAt(s.world.kedas, id);
    forall i, j | SameUid(t.world.kedas, i, j) ensures i == j {
      if i != k.id && j != k.id { assert SameUid(s.world.kedas, i, j); }
    }
  }

  /** A user's change of one CR: identity and status stay, our finalizer is not added. */
  lemma ChangeKeeps(s: Sys, k: KedaCR, was: KedaCR)
    requires SysInv(s) && FindKeda(s.world.kedas, k.id) == Some(was)
    requires k.uid == was.uid && k.status == was.status && (s.env.finalizer in k.finalizers ==> s.env.finalizer in was.finalizers)
    ensures SysInv(s.(world := s.world.(kedas := Replaced(s.world.kedas, k))))
  {
    hide FindKeda, Replaced, UniqueIds, SecondPasses, AllGuarded, InTable, AllInTable, Elected, PassedBefore, D.DeletedTrue;
    var r := Replaced(s.world.kedas, k);
    ChangeElects(s.world.kedas, k, was, s.env.finalizer);
    OwnReplaced(s.world.kedas, k, was);
    forall i, j | SameUid(r, i, j) ensures i == j { assert SameUid(s.world.kedas, i, j); }
  }

  lemma ChangeElects(kedas: seq<KedaCR>, k: KedaCR, was: KedaCR, finalizer: string)
    requires AllInTable(kedas) && Elected(kedas, finalizer) && FindKeda(kedas, k.id) == Some(was)
    requires k.status == was.status && (finalizer in k.finalizers ==> finalizer in was.finalizers)
    ensures AllInTable(Replaced(kedas, k)) && Elected(Replaced(kedas, k), finalizer)
  {
    hide FindKeda, Replaced, InTable;
    var r := Replaced(kedas, k);
    OwnReplaced(kedas, k, was);
    assert forall id :: ServedAt(r, id) ==> ServedAt(kedas, id);
    assert was in kedas;
    forall c | c in r ensures InTable(c.status) {
      var i :| 0 <= i < |r| && r[i] == c;
      assert c == k || c == kedas[i];
    }
  }

  lemma RemovalKeeps(s: Sys, id: KedaId)
    requires SysInv(s)
    ensures SysInv(s.(world := s.world.(kedas := Without(s.world.kedas, id))))
  {
    hide FindKeda, Without, UniqueIds, SecondPasses, AllGuarded, InTable, PassedBefore, D.DeletedTrue;
    var r := Without(s.world.kedas, id);
    assert forall i :: ServedAt(r, i) ==> ServedAt(s.world.kedas, i);
    forall i, j | SameUid(r, i, j) ensures i == j { assert SameUid(s.world.kedas, i, j); }
  }

  lemma EditKeeps(s: Sys, a: Action)
    requires SysInv(s) && a.UserEdit?
    ensures SysInv(AfterEdit(s, a))
  {
    hide FindKeda, SysInv, Replaced, Without, UserAnnotations;
    var found := FindKeda(s.world.kedas, a.id);
    if found.Some? {
      var k := found.value;
      assert k.id == a.id;
      var finalizers := (a.finalizers - {s.env.finalizer}) + (k.finalizers * {s.env.finalizer});
      var edited := k.(finalizers := finalizers, annotations := UserAnnotations(k.annotations, a.annotations), spec := a.spec);
      if k.deleting && finalizers == {} {
        RemovalKeeps(s, a.id);
      } else {
        ChangeKeeps(s, edited, k);
      }
    }
  }

  lemma DeleteKeeps(s: Sys, id: KedaId)
    requires SysInv(s)
    ensures SysInv(AfterDelete(s, id))
  {
    hide FindKeda, SysInv, Replaced, Without;
    var found := FindKeda(s.world.kedas, id);
    if found.Some? {
      assert found.value.id == id;
      if found.value.finalizers == {} {
        RemovalKeeps(s, id);
      } else {
        ChangeKeeps(s, found.value.(deleting := true), found.value);
      }
    }
  }

  lemma OthersKeep(s: Sys, t: Sys)
    requires SysInv(s) && t.world.kedas == s.world.kedas && t.env.finalizer == s.env.finalizer && t.nextUid == s.nextUid && t.past == s.past
    ensures SysInv(t)
  {
    hide FindKeda, AllInTable, UniqueIds, SecondPasses, AllGuarded, PassedBefore;
  }

  lemma ActKeeps(s: Sys, a: Action)
    requires SysInv(s)
    ensures SysInv(Act(s, a))
  {
    hide SysInv, Reconciled, AfterCreate, AfterEdit, AfterDelete;
    match a {
      case Reconcile(id, faults, n) => ReconcileKeeps(s, id, faults, n);
      case UserCreate(_, _, _, _, _) => CreateKeeps(s, a);
      case UserEdit(_, _, _, _) => EditKeeps(s, a);
      case UserDelete(id) => DeleteKeeps(s, id);
      case Others(_, _, _, _) => OthersKeep(s, Act(s, a));
      case Restart(_, _) => OthersKeep(s, Act(s, a));
    }
  }

  lemma {:induction false} ExecuteKeeps(s: Sys, actions: seq<Action>)
    requires SysInv(s)
    ensures SysInv(Execute(s, actions))
    decreases actions
  {
    hide Act, SysInv;
    if actions != [] {
      ActKeeps(s, actions[0]);
      ExecuteKeeps(Act(s, actions[0]), actions[1..]);
    }
  }

  lemma BootHolds(env: Env, objs: seq<Obj>, w: World)
    ensures SysInv(Boot(env, objs, w))
  {
  }

  // ---- the theorems -------------------------------------------------------

  /** Every status ever stored is in the table. */
  lemma StatusesInTable(env: Env, objs: seq<Obj>, w: World, actions: seq<Action>)
    ensures AllInTable(Execute(Boot(env, objs, w), actions).world.kedas)
  {
    hide Act, InTable;
    BootHolds(env, objs, w);
    ExecuteKeeps(Boot(env, objs, w), actions);
  }

  /** At most one CR is served, and a CR that carries our finalizer is that one. */
  lemma OneServed(env: Env, objs: seq<Obj>, w: World, actions: seq<Action>)
    ensures Elected(Execute(Boot(env, objs, w), actions).world.kedas, env.finalizer)
  {
    hide Act, FindKeda;
    BootHolds(env, objs, w);
    ExecuteKeeps(Boot(env, objs, w), actions);
    FinalizerFixed(Boot(env, objs, w), actions);
  }

  lemma {:induction false} FinalizerFixed(s: Sys, actions: seq<Action>)
    ensures Execute(s, actions).env.finalizer == s.env.finalizer
    decreases actions
  {
    hide RunOf, StoreMeta, UserAnnotations;
    if actions != [] {
      FinalizerFixed(Act(s, actions[0]), actions[1..]);
    }
  }

  /** No run ever deleted a module object before it had seen every CRD empty, or, with the add-on
      disabled, an add-on object before it had seen no HTTPScaledObject. */
  lemma GuardsDominateDeletes(env: Env, objs: seq<Obj>, w: World, actions: seq<Action>)
    ensures AllGuarded(env.finalizer, Execute(Boot(env, objs, w), actions).past)
  {
    hide Act, FindKeda, AllGuarded;
    BootHolds(env, objs, w);
    ExecuteKeeps(Boot(env, objs, w), actions);
    FinalizerFixed(Boot(env, objs, w), actions);
  }

  /** Whenever our finalizer was taken away, two different runs had deleted everything. */
  lemma TwoPassDeletion(env: Env, objs: seq<Obj>, w: World, actions: seq<Action>)
    ensures SecondPasses(env.finalizer, Execute(Boot(env, objs, w), actions).past)
  {
    hide Act, FindKeda, SecondPasses;
    BootHolds(env, objs, w);
    ExecuteKeeps(Boot(env, objs, w), actions);
    FinalizerFixed(Boot(env, objs, w), actions);
  }

  // ---- a served CR stays served -------------------------------------------

  /** Of the CRs known to s, those still there in t: same name, and served if they were. */
  ghost predicate Heirs(s: Sys, t: Sys) {
    && s.nextUid <= t.nextUid
    && forall id :: FindKeda(t.world.kedas, id).Some? && FindKeda(t.world.kedas, id).value.uid < s.nextUid ==>
         && FindKeda(s.world.kedas, id).Some?
         && FindKeda(s.world.kedas, id).value.uid == FindKeda(t.world.kedas, id).value.uid
         && (ServedAt(s.world.kedas, id) ==> ServedAt(t.world.kedas, id))
  }

  lemma HeirsTransitive(s: Sys, t: Sys, u: Sys)
    requires Heirs(s, t) && Heirs(t, u)
    ensures Heirs(s, u)
  {
    hide FindKeda;
  }

  lemma HeirsByDescent(s: Sys, t: Sys)
    requires Descends(s.world.kedas, t.world.kedas) && t.nextUid == s.nextUid
    ensures Heirs(s, t)
  {
    hide FindKeda;
  }

  lemma ActHeirs(s: Sys, a: Action)
    requires SysInv(s)
    ensures Heirs(s, Act(s, a))
  {
    hide SysInv, FindKeda, Replaced, Without, UserAnnotations, Descends, UniqueIds, Run, Step;
    var t := Act(s, a);
    match a {
      case Reconcile(id, faults, n) =>
        if FindKeda(s.world.kedas, id).Some? {
          RunDescends(s, FindKeda(s.world.kedas, id).value, faults, n);
        } else {
          DescendsItself(s.world.kedas);
        }
        HeirsByDescent(s, t);
      case UserCreate(_, _, _, _, _) => CreateHeirs(s, a);
      case UserEdit(_, _, _, _) => EditHeirs(s, a);
      case UserDelete(id) => DeleteHeirs(s, id);
      case _ =>
        DescendsItself(s.world.kedas);
        HeirsByDescent(s, t);
    }
  }

  lemma RunDescends(s: Sys, k: KedaCR, faults: seq<Fault>, n: nat)
    requires SysInv(s) && FindKeda(s.world.kedas, k.id) == Some(k)
    ensures Descends(s.world.kedas, RunOf(s, k, faults, n).api.world.kedas)
  {
    hide Step, Run, AllInTable, OnlyOwn, RunGuarded, UidsFresh, PassesRecorded, SecondPasses, AllGuarded, FindKeda;
    OneRun(s, k, faults, n);
  }

  lemma CreateHeirs(s: Sys, a: Action)
    requires SysInv(s) && a.UserCreate?
    ensures Heirs(s, AfterCreate(s, a))
  {
    hide FindKeda, AllInTable, Elected, PassesRecorded, SecondPasses, AllGuarded, UserAnnotations, Inserted, UniqueIds;
  }

  lemma ReplacedHeirs(s: Sys, k: KedaCR, was: KedaCR)
    requires FindKeda(s.world.kedas, k.id) == Some(was) && k.uid == was.uid && k.status == was.status
    ensures Heirs(s, s.(world := s.world.(kedas := Replaced(s.world.kedas, k))))
    ensures Heirs(s, s.(world := s.world.(kedas := Without(s.world.kedas, k.id))))
  {
    hide FindKeda, Replaced, Without, UniqueIds, Heirs;
    OwnReplaced(s.world.kedas, k, was);
    HeirsByName(s, Replaced(s.world.kedas, k), k, was);
    WithoutHeirs(s, k.id);
  }

  lemma HeirsByName(s: Sys, r: seq<KedaCR>, k: KedaCR, was: KedaCR)
    requires FindKeda(s.world.kedas, k.id) == Some(was) && k.uid == was.uid && k.status == was.status
    requires FindKeda(r, k.id) == Some(k) && forall id :: id != k.id ==> FindKeda(r, id) == FindKeda(s.world.kedas, id)
    ensures Heirs(s, s.(world := s.world.(kedas := r)))
  {
    hide FindKeda;
  }

  lemma WithoutHeirs(s: Sys, id: KedaId)
    ensures Heirs(s, s.(world := s.world.(kedas := Without(s.world.kedas, id))))
  {
    hide FindKeda, Without, UniqueIds;
    var r := Without(s.world.kedas, id);
    forall i | FindKeda(r, i).Some? ensures FindKeda(r, i) == FindKeda(s.world.kedas, i) {
    }
  }

  lemma EditHeirs(s: Sys, a: Action)
    requires a.UserEdit?
    ensures Heirs(s, AfterEdit(s, a))
  {
    hide FindKeda, Replaced, Without, UserAnnotations, Heirs;
    var found := FindKeda(s.world.kedas, a.id);
    if found.Some? {
      var k := found.value;
      var finalizers := (a.finalizers - {s.env.finalizer}) + (k.finalizers * {s.env.finalizer});
      ReplacedHeirs(s, k.(finalizers := finalizers, annotations := UserAnnotations(k.annotations, a.annotations), spec := a.spec), k);
    } else {
      HeirsItself(s);
    }
  }

  lemma DeleteHeirs(s: Sys, id: KedaId)
    ensures Heirs(s, AfterDelete(s, id))
  {
    hide FindKeda, Replaced, Without, Heirs;
    var found := FindKeda(s.world.kedas, id);
    if found.Some? {
      ReplacedHeirs(s, found.value.(deleting := true), found.value);
    } else {
      HeirsItself(s);
    }
  }

  lemma HeirsItself(s: Sys)
    ensures Heirs(s, s)
  {
  }

  lemma {:induction false} ExecuteHeirs(s: Sys, actions: seq<Action>)
    requires SysInv(s)
    ensures Heirs(s, Execute(s, actions))
    decreases actions
  {
    hide Act, SysInv, Heirs;
    HeirsItself(s);
    if actions != [] {
      var t := Act(s, actions[0]);
      ActKeeps(s, actions[0]);
      ActHeirs(s, actions[0]);
      ExecuteHeirs(t, actions[1..]);
      HeirsTransitive(s, t, Execute(t, actions[1..]));
    }
  }

  /** A CR that is served at some moment is served as long as it exists, whatever happens next. */
  lemma ServedForever(env: Env, objs: seq<Obj>, w: World, first: seq<Action>, next: seq<Action>)
    ensures Heirs(Execute(Boot(env, objs, w), first), Execute(Execute(Boot(env, objs, w), first), next))
  {
    hide Act, SysInv, Heirs;
    BootHolds(env, objs, w);
    ExecuteKeeps(Boot(env, objs, w), first);
    ExecuteHeirs(Execute(Boot(env, objs, w), first), next);
  }

  // ---- a vacancy is filled ------------------------------------------------

  /** One fault-free run for each CR, as queued when a CR has gone. */
  function ReconcileEach(ids: seq<KedaId>, n: nat): seq<Action> {
    seq(|ids|, i requires 0 <= i < |ids| => Reconcile(ids[i], [], n))
  }

  lemma FirstIsServed(s: Sys, k: KedaCR, n: nat)
    requires SysInv(s) && NobodyServed(s.world.kedas) && FindKeda(s.world.kedas, k.id) == Some(k) && n >= 33
    ensures ServedAt(Reconciled(s, k.id, [], n).world.kedas, k.id)
  {
    hide Step, FindKeda, Rank, AllInTable, UidsFresh, PassesRecorded, SecondPasses, AllGuarded, ServedAt;
    var api := Api(s.world, [], []);
    var v := StartRun(s.env, k, s.objs, api);
    RankBound(v.fn);
    FinishIsRun(v, n);
    VacancyIsFilled(s.env, k, s.objs, api);
  }

  lemma OthersRunKeepsServed(s: Sys, id: KedaId, other: KedaId, faults: seq<Fault>, n: nat)
    requires SysInv(s) && ServedAt(s.world.kedas, id) && other != id
    ensures ServedAt(Reconciled(s, other, faults, n).world.kedas, id)
  {
    hide Step, Run, FindKeda, AllInTable, UidsFresh, PassesRecorded, SecondPasses, AllGuarded, RunGuarded, Descends, LandedIn, UniqueIds;
    var found := FindKeda(s.world.kedas, other);
    if found.Some? {
      assert found.value.id == other;
      OneRun(s, found.value, faults, n);
    }
  }

  lemma {:induction false} RestKeepServed(s: Sys, id: KedaId, rest: seq<KedaId>, n: nat)
    requires SysInv(s) && ServedAt(s.world.kedas, id) && id !in rest
    ensures ServedAt(Execute(s, ReconcileEach(rest, n)).world.kedas, id)
    decreases rest
  {
    hide SysInv, ServedAt, Reconciled;
    if rest != [] {
      OthersRunKeepsServed(s, id, rest[0], [], n);
      ReconcileKeeps(s, rest[0], [], n);
      RestKeepServed(Reconciled(s, rest[0], [], n), id, rest[1..], n);
      assert ReconcileEach(rest, n)[1..] == ReconcileEach(rest[1..], n);
    }
  }

  /** Once nobody is served, one fault-free run for each remaining CR leaves exactly one served. */
  lemma VacancyRecovers(env: Env, objs: seq<Obj>, w: World, actions: seq<Action>, n: nat)
    requires n >= 33
    ensures var s := Execute(Boot(env, objs, w), actions);
      NobodyServed(s.world.kedas) && s.world.kedas != [] ==>
        ExactlyOneServed(Execute(s, ReconcileEach(Ids(s.world.kedas), n)).world.kedas)
  {
    hide Act, SysInv, NobodyServed, ExactlyOneServed;
    var s := Execute(Boot(env, objs, w), actions);
    BootHolds(env, objs, w);
    ExecuteKeeps(Boot(env, objs, w), actions);
    if NobodyServed(s.world.kedas) && s.world.kedas != [] {
      OneAfterAll(s, n);
    }
  }

  ghost predicate ExactlyOneServed(kedas: seq<KedaCR>) {
    exists id :: ServedAt(kedas, id) && forall other :: ServedAt(kedas, other) ==> other == id
  }

  lemma OneAfterAll(s: Sys, n: nat)
    requires SysInv(s) && NobodyServed(s.world.kedas) && s.world.kedas != [] && n >= 33
    ensures ExactlyOneServed(Execute(s, ReconcileEach(Ids(s.world.kedas), n)).world.kedas)
  {
    hide Reconciled, SysInv, ServedAt, Elected, NobodyServed;
    var kedas := s.world.kedas;
    var ids := Ids(kedas);
    var k := kedas[0];
    assert UniqueIds(kedas) by { InvElects(s); ElectedIsUnique(kedas, s.env.finalizer); }
    assert k in kedas;
    FirstIsServed(s, k, n);
    ReconcileKeeps(s, k.id, [], n);
    var t := Reconciled(s, k.id, [], n);
    RestKeepServed(t, k.id, ids[1..], n);
    assert ReconcileEach(ids, n)[1..] == ReconcileEach(ids[1..], n);
    ExecuteKeeps(t, ReconcileEach(ids[1..], n));
    InvElects(Execute(t, ReconcileEach(ids[1..], n)));
    OnlyOne(Execute(t, ReconcileEach(ids[1..], n)).world.kedas, s.env.finalizer, k.id);
  }

  lemma InvElects(s: Sys)
    requires SysInv(s)
    ensures Elected(s.world.kedas, s.env.finalizer)
  {
  }

  lemma OnlyOne(kedas: seq<KedaCR>, finalizer: string, id: KedaId)
    requires ServedAt(kedas, id) && forall i, j :: ServedAt(kedas, i) && ServedAt(kedas, j) ==> i == j
    ensures ExactlyOneServed(kedas)
  {
  }
}
