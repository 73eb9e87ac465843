/** A run touches no stored CR but its own, and the status stored there afterwards is either the old
    one or one that the trace shows being written (pkg/reconciler/update_status.go). */
module OwnCr {
  import opened KedaTypes
  import opened Cluster
  import opened StateMachine
  import opened Transitions

  predicate LandedWrite(c: Call, s: Status) { c.UpdateStatus? && c.landed && c.status == s }

  ghost predicate LandedIn(t: seq<Call>, s: Status) { exists i :: 0 <= i < |t| && LandedWrite(t[i], s) }

  /** The stored CRs during a run on the CR id, compared with those at its start. */
  ghost predicate OnlyOwn(before: seq<KedaCR>, after: seq<KedaCR>, id: KedaId, t: seq<Call>) {
    && UniqueIds(after)
    && (forall i :: i != id ==> FindKeda(after, i) == FindKeda(before, i))
    && (FindKeda(after, id).Some? ==>
          && FindKeda(before, id).Some?
          && SameOwner(FindKeda(before, id).value, FindKeda(after, id).value)
          && (FindKeda(after, id).value.status == FindKeda(before, id).value.status || LandedIn(t, FindKeda(after, id).value.status)))
  }

  /** What no run changes in a CR. */
  predicate SameOwner(a: KedaCR, b: KedaCR) { b.id == a.id && b.uid == a.uid && b.deleting == a.deleting }

  lemma LandedLater(t: seq<Call>, u: seq<Call>, s: Status)
    requires t <= u && LandedIn(t, s)
    ensures LandedIn(u, s)
  {
    var i :| 0 <= i < |t| && LandedWrite(t[i], s);
    assert LandedWrite(u[i], s);
  }

  lemma OwnTransitive(a: seq<KedaCR>, b: seq<KedaCR>, c: seq<KedaCR>, id: KedaId, t: seq<Call>, u: seq<Call>)
    requires OnlyOwn(a, b, id, t) && OnlyOwn(b, c, id, u) && t <= u
    ensures OnlyOwn(a, c, id, u)
  {
    hide FindKeda, LandedIn;
    if FindKeda(b, id).Some? && LandedIn(t, FindKeda(b, id).value.status) {
      LandedLater(t, u, FindKeda(b, id).value.status);
    }
  }

  lemma MetaIsOwn(w: World, k: KedaCR, t: seq<Call>)
    requires UniqueIds(w.kedas)
    ensures OnlyOwn(w.kedas, StoreMeta(w, k).kedas, k.id, t)
  {
    hide FindKeda, Replaced, Without, LandedIn;
    var s := FindKeda(w.kedas, k.id);
    if s.Some? {
      assert s.value.id == k.id;
      OwnReplaced(w.kedas, WithMeta(s.value, k), s.value);
    }
  }

  lemma OwnReplaced(kedas: seq<KedaCR>, k: KedaCR, was: KedaCR)
    requires FindKeda(kedas, k.id) == Some(was)
    ensures FindKeda(Replaced(kedas, k), k.id) == Some(k)
    ensures forall i :: i != k.id ==> FindKeda(Replaced(kedas, k), i) == FindKeda(kedas, i)
  {
    hide FindKeda, Replaced;
  }

  lemma StatusIsOwn(w: World, k: KedaCR, t: seq<Call>)
    requires UniqueIds(w.kedas) && LandedIn(t, k.status)
    ensures OnlyOwn(w.kedas, StoreStatus(w, k).kedas, k.id, t)
  {
    hide FindKeda, Replaced, LandedIn;
    var s := FindKeda(w.kedas, k.id);
    if s.Some? {
      assert s.value.id == k.id;
      OwnReplaced(w.kedas, s.value.(status := k.status), s.value);
    }
  }

  lemma OwnItself(kedas: seq<KedaCR>, id: KedaId, t: seq<Call>)
    requires UniqueIds(kedas)
    ensures OnlyOwn(kedas, kedas, id, t)
  {
  }

  lemma StepTouchesOwn(v: RunState)
    requires Sound(v) && !v.fn.Nil? && UniqueIds(v.api.world.kedas)
    ensures OnlyOwn(v.api.world.kedas, Step(v).api.world.kedas, v.k.id, Step(v).api.trace)
    ensures v.api.trace <= Step(v).api.trace && Step(v).k.id == v.k.id
  {
    hide Step, OnlyOwn, UniqueIds, StoreMeta, StoreStatus, StatusStep, MetaCalls, MetaStatus, LandedIn, FindKeda;
    StepFacts(v);
    var u := Step(v);
    OwnItself(v.api.world.kedas, v.k.id, u.api.trace);
    if WritesMeta(v.fn) {
      MetaIsOwn(v.api.world, Sent(v, u), u.api.trace);
    } else if v.fn.WriteStatus? {
      if u.api.trace[|v.api.trace|].landed {
        assert LandedIn(u.api.trace, v.k.status) by { LandedAt(u.api.trace, |v.api.trace|, v.k.status); }
        StatusIsOwn(v.api.world, v.k, u.api.trace);
      }
    }
  }

  lemma LandedAt(t: seq<Call>, i: nat, s: Status)
    requires i < |t| && LandedWrite(t[i], s)
    ensures LandedIn(t, s)
  {
  }

  /** The frame of a whole run, under any faults, cancelled anywhere. */
  lemma {:induction false} RunTouchesOwn(v: RunState, n: nat)
    requires Sound(v) && UniqueIds(v.api.world.kedas)
    ensures OnlyOwn(v.api.world.kedas, Run(v, n).api.world.kedas, v.k.id, Run(v, n).api.trace)
    ensures v.api.trace <= Run(v, n).api.trace
    decreases n
  {
    hide Step, OnlyOwn, UniqueIds;
    OwnItself(v.api.world.kedas, v.k.id, v.api.trace);
    if !Done(v) && n > 0 {
      StepTouchesOwn(v);
      StepSound(v);
      OwnUnique(v.api.world.kedas, Step(v).api.world.kedas, v.k.id, Step(v).api.trace);
      RunTouchesOwn(Step(v), n - 1);
      OwnTransitive(v.api.world.kedas, Step(v).api.world.kedas, Run(v, n).api.world.kedas, v.k.id, Step(v).api.trace, Run(v, n).api.trace);
    }
  }

  lemma OwnUnique(a: seq<KedaCR>, b: seq<KedaCR>, id: KedaId, t: seq<Call>)
    requires OnlyOwn(a, b, id, t)
    ensures UniqueIds(b)
  {
  }
}
