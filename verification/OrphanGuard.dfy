/** The guard before the deletion of the module, in terms of the fields of the CustomResourceDefinitions
    it reads (pkg/reconciler/delete_resources.go:181-240). */
module OrphanGuard {
  import opened KedaTypes
  import opened Objects
  import opened Cluster
  import opened StateMachine
  import opened Transitions
  import opened RunLoop
  import opened FaultFree
  import opened Settled
  import opened Controller
  import opened AddonConfig
  import D = Deletion
  import P = Progress
  import Histories

  // ---- the stored version of a kind ---------------------------------------

  predicate FirstStorage(versions: seq<CrdVersion>, j: nat) {
    j < |versions| && versions[j].storage && forall i :: 0 <= i < j ==> !versions[i].storage
  }

  ghost predicate Marked(versions: seq<CrdVersion>) { exists i :: 0 <= i < |versions| && versions[i].storage }

  /** It is the name of the first version that is marked, and no version is named if none is. */
  lemma {:induction false} StoredVersionMeaning(versions: seq<CrdVersion>)
    ensures forall j: nat :: FirstStorage(versions, j) ==> StoredVersion(versions) == versions[j].name
    ensures !Marked(versions) ==> StoredVersion(versions) == NoVersion
    ensures Marked(versions) ==> exists j: nat :: FirstStorage(versions, j)
    decreases versions
  {
    if versions != [] {
      var rest := versions[1..];
      if versions[0].storage {
        assert FirstStorage(versions, 0);
      } else {
        StoredVersionMeaning(rest);
        forall j: nat | FirstStorage(versions, j) ensures StoredVersion(versions) == versions[j].name {
          assert FirstStorage(rest, j - 1);
        }
        if Marked(versions) {
          RestMarked(versions);
          var j: nat :| FirstStorage(rest, j);
          assert forall i :: 0 < i < j + 1 ==> versions[i] == rest[i - 1];
          assert FirstStorage(versions, j + 1);
        } else {
          RestUnmarked(versions);
        }
      }
    }
  }

  lemma RestMarked(versions: seq<CrdVersion>)
    requires versions != [] && !versions[0].storage && Marked(versions)
    ensures Marked(versions[1..])
  {
    var i :| 0 <= i < |versions| && versions[i].storage;
    assert versions[1..][i - 1].storage;
  }

  lemma RestUnmarked(versions: seq<CrdVersion>)
    requires versions != [] && !Marked(versions)
    ensures !Marked(versions[1..])
  {
    forall i | 0 <= i < |versions[1..]| ensures !versions[1..][i].storage { assert versions[1..][i] == versions[i + 1]; }
  }

  // ---- the kinds of the module --------------------------------------------

  /** The kind of resource that a CustomResourceDefinition stores. */
  ghost predicate Stores(crd: CrdSpec, gvk: Gvk) {
    && gvk.group == crd.group && gvk.kind == crd.kind
    && ((exists j: nat :: FirstStorage(crd.versions, j) && gvk.version == crd.versions[j].name)
        || (!Marked(crd.versions) && gvk.version == NoVersion))
  }

  /** One of the module's objects is the CustomResourceDefinition of that kind. */
  ghost predicate OwnKind(objs: seq<Obj>, gvk: Gvk) {
    exists i :: 0 <= i < |objs| && objs[i].kind == CustomResourceDefinition && objs[i].group == ApiExtensions && Stores(objs[i].crd, gvk)
  }

  lemma CrdGvkMeaning(o: Obj, gvk: Gvk)
    ensures Stores(o.crd, gvk) <==> CrdGvk(o) == gvk
  {
    hide FirstStorage, Marked;
    StoredVersionMeaning(o.crd.versions);
  }

  lemma OwnKindMeaning(objs: seq<Obj>, gvk: Gvk)
    ensures OwnKind(objs, gvk) <==> exists i :: 0 <= i < |objs| && IsCrd(objs[i]) && CrdGvk(objs[i]) == gvk
  {
    hide Stores, CrdGvk;
    forall i | 0 <= i < |objs| ensures Stores(objs[i].crd, gvk) <==> CrdGvk(objs[i]) == gvk { CrdGvkMeaning(objs[i], gvk); }
  }

  /** Resources of such a kind are left. */
  ghost predicate Orphaned(objs: seq<Obj>, w: World) {
    exists gvk :: gvk in w.items && w.items[gvk] > 0 && OwnKind(objs, gvk)
  }

  lemma OrphansMeaning(objs: seq<Obj>, w: World)
    ensures P.NoOrphans(objs, w) <==> !Orphaned(objs, w)
  {
    hide OwnKind, CrdGvk, IsCrd;
    if !P.NoOrphans(objs, w) {
      var i :| 0 <= i < |objs| && IsCrd(objs[i]) && ItemCount(w, CrdGvk(objs[i])) != 0;
      OwnKindMeaning(objs, CrdGvk(objs[i]));
    }
    if gvk :| gvk in w.items && w.items[gvk] > 0 && OwnKind(objs, gvk) {
      OwnKindMeaning(objs, gvk);
    }
  }

  // ---- the check and the deletion -----------------------------------------

  /** Without faults the check stops the deletion exactly if resources of the module's kinds are left. */
  lemma CheckStopsAtOrphans(a: Api, objs: seq<Obj>)
    requires a.faults == []
    ensures CheckCrdOrphans(a, objs).err.Some? <==> Orphaned(objs, a.world)
  {
    hide CheckCrdOrphans, Orphaned, P.NoOrphans;
    P.CheckDecides(a, objs);
    OrphansMeaning(objs, a.world);
  }

  /** A served CR marked for deletion, in one fault-free run after the deletion has begun: with resources
      left every object stays, the status warns and the error asks for another try; with none left the
      deletion goes on. */
  lemma DeletionByOrphans(env: Env, k: KedaCR, objs: seq<Obj>, w: World) returns (u: RunState)
    requires P.DoomedCr(env, k, w) && Find(k.status, Deleted).Some?
    ensures u == Once(env, k, objs, w)
    ensures Orphaned(objs, w) ==>
              && u.api.world.objs == w.objs && u.err.Some? && AfterRun(u, k.id).Some?
              && AfterRun(u, k.id).value.status.state == Warning && AfterRun(u, k.id).value.finalizers == k.finalizers
    ensures !Orphaned(objs, w) ==> u.err.None? && AfterRun(u, k.id) == P.NextDoomed(env, k)
  {
    hide Once, FindKeda, Orphaned, P.NoOrphans, P.NextDoomed, FindCondition;
    OrphansMeaning(objs, w);
    if Orphaned(objs, w) {
      u := P.OrphansBlock(env, k, objs, w);
    } else {
      u := P.DoomedRun(env, k, objs, w);
    }
  }

  // ---- every run of every history -----------------------------------------

  predicate FoundNone(c: Call, gvk: Gvk) {
    c.ListItems? && c.gvk == gvk && c.count == 0 && (c.err.None? || c.err == Some(NotFound))
  }

  /** Before each delete, every kind of the module was listed and found empty. */
  ghost predicate KindsFoundEmpty(objs: seq<Obj>, t: seq<Call>) {
    forall i, gvk :: 0 <= i < |t| && t[i].DeleteObj? && OwnKind(objs, gvk) ==> exists j :: 0 <= j < i && FoundNone(t[j], gvk)
  }

  lemma GuardedMeaning(objs: seq<Obj>, t: seq<Call>)
    requires D.Guarded(objs, t)
    ensures KindsFoundEmpty(objs, t)
  {
    hide OwnKind, CrdGvk, IsCrd;
    forall i, gvk | 0 <= i < |t| && t[i].DeleteObj? && OwnKind(objs, gvk) ensures exists j :: 0 <= j < i && FoundNone(t[j], gvk) {
      OwnKindMeaning(objs, gvk);
      assert D.ClearIn(t[..i], gvk);
      var j :| 0 <= j < i && D.FoundEmpty(t[..i][j], gvk);
      assert FoundNone(t[j], gvk);
    }
  }

  /** What each run of a history was allowed to delete, by the CR it started from. */
  ghost predicate Careful(p: Past) {
    if p.start.deleting then KindsFoundEmpty(p.objs, p.trace)
    else SaysTrue(p.start.annotations, AddonEnabled) || DeletesAreAsked(p.trace)
  }

  /** In every history: no run on a CR marked for deletion deleted anything before every kind of the
      module was found empty, and no run on another CR deleted anything before the HTTPScaledObjects
      were found gone, unless its annotations switch the add-on on. */
  lemma EveryDeleteIsGuarded(env: Env, objs: seq<Obj>, w: World, actions: seq<Action>)
    ensures forall p :: p in Execute(Boot(env, objs, w), actions).past ==> Careful(p)
  {
    hide Execute, SaysTrue, FindCondition;
    Histories.GuardsDominateDeletes(env, objs, w, actions);
    var past := Execute(Boot(env, objs, w), actions).past;
    forall p | p in past ensures Careful(p) {
      var i :| 0 <= i < |past| && past[i] == p;
      assert Histories.RunGuarded(env.finalizer, past[i]);
      RunIsCareful(env, p);
    }
  }

  lemma RunIsCareful(env: Env, p: Past)
    requires Histories.RunGuarded(env.finalizer, p)
    ensures Careful(p)
  {
    hide KindsFoundEmpty, SaysTrue, ReadAddonCfg, Asked, FindCondition;
    if p.start.deleting {
      assert D.Guarded(p.objs, p.trace);
      GuardedMeaning(p.objs, p.trace);
    } else {
      WantedMeaning(env, p.start.annotations);
      LiveIsAsked(env.finalizer, p.start, p.trace);
    }
  }

  // ---- the two passes -----------------------------------------------------

  /** Among the first n calls that key was deleted, or found gone. */
  ghost predicate GoneBy(t: seq<Call>, n: nat, key: ObjKey)
    requires n <= |t|
  {
    exists j :: 0 <= j < n && t[j].DeleteObj? && t[j].key == key && (t[j].err.None? || t[j].err == Some(NotFound))
  }

  /** Among the first n calls every module object and both leases went. */
  ghost predicate WholePass(objs: seq<Obj>, t: seq<Call>, n: nat)
    requires n <= |t|
  {
    && (forall i :: 0 <= i < |objs| ==> GoneBy(t, n, ObjKey(objs[i].group, objs[i].kind, objs[i].ns, objs[i].name)))
    && GoneBy(t, n, ObjKey(Coordination, Lease, "kyma-system", OperatorLease))
    && GoneBy(t, n, ObjKey(Coordination, Lease, "kyma-system", ManagerLease))
  }

  lemma GoneMeaning(t: seq<Call>, n: nat, key: ObjKey)
    requires n <= |t| && D.DeletedIn(t[..n], key)
    ensures GoneBy(t, n, key)
  {
    var i :| 0 <= i < |t[..n]| && D.Deletes(t[..n][i], key);
    assert t[i] == t[..n][i];
  }

  lemma PassMeaning(objs: seq<Obj>, t: seq<Call>, n: nat)
    requires n <= |t| && D.FullPass(objs, t[..n])
    ensures WholePass(objs, t, n)
  {
    hide D.DeletedIn, GoneBy;
    var list := objs + LEASES;
    forall i | 0 <= i < |list| ensures GoneBy(t, n, KeyOf(list[i])) { GoneMeaning(t, n, KeyOf(list[i])); }
    forall i | 0 <= i < |objs| ensures GoneBy(t, n, ObjKey(objs[i].group, objs[i].kind, objs[i].ns, objs[i].name)) {
      assert list[i] == objs[i];
    }
    assert list[|objs|] == LEASES[0] && list[|objs| + 1] == LEASES[1];
  }

  /** An earlier run for that uid had made a whole pass and then stored Deleted=True. */
  ghost predicate PassedEarlier(past: seq<Past>, i: nat)
    requires i < |past|
  {
    exists j, m :: 0 <= j < i && past[j].start.uid == past[i].start.uid && 0 <= m < |past[j].trace| && PassStored(past[j], m)
  }

  ghost predicate PassStored(p: Past, m: nat)
    requires m < |p.trace|
  {
    && p.trace[m].UpdateStatus? && p.trace[m].landed && WholePass(p.objs, p.trace, m)
    && exists c :: c in p.trace[m].status.conditions && c.typ == Deleted && c.status == True
  }

  /** In every history: the update that takes the finalizer away follows a whole pass of its own run, on a
      served CR marked for deletion, and a whole pass that an earlier run had recorded. */
  lemma FinalizerTakesTwoPasses(env: Env, objs: seq<Obj>, w: World, actions: seq<Action>, i: nat, m: nat)
    requires var past := Execute(Boot(env, objs, w), actions).past;
      && i < |past| && m < |past[i].trace| && past[i].trace[m].UpdateMeta?
      && env.finalizer in past[i].start.finalizers && env.finalizer !in past[i].trace[m].finalizers
    ensures var past := Execute(Boot(env, objs, w), actions).past;
      && past[i].start.deleting && past[i].start.status.served == ServedTrue
      && WholePass(past[i].objs, past[i].trace, m) && PassedEarlier(past, i)
  {
    hide Execute, D.FullPass, WholePass, FindCondition, PassStored;
    Histories.TwoPassDeletion(env, objs, w, actions);
    var past := Execute(Boot(env, objs, w), actions).past;
    assert Histories.TakesFinalizer(env.finalizer, past[i], m);
    PassMeaning(past[i].objs, past[i].trace, m);
    var j :| 0 <= j < i && past[j].start.uid == past[i].start.uid && Histories.RecordedPass(past[j]);
    var x := RecordedMeaning(past[j]);
    assert PassStored(past[j], x);
  }

  lemma RecordedMeaning(p: Past) returns (x: nat)
    requires Histories.RecordedPass(p)
    ensures x < |p.trace| && PassStored(p, x)
  {
    hide D.FullPass, WholePass;
    x :| 0 <= x < |p.trace| && p.trace[x].UpdateStatus? && p.trace[x].landed
         && D.DeletedTrue(p.trace[x].status) && D.FullPass(p.objs, p.trace[..x]);
    PassMeaning(p.objs, p.trace, x);
    assert Find(p.trace[x].status, Deleted).value in p.trace[x].status.conditions;
  }
}
