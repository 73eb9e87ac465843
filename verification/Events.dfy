/** The events of a run are the difference between the status it wrote and its snapshot
    (pkg/reconciler/emmit_event.go, take_snapshot.go, update_status.go). */
module Events {
  import opened KedaTypes
  import opened Objects
  import opened Cluster
  import opened StateMachine
  import opened Transitions
  import opened RunLoop

  // ---- the difference of two condition lists ------------------------------

  ghost predicate Increasing(idx: seq<nat>, bound: nat) {
    && (forall j :: 0 <= j < |idx| ==> idx[j] < bound)
    && (forall i, j :: 0 <= i < j < |idx| ==> idx[i] < idx[j])
  }

  /** The calls report, in order, the conditions at the positions idx. */
  ghost predicate Reports(conds: seq<Condition>, idx: seq<nat>, calls: seq<Call>) {
    && |calls| == |idx| && Increasing(idx, |conds|)
    && (forall j :: 0 <= j < |idx| ==>
          calls[j] == Emit(Event(conds[idx[j]].status == False, conds[idx[j]].reason, conds[idx[j]].message)))
  }

  /** One event for each condition that the earlier list does not hold, in order, and no other. */
  ghost predicate IsDiff(conds: seq<Condition>, earlier: seq<Condition>, calls: seq<Call>) {
    exists idx: seq<nat> :: Reports(conds, idx, calls) && forall i: nat :: i < |conds| ==> (i in idx <==> conds[i] !in earlier)
  }

  lemma UnchangedMeaning(c: Condition, s: Status)
    requires UniqueTypes(s.conditions)
    ensures Unchanged(c, s) <==> c in s.conditions
  {
    FindUnique(s.conditions, c);
  }

  lemma {:induction false} FindUnique(conds: seq<Condition>, c: Condition)
    requires UniqueTypes(conds)
    ensures c in conds <==> FindCondition(conds, c.typ) == Some(c)
  {
    if conds != [] && conds[0].typ != c.typ {
      FindUnique(conds[1..], c);
    }
  }

  /** The positions that the loop picks. */
  function Picked(conds: seq<Condition>, snapshot: Status, n: nat): seq<nat>
    requires n <= |conds|
  {
    if n == 0 then []
    else Picked(conds, snapshot, n - 1) + if Unchanged(conds[n - 1], snapshot) then [] else [n - 1]
  }

  lemma {:induction false} PickedMeaning(conds: seq<Condition>, snapshot: Status, n: nat)
    requires n <= |conds|
    ensures Increasing(Picked(conds, snapshot, n), n)
    ensures forall i: nat :: i in Picked(conds, snapshot, n) <==> i < n && !Unchanged(conds[i], snapshot)
  {
    hide Unchanged;
    if n > 0 {
      PickedMeaning(conds, snapshot, n - 1);
    }
  }

  /** What the loop has appended to the trace after n conditions. */
  function Emitted(conds: seq<Condition>, snapshot: Status, n: nat): seq<Call>
    requires n <= |conds|
  {
    if n == 0 then []
    else Emitted(conds, snapshot, n - 1) + if Unchanged(conds[n - 1], snapshot) then [] else [Emit(EventOf(conds[n - 1]))]
  }

  lemma NothingReported(conds: seq<Condition>)
    ensures Reports(conds, [], [])
  {
  }

  lemma ReportsOneMore(conds: seq<Condition>, idx: seq<nat>, calls: seq<Call>, i: nat)
    requires Reports(conds, idx, calls) && i < |conds| && Increasing(idx, i)
    ensures Reports(conds, idx + [i], calls + [Emit(EventOf(conds[i]))])
  {
  }

  lemma {:induction false} EmittedReports(conds: seq<Condition>, snapshot: Status, n: nat)
    requires n <= |conds|
    ensures Reports(conds, Picked(conds, snapshot, n), Emitted(conds, snapshot, n))
  {
    hide Unchanged, Reports, Increasing;
    if n > 0 {
      PickedMeaning(conds, snapshot, n - 1);
      EmittedReports(conds, snapshot, n - 1);
      ReportsOneMore(conds, Picked(conds, snapshot, n - 1), Emitted(conds, snapshot, n - 1), n - 1);
      assert Picked(conds, snapshot, n - 1) + [] == Picked(conds, snapshot, n - 1);
      assert Emitted(conds, snapshot, n - 1) + [] == Emitted(conds, snapshot, n - 1);
    } else {
      assert Reports(conds, [], []) by { NothingReported(conds); }
    }
  }

  lemma {:induction false} EmitAllAppends(a: Api, conds: seq<Condition>, snapshot: Status, n: nat)
    requires n <= |conds|
    ensures EmitAll(a, conds, snapshot)
         == EmitAll(a.(trace := a.trace + Emitted(conds, snapshot, n)), conds[n..], snapshot)
  {
    hide Unchanged;
    if n > 0 {
      EmitAllAppends(a, conds, snapshot, n - 1);
      assert conds[n - 1..][1..] == conds[n..] && conds[n - 1..][0] == conds[n - 1];
      var before := a.(trace := a.trace + Emitted(conds, snapshot, n - 1));
      if Unchanged(conds[n - 1], snapshot) {
        assert Emitted(conds, snapshot, n) == Emitted(conds, snapshot, n - 1);
      } else {
        assert before.trace + [Emit(EventOf(conds[n - 1]))] == a.trace + Emitted(conds, snapshot, n);
      }
    } else {
      assert a.trace + [] == a.trace && conds[0..] == conds;
    }
  }

  /** The loop of sFnEmitEventfunc reports exactly the difference. */
  lemma EmitAllIsDiff(a: Api, conds: seq<Condition>, snapshot: Status)
    requires UniqueTypes(snapshot.conditions)
    ensures var r := EmitAll(a, conds, snapshot);
      a.trace <= r.trace && IsDiff(conds, snapshot.conditions, r.trace[|a.trace|..])
  {
    var n := |conds|;
    EmitAllAppends(a, conds, snapshot, n);
    EmittedReports(conds, snapshot, n);
    PickedMeaning(conds, snapshot, n);
    forall c ensures Unchanged(c, snapshot) <==> c in snapshot.conditions { UnchangedMeaning(c, snapshot); }
    assert EmitAll(a, conds, snapshot).trace == a.trace + Emitted(conds, snapshot, n);
    assert EmitAll(a, conds, snapshot).trace[|a.trace|..] == Emitted(conds, snapshot, n);
  }

  // ---- the snapshot of a run ----------------------------------------------

  /** What a run compares with: the status it read if that was a served CR's, else nothing, as the
      served filter stops a run before the snapshot is taken. */
  function Baseline(s: Status): Status {
    if s.served == ServedTrue then s else EMPTY_STATUS
  }

  /** The snapshot is a copy taken at the start; no later change of the status alters it. */
  ghost predicate SnapshotInv(v: RunState, start: Status) {
    match v.fn
    case ServedFilter => v.snapshot == EMPTY_STATUS && v.k.status == start
    case TakeSnapshot => v.k.status == start && start.served == ServedTrue
    case Nil => true
    case _ => v.snapshot == Baseline(start)
  }

  lemma SnapshotTaken(v: RunState, start: Status)
    requires SnapshotInv(v, start) && (v.fn.ServedFilter? || v.fn.TakeSnapshot?)
    ensures v.fn.ServedFilter? ==> SnapshotInv(StepServedFilter(v), start)
    ensures v.fn.TakeSnapshot? ==> SnapshotInv(StepTakeSnapshot(v), start)
  {
    hide FindServed, SetCondition;
  }

  lemma StepKeepsSnapshot(v: RunState, start: Status)
    requires SnapshotInv(v, start) && Sound(v) && !v.fn.Nil?
    ensures SnapshotInv(Step(v), start)
  {
    hide StepServedFilter, StepTakeSnapshot, StepInitialize, StepValidation, StepFindComponent, StepUpdateObject;
    hide StepApply, StepVerify, StepHandleAddon, StepGuardAddon, StepApplyAddon, StepDeleteAddon;
    hide StepDeleteResources, StepSafeDeletion, StepRemoveFinalizer, StepWriteStatus, StepEmitEvents;
    hide MetaStep, MetaStatus, StatusWrite, StatusStep, TraceGrows;
    StepFacts(v);
    if v.fn.ServedFilter? || v.fn.TakeSnapshot? {
      SnapshotTaken(v, start);
    }
  }

  /** The events after a successful status write are the difference from the baseline. */
  ghost predicate Reported(u: RunState, baseline: Status) {
    forall w: nat :: WrittenAt(u.api.trace, w) && u.api.trace[w].err.None? ==>
      IsDiff(u.api.trace[w].status.conditions, baseline.conditions, u.api.trace[w + 1..])
  }

  lemma OneWrite(t: seq<Call>, w: nat, x: nat)
    requires WrittenAt(t, w) && WrittenAt(t, x)
    ensures w == x
  {
  }

  lemma QuietIsReported(u: RunState, baseline: Status)
    requires Quiet(u.api.trace)
    ensures Reported(u, baseline)
  {
  }

  lemma EmittedIsReported(v: RunState, u: RunState, r: Option<Result>, e: Option<Err>, baseline: Status)
    requires u.fn == EmitEvents(r, e) && AfterWrite(v, u, r, e) && u.snapshot == baseline && UniqueTypes(baseline.conditions)
    ensures Reported(StepEmitEvents(u, r, e), baseline)
  {
    hide Quiet, IsDiff, EmitAll;
    var w := |v.api.trace|;
    var x := StepEmitEvents(u, r, e);
    EmitAllFacts(u.api, u.k.status.conditions, u.snapshot);
    EmitAllIsDiff(u.api, u.k.status.conditions, u.snapshot);
    assert x.api.trace[..w] == u.api.trace[..w];
    assert WrittenAt(x.api.trace, w);
    forall y: nat | WrittenAt(x.api.trace, y) ensures y == w { OneWrite(x.api.trace, y, w); }
  }

  lemma FailedIsReported(v: RunState, u: RunState, r: Option<Result>, e: Option<Err>, baseline: Status)
    requires u.fn.Nil? && AfterWrite(v, u, r, e)
    ensures Reported(u, baseline)
  {
    var w := |v.api.trace|;
    forall y: nat | WrittenAt(u.api.trace, y) ensures y == w { OneWrite(u.api.trace, y, w); }
  }

  lemma WriteIsReported(v: RunState, start: Status)
    requires Sound(v) && v.fn.WriteStatus? && v.err.None? && Quiet(v.api.trace)
    requires SnapshotInv(v, start) && UniqueTypes(start.conditions)
    ensures Reported(Finish(v), Baseline(start))
  {
    hide Step, StepWriteStatus, StepEmitEvents, Quiet, Facts, Reported, UniqueTypes, Outcome, Wrote;
    var r, e := v.fn.result, v.fn.err;
    var u := Step(v);
    StepOfWrite(v);
    FinishStep(v);
    WriteStatusEnds(v, r, e);
    NoErrYet(v);
    StepKeepsSnapshot(v, start);
    assert UniqueTypes(Baseline(start).conditions) by { BaselineUnique(start); }
    if u.fn.EmitEvents? {
      StepOfWrite(u);
      FinishStep(u);
      EmittedIsReported(v, u, r, e, Baseline(start));
      EmitEventsEnds(v, u, r, e);
      NilAfterEmit(v.k.id, Step(u), r, e);
      FinishNil(Step(u));
    } else {
      FinishNil(u);
      FailedIsReported(v, u, r, e, Baseline(start));
    }
  }

  lemma BaselineUnique(start: Status)
    requires UniqueTypes(start.conditions)
    ensures UniqueTypes(Baseline(start).conditions)
  {
  }

  lemma NilAfterEmit(id: KedaId, u: RunState, r: Option<Result>, e: Option<Err>)
    requires Outcome(id, u, Some((r, e)))
    ensures u.fn.Nil?
  {
  }

  lemma {:induction false} RunReports(v: RunState, start: Status)
    requires Sound(v) && !Done(v) && !v.fn.EmitEvents? && Quiet(v.api.trace)
    requires SnapshotInv(v, start) && UniqueTypes(start.conditions)
    ensures Reported(Finish(v), Baseline(start))
    decreases Rank(v.fn)
  {
    hide Step, SnapshotInv, Reported, Quiet, Rank;
    if v.fn.WriteStatus? {
      WriteIsReported(v, start);
    } else {
      FinishStep(v);
      StepLowersRank(v);
      StepKeepsSnapshot(v, start);
      StepFacts(v);
      QuietGrows(v.fn, v.api, Step(v).api);
      if Step(v).fn.Nil? {
        FinishNil(Step(v));
        QuietIsReported(Step(v), Baseline(start));
      } else {
        RunReports(Step(v), start);
      }
    }
  }

  /** In every run, whatever failed before: the events are, in order, one for each condition in the
      written status that the status read at the start did not hold. That status counts as empty if
      the CR was not served then. */
  lemma EventsAreTheDiff(env: Env, k: KedaCR, objs: seq<Obj>, api: Api)
    requires api.trace == [] && UniqueTypes(k.status.conditions)
    ensures Reported(Finish(StartRun(env, k, objs, api)), Baseline(k.status))
  {
    hide Step, Reported;
    RunReports(StartRun(env, k, objs, api), k.status);
  }

  // ---- a CR that is not served --------------------------------------------

  function DuplicateOf(s: KedaCR): Condition {
    Condition(Installed, False, KedaDuplicated, OfErr(Duplicated(s.id.ns, s.id.name)))
  }

  /** The stored conditions that such a run would announce again: none. */
  predicate NothingToRepeat(k: KedaCR, kedas: seq<KedaCR>) {
    match FindServed(kedas)
    case None => k.status.conditions == []
    case Some(s) => forall c :: c in k.status.conditions ==> c.typ == Installed && c != DuplicateOf(s)
  }

  lemma {:induction false} AllPositions(idx: seq<nat>, n: nat, i: nat)
    requires Increasing(idx, n) && |idx| == n && i < n
    ensures idx[i] == i
  {
    AtLeast(idx, n, i);
    AtMost(idx, n, i);
  }

  lemma {:induction false} AtLeast(idx: seq<nat>, n: nat, i: nat)
    requires Increasing(idx, n) && i < |idx|
    ensures i <= idx[i]
  {
    if i > 0 { AtLeast(idx, n, i - 1); }
  }

  lemma {:induction false} AtMost(idx: seq<nat>, n: nat, i: nat)
    requires Increasing(idx, n) && |idx| == n && i < n
    ensures idx[i] <= i
    decreases n - i
  {
    if i + 1 < n { AtMost(idx, n, i + 1); }
  }

  /** Announcing a whole list is announcing the difference from another list exactly if they share nothing. */
  lemma AllIsDiff(conds: seq<Condition>, earlier: seq<Condition>, calls: seq<Call>)
    requires IsDiff(conds, [], calls)
    ensures IsDiff(conds, earlier, calls) <==> forall c :: c in conds ==> c !in earlier
  {
    var idx: seq<nat> :| Reports(conds, idx, calls) && forall i: nat :: i < |conds| ==> (i in idx <==> conds[i] !in []);
    assert |idx| == |conds| by { Full(idx, |conds|); }
    if IsDiff(conds, earlier, calls) {
      var jdx: seq<nat> :| Reports(conds, jdx, calls) && forall i: nat :: i < |conds| ==> (i in jdx <==> conds[i] !in earlier);
      forall i: nat | i < |conds| ensures conds[i] !in earlier {
        AllPositions(jdx, |conds|, i);
        assert jdx[i] in jdx;
      }
    }
  }

  /** An increasing list that holds every position is as long as the range. */
  lemma {:induction false} Full(idx: seq<nat>, n: nat)
    requires Increasing(idx, n) && forall i: nat :: i < n ==> i in idx
    ensures |idx| == n
  {
    if |idx| > 0 { AtLeast(idx, n, |idx| - 1); }
    if n > 0 {
      AtIndex(idx, n, n - 1);
    }
  }

  lemma {:induction false} AtIndex(idx: seq<nat>, n: nat, i: nat)
    requires Increasing(idx, n) && (forall j: nat :: j < n ==> j in idx) && i < n
    ensures i < |idx| && idx[i] == i
  {
    assert i in idx;
    var j :| 0 <= j < |idx| && idx[j] == i;
    AtLeast(idx, n, j);
    if j < i {
      AtIndex(idx, n, j);
    }
  }

  /** The statuses the served filter writes share something with the stored one unless there is
      nothing to repeat. */
  lemma SharedConditions(k: KedaCR, kedas: seq<KedaCR>, written: seq<Condition>)
    requires UniqueTypes(k.status.conditions)
    requires written == if FindServed(kedas).None? then k.status.conditions
                        else SetCondition(k.status.conditions, DuplicateOf(FindServed(kedas).value))
    ensures (forall c :: c in written ==> c !in k.status.conditions) <==> NothingToRepeat(k, kedas)
  {
    var conds := k.status.conditions;
    if FindServed(kedas).None? {
      if conds != [] { assert conds[0] in written; }
    } else {
      var dup := DuplicateOf(FindServed(kedas).value);
      forall c ensures c in written <==> if c.typ == Installed then c == dup else c in conds {
        FindUnique(written, c);
        FindUnique(conds, c);
      }
    }
  }

  /** The run of a CR that is not served: two calls and the events. */
  lemma UnservedRun(v: RunState) returns (v1: RunState, v2: RunState)
    requires v.fn.ServedFilter? && v.err.None? && v.api.faults == [] && v.api.trace == []
    requires Stored(v) == Some(v.k) && v.k.status.served != ServedTrue
    ensures v1 == StepServedFilter(v) && v1.fn.WriteStatus? && v1.err.None?
    ensures v1.k.status.conditions == if FindServed(v.api.world.kedas).None? then v.k.status.conditions
              else SetCondition(v.k.status.conditions, DuplicateOf(FindServed(v.api.world.kedas).value))
    ensures v2 == StepWriteStatus(v1, v1.fn.result, v1.fn.err) && v2.fn.EmitEvents? && v2.err.None?
    ensures v2.snapshot == v.snapshot && v2.k.status == v1.k.status
    ensures WrittenAt(v2.api.trace, 1) && |v2.api.trace| == 2 && v2.api.trace[1].err.None? && v2.api.trace[1].status == v1.k.status
  {
    hide FindKeda, StoreStatus, SetCondition, FindServed;
    v1 := StepServedFilter(v);
    v2 := StepWriteStatus(v1, v1.fn.result, v1.fn.err);
    assert Quiet(v2.api.trace[..1]);
  }

  /** That run's events are the difference from the stored status exactly if nothing stored is
      repeated; a duplicate that keeps its status announces it again every time. */
  lemma UnservedEventsRepeat(env: Env, k: KedaCR, objs: seq<Obj>, api: Api)
    requires api.trace == [] && api.faults == [] && FindKeda(api.world.kedas, k.id) == Some(k)
    requires UniqueTypes(k.status.conditions) && k.status.served != ServedTrue
    ensures ReportedAgainst(Finish(StartRun(env, k, objs, api)), k.status.conditions, NothingToRepeat(k, api.world.kedas))
  {
    hide Step, FindKeda, StepServedFilter, StepWriteStatus, StepEmitEvents, EmitAll, UniqueTypes, Reports, NothingToRepeat, FindServed, SetCondition;
    var v := StartRun(env, k, objs, api);
    var v1, v2 := UnservedRun(v);
    StepOfFilter(v);
    StepOfWrite(v1);
    StepOfWrite(v2);
    FinishStep(v);
    FinishStep(v1);
    FinishStep(v2);
    EmitOneTail(v2, v2.fn.result, v2.fn.err);
    FinishNil(Step(v2));
    var u := Step(v2);
    AllIsDiff(u.api.trace[1].status.conditions, k.status.conditions, u.api.trace[2..]);
    SharedConditions(k, api.world.kedas, u.api.trace[1].status.conditions);
  }

  /** The status was written second and the events follow it; they are the difference from that list or not. */
  ghost predicate ReportedAgainst(u: RunState, earlier: seq<Condition>, exactly: bool) {
    && WrittenAt(u.api.trace, 1) && u.api.trace[1].err.None?
    && (IsDiff(u.api.trace[1].status.conditions, earlier, u.api.trace[2..]) <==> exactly)
  }

  lemma EmitOneTail(v: RunState, r: Option<Result>, e: Option<Err>)
    requires v.fn == EmitEvents(r, e) && WrittenAt(v.api.trace, 1) && |v.api.trace| == 2 && v.snapshot == EMPTY_STATUS
    requires v.api.trace[1].err.None? && v.api.trace[1].status == v.k.status
    ensures var u := StepEmitEvents(v, r, e);
      && WrittenAt(u.api.trace, 1) && u.api.trace[1] == v.api.trace[1] && u.fn.Nil?
      && IsDiff(u.api.trace[1].status.conditions, [], u.api.trace[2..])
  {
    hide Quiet, IsDiff, EmitAll;
    EmitAllFacts(v.api, v.k.status.conditions, v.snapshot);
    EmitAllIsDiff(v.api, v.k.status.conditions, v.snapshot);
    assert StepEmitEvents(v, r, e).api.trace[..1] == v.api.trace[..1];
  }
}
