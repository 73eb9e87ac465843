/** The loop that runs the state functions: it ends, it writes the status at most once, and what
    it returns is what the state that stopped it asked for (pkg/reconciler/fsm.go:284-311). */
module RunLoop {
  import opened KedaTypes
  import opened Cluster
  import opened StateMachine
  import opened Transitions
  import Chain = UpdateChain

  // ---- the rank of a state ------------------------------------------------

  /** What is left once a component's own states are through. */
  function RankAfter(c: Chain.Component): nat {
    match c
    case Operator => 22
    case MetricsServer => 15
    case AdmissionWebhooks => 9
    case WebhookPolicy => 7
  }

  /** How many more state functions a run can execute from here. */
  function Rank(f: StateFn): nat {
    match f
    case Nil => 0
    case EmitEvents(_, _) => 1
    case RemoveFinalizer => 1
    case WriteStatus(_, _) => 2
    case DeleteAddon => 3
    case ApplyAddon => 3
    case SafeDeletion => 3
    case DeleteResources => 4
    case GuardAddonInUse => 4
    case HandleAddon => 5
    case Verify => 6
    case Apply => 7
    case UpdateObject(c, e, _) => RankAfter(c) + (if e < |Chain.Edits(c)| then |Chain.Edits(c)| - e else 1)
    case FindComponent(c) => RankAfter(c) + |Chain.Edits(c)| + 1
    case BootstrapperValidation => 30
    case Initialize => 31
    case TakeSnapshot => 32
    case ServedFilter => 33
  }

  /** Every transition that the code can take lowers the rank. */
  lemma RankFalls(f: StateFn, g: StateFn)
    requires Follows(f, g) && !f.Nil?
    ensures Rank(g) < Rank(f)
  {
  }

  lemma StepLowersRank(v: RunState)
    requires Sound(v) && !Done(v)
    ensures Rank(Step(v).fn) < Rank(v.fn) && Sound(Step(v))
  {
    hide Step, Follows, Rank;
    StepFacts(v);
    RankFalls(v.fn, Step(v).fn);
  }

  /** From any state, the number of state functions still executed is bounded by the rank; without
      a cancellation in that time the run ends by itself. */
  lemma {:induction false} RunEnds(v: RunState, n: nat)
    requires Sound(v)
    ensures Length(v, n) <= Rank(v.fn)
    ensures n >= Rank(v.fn) ==> Done(Run(v, n)) && Run(v, n) == Run(v, Rank(v.fn))
    decreases n
  {
    hide Step;
    if !Done(v) {
      StepLowersRank(v);
      if n > 0 {
        RunEnds(Step(v), n - 1);
      }
      if n >= Rank(v.fn) {
        RunEnds(Step(v), Rank(v.fn) - 1);
      }
    }
  }

  /** The run that nobody cancels. */
  function Finish(v: RunState): RunState { Run(v, Rank(v.fn)) }

  lemma FinishStep(v: RunState)
    requires Sound(v) && !Done(v)
    ensures Finish(v) == Finish(Step(v)) && Sound(Step(v))
  {
    hide Step;
    StepLowersRank(v);
    RunEnds(Step(v), Rank(v.fn) - 1);
  }

  lemma FinishIsRun(v: RunState, n: nat)
    requires Sound(v) && n >= Rank(v.fn)
    ensures Run(v, n) == Finish(v) && Done(Finish(v))
  {
    hide Step;
    RunEnds(v, n);
  }

  // ---- the end of a run ---------------------------------------------------

  /** Neither a status write nor an event. */
  ghost predicate Quiet(t: seq<Call>) {
    forall i :: 0 <= i < |t| ==> !t[i].UpdateStatus? && !t[i].Emit?
  }

  ghost predicate NoStatusWrite(t: seq<Call>) {
    forall i :: 0 <= i < |t| ==> !t[i].UpdateStatus?
  }

  /** One status write at position w, nothing but events after it, and those only if it succeeded. */
  ghost predicate WrittenAt(t: seq<Call>, w: nat) {
    && w < |t| && Quiet(t[..w]) && t[w].UpdateStatus?
    && (forall i :: w < i < |t| ==> t[i].Emit? && t[w].err.None?)
  }

  /** What the stopping state handed to the status write, if the run got that far. */
  function Carried(v: RunState, n: nat): Option<(Option<Result>, Option<Err>)>
    decreases n
  {
    if Done(v) || n == 0 then None
    else match v.fn
      case WriteStatus(result, err) => Some((result, err))
      case _ => Carried(Step(v), n - 1)
  }

  /** The result and error of a run whose status write was answered with w. */
  predicate Returned(result: Option<Result>, err: Option<Err>, carried: (Option<Result>, Option<Err>), w: Option<Err>) {
    if w.None? then (result, err) == carried
    else result == None && err == if carried.1.Some? then carried.1 else w
  }

  /** No status write was asked for: the instance was already without our finalizer, or has just
      lost it, or removing it failed. */
  predicate EndedEarly(u: RunState) {
    || (u.result == None && u.err == None)
    || (u.result == Some(Requeue) && u.err.Some? && u.err != Some(NotFound))
  }

  lemma QuietGrows(f: StateFn, a: Api, b: Api)
    requires TraceGrows(f, a, b) && Quiet(a.trace) && !f.WriteStatus? && !f.EmitEvents?
    ensures Quiet(b.trace)
  {
    forall i | 0 <= i < |b.trace| ensures !b.trace[i].UpdateStatus? && !b.trace[i].Emit? {
      if i < |a.trace| { assert b.trace[i] == a.trace[i]; }
    }
  }

  /** How a run for that CR ended, given what its status write was handed. */
  ghost predicate Outcome(id: KedaId, u: RunState, carried: Option<(Option<Result>, Option<Err>)>) {
    && u.fn.Nil?
    && (carried.None? ==> Quiet(u.api.trace) && EndedEarly(u))
    && (carried.Some? ==> exists w: nat :: Wrote(id, u, w) && Returned(u.result, u.err, carried.value, u.api.trace[w].err))
  }

  /** The write at position w was of the status that u holds. */
  ghost predicate Wrote(id: KedaId, u: RunState, w: nat) {
    WrittenAt(u.api.trace, w) && u.api.trace[w].id == id && u.api.trace[w].status == u.k.status
  }

  /** The state after a status write: going on to the events, or ended by an error. */
  ghost predicate AfterWrite(v: RunState, u: RunState, result: Option<Result>, err: Option<Err>) {
    && |u.api.trace| == |v.api.trace| + 1 && Wrote(v.k.id, u, |v.api.trace|)
    && (if u.api.trace[|v.api.trace|].err.None? then u.fn == EmitEvents(result, err)
        else u.fn.Nil? && Outcome(v.k.id, u, Some((result, err))))
  }

  lemma WriteStatusEnds(v: RunState, result: Option<Result>, err: Option<Err>)
    requires v.fn == WriteStatus(result, err) && Quiet(v.api.trace)
    ensures AfterWrite(v, StepWriteStatus(v, result, err), result, err)
  {
    hide StoreStatus;
    var u := StepWriteStatus(v, result, err);
    assert u.api.trace[..|v.api.trace|] == v.api.trace;
    assert Wrote(v.k.id, u, |v.api.trace|);
  }

  lemma EmitEventsEnds(v: RunState, u: RunState, result: Option<Result>, err: Option<Err>)
    requires u.fn == EmitEvents(result, err) && AfterWrite(v, u, result, err)
    ensures Outcome(v.k.id, StepEmitEvents(u, result, err), Some((result, err)))
  {
    var w := |v.api.trace|;
    EmitAllFacts(u.api, u.k.status.conditions, u.snapshot);
    var x := StepEmitEvents(u, result, err);
    assert x.api.trace[..w] == u.api.trace[..w];
    assert Wrote(v.k.id, x, w);
  }

  lemma FinishNil(u: RunState)
    requires u.fn.Nil?
    ensures Finish(u) == u
  {
    hide Step;
  }

  lemma RankBound(f: StateFn)
    ensures Rank(f) <= 33 && (Rank(f) == 0 <==> f.Nil?) && (f.WriteStatus? ==> Rank(f) == 2)
  {
  }

  lemma EarlyEnd(v: RunState)
    requires (v.fn.Initialize? || v.fn.RemoveFinalizer?) && Step(v).fn.Nil?
    ensures EndedEarly(Step(v))
  {
    hide DoUpdateMeta, With;
  }

  /** A run cut off by its context: nothing written yet, or the status just written and no event out. */
  ghost predicate CutOff(id: KedaId, u: RunState, carried: Option<(Option<Result>, Option<Err>)>) {
    && u.err == Some(Canceled)
    && match carried
       case None => Quiet(u.api.trace)
       case Some(c) =>
         && u.fn == EmitEvents(c.0, c.1)
         && exists w: nat :: Wrote(id, u, w) && |u.api.trace| == w + 1 && u.api.trace[w].err.None?
  }

  /** How a run ended, by itself or by its context. */
  ghost predicate Ended(id: KedaId, u: RunState, carried: Option<(Option<Result>, Option<Err>)>) {
    if u.fn.Nil? then Outcome(id, u, carried) else CutOff(id, u, carried)
  }

  /** However early its context is cancelled, a run writes the status at most once, with the status it
      ends with, and emits events only after that write has succeeded. It ends by itself after at most
      33 state functions and then returns what the stopping state carried, or the error of the write;
      a run that is cut off returns the context's error and no result. */
  lemma {:induction false} RunOutcome(v: RunState, n: nat)
    requires Sound(v) && !Done(v) && !v.fn.EmitEvents? && Quiet(v.api.trace)
    ensures Length(v, n) <= Rank(v.fn) <= 33
    ensures n >= Rank(v.fn) ==> Run(v, n).fn.Nil?
    ensures v.result.None? && !Run(v, n).fn.Nil? ==> Run(v, n).result.None?
    ensures Ended(v.k.id, Run(v, n), Carried(v, n))
    decreases n
  {
    hide Step, Outcome, Wrote, Rank, Quiet, EndedEarly;
    RunEnds(v, n);
    RankBound(v.fn);
    if n > 0 {
      StepFacts(v);
      StepLowersRank(v);
      var u := Step(v);
      if v.fn.WriteStatus? {
        OutcomeOfWrite(v, v.fn.result, v.fn.err, n);
      } else {
        QuietGrows(v.fn, v.api, u.api);
        if u.fn.Nil? {
          EarlyEnd(v);
          EarlyOutcome(v.k.id, u);
        } else {
          RunOutcome(u, n - 1);
        }
      }
    }
  }

  lemma EarlyOutcome(id: KedaId, u: RunState)
    requires u.fn.Nil? && Quiet(u.api.trace) && EndedEarly(u)
    ensures Outcome(id, u, None)
  {
  }

  lemma StepOfWrite(v: RunState)
    requires v.fn.WriteStatus? || v.fn.EmitEvents?
    ensures Step(v) == if v.fn.WriteStatus? then StepWriteStatus(v, v.fn.result, v.fn.err) else StepEmitEvents(v, v.fn.result, v.fn.err)
  {
    hide StepWriteStatus, StepEmitEvents;
  }

  lemma StepOfFilter(v: RunState)
    requires v.fn.ServedFilter?
    ensures Step(v) == StepServedFilter(v)
  {
    hide StepServedFilter;
  }

  lemma OutcomeOfWrite(v: RunState, r: Option<Result>, e: Option<Err>, n: nat)
    requires Sound(v) && v.fn == WriteStatus(r, e) && v.err.None? && Quiet(v.api.trace) && n > 0
    ensures Ended(v.k.id, Run(v, n), Some((r, e)))
    ensures n >= 2 ==> Run(v, n).fn.Nil?
    ensures !Run(v, n).fn.Nil? ==> Run(v, n).result.None?
  {
    hide Step, StepWriteStatus, StepEmitEvents, Outcome, Quiet, Facts;
    StepOfWrite(v);
    var u := Step(v);
    WriteStatusEnds(v, r, e);
    StepFacts(v);
    assert u.fn.EmitEvents? ==> u.err.None? && u.result.None? by { NoErrYet(v); }
    if u.fn.EmitEvents? {
      if n > 1 {
        StepOfWrite(u);
        EmitEventsEnds(v, u, r, e);
        EndsAtOnce(Step(u), n - 2);
      } else {
        var x := u.(err := Some(Canceled));
        assert Run(v, 1) == x;
        assert Wrote(v.k.id, x, |v.api.trace|);
      }
    } else {
      EndsAtOnce(u, n - 1);
    }
  }

  lemma EndsAtOnce(u: RunState, n: nat)
    requires u.fn.Nil?
    ensures Run(u, n) == u
  {
    hide Step;
  }

  lemma NoErrYet(v: RunState)
    requires Sound(v) && !v.fn.Nil?
    ensures !Step(v).fn.Nil? ==> Step(v).err.None? && Step(v).result.None?
  {
    hide Step, TraceGrows, StatusStep;
    StepFacts(v);
  }
}
