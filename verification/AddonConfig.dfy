/** The add-on's configuration as the text of three annotations, and what it makes of the theorems on
    placement and removal (api/v1alpha1/keda_types.go:462-486, pkg/reconciler/addon.go:245-296). */
module AddonConfig {
  import opened KedaTypes
  import opened Objects
  import opened AddonPlacement
  import opened Cluster
  import opened StateMachine
  import opened Transitions
  import opened ReadySoundness
  import opened Controller
  import opened AddonExactness
  import opened AddonHistory
  import opened FaultFree
  import opened Convergence
  import opened ModuleHealth
  import LiveRuns
  import Histories
  import Chain = UpdateChain

  // ---- reading the annotations --------------------------------------------

  function LowerChar(c: char): char { if 'A' <= c <= 'Z' then c - 'A' + 'a' else c }

  function Lower(s: string): string {
    seq(|s|, i requires 0 <= i < |s| => LowerChar(s[i]))
  }

  /** The annotation is there and is "true" but for upper and lower case. */
  predicate SaysTrue(ann: Annotations, key: AnnotationKey) { key in ann && Lower(ann[key]) == "true" }

  function NamespaceAsked(ann: Annotations): string {
    if AddonNamespace in ann && ann[AddonNamespace] != "" then ann[AddonNamespace] else "kyma-system"
  }

  /** What the annotations ask for. */
  function Asked(env: Env, ann: Annotations): Placement {
    if SaysTrue(ann, AddonEnabled) then Placed(env.defaultVersion, NamespaceAsked(ann), SaysTrue(ann, AddonIstioInjection)) else Nowhere
  }

  lemma FoldMeaning(s: string)
    ensures IsTrueFold(s) <==> Lower(s) == "true"
  {
    var l := Lower(s);
    assert |l| == |s|;
    if |s| == 4 {
      assert forall i :: 0 <= i < 4 ==> l[i] == LowerChar(s[i]);
      assert l == [l[0], l[1], l[2], l[3]] && "true" == ['t', 'r', 'u', 'e'];
    }
  }

  /** The reconciler reads it that way. */
  lemma WantedMeaning(env: Env, ann: Annotations)
    ensures Wanted(env, ann) == Asked(env, ann)
    ensures ReadAddonCfg(ann).enabled <==> SaysTrue(ann, AddonEnabled)
  {
    hide IsTrueFold;
    FoldMeaning(Lookup(ann, AddonEnabled));
    FoldMeaning(Lookup(ann, AddonIstioInjection));
    assert |Lower("")| == 0;
  }

  // ---- a healthy run ------------------------------------------------------

  function HsoCount(w: World): nat {
    var gvk := Gvk(HttpKeda, V1Alpha1, "HTTPScaledObject");
    if gvk in w.items then w.items[gvk] else 0
  }

  lemma WellEither(env: Env, k: KedaCR, objs: seq<Obj>, w: World)
    requires ModuleWell(k, objs, w) && (SaysTrue(k.annotations, AddonEnabled) || HsoCount(w) == 0)
    ensures AllWell(k, objs, w)
  {
    hide Chain.HasRestricted, AllFound, Healthy, ReadAddonCfg, Wanted, Asked, ModuleWell;
    WellMeaning(k, objs, w);
    WantedMeaning(env, k.annotations);
  }

  /** A healthy run leads to what the annotations ask for, whatever was installed before. */
  lemma ConvergesAsAsked(s: Sys, id: KedaId, n: nat, p: Placement)
    requires InPlace(s, id, p) && n >= 33
    requires var k := FindKeda(s.world.kedas, id).value;
      s.env.finalizer in k.finalizers && ModuleWell(k, s.objs, s.world) && (SaysTrue(k.annotations, AddonEnabled) || HsoCount(s.world) == 0)
    ensures InPlace(Reconciled(s, id, [], n), id, Asked(s.env, FindKeda(s.world.kedas, id).value.annotations))
  {
    hide FindKeda, Wanted, Asked, Reconciled, SaysTrue, HsoCount, ModuleWell, Exact, Suitable, Records, Histories.SysInv;
    var k := FindKeda(s.world.kedas, id).value;
    WellEither(s.env, k, s.objs, s.world);
    WantedMeaning(s.env, k.annotations);
    Converges(s, id, n, p);
  }

  /** Switched on for some namespace: its objects are there, under that namespace, and are recorded. */
  lemma ConvergesOn(s: Sys, id: KedaId, n: nat, p: Placement, ns: string, istio: bool)
    requires InPlace(s, id, p) && n >= 33 && ns != ""
    requires var k := FindKeda(s.world.kedas, id).value;
      && s.env.finalizer in k.finalizers && ModuleWell(k, s.objs, s.world)
      && AddonEnabled in k.annotations && Lower(k.annotations[AddonEnabled]) == "true"
      && AddonNamespace in k.annotations && k.annotations[AddonNamespace] == ns
      && (istio <==> AddonIstioInjection in k.annotations && Lower(k.annotations[AddonIstioInjection]) == "true")
    ensures InPlace(Reconciled(s, id, [], n), id, Placed(s.env.defaultVersion, ns, istio))
  {
    hide FindKeda, Wanted, Reconciled, HsoCount, ModuleWell, Exact, Suitable, Records, Histories.SysInv;
    ConvergesAsAsked(s, id, n, p);
  }

  /** No annotations at all, and nothing in use: no object of the add-on is left. */
  lemma ConvergesBare(s: Sys, id: KedaId, n: nat, p: Placement)
    requires InPlace(s, id, p) && n >= 33
    requires var k := FindKeda(s.world.kedas, id).value;
      s.env.finalizer in k.finalizers && ModuleWell(k, s.objs, s.world) && AddonEnabled !in k.annotations && HsoCount(s.world) == 0
    ensures InPlace(Reconciled(s, id, [], n), id, Nowhere) && NoneLeft(s.env.src, Reconciled(s, id, [], n).world.objs)
  {
    hide FindKeda, Wanted, Reconciled, HsoCount, ModuleWell, Exact, Suitable, Records, Histories.SysInv, NoneLeft;
    ConvergesAsAsked(s, id, n, p);
    assert Reconciled(s, id, [], n).env == s.env by { SameEnv(s, id, n); }
    NothingIsNowhere(s.env.src, Reconciled(s, id, [], n).world.objs);
  }

  lemma SameEnv(s: Sys, id: KedaId, n: nat)
    ensures Reconciled(s, id, [], n).env == s.env
  {
    hide FindKeda, Run;
  }

  // ---- switched off -------------------------------------------------------

  /** The HTTPScaledObjects were listed and there were none, or not even their kind. */
  predicate NoneFound(c: Call) {
    && c.ListItems? && c.gvk == Gvk(HttpKeda, V1Alpha1, "HTTPScaledObject")
    && ((c.err.None? && c.count == 0) || c.err == Some(NotFound) || c.err == Some(NoMatch))
  }

  /** Before each delete, the HTTPScaledObjects were found gone. */
  ghost predicate DeletesAreAsked(t: seq<Call>) {
    forall i :: 0 <= i < |t| && t[i].DeleteObj? ==> exists j :: 0 <= j < i && NoneFound(t[j])
  }

  /** Any run, under any faults, on a CR whose annotations do not switch the add-on on. */
  lemma OffIsGuarded(env: Env, k: KedaCR, objs: seq<Obj>, api: Api, n: nat)
    requires !k.deleting && api.trace == [] && FindKeda(api.world.kedas, k.id) == Some(k) && !SaysTrue(k.annotations, AddonEnabled)
    ensures DeletesAreAsked(Run(StartRun(env, k, objs, api), n).api.trace)
  {
    hide Run, FindKeda, ReadAddonCfg, Wanted, Asked, LiveRuns.LiveTrace, DeletesAreAsked, SaysTrue;
    LiveRuns.LiveRun(env, k, objs, api, n);
    WantedMeaning(env, k.annotations);
    LiveIsAsked(env.finalizer, k, Run(StartRun(env, k, objs, api), n).api.trace);
  }

  lemma LiveIsAsked(finalizer: string, k: KedaCR, t: seq<Call>)
    requires LiveRuns.LiveTrace(finalizer, k, t)
    ensures ReadAddonCfg(k.annotations).enabled || DeletesAreAsked(t)
  {
    hide ReadAddonCfg, FindCondition, LiveRuns.KeepsCr, LiveRuns.MaybeInUse, LiveRuns.WarnsOfUse;
    if !ReadAddonCfg(k.annotations).enabled {
      forall i | 0 <= i < |t| && t[i].DeleteObj? ensures exists j :: 0 <= j < i && NoneFound(t[j]) {
        assert LiveRuns.HsoClear(t[..i]);
        var j :| 0 <= j < i && LiveRuns.NoneInUse(t[..i][j]);
        assert NoneFound(t[j]);
      }
    }
  }
}
