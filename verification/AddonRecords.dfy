/** What the add-on states report and record, for every outcome of every call
    (pkg/reconciler/addon.go:310-423). */
module AddonRecords {
  import opened KedaTypes
  import opened Objects
  import opened AddonManifest
  import opened Cluster
  import opened StateMachine
  import opened Transitions

  // ---- what a successful installation looks like --------------------------

  predicate NamespaceOk(c: Call, ns: string) {
    c.CreateNamespace? && c.ns == ns && (c.err.None? || c.err == Some(AlreadyExists))
  }

  /** Deleted, or there was none, or there is no such kind. */
  predicate PeerGone(c: Call, ns: string) {
    c.DeleteObj? && c.key == PeerAuthKey(ns) && (c.err.None? || c.err == Some(NotFound) || c.err == Some(NoMatch))
  }

  ghost predicate PatchedAt(t: seq<Call>, at: nat, list: seq<Obj>)
    requires at + |list| <= |t|
  {
    forall i :: 0 <= i < |list| ==> t[at + i] == PatchObj(KeyOf(list[i]), None)
  }

  /** From position n on: the namespace is there; later the manifest is fetched, every object is
      patched and accepted, without sidecars the PeerAuthentication is gone; then the CR is updated. */
  ghost predicate Succeeded(list: seq<Obj>, version: string, ns: string, istio: bool, t: seq<Call>, n: nat) {
    n < |t| && NamespaceOk(t[n], ns) && exists f: nat :: InstalledFrom(list, version, ns, istio, t, n, f)
  }

  ghost predicate InstalledFrom(list: seq<Obj>, version: string, ns: string, istio: bool, t: seq<Call>, n: nat, f: nat) {
    var e := f + 1 + |list|;
    && n < f && |t| == (if istio then e + 1 else e + 2)
    && t[f] == FetchManifest(version, ns, None) && PatchedAt(t, f + 1, list)
    && (!istio ==> PeerGone(t[e], ns)) && t[|t| - 1].UpdateMeta?
  }

  ghost predicate NoUpdate(t: seq<Call>, n: nat) {
    forall i :: n <= i < |t| ==> !t[i].UpdateMeta?
  }

  predicate AddonTrue(s: Status) { Find(s, AddonInstalled).Some? && Find(s, AddonInstalled).value.status == True }

  function InstallFailed(s: Status, e: Err): Status { WithAddon(s, False, HttpAddonInstallErr, OfErr(e)) }

  /** The outcome in memory: recorded and reported, or an error reported and nothing else changed. */
  ghost predicate Reported(v: RunState, u: RunState, version: string, ns: string, done: bool) {
    if done then
      && u.k.status == WithAddon(v.k.status, True, HttpAddonInstalled, AddonInstalledText(version, ns))
      && u.k.annotations == Recorded(v.k.annotations, version, ns)
    else
      (exists e :: u.k == v.k.(status := InstallFailed(v.k.status, e))) && u.api.world.kedas == v.api.world.kedas
  }

  // ---- installing ---------------------------------------------------------

  lemma PersistReports(v: RunState, w: RunState, ann: Annotations, st: Status)
    requires w.k == v.k
    ensures var u := Persist(w, ann, st);
      && u.k.status == st && u.k.annotations == ann && u.fn == WriteStatus(None, None)
      && |u.api.trace| == |w.api.trace| + 1 && u.api.trace[..|w.api.trace|] == w.api.trace && u.api.trace[|w.api.trace|].UpdateMeta?
  {
    hide StoreMeta, FindKeda, UniqueIds;
  }

  lemma FailedReports(v: RunState, a: Api, e: Err, version: string, ns: string)
    requires a.world.kedas == v.api.world.kedas
    ensures Reported(v, AddonFailed(v.(api := a), e), version, ns, false) && AddonFailed(v.(api := a), e).api == a
  {
    hide WithAddon;
    assert AddonFailed(v.(api := a), e).k == v.k.(status := InstallFailed(v.k.status, e));
  }

  lemma NoUpdateYet(f: StateFn, a: Api, b: Api)
    requires Extends(f, a, b)
    ensures NoUpdate(b.trace, |a.trace|) && b.world.kedas == a.world.kedas
  {
    hide TraceGrows;
  }

  lemma FetchExtends(f: StateFn, z: Api, a: Api, src: AddonSource, version: string, ns: string)
    requires f.ApplyAddon? || f.DeleteAddon?
    requires Extends(f, z, a)
    ensures Extends(f, z, DoFetch(a, src, version, ns).api)
  {
    assert Extends(f, a, DoFetch(a, src, version, ns).api);
    ExtendsTransitive(f, z, a, DoFetch(a, src, version, ns).api);
  }

  lemma PatchesExtend(f: StateFn, z: Api, a: Api, list: seq<Obj>)
    requires f.ApplyAddon? && Extends(f, z, a)
    ensures Extends(f, z, ApplyAll(a, list, None).api)
  {
    hide ApplyAll, Keys;
    assert Extends(f, a, ApplyAll(a, list, None).api);
    ExtendsTransitive(f, z, a, ApplyAll(a, list, None).api);
  }

  /** The trace of an installation that went through. */
  lemma InstallTrace(v: RunState, a: Api, u: Api, version: string, ns: string, istio: bool, n: nat)
    requires version in v.env.src.manifests
    requires var list := AddonObjects(v.env.src, version, ns, istio);
      var fetched := DoFetch(a, v.env.src, version, ns);
      var applied := ApplyAll(fetched.api, list, None);
      var peer := if istio then Rep(applied.api, None) else DeletePeerAuth(applied.api, ns);
      && fetched.err.None? && applied.err.None? && peer.err.None?
      && |u.trace| == |peer.api.trace| + 1 && u.trace[..|peer.api.trace|] == peer.api.trace && u.trace[|peer.api.trace|].UpdateMeta?
    requires n < |a.trace| && NamespaceOk(a.trace[n], ns)
    ensures Succeeded(AddonObjects(v.env.src, version, ns, istio), version, ns, istio, u.trace, n)
  {
    hide AddonObjects, ApplyAll, Keys, NamespaceOk;
    var list := AddonObjects(v.env.src, version, ns, istio);
    var fetched := DoFetch(a, v.env.src, version, ns);
    var applied := ApplyAll(fetched.api, list, None);
    var peer := if istio then Rep(applied.api, None) else DeletePeerAuth(applied.api, ns);
    var t, f := u.trace, |a.trace|;
    var x, y := applied.api.trace, peer.api.trace;
    assert forall i :: 0 <= i < |y| ==> t[i] == y[i];
    assert forall i :: 0 <= i < |x| ==> y[i] == x[i];
    assert x[f] == fetched.api.trace[f] == FetchManifest(version, ns, None);
    assert x[n] == fetched.api.trace[n] == a.trace[n];
    forall i | 0 <= i < |list| ensures t[f + 1 + i] == PatchObj(KeyOf(list[i]), None) {
      var c := x[|fetched.api.trace| + i];
      assert c.PatchObj? && c.key == KeyOf(list[i]) && c.err.None?;
    }
    assert InstalledFrom(list, version, ns, istio, t, n, f);
  }

  /** Fetching, patching, deleting the PeerAuthentication, recording. */
  lemma InstallReports(v: RunState, a: Api, version: string, ns: string, istio: bool)
    requires v.fn.ApplyAddon? && Extends(v.fn, v.api, a) && |v.api.trace| < |a.trace| && NamespaceOk(a.trace[|v.api.trace|], ns)
    ensures Installation(v, Install(v.(api := a), version, ns, istio), version, ns, istio)
  {
    hide AddonObjects, Persist, AddonFailed, Recorded, ApplyAll, DeletePeerAuth, Extends, NoUpdate, Succeeded, NamespaceOk, WithAddon, AddonTrue;
    var n := |v.api.trace|;
    var fetched := DoFetch(a, v.env.src, version, ns);
    FetchExtends(v.fn, v.api, a, v.env.src, version, ns);
    if fetched.err.Some? {
      NoUpdateYet(v.fn, v.api, fetched.api);
      FailedReports(v, fetched.api, fetched.err.value, version, ns);
    } else {
      var list := AddonObjects(v.env.src, version, ns, istio);
      var applied := ApplyAll(fetched.api, list, None);
      PatchesExtend(v.fn, v.api, fetched.api, list);
      if applied.err.Some? {
        NoUpdateYet(v.fn, v.api, applied.api);
        FailedReports(v, applied.api, applied.err.value, version, ns);
      } else {
        var peer := if istio then Rep(applied.api, None) else DeletePeerAuth(applied.api, ns);
        PeerExtends(v.fn, applied.api, ns);
        ExtendsTransitive(v.fn, v.api, applied.api, peer.api);
        if peer.err.Some? {
          NoUpdateYet(v.fn, v.api, peer.api);
          FailedReports(v, peer.api, peer.err.value, version, ns);
        } else {
          var w := v.(api := peer.api, addonObjs := list);
          PersistReports(v, w, Recorded(v.k.annotations, version, ns), WithAddon(v.k.status, True, HttpAddonInstalled, AddonInstalledText(version, ns)));
          InstallTrace(v, a, Install(v.(api := a), version, ns, istio).api, version, ns, istio, n);
        }
      }
    }
  }

  /** Success by the trace and success in memory are the same. */
  ghost predicate Installation(v: RunState, u: RunState, version: string, ns: string, istio: bool) {
    var n := |v.api.trace|;
    || (Reported(v, u, version, ns, true) && version in v.env.src.manifests
        && Succeeded(AddonObjects(v.env.src, version, ns, istio), version, ns, istio, u.api.trace, n))
    || (Reported(v, u, version, ns, false) && NoUpdate(u.api.trace, n))
  }

  lemma InstallationMeaning(v: RunState, u: RunState, version: string, ns: string, istio: bool)
    requires Installation(v, u, version, ns, istio) && |v.api.trace| <= |u.api.trace| && version in v.env.src.manifests
    ensures AddonTrue(u.k.status) <==> Succeeded(AddonObjects(v.env.src, version, ns, istio), version, ns, istio, u.api.trace, |v.api.trace|)
    ensures Reported(v, u, version, ns, AddonTrue(u.k.status))
  {
    hide AddonObjects, NamespaceOk, PeerGone, PatchedAt, UniqueTypes, Recorded;
  }

  /** The installing state, whatever each of its calls answers: AddonInstalled becomes True and the
      records are set exactly if the namespace, the manifest, every patch and, without sidecars, the
      deletion of the PeerAuthentication were all right; otherwise the CR is not even updated. */
  lemma ApplyReports(v: RunState)
    requires v.fn.ApplyAddon?
    ensures var cfg := ReadAddonCfg(v.k.annotations);
      Installation(v, StepApplyAddon(v), v.env.defaultVersion, cfg.EffectiveNamespace(), cfg.istioInjection)
  {
    hide CleanupOldAddon, Install, Extends, NoUpdate, Reported, Succeeded, AddonObjects, WithAddon, FindCondition, StaleAddon;
    var cfg := ReadAddonCfg(v.k.annotations);
    var version, ns := v.env.defaultVersion, cfg.EffectiveNamespace();
    var created := DoCreateNamespace(v.api, ns);
    CreateExtends(v.fn, v.api, ns);
    if created.err.Some? && created.err.value != AlreadyExists {
      NoUpdateYet(v.fn, v.api, created.api);
      FailedReports(v, created.api, NamespaceErr(ns, created.err.value), version, ns);
    } else {
      var stale := StaleAddon(v.k.annotations, version, ns);
      var cleaned := if stale.None? then created.api else CleanupOldAddon(created.api, v.env.src, stale.value.0, stale.value.1);
      if stale.Some? {
        CleanupExtends(created.api, v.env.src, stale.value.0, stale.value.1);
        ExtendsTransitive(v.fn, v.api, created.api, cleaned);
        ExtendsPrefix(v.fn, created.api, cleaned);
      }
      InstallReports(v, cleaned, version, ns, cfg.istioInjection);
    }
  }

  lemma CreateExtends(f: StateFn, a: Api, ns: string)
    requires f.ApplyAddon?
    ensures Extends(f, a, DoCreateNamespace(a, ns).api)
  {
  }

  lemma ExtendsPrefix(f: StateFn, a: Api, b: Api)
    requires Extends(f, a, b)
    ensures a.trace <= b.trace
  {
  }

  // ---- removing -----------------------------------------------------------

  ghost predicate DeletedAt(t: seq<Call>, at: nat, list: seq<Obj>)
    requires at + |list| <= |t|
  {
    forall i :: 0 <= i < |list| ==> t[at + i].DeleteObj? && t[at + i].key == KeyOf(list[i]) && IgnoreNotFound(t[at + i].err).None?
  }

  /** From position n on: every object deleted or gone, then the PeerAuthentication; then the CR is updated. */
  ghost predicate RemovedFrom(list: seq<Obj>, ns: string, t: seq<Call>, n: nat) {
    && |t| == n + |list| + 2 && DeletedAt(t, n, list) && PeerGone(t[n + |list|], ns) && t[n + |list| + 1].UpdateMeta?
  }

  function RecordedNs(ann: Annotations): string {
    if Lookup(ann, InstalledNamespace) == "" then DEFAULT_ADDON_NAMESPACE else Lookup(ann, InstalledNamespace)
  }

  /** Fetched under the recorded version and namespace, then removed as a whole. */
  ghost predicate Removal(src: AddonSource, ann: Annotations, t: seq<Call>, n: nat) {
    && n < |t| && t[n] == FetchManifest(Lookup(ann, InstalledVersion), RecordedNs(ann), None)
    && Lookup(ann, InstalledVersion) in src.manifests
    && RemovedFrom(AddonObjects(src, Lookup(ann, InstalledVersion), RecordedNs(ann), false), RecordedNs(ann), t, n + 1)
  }

  /** What is reported if the add-on was not removed: there is none, its manifest could not be fetched,
      or some object is still there. */
  ghost predicate NotRemoved(ann: Annotations, s: Status, t: seq<Call>, n: nat, r: Status) {
    if Lookup(ann, InstalledVersion) == "" then r == WithAddon(s, False, HttpAddonDisabled, AddonDisabledText)
    else
      n < |t| && t[n].FetchManifest?
      && if t[n].err.Some? then r == WithAddon(s, False, HttpAddonDeleted, OfErr(t[n].err.value))
         else exists e :: r == InstallFailed(s, e)
  }

  /** The outcome of the removing state: all done and the records cleared, or the CR untouched. */
  ghost predicate Cleared(v: RunState, u: RunState) {
    || (Removal(v.env.src, v.k.annotations, u.api.trace, |v.api.trace|)
        && u.k.annotations == Recorded(v.k.annotations, "", "")
        && u.k.status == WithAddon(v.k.status, False, HttpAddonDeleted, AddonRemovedText))
    || (NoUpdate(u.api.trace, |v.api.trace|) && u.k == v.k.(status := u.k.status) && u.api.world.kedas == v.api.world.kedas
        && NotRemoved(v.k.annotations, v.k.status, u.api.trace, |v.api.trace|, u.k.status))
  }

  lemma RemovalTrace(src: AddonSource, ann: Annotations, a: Api, u: Api)
    requires Lookup(ann, InstalledVersion) in src.manifests
    requires var version, ns := Lookup(ann, InstalledVersion), RecordedNs(ann);
      var fetched := DoFetch(a, src, version, ns);
      var deleted := DeleteAll(fetched.api, AddonObjects(src, version, ns, false), None);
      var peer := DeletePeerAuth(deleted.api, ns);
      && fetched.err.None? && deleted.err.None? && peer.err.None?
      && |u.trace| == |peer.api.trace| + 1 && u.trace[..|peer.api.trace|] == peer.api.trace && u.trace[|peer.api.trace|].UpdateMeta?
    ensures Removal(src, ann, u.trace, |a.trace|)
  {
    hide AddonObjects, DeleteAll, Keys, Lookup, RecordedNs, DeletedAt;
    var version, ns := Lookup(ann, InstalledVersion), RecordedNs(ann);
    var list := AddonObjects(src, version, ns, false);
    var fetched := DoFetch(a, src, version, ns);
    var deleted := DeleteAll(fetched.api, list, None);
    var peer := DeletePeerAuth(deleted.api, ns);
    var t, n := u.trace, |a.trace|;
    var x, y := deleted.api.trace, peer.api.trace;
    assert forall i :: 0 <= i < |y| ==> t[i] == y[i];
    assert x <= t;
    assert x[n] == fetched.api.trace[n];
    CopiedDeletions(x, t, n + 1, list);
  }

  lemma CopiedDeletions(x: seq<Call>, t: seq<Call>, n: nat, list: seq<Obj>)
    requires x <= t && |x| == n + |list|
    requires forall i {:trigger x[i]} :: n <= i < |x| ==>
      x[i].DeleteObj? && x[i].key == KeyOf(list[i - n]) && IgnoreNotFound(x[i].err).None?
    ensures DeletedAt(t, n, list)
  {
    forall i | 0 <= i < |list|
      ensures t[n + i].DeleteObj? && t[n + i].key == KeyOf(list[i]) && IgnoreNotFound(t[n + i].err).None?
    {
      assert t[n + i] == x[n + i];
    }
  }

  /** The removing state, whatever its calls answer: the records go only after everything is gone. */
  lemma DeleteReports(v: RunState)
    requires v.fn.DeleteAddon? && v.addonObjs == []
    ensures Cleared(v, StepDeleteAddon(v))
  {
    hide AddonObjects, Persist, Recorded, DeleteAll, DeletePeerAuth, Extends, NoUpdate, NotRemoved, Removal, WithAddon, Lookup, FindCondition;
    var version, ns := Lookup(v.k.annotations, InstalledVersion), RecordedNs(v.k.annotations);
    NothingCalled(v.fn, v.api);
    if version == "" {
      NoUpdateYet(v.fn, v.api, v.api);
      NothingToRemove(v.k.annotations, v.k.status, v.api);
    } else {
      var fetched := DoFetch(v.api, v.env.src, version, ns);
      FetchExtends(v.fn, v.api, v.api, v.env.src, version, ns);
      NoUpdateYet(v.fn, v.api, fetched.api);
      FetchAnswer(v.k.annotations, v.k.status, v.api, fetched.api, fetched.err, fetched.api);
      if fetched.err.None? {
        var list := AddonObjects(v.env.src, version, ns, false);
        var deleted := DeleteAll(fetched.api, list, None);
        DeleteAllExtends(v.fn, fetched.api, list, None);
        ExtendsTransitive(v.fn, v.api, fetched.api, deleted.api);
        NoUpdateYet(v.fn, v.api, deleted.api);
        ExtendsPrefix(v.fn, fetched.api, deleted.api);
        FetchAnswer(v.k.annotations, v.k.status, v.api, fetched.api, None, deleted.api);
        if deleted.err.None? {
          var peer := DeletePeerAuth(deleted.api, ns);
          PeerExtends(v.fn, deleted.api, ns);
          ExtendsTransitive(v.fn, v.api, deleted.api, peer.api);
          NoUpdateYet(v.fn, v.api, peer.api);
          ExtendsPrefix(v.fn, deleted.api, peer.api);
          FetchAnswer(v.k.annotations, v.k.status, v.api, fetched.api, None, peer.api);
          if peer.err.None? {
            var w := v.(api := peer.api, addonObjs := []);
            var st := WithAddon(v.k.status, False, HttpAddonDeleted, AddonRemovedText);
            PersistReports(v, w, Recorded(v.k.annotations, "", ""), st);
            RemovalTrace(v.env.src, v.k.annotations, v.api, Persist(w, Recorded(v.k.annotations, "", ""), st).api);
          }
        }
      }
    }
  }

  lemma NothingToRemove(ann: Annotations, s: Status, a: Api)
    requires Lookup(ann, InstalledVersion) == ""
    ensures NotRemoved(ann, s, a.trace, |a.trace|, WithAddon(s, False, HttpAddonDisabled, AddonDisabledText))
  {
    hide WithAddon;
  }

  /** What is reported after the fetch, and after it for any later error. */
  lemma FetchAnswer(ann: Annotations, s: Status, a: Api, fetched: Api, err: Option<Err>, b: Api)
    requires Lookup(ann, InstalledVersion) != "" && fetched.trace <= b.trace
    requires fetched.trace == a.trace + [FetchManifest(Lookup(ann, InstalledVersion), RecordedNs(ann), err)]
    ensures err.Some? ==> NotRemoved(ann, s, b.trace, |a.trace|, WithAddon(s, False, HttpAddonDeleted, OfErr(err.value)))
    ensures err.None? ==> forall e :: NotRemoved(ann, s, b.trace, |a.trace|, WithAddon(s, False, HttpAddonInstallErr, OfErr(e)))
  {
    hide WithAddon;
    assert b.trace[|a.trace|] == fetched.trace[|a.trace|];
    if err.None? {
      forall e ensures NotRemoved(ann, s, b.trace, |a.trace|, WithAddon(s, False, HttpAddonInstallErr, OfErr(e))) {
        assert WithAddon(s, False, HttpAddonInstallErr, OfErr(e)) == InstallFailed(s, e);
      }
    }
  }

  lemma NothingCalled(f: StateFn, a: Api)
    requires f.ApplyAddon? || f.DeleteAddon?
    ensures Extends(f, a, a)
  {
    NoCall(f, a);
  }

  /** The status that the run writes at the end is the old one with the add-on's condition set as the
      calls of the state went, whatever the CR update in between answered. */
  lemma AddonStatusIsWritten(v: RunState)
    requires v.fn.ApplyAddon? || (v.fn.DeleteAddon? && v.addonObjs == [])
    ensures var u := if v.fn.ApplyAddon? then StepApplyAddon(v) else StepDeleteAddon(v);
      u.fn == WriteStatus(None, None) && WritesReport(v, u, StepWriteStatus(u, None, None))
  {
    hide StepApplyAddon, StepDeleteAddon, Extends, StoreStatus, FindKeda, Installation, Cleared, Reports;
    AddonStops(v);
    var u := if v.fn.ApplyAddon? then StepApplyAddon(v) else StepDeleteAddon(v);
    WriteStatusWrites(u, None, None);
    if v.fn.ApplyAddon? {
      ApplyReports(v);
      InstallationReports(v, u);
      ApplyAddonFacts(v);
    } else {
      DeleteReports(v);
      RemovalReports(v, u);
      DeleteAddonFacts(v);
    }
  }

  /** The status by what the state did: with a CR update its success, otherwise its failure. */
  ghost predicate Reports(v: RunState, t: seq<Call>, s: Status) {
    var n := |v.api.trace|;
    var cfg := ReadAddonCfg(v.k.annotations);
    if v.fn.ApplyAddon? then
      if NoUpdate(t, n) then exists e :: s == InstallFailed(v.k.status, e)
      else s == WithAddon(v.k.status, True, HttpAddonInstalled, AddonInstalledText(v.env.defaultVersion, cfg.EffectiveNamespace()))
    else
      if NoUpdate(t, n) then NotRemoved(v.k.annotations, v.k.status, t, n, s)
      else s == WithAddon(v.k.status, False, HttpAddonDeleted, AddonRemovedText)
  }

  lemma InstallationReports(v: RunState, u: RunState)
    requires var cfg := ReadAddonCfg(v.k.annotations);
      Installation(v, u, v.env.defaultVersion, cfg.EffectiveNamespace(), cfg.istioInjection)
    requires v.fn.ApplyAddon?
    ensures Reports(v, u.api.trace, u.k.status)
  {
    hide AddonObjects, NamespaceOk, PeerGone, PatchedAt, WithAddon, Recorded;
    if exists e :: u.k == v.k.(status := InstallFailed(v.k.status, e)) {
      var e :| u.k == v.k.(status := InstallFailed(v.k.status, e));
      assert u.k.status == InstallFailed(v.k.status, e);
    }
  }

  lemma RemovalReports(v: RunState, u: RunState)
    requires Cleared(v, u) && v.fn.DeleteAddon?
    ensures Reports(v, u.api.trace, u.k.status)
  {
    hide AddonObjects, PeerGone, DeletedAt, NotRemoved, WithAddon, Recorded;
  }

  /** The status write after the state is of the CR and of that status. */
  ghost predicate WritesReport(v: RunState, u: RunState, x: RunState) {
    && |x.api.trace| == |u.api.trace| + 1
    && var c := x.api.trace[|u.api.trace|]; c.UpdateStatus? && c.id == v.k.id && Reports(v, u.api.trace, c.status)
  }

  lemma AddonStops(v: RunState)
    ensures v.fn.ApplyAddon? ==> StepApplyAddon(v).fn == WriteStatus(None, None)
    ensures v.fn.DeleteAddon? ==> StepDeleteAddon(v).fn == WriteStatus(None, None)
  {
    hide CleanupOldAddon, AddonObjects, ApplyAll, DeleteAll, DeletePeerAuth, DoUpdateMeta, WithAddon, Recorded, Keys, StaleAddon;
  }

  // ---- a record can get lost ----------------------------------------------

  /** The stored CR follows the update exactly if that reached the server. */
  lemma RecordFollowsUpdate(w: RunState, ann: Annotations, st: Status)
    requires Stored(w).Some? && !Stored(w).value.deleting
    ensures var u := Persist(w, ann, st); var c := u.api.trace[|w.api.trace|];
      c.UpdateMeta? && Stored(u).Some? && Stored(u).value.annotations == if c.landed then ann else Stored(w).value.annotations
  {
    hide FindKeda, Without, UniqueIds;
    assert Stored(w).value.id == w.k.id;
  }

  function Later(faults: seq<Fault>, n: nat): seq<Fault> { if n <= |faults| then faults[n..] else [] }

  ghost predicate CleanFor(faults: seq<Fault>, n: nat) {
    forall i :: 0 <= i < n && i < |faults| ==> faults[i] == NoFault
  }

  lemma {:induction false} PatchesAccepted(a: Api, list: seq<Obj>, acc: Option<Err>)
    requires CleanFor(a.faults, |list|)
    ensures var r := ApplyAll(a, list, acc);
      r.err == acc && r.api.faults == Later(a.faults, |list|) && r.api.world == a.world.(objs := AsStored(a.world.objs, list))
    decreases list
  {
    hide Keys;
    if list != [] {
      var p := DoPatch(a, list[0]);
      PatchesAccepted(p.api, list[1..], acc);
    }
  }

  /** How many calls an installation with sidecars over nothing makes before it updates the CR. */
  function CallsBeforeUpdate(src: AddonSource, version: string, ns: string): nat
    requires version in src.manifests
  {
    2 + |AddonObjects(src, version, ns, true)|
  }

  /** If just the update of the CR is refused, the add-on is in the cluster and AddonInstalled is True,
      but the stored CR knows nothing of it. */
  lemma RecordCanBeLost(v: RunState, e: Err)
    requires v.fn.ApplyAddon? && Stored(v).Some? && !Stored(v).value.deleting
    requires Lookup(v.k.annotations, InstalledVersion) == "" && ReadAddonCfg(v.k.annotations).istioInjection
    requires v.env.defaultVersion in v.env.src.manifests
    requires var n := CallsBeforeUpdate(v.env.src, v.env.defaultVersion, ReadAddonCfg(v.k.annotations).EffectiveNamespace());
      CleanFor(v.api.faults, n) && n < |v.api.faults| && v.api.faults[n] == Refused(e)
    ensures Unrecorded(v, StepApplyAddon(v))
  {
    hide AddonObjects, ApplyAll, AsStored, FindKeda, UniqueIds, StoreMeta, FindCondition;
    var cfg := ReadAddonCfg(v.k.annotations);
    var version, ns := v.env.defaultVersion, cfg.EffectiveNamespace();
    var list := AddonObjects(v.env.src, version, ns, true);
    var created := DoCreateNamespace(v.api, ns);
    var fetched := DoFetch(created.api, v.env.src, version, ns);
    assert v.api.faults[0] == NoFault && v.api.faults[1] == NoFault;
    assert fetched.api.faults == v.api.faults[2..];
    PatchesAccepted(fetched.api, list, None);
    assert Later(fetched.api.faults, |list|)[0] == v.api.faults[2 + |list|];
  }

  ghost predicate Unrecorded(v: RunState, u: RunState) {
    var cfg := ReadAddonCfg(v.k.annotations);
    && v.env.defaultVersion in v.env.src.manifests
    && AddonTrue(u.k.status) && Stored(u) == Stored(v)
    && u.api.world.objs == AsStored(v.api.world.objs, AddonObjects(v.env.src, v.env.defaultVersion, cfg.EffectiveNamespace(), true))
  }

  /** Disabling the add-on then deletes nothing: without a record it counts as never installed. */
  lemma UnrecordedIsNotRemoved(v: RunState)
    requires v.fn.DeleteAddon? && v.addonObjs == []
    ensures StepDeleteAddon(v).api == v.api <==> Lookup(v.k.annotations, InstalledVersion) == ""
    ensures Lookup(v.k.annotations, InstalledVersion) == "" ==>
              StepDeleteAddon(v).k.status == WithAddon(v.k.status, False, HttpAddonDisabled, AddonDisabledText)
  {
    hide AddonObjects, Persist, Recorded, DeleteAll, DeletePeerAuth, Extends, Removal, WithAddon, Lookup, FindCondition;
    if Lookup(v.k.annotations, InstalledVersion) != "" {
      RemovalCalls(v);
    }
  }

  lemma RemovalCalls(v: RunState)
    requires v.fn.DeleteAddon? && v.addonObjs == [] && Lookup(v.k.annotations, InstalledVersion) != ""
    ensures |StepDeleteAddon(v).api.trace| > |v.api.trace|
  {
    hide AddonObjects, Recorded, DeleteAll, Lookup, StoreMeta, FindKeda, WithAddon, Keys;
  }
}
