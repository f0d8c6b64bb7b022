/**
 Exactly when an apply runs to its end, and why one on the works that another left does
 (pkg/cluster_upgrade/upgrader.go: the error returns of applyUpgrade).
*/
module ApplyAgain {
  import opened Wrappers
  import opened Cluster
  import opened Render
  import opened Rewrite
  import opened Apply
  import opened ApplyEffect
  import opened ApplyFixpoint
  import opened ApplyOutcome

  /** The second loop has no reason to fail at this manifest. */
  ghost predicate Rewritable(inp: Inputs, w: Work, j: nat)
    requires j < |w.manifests|
  {
    var m := w.manifests[j];
    !m.Unreadable? && (IsFeature(m) ==> m.body.Release?) && Renderable(inp, w, j)
  }

  ghost predicate RewritableWork(inp: Inputs, w: Work) {
    Managed(w) ==> forall j | 0 <= j < |w.manifests| :: Rewritable(inp, w, j)
  }

  lemma {:induction false} RewritableIff(inp: Inputs, e: Edit, n: nat)
    requires n <= |e.work.manifests|
    ensures RewriteManifests(inp, e, n).Some? <==> forall j | 0 <= j < n :: Rewritable(inp, e.work, j)
  {
    if n > 0 {
      RewritableIff(inp, e, n - 1);
      var r := RewriteManifests(inp, e, n - 1);
      if r.Some? {
        RewriteManifestsEffect(inp, e, n - 1);
        assert r.value.work.manifests[n - 1] == e.work.manifests[n - 1];
        assert RewriteManifest(inp, r.value, n - 1).Some? <==> Rewritable(inp, e.work, n - 1);
      }
    }
  }

  lemma {:induction false} WorksOkIff(inp: Inputs, l: Loop, works: seq<Work>, n: nat)
    requires l.ok && n <= |works|
    ensures ApplyWorks(inp, l, works, n).ok <==> forall i | 0 <= i < n :: RewritableWork(inp, works[i])
  {
    if n > 0 {
      WorksOkIff(inp, l, works, n - 1);
      var p, w := ApplyWorks(inp, l, works, n - 1), works[n - 1];
      RewritableIff(inp, Edit(w, p.cm.data, p.targets), |w.manifests|);
    }
  }

  /** Neither loop meets a manifest that it cannot read or render. */
  ghost predicate Upgradable(inp: Inputs, works: seq<Work>)
    requires inp.coreValues.Prepared?
  {
    && (FindWork(works, OPSCENTER_CORE).Some? ==>
          !ScanCore(works[FindWork(works, OPSCENTER_CORE).value].manifests).Blocked?)
    && forall i | 0 <= i < |works| :: RewritableWork(inp, CoreUpgraded(inp, works)[i])
  }

  lemma LoopsOkIff(inp: Inputs, hub: Hub, l: Loop, core: nat)
    requires inp.coreValues.Prepared? && FindWork(hub.works, OPSCENTER_CORE) == Some(core)
    requires DistinctNames(hub.works) && l.hub.works == hub.works && l.targets == [] && l.ok
    ensures Loops(inp, hub, l, core).ok <==> Upgradable(inp, hub.works)
  {
    var l1 := ApplyCore(inp, l, hub.works[core]);
    if l1.ok {
      CoreStored(inp, l, core);
      WorksOkIff(inp, l1, l1.hub.works, |l1.hub.works|);
    }
  }

  /** The manifests of a managed work can be read, and its HelmReleases decode. */
  ghost predicate ReadableWork(w: Work) {
    Managed(w) ==> forall j | 0 <= j < |w.manifests| ::
      !w.manifests[j].Unreadable? && (KindName(w.manifests[j]).0 == HELM_RELEASE ==> w.manifests[j].body.Release?)
  }

  lemma {:induction false} ManifestsDataIff(ms: seq<Manifest>, n: nat, data: map<string, string>)
    requires n <= |ms|
    ensures ManifestsData(ms, n, data).Some? <==> forall j | 0 <= j < n ::
              !ms[j].Unreadable? && (KindName(ms[j]).0 == HELM_RELEASE ==> ms[j].body.Release?)
  {
    if n > 0 { ManifestsDataIff(ms, n - 1, data); }
  }

  lemma {:induction false} WorksDataIff(works: seq<Work>, n: nat, data: map<string, string>)
    requires n <= |works|
    ensures WorksData(works, n, data).Some? <==> forall i | 0 <= i < n :: ReadableWork(works[i])
  {
    if n > 0 {
      WorksDataIff(works, n - 1, data);
      var d, w := WorksData(works, n - 1, data), works[n - 1];
      if d.Some? { ManifestsDataIff(w.manifests, |w.manifests|, d.value); }
    }
  }

  /** The first loop changes nothing that could make the second one fail. */
  lemma CoreStaysRewritable(inp: Inputs, works: seq<Work>, i: nat)
    requires inp.coreValues.Prepared? && i < |works|
    ensures RewritableWork(inp, CoreUpgraded(inp, works)[i]) <==> RewritableWork(inp, works[i])
  {
    var w, u := works[i], CoreUpgraded(inp, works)[i];
    CoreShape(inp, works);
    assert SameWorks(works, CoreUpgraded(inp, works));
    forall j | 0 <= j < |w.manifests| ensures Rewritable(inp, u, j) <==> Rewritable(inp, w, j) {
      var p := Pos(i, j);
      if p in WatchedCore(works) {
        CoreEdit(inp, w, map[]);
      } else {
        CoreApart(inp, works, p);
        assert ManifestAt(CoreUpgraded(inp, works), p) == ManifestAt(works, p);
      }
    }
  }

  /** There is an opscenter-core whose scan is not stopped, and everything managed can be read and rendered. */
  ghost predicate Completable(inp: Inputs, works: seq<Work>) {
    && inp.coreValues.Prepared? && FindWork(works, OPSCENTER_CORE).Some?
    && !ScanCore(works[FindWork(works, OPSCENTER_CORE).value].manifests).Blocked?
    && forall i | 0 <= i < |works| :: ReadableWork(works[i]) && RewritableWork(inp, works[i])
  }

  lemma CompletableIff(inp: Inputs, works: seq<Work>, data: map<string, string>)
    ensures Completable(inp, works) <==>
              && inp.coreValues.Prepared? && FindWork(works, OPSCENTER_CORE).Some?
              && WorksData(works, |works|, data).Some? && Upgradable(inp, works)
  {
    WorksDataIff(works, |works|, data);
    if inp.coreValues.Prepared? {
      forall i | 0 <= i < |works|
        ensures RewritableWork(inp, CoreUpgraded(inp, works)[i]) <==> RewritableWork(inp, works[i])
      {
        CoreStaysRewritable(inp, works, i);
      }
    }
  }

  /** An apply runs to its end exactly when there is something to upgrade and all it reads decodes and renders. */
  lemma CompletesIff(inp: Inputs, hub: Hub, name: string, now: int)
    requires DistinctNames(hub.works)
    ensures !ApplyUpgrade(inp, hub, name, now).end.Broken? <==> Completable(inp, hub.works)
  {
    var core := FindWork(hub.works, OPSCENTER_CORE);
    var data := WorksData(hub.works, |hub.works|, BaseData(inp.binding.version));
    CompletableIff(inp, hub.works, BaseData(inp.binding.version));
    if inp.coreValues.Prepared? && core.Some? && data.Some? {
      LoopsOkIff(inp, hub, AfterCreate(inp, hub, name, now, data.value), core.value);
    }
  }

  // ---------- On the works of another apply ----------

  lemma {:induction false} SameManifestsData(ms: seq<Manifest>, ms': seq<Manifest>, n: nat, data: map<string, string>)
    requires SameManifests(ms, ms') && n <= |ms|
    ensures ManifestsData(ms', n, data) == ManifestsData(ms, n, data)
  {
    if n > 0 {
      SameManifestsData(ms, ms', n - 1, data);
      assert SameManifest(ms[n - 1], ms'[n - 1]);
    }
  }

  lemma {:induction false} SameWorksData(works: seq<Work>, works': seq<Work>, n: nat, data: map<string, string>)
    requires SameShape(works, works') && n <= |works|
    ensures WorksData(works', n, data) == WorksData(works, n, data)
  {
    if n > 0 {
      SameWorksData(works, works', n - 1, data);
      var w, w' := works[n - 1], works'[n - 1];
      assert w' == w.(manifests := w'.manifests, configs := w'.configs) && SameManifests(w.manifests, w'.manifests);
      var d := WorksData(works, n - 1, data);
      if d.Some? { SameManifestsData(w.manifests, w'.manifests, |w.manifests|, d.value); }
    }
  }

  lemma UpgradedRewritable(inp: Inputs, w: Work)
    requires RewritableWork(inp, w)
    ensures RewritableWork(inp, UpgradedWork(inp, w))
  {
    if Managed(w) {
      var u := UpgradedWork(inp, w);
      forall j | 0 <= j < |u.manifests| ensures Rewritable(inp, u, j) {
        assert Rewritable(inp, w, j);
        var m := w.manifests[j];
        if Selected(m) { RenderIdempotent(inp, w.name, m.name.value, m.body.spec); }
      }
    }
  }

  lemma UpgradedUpgradable(inp: Inputs, works: seq<Work>, ts: seq<Target>)
    requires inp.coreValues.Prepared? && Yields(inp, works, Watched(works), ts) && Upgradable(inp, works)
    ensures Upgradable(inp, AllUpgraded(inp, works))
  {
    var mid, u := CoreUpgraded(inp, works), AllUpgraded(inp, works);
    AllUpgradedSettled(inp, works, ts);
    AllShape(inp, works);
    SameFind(works, u, OPSCENTER_CORE);
    var core := FindWork(works, OPSCENTER_CORE);
    if core.Some? {
      assert SameManifests(works[core.value].manifests, u[core.value].manifests);
      SameScan(works[core.value].manifests, u[core.value].manifests, 0);
    }
    forall i | 0 <= i < |u| ensures RewritableWork(inp, CoreUpgraded(inp, u)[i]) {
      assert RewritableWork(inp, mid[i]);
      UpgradedRewritable(inp, mid[i]);
    }
  }

  /** On the works an apply with targets left, another apply completes and has targets too. */
  lemma ReapplyWaits(inp: Inputs, hub: Hub, name: string, now: int, next: Hub, name': string, now': int)
    requires DistinctNames(hub.works) && ApplyUpgrade(inp, hub, name, now).end.Waits?
    requires inp.coreValues.Prepared? && next.works == AllUpgraded(inp, hub.works)
    ensures ApplyUpgrade(inp, next, name', now').end.Waits?
  {
    CompletesIff(inp, hub, name, now);
    CompletableIff(inp, hub.works, BaseData(inp.binding.version));
    ApplyCompletes(inp, hub, name, now);
    var ts := Last(ApplyUpgrade(inp, hub, name, now).trace).configMaps[0].targets.value.targets;
    UpgradedUpgradable(inp, hub.works, ts);
    AllShape(inp, hub.works);
    SameFind(hub.works, next.works, OPSCENTER_CORE);
    SameWorksData(hub.works, next.works, |hub.works|, BaseData(inp.binding.version));
    DistinctKept(hub.works, next.works);
    CompletableIff(inp, next.works, BaseData(inp.binding.version));
    CompletesIff(inp, next, name', now');
    ApplyCompletes(inp, next, name', now');
    SameWatched(hub.works, next.works);
  }
}
