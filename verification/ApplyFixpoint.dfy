/**
 A completed apply, position by position, and why applying again changes nothing
 (pkg/cluster_upgrade/upgrader.go: both loops of applyUpgrade; upgrader_helper.go:202-206).
*/
module ApplyFixpoint {
  import opened Wrappers
  import opened Cluster
  import opened Render
  import opened Rewrite
  import opened Apply
  import opened ApplyEffect

  lemma UpgradedCoreAt(inp: Inputs, works: seq<Work>, p: Pos)
    requires inp.coreValues.Prepared? && p in WatchedCore(works)
    ensures InBounds(AllUpgraded(inp, works), p)
    ensures ManifestAt(AllUpgraded(inp, works), p)
            == WithSpec(ManifestAt(works, p), RenderCore(inp, ManifestAt(works, p).body.spec))
  {
    CoreEdit(inp, works[p.work], map[]);
    var m' := ManifestAt(CoreUpgraded(inp, works), p);
    assert m' == WithSpec(ManifestAt(works, p), RenderCore(inp, ManifestAt(works, p).body.spec));
    assert !Selected(m');
  }

  lemma UpgradedElsewhere(inp: Inputs, works: seq<Work>, p: Pos)
    requires inp.coreValues.Prepared? && InBounds(works, p) && p !in WatchedCore(works)
    ensures InBounds(AllUpgraded(inp, works), p)
    ensures ManifestAt(AllUpgraded(inp, works), p)
            == if Managed(works[p.work]) then UpgradedManifest(inp, works[p.work].name, ManifestAt(works, p))
               else ManifestAt(works, p)
  {
    CoreShape(inp, works);
    CoreApart(inp, works, p);
    var w := CoreUpgraded(inp, works)[p.work];
    assert w == works[p.work].(manifests := w.manifests, configs := w.configs);
  }

  lemma WatchedElsewhere(works: seq<Work>, p: Pos)
    requires InBounds(works, p) && p !in WatchedCore(works)
    ensures p in Watched(works) <==> Managed(works[p.work]) && Selected(ManifestAt(works, p))
  {
    if Managed(works[p.work]) && Selected(ManifestAt(works, p)) {
      FeaturePositionIn(works, |works|, p);
    }
  }

  lemma WatchedRenders(inp: Inputs, works: seq<Work>, ts: seq<Target>, p: Pos)
    requires Yields(inp, works, Watched(works), ts) && p in Watched(works)
    ensures inp.coreValues.Prepared? && Rendered(inp, works, p).Ok?
  {
    var k :| 0 <= k < |Watched(works)| && Watched(works)[k] == p;
    assert YieldsOne(inp, works, p, ts[k]);
  }

  /** Exactly the watched positions change, each to its rendered spec. */
  lemma UpgradedAt(inp: Inputs, works: seq<Work>, ts: seq<Target>, p: Pos)
    requires inp.coreValues.Prepared? && InBounds(works, p)
    requires Yields(inp, works, Watched(works), ts)
    ensures InBounds(AllUpgraded(inp, works), p)
    ensures p in Watched(works) ==>
              Rendered(inp, works, p).Ok?
              && ManifestAt(AllUpgraded(inp, works), p) == WithSpec(ManifestAt(works, p), Rendered(inp, works, p).value)
    ensures p !in Watched(works) ==> ManifestAt(AllUpgraded(inp, works), p) == ManifestAt(works, p)
  {
    if p in Watched(works) {
      WatchedRenders(inp, works, ts, p);
    }
    if p in WatchedCore(works) {
      UpgradedCoreAt(inp, works, p);
    } else {
      UpgradedElsewhere(inp, works, p);
      WatchedElsewhere(works, p);
    }
  }

  // ---------- Feedback rules of everything watched ----------

  lemma {:induction false} FeatureTargetNames(inp: Inputs, w: Work, n: nat, j: nat)
    requires n <= |w.manifests| && j < n && Selected(w.manifests[j])
    ensures exists t ::
            t in FeatureTargets(inp, w, n) && t.ns == w.manifests[j].ns && Some(t.name) == w.manifests[j].name
  {
    if j < n - 1 {
      FeatureTargetNames(inp, w, n - 1, j);
      var t :| t in FeatureTargets(inp, w, n - 1) && t.ns == w.manifests[j].ns && Some(t.name) == w.manifests[j].name;
      assert t in FeatureTargets(inp, w, n);
    } else {
      var m := w.manifests[j];
      var ts := FeatureTargets(inp, w, n);
      assert ts[|ts| - 1].ns == m.ns && ts[|ts| - 1].name == m.name.value;
    }
  }

  lemma CoreRulesCarried(inp: Inputs, works: seq<Work>, p: Pos)
    requires inp.coreValues.Prepared? && p in WatchedCore(works)
    ensures CarriesRules(AllUpgraded(inp, works)[p.work].configs, ManifestAt(works, p).ns, OPSCENTER_FEATURES)
  {
    var m := ManifestAt(works, p);
    var w := CoreUpgraded(inp, works)[p.work];
    CoreEdit(inp, works[p.work], map[]);
    EnsureRulesCarries(works[p.work].configs, m.ns, OPSCENTER_FEATURES);
    EnsureAllKeeps(w.configs, FeatureTargets(inp, w, |w.manifests|), m.ns, OPSCENTER_FEATURES);
  }

  lemma FeatureRulesCarried(inp: Inputs, w: Work, j: nat)
    requires j < |w.manifests| && Selected(w.manifests[j])
    ensures CarriesRules(UpgradedFeatures(inp, w).configs, w.manifests[j].ns, w.manifests[j].name.value)
  {
    var m := w.manifests[j];
    var ts := FeatureTargets(inp, w, |w.manifests|);
    FeatureTargetNames(inp, w, |w.manifests|, j);
    var t :| t in ts && t.ns == m.ns && Some(t.name) == m.name;
    EnsureAllCarries(w.configs, ts);
  }

  /** After an apply, the work of every watched release reports all that `HelmReleaseReady` reads. */
  lemma RulesCarried(inp: Inputs, works: seq<Work>, p: Pos)
    requires inp.coreValues.Prepared? && p in Watched(works)
    ensures p.work < |AllUpgraded(inp, works)|
    ensures CarriesRules(AllUpgraded(inp, works)[p.work].configs, ManifestAt(works, p).ns,
            ManifestAt(works, p).name.value)
  {
    if p in WatchedCore(works) {
      CoreRulesCarried(inp, works, p);
    } else {
      assert p in WatchedFeatures(works, |works|);
      FeatureApart(inp, works, p);
      CoreShape(inp, works);
      var w := CoreUpgraded(inp, works)[p.work];
      assert w == works[p.work].(manifests := w.manifests, configs := w.configs);
      FeatureRulesCarried(inp, w, p.manifest);
    }
  }

  // ---------- Applying again ----------

  /** Both loops leave these works as they are. */
  ghost predicate Settled(inp: Inputs, works: seq<Work>)
    requires inp.coreValues.Prepared?
  {
    && CoreUpgraded(inp, works) == works
    && forall i | 0 <= i < |works| :: UpgradedWork(inp, works[i]) == works[i]
  }

  lemma UpgradedManifestTwice(inp: Inputs, work: string, m: Manifest)
    ensures var u := UpgradedManifest(inp, work, m);
      UpgradedManifest(inp, work, u) == u && (Selected(u) <==> Selected(m))
  {
    if Selected(m) {
      RenderIdempotent(inp, work, m.name.value, m.body.spec);
    }
  }

  lemma {:induction false} TargetsCarried(inp: Inputs, w: Work, n: nat, configs: seq<ConfigOption>)
    requires n <= |w.manifests|
    requires forall j | 0 <= j < n && Selected(w.manifests[j]) ::
               CarriesRules(configs, w.manifests[j].ns, w.manifests[j].name.value)
    ensures forall t | t in FeatureTargets(inp, w, n) :: CarriesRules(configs, t.ns, t.name)
  {
    if n > 0 {
      TargetsCarried(inp, w, n - 1, configs);
    }
  }

  lemma UpgradedFeaturesTwice(inp: Inputs, w: Work)
    ensures UpgradedFeatures(inp, UpgradedFeatures(inp, w)) == UpgradedFeatures(inp, w)
  {
    var u := UpgradedFeatures(inp, w);
    var n := |w.manifests|;
    forall j | 0 <= j < n
      ensures UpgradedManifest(inp, u.name, u.manifests[j]) == u.manifests[j]
      ensures Selected(u.manifests[j]) ==> CarriesRules(u.configs, u.manifests[j].ns, u.manifests[j].name.value)
    {
      UpgradedManifestTwice(inp, w.name, w.manifests[j]);
      if Selected(w.manifests[j]) {
        EnsureAllCarries(w.configs, FeatureTargets(inp, w, n));
        FeatureTargetNames(inp, w, n, j);
      }
    }
    TargetsCarried(inp, u, n, u.configs);
    EnsureAllNoop(u.configs, FeatureTargets(inp, u, n));
    assert UpgradedFeatures(inp, u).manifests == u.manifests;
  }

  lemma CoreSettled(inp: Inputs, works: seq<Work>)
    requires inp.coreValues.Prepared?
    requires WatchedCore(works) != [] ==>
               var p := WatchedCore(works)[0];
               var m := ManifestAt(works, p);
               RenderCore(inp, m.body.spec) == m.body.spec
                     && CarriesRules(works[p.work].configs, m.ns, OPSCENTER_FEATURES)
    ensures CoreUpgraded(inp, works) == works
  {
    if WatchedCore(works) != [] {
      var p := WatchedCore(works)[0];
      assert p in WatchedCore(works);
      var m := ManifestAt(works, p);
      CoreEdit(inp, works[p.work], map[]);
      EnsureRulesNoop(works[p.work].configs, m.ns, OPSCENTER_FEATURES);
      assert works[p.work].manifests[p.manifest := m] == works[p.work].manifests;
    }
  }

  /** What a completed apply stores is a fixpoint of both loops. */
  lemma AllUpgradedSettled(inp: Inputs, works: seq<Work>, ts: seq<Target>)
    requires inp.coreValues.Prepared? && Yields(inp, works, Watched(works), ts)
    ensures Settled(inp, AllUpgraded(inp, works))
  {
    var mid, u := CoreUpgraded(inp, works), AllUpgraded(inp, works);
    forall i | 0 <= i < |u| ensures UpgradedWork(inp, u[i]) == u[i] {
      if Managed(mid[i]) {
        UpgradedFeaturesTwice(inp, mid[i]);
      }
    }
    AllShape(inp, works);
    SameWatchedCore(works, u);
    if WatchedCore(u) != [] {
      var p := WatchedCore(u)[0];
      assert p in WatchedCore(works);
      UpgradedAt(inp, works, ts, p);
      RulesCarried(inp, works, p);
      RenderIdempotent(inp, "", "", ManifestAt(works, p).body.spec);
    }
    CoreSettled(inp, u);
  }

  ghost predicate WorksUnchanged(works: seq<Work>, trace: seq<Hub>) {
    forall i | 0 <= i < |trace| :: trace[i].works == works
  }

  lemma CommitUnchanged(l: Loop, e: Edit, i: nat)
    requires i < |l.hub.works| && DistinctNames(l.hub.works) && e.work == l.hub.works[i]
    requires WorksUnchanged(l.hub.works, l.trace)
    ensures Commit(l, e).hub.works == l.hub.works
    ensures WorksUnchanged(l.hub.works, Commit(l, e).trace)
  {
    PutAt(l.hub, l.hub.works, i, e.work);
  }

  lemma WorkUnchanged(inp: Inputs, l: Loop, i: nat)
    requires i < |l.hub.works| && DistinctNames(l.hub.works) && WorksUnchanged(l.hub.works, l.trace)
    requires UpgradedWork(inp, l.hub.works[i]) == l.hub.works[i]
    ensures var l' := ApplyWork(inp, l, l.hub.works[i]);
      l'.hub.works == l.hub.works && WorksUnchanged(l.hub.works, l'.trace)
  {
    var w := l.hub.works[i];
    var e := Edit(w, l.cm.data, l.targets);
    if Managed(w) && RewriteManifests(inp, e, |w.manifests|).Some? {
      RewriteAllEffect(inp, e);
      CommitUnchanged(l, RewriteManifests(inp, e, |w.manifests|).value, i);
    }
  }

  lemma {:induction false} WorksLoopUnchanged(inp: Inputs, l: Loop, n: nat)
    requires n <= |l.hub.works| && DistinctNames(l.hub.works) && WorksUnchanged(l.hub.works, l.trace)
    requires forall i | 0 <= i < |l.hub.works| :: UpgradedWork(inp, l.hub.works[i]) == l.hub.works[i]
    ensures var l' := ApplyWorks(inp, l, l.hub.works, n);
      l'.hub.works == l.hub.works && WorksUnchanged(l.hub.works, l'.trace)
  {
    if n > 0 {
      WorksLoopUnchanged(inp, l, n - 1);
      WorkUnchanged(inp, ApplyWorks(inp, l, l.hub.works, n - 1), n - 1);
    }
  }

  lemma LoopsUnchanged(inp: Inputs, hub: Hub, l: Loop, core: nat)
    requires DistinctNames(hub.works) && WorksUnchanged(hub.works, l.trace) && l.hub.works == hub.works
    requires inp.coreValues.Prepared? && Settled(inp, hub.works)
    requires FindWork(hub.works, OPSCENTER_CORE) == Some(core) && l.targets == []
    ensures var l' := Loops(inp, hub, l, core);
      l'.hub.works == hub.works && WorksUnchanged(hub.works, l'.trace)
  {
    var w := hub.works[core];
    if ScanCore(w.manifests).At? {
      CoreEdits(inp, w, l.cm.data);
      assert WatchedCore(hub.works) == [Pos(core, ScanCore(w.manifests).j)];
      assert CoreUpgraded(inp, hub.works)[core] == w;
      CommitUnchanged(l, RewriteCore(inp, Edit(w, l.cm.data, [])), core);
    }
    WorksLoopUnchanged(inp, ApplyCore(inp, l, w), |hub.works|);
  }

  lemma SealUnchanged(inp: Inputs, l: Loop)
    requires WorksUnchanged(l.hub.works, l.trace)
    ensures WorksUnchanged(l.hub.works, Seal(inp, l).trace)
  {
  }

  /** On settled works an apply, complete or cut short anywhere, writes every work back as it was. */
  lemma ReapplyUnchanged(inp: Inputs, hub: Hub, name: string, now: int)
    requires inp.coreValues.Prepared? && DistinctNames(hub.works) && Settled(inp, hub.works)
    ensures WorksUnchanged(hub.works, ApplyUpgrade(inp, hub, name, now).trace)
  {
    var core := FindWork(hub.works, OPSCENTER_CORE);
    var data := WorksData(hub.works, |hub.works|, BaseData(inp.binding.version));
    if core.Some? && data.Some? {
      var l := AfterCreate(inp, hub, name, now, data.value);
      LoopsUnchanged(inp, hub, l, core.value);
      SealUnchanged(inp, Loops(inp, hub, l, core.value));
    }
  }
}
