/**
 What a completed `applyUpgrade` leaves on the hub: exactly the watched positions carry their rendered
 spec, each is a target, and a second apply would change nothing (pkg/cluster_upgrade/upgrader.go).
*/
module ApplyEffect {
  import opened Wrappers
  import opened Cluster
  import opened Render
  import opened Rewrite
  import opened Apply

  // ---------- Rewriting keeps what the selection looks at ----------

  ghost predicate SameManifest(m: Manifest, m': Manifest) {
    m' == m || (Typed(m) && Typed(m') && m' == m.(body := m'.body))
  }

  ghost predicate SameManifests(ms: seq<Manifest>, ms': seq<Manifest>) {
    |ms| == |ms'| && forall j | 0 <= j < |ms| :: SameManifest(ms[j], ms'[j])
  }

  ghost predicate SameShape(works: seq<Work>, works': seq<Work>) {
    && SameWorks(works, works')
    && forall i | 0 <= i < |works| :: SameManifests(works[i].manifests, works'[i].manifests)
  }

  lemma {:induction false} SameScan(ms: seq<Manifest>, ms': seq<Manifest>, start: nat)
    requires SameManifests(ms, ms') && start <= |ms|
    ensures ScanCore(ms, start) == ScanCore(ms', start)
    decreases |ms| - start
  {
    if start < |ms| {
      assert SameManifest(ms[start], ms'[start]);
      SameScan(ms, ms', start + 1);
    }
  }

  lemma {:induction false} SameSelected(i: nat, ms: seq<Manifest>, ms': seq<Manifest>, n: nat)
    requires SameManifests(ms, ms') && n <= |ms|
    ensures SelectedIn(i, ms, n) == SelectedIn(i, ms', n)
  {
    if n > 0 {
      assert SameManifest(ms[n - 1], ms'[n - 1]);
      SameSelected(i, ms, ms', n - 1);
    }
  }

  lemma {:induction false} SameWatchedFeatures(works: seq<Work>, works': seq<Work>, n: nat)
    requires SameShape(works, works') && n <= |works|
    ensures WatchedFeatures(works, n) == WatchedFeatures(works', n)
  {
    if n > 0 {
      SameWatchedFeatures(works, works', n - 1);
      assert works'[n - 1].labels == works[n - 1].labels;
      SameSelected(n - 1, works[n - 1].manifests, works'[n - 1].manifests, |works[n - 1].manifests|);
    }
  }

  lemma SameFind(works: seq<Work>, works': seq<Work>, name: string)
    requires SameWorks(works, works')
    ensures FindWork(works, name) == FindWork(works', name)
  {
    assert forall i | 0 <= i < |works| :: works'[i].name == works[i].name;
    var r, r' := FindWork(works, name), FindWork(works', name);
    if r.Some? && r'.Some? {
      assert !(r.value < r'.value) && !(r'.value < r.value);
    }
  }

  lemma SameWatchedCore(works: seq<Work>, works': seq<Work>)
    requires SameShape(works, works')
    ensures WatchedCore(works) == WatchedCore(works')
  {
    SameFind(works, works', OPSCENTER_CORE);
    var i := FindWork(works, OPSCENTER_CORE);
    if i.Some? {
      assert SameManifests(works[i.value].manifests, works'[i.value].manifests);
      SameScan(works[i.value].manifests, works'[i.value].manifests, 0);
    }
  }

  lemma SameWatched(works: seq<Work>, works': seq<Work>)
    requires SameShape(works, works')
    ensures Watched(works) == Watched(works')
  {
    SameWatchedCore(works, works');
    SameWatchedFeatures(works, works', |works|);
  }

  // ---------- The second loop over all works ----------

  function UpgradedWork(inp: Inputs, w: Work): Work {
    if Managed(w) then UpgradedFeatures(inp, w) else w
  }

  function AllFeatureTargets(inp: Inputs, works: seq<Work>, n: nat): seq<Target>
    requires n <= |works|
  {
    if n == 0 then []
    else
      AllFeatureTargets(inp, works, n - 1)
      + (if Managed(works[n - 1]) then FeatureTargets(inp, works[n - 1], |works[n - 1].manifests|) else [])
  }

  ghost predicate RenderableWork(inp: Inputs, w: Work) {
    Managed(w) ==> forall j | 0 <= j < |w.manifests| :: Renderable(inp, w, j)
  }

  /** The first `n` of the listed works are rewritten and stored. */
  ghost predicate Stored(inp: Inputs, works: seq<Work>, base: seq<Target>, n: nat, l: Loop)
    requires n <= |works|
  {
    && |l.hub.works| == |works|
    && (forall i | 0 <= i < n :: l.hub.works[i] == UpgradedWork(inp, works[i]))
    && (forall i | n <= i < |works| :: l.hub.works[i] == works[i])
    && l.targets == base + AllFeatureTargets(inp, works, n)
    && (forall i | 0 <= i < n :: RenderableWork(inp, works[i]))
  }

  lemma PutAt(hub: Hub, works: seq<Work>, i: nat, w: Work)
    requires DistinctNames(works) && i < |works| && |hub.works| == |works|
    requires forall k | 0 <= k < |works| :: hub.works[k].name == works[k].name
    requires hub.works[i] == works[i] && w == works[i].(manifests := w.manifests, configs := w.configs)
    ensures PutSpec(hub, w).works == hub.works[i := w]
  {
    forall k | 0 <= k < |works| && k != i ensures works[k].name != works[i].name {
      assert k < i || i < k;
    }
  }

  lemma StoreOne(inp: Inputs, works: seq<Work>, base: seq<Target>, i: nat, l: Loop)
    requires i < |works| && DistinctNames(works) && Stored(inp, works, base, i, l)
    requires l.ok && ApplyWork(inp, l, works[i]).ok
    ensures Stored(inp, works, base, i + 1, ApplyWork(inp, l, works[i]))
  {
    var w := works[i];
    var ts := AllFeatureTargets(inp, works, i);
    if Managed(w) {
      RewriteAllEffect(inp, Edit(w, l.cm.data, l.targets));
      forall k | 0 <= k < |works| ensures l.hub.works[k].name == works[k].name {
        if k < i { assert l.hub.works[k] == UpgradedWork(inp, works[k]); }
      }
      PutAt(l.hub, works, i, UpgradedFeatures(inp, w));
      var more := FeatureTargets(inp, w, |w.manifests|);
      assert base + ts + more == base + (ts + more);
    } else {
      assert AllFeatureTargets(inp, works, i + 1) == ts;
    }
  }

  lemma {:induction false} WorksStored(inp: Inputs, l: Loop, works: seq<Work>, n: nat)
    requires l.hub.works == works && DistinctNames(works) && n <= |works|
    requires l.ok && ApplyWorks(inp, l, works, n).ok
    ensures Stored(inp, works, l.targets, n, ApplyWorks(inp, l, works, n))
  {
    if n > 0 {
      WorksStored(inp, l, works, n - 1);
      StoreOne(inp, works, l.targets, n - 1, ApplyWorks(inp, l, works, n - 1));
    } else {
      assert l.targets + [] == l.targets;
    }
  }

  // ---------- The first loop ----------

  /** The works after the first loop. */
  function CoreUpgraded(inp: Inputs, works: seq<Work>): (r: seq<Work>)
    requires inp.coreValues.Prepared?
    ensures |r| == |works|
  {
    if WatchedCore(works) == [] then works
    else
      var i := WatchedCore(works)[0].work;
      works[i := RewriteCore(inp, Edit(works[i], map[], [])).work]
  }

  /** Rendering succeeds at `p` and gives the target `t`. */
  ghost predicate YieldsOne(inp: Inputs, works: seq<Work>, p: Pos, t: Target) {
    && inp.coreValues.Prepared? && InBounds(works, p) && Typed(ManifestAt(works, p))
    && Rendered(inp, works, p).Ok?
    && t == TargetAt(inp, works, p)
  }

  /** The targets are those of the positions, one for one and in the same order. */
  ghost predicate Yields(inp: Inputs, works: seq<Work>, ps: seq<Pos>, ts: seq<Target>) {
    |ts| == |ps| && forall k | 0 <= k < |ps| :: YieldsOne(inp, works, ps[k], ts[k])
  }

  lemma YieldsConcat(inp: Inputs, works: seq<Work>, a: seq<Pos>, s: seq<Target>, b: seq<Pos>, t: seq<Target>)
    requires Yields(inp, works, a, s) && Yields(inp, works, b, t)
    ensures Yields(inp, works, a + b, s + t)
  {
  }

  lemma CoreEdit(inp: Inputs, w: Work, data: map<string, string>)
    requires inp.coreValues.Prepared? && ScanCore(w.manifests).At?
    ensures var j := ScanCore(w.manifests).j;
      var m := w.manifests[j];
      var s := RenderCore(inp, m.body.spec);
      var e := RewriteCore(inp, Edit(w, data, []));
      && e.targets == [NewTarget(w, m.ns, OPSCENTER_FEATURES, SpecChanged(m.body.spec, s))]
      && e.work == w.(manifests := w.manifests[j := WithSpec(m, s)],
            configs := EnsureRules(w.configs, m.ns, OPSCENTER_FEATURES))
  {
  }

  lemma CoreTarget(inp: Inputs, works: seq<Work>, p: Pos)
    requires inp.coreValues.Prepared? && p in WatchedCore(works)
    ensures Yields(inp, works, [p], RewriteCore(inp, Edit(works[p.work], map[], [])).targets)
  {
    CoreEdit(inp, works[p.work], map[]);
    assert ManifestAt(works, p) == works[p.work].manifests[p.manifest];
    assert YieldsOne(inp, works, p, TargetAt(inp, works, p));
  }

  lemma CoreEdits(inp: Inputs, w: Work, data: map<string, string>)
    requires inp.coreValues.Prepared? && ScanCore(w.manifests).At?
    ensures var e, e' := RewriteCore(inp, Edit(w, data, [])), RewriteCore(inp, Edit(w, map[], []));
      e.work == e'.work && e.targets == e'.targets
  {
    CoreEdit(inp, w, data);
    CoreEdit(inp, w, map[]);
  }

  lemma CoreStored(inp: Inputs, l: Loop, core: nat)
    requires inp.coreValues.Prepared? && DistinctNames(l.hub.works)
    requires FindWork(l.hub.works, OPSCENTER_CORE) == Some(core)
    requires ApplyCore(inp, l, l.hub.works[core]).ok && l.targets == []
    ensures var l' := ApplyCore(inp, l, l.hub.works[core]);
      && l'.hub.works == CoreUpgraded(inp, l.hub.works)
      && Yields(inp, l.hub.works, WatchedCore(l.hub.works), l'.targets)
  {
    var works := l.hub.works;
    var w := works[core];
    match ScanCore(w.manifests)
    case Absent => assert WatchedCore(works) == [];
    case At(j) =>
      var p := Pos(core, j);
      assert WatchedCore(works) == [p];
      CoreTarget(inp, works, p);
      CoreEdits(inp, w, l.cm.data);
      CoreEdit(inp, w, map[]);
      PutAt(l.hub, works, core, RewriteCore(inp, Edit(w, map[], [])).work);
  }

  // ---------- The whole apply, by position ----------

  /** The works after both loops. */
  function AllUpgraded(inp: Inputs, works: seq<Work>): seq<Work>
    requires inp.coreValues.Prepared?
  {
    var mid := CoreUpgraded(inp, works);
    seq(|mid|, i requires 0 <= i < |mid| => UpgradedWork(inp, mid[i]))
  }

  lemma CoreShape(inp: Inputs, works: seq<Work>)
    requires inp.coreValues.Prepared?
    ensures SameShape(works, CoreUpgraded(inp, works))
  {
    if WatchedCore(works) != [] {
      var p := WatchedCore(works)[0];
      var mid := CoreUpgraded(inp, works);
      assert SameManifests(works[p.work].manifests, mid[p.work].manifests);
    }
  }

  lemma FeaturesShape(inp: Inputs, works: seq<Work>, works': seq<Work>)
    requires |works'| == |works| && forall i | 0 <= i < |works| :: works'[i] == UpgradedWork(inp, works[i])
    ensures SameShape(works, works')
  {
    forall i | 0 <= i < |works| ensures SameManifests(works[i].manifests, works'[i].manifests) {
      var ms, ms' := works[i].manifests, works'[i].manifests;
      forall j | 0 <= j < |ms| ensures SameManifest(ms[j], ms'[j]) {
      }
    }
  }

  lemma ShapeTransitive(a: seq<Work>, b: seq<Work>, c: seq<Work>)
    requires SameShape(a, b) && SameShape(b, c)
    ensures SameShape(a, c)
  {
    forall i | 0 <= i < |a| ensures SameManifests(a[i].manifests, c[i].manifests) {
      assert SameManifests(a[i].manifests, b[i].manifests) && SameManifests(b[i].manifests, c[i].manifests);
      forall j | 0 <= j < |a[i].manifests| ensures SameManifest(a[i].manifests[j], c[i].manifests[j]) {
        assert SameManifest(a[i].manifests[j], b[i].manifests[j]) && SameManifest(b[i].manifests[j], c[i].manifests[j]);
      }
    }
  }

  lemma AllShape(inp: Inputs, works: seq<Work>)
    requires inp.coreValues.Prepared?
    ensures SameShape(works, AllUpgraded(inp, works))
    ensures SameShape(works, CoreUpgraded(inp, works))
  {
    CoreShape(inp, works);
    FeaturesShape(inp, CoreUpgraded(inp, works), AllUpgraded(inp, works));
    ShapeTransitive(works, CoreUpgraded(inp, works), AllUpgraded(inp, works));
  }

  // ---------- Targets, by position ----------

  lemma {:induction false} WorkTargets(inp: Inputs, works: seq<Work>, i: nat, n: nat)
    requires inp.coreValues.Prepared? && i < |works| && n <= |works[i].manifests|
    requires forall j | 0 <= j < |works[i].manifests| :: Renderable(inp, works[i], j)
    ensures Yields(inp, works, SelectedIn(i, works[i].manifests, n), FeatureTargets(inp, works[i], n))
  {
    if n > 0 {
      WorkTargets(inp, works, i, n - 1);
      var w := works[i];
      var m := w.manifests[n - 1];
      if Selected(m) {
        assert Renderable(inp, w, n - 1);
        var p := Pos(i, n - 1);
        assert ManifestAt(works, p) == m;
        assert Rendered(inp, works, p) == RenderFeature(inp, w.name, m.name.value, m.body.spec);
        assert YieldsOne(inp, works, p, TargetAt(inp, works, p));
        YieldsConcat(inp, works, SelectedIn(i, w.manifests, n - 1), FeatureTargets(inp, w, n - 1),
                     [p], [TargetAt(inp, works, p)]);
      }
    }
  }

  lemma {:induction false} AllTargets(inp: Inputs, works: seq<Work>, n: nat)
    requires inp.coreValues.Prepared? && n <= |works|
    requires forall i | 0 <= i < n :: RenderableWork(inp, works[i])
    ensures Yields(inp, works, WatchedFeatures(works, n), AllFeatureTargets(inp, works, n))
  {
    if n > 0 {
      AllTargets(inp, works, n - 1);
      var w := works[n - 1];
      assert RenderableWork(inp, w);
      if Managed(w) {
        WorkTargets(inp, works, n - 1, |w.manifests|);
        YieldsConcat(inp, works, WatchedFeatures(works, n - 1), AllFeatureTargets(inp, works, n - 1),
                     SelectedIn(n - 1, w.manifests, |w.manifests|), FeatureTargets(inp, w, |w.manifests|));
      }
    }
  }

  /** The first loop does not touch what the second one reads. */
  lemma CoreApart(inp: Inputs, works: seq<Work>, p: Pos)
    requires inp.coreValues.Prepared? && InBounds(works, p)
    requires p !in WatchedCore(works)
    ensures InBounds(CoreUpgraded(inp, works), p)
    ensures ManifestAt(CoreUpgraded(inp, works), p) == ManifestAt(works, p)
  {
    if WatchedCore(works) != [] {
      var q := WatchedCore(works)[0];
      assert q in WatchedCore(works);
      CoreEdit(inp, works[q.work], map[]);
    }
  }

  lemma FeatureApart(inp: Inputs, works: seq<Work>, p: Pos)
    requires inp.coreValues.Prepared? && p in WatchedFeatures(works, |works|)
    ensures var mid := CoreUpgraded(inp, works);
      && InBounds(mid, p) && ManifestAt(mid, p) == ManifestAt(works, p)
      && Rendered(inp, mid, p) == Rendered(inp, works, p)
      && (Rendered(inp, mid, p).Ok? ==> TargetAt(inp, mid, p) == TargetAt(inp, works, p))
  {
    assert ManifestAt(works, p).name != Some(OPSCENTER_FEATURES);
    CoreApart(inp, works, p);
    CoreShape(inp, works);
    assert SameWorks(works, CoreUpgraded(inp, works));
    var m := ManifestAt(works, p);
    if Rendered(inp, works, p).Ok? {
      TargetOfEdited(works[p.work], CoreUpgraded(inp, works)[p.work], m.ns, m.name.value,
                     SpecChanged(m.body.spec, Rendered(inp, works, p).value));
    }
  }

  lemma {:induction false} FeaturesApart(inp: Inputs, works: seq<Work>, ts: seq<Target>)
    requires inp.coreValues.Prepared?
    requires Yields(inp, CoreUpgraded(inp, works), WatchedFeatures(works, |works|), ts)
    ensures Yields(inp, works, WatchedFeatures(works, |works|), ts)
  {
    var ps := WatchedFeatures(works, |works|);
    forall k | 0 <= k < |ps| ensures YieldsOne(inp, works, ps[k], ts[k]) {
      assert ps[k] in ps;
      FeatureApart(inp, works, ps[k]);
      assert YieldsOne(inp, CoreUpgraded(inp, works), ps[k], ts[k]);
    }
  }

  // ---------- The completed loops ----------

  ghost predicate Complete(inp: Inputs, works: seq<Work>, l: Loop)
    requires inp.coreValues.Prepared?
  {
    && l.hub.works == AllUpgraded(inp, works)
    && Yields(inp, works, Watched(works), l.targets)
  }

  lemma DistinctKept(works: seq<Work>, works': seq<Work>)
    requires DistinctNames(works) && SameWorks(works, works')
    ensures DistinctNames(works')
  {
    assert forall i | 0 <= i < |works| :: works'[i].name == works[i].name;
  }

  lemma LoopsComplete(inp: Inputs, hub: Hub, l: Loop, core: nat)
    requires inp.coreValues.Prepared? && FindWork(hub.works, OPSCENTER_CORE) == Some(core)
    requires DistinctNames(hub.works) && l.hub.works == hub.works && l.targets == [] && l.ok
    requires Loops(inp, hub, l, core).ok
    ensures Complete(inp, hub.works, Loops(inp, hub, l, core))
  {
    var works := hub.works;
    var l1 := ApplyCore(inp, l, works[core]);
    CoreStored(inp, l, core);
    CoreShape(inp, works);
    var mid := CoreUpgraded(inp, works);
    DistinctKept(works, mid);
    WorksStored(inp, l1, mid, |mid|);
    var l2 := Loops(inp, hub, l, core);
    assert l2.hub.works == AllUpgraded(inp, works);
    AllTargets(inp, mid, |mid|);
    SameWatchedFeatures(works, mid, |works|);
    var ts := AllFeatureTargets(inp, mid, |mid|);
    FeaturesApart(inp, works, ts);
    YieldsConcat(inp, works, WatchedCore(works), l1.targets, WatchedFeatures(works, |works|), ts);
  }
}
