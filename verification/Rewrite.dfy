/**
 The two rewrite loops of `applyUpgrade` inside one ManifestWork (pkg/cluster_upgrade/upgrader.go),
 and the positions they select.
*/
module Rewrite {
  import opened Wrappers
  import opened Cluster
  import opened Render

  /** What a loop carries: the work being edited, the ConfigMap data and the targets so far. */
  datatype Edit = Edit(work: Work, data: map<string, string>, targets: seq<Target>)

  /** The manifest decodes as a HelmRelease that has a kind and a name. */
  predicate Typed(m: Manifest) {
    m.Object? && m.kind.Some? && m.name.Some? && m.body.Release?
  }

  function WithSpec(m: Manifest, s: Spec): Manifest
    requires Typed(m)
  {
    m.(body := Release(s))
  }

  /** Store a new spec at one position, mark the release pending and watch it. */
  function RewriteAt(e: Edit, j: nat, s: Spec): Edit
    requires j < |e.work.manifests| && Typed(e.work.manifests[j])
  {
    var m := e.work.manifests[j];
    var t := NewTarget(e.work, m.ns, m.name.value, SpecChanged(m.body.spec, s));
    Edit(e.work.(manifests := e.work.manifests[j := WithSpec(m, s)],
                 configs := EnsureRules(e.work.configs, m.ns, m.name.value)),
         e.data[m.name.value := FALSE],
         e.targets + [t])
  }

  // ---------- First loop: opscenter-features in opscenter-core ----------

  datatype Scan = Absent | Blocked | At(j: nat)

  /** The first manifest named opscenter-features, of whatever kind; unreadable ones before it stop the scan. */
  function ScanCore(ms: seq<Manifest>, start: nat := 0): (r: Scan)
    requires start <= |ms|
    ensures r.At? ==> start <= r.j < |ms| && Typed(ms[r.j]) && ms[r.j].name == Some(OPSCENTER_FEATURES)
    ensures r.At? ==> forall i | start <= i < r.j :: ms[i].Object? && KindName(ms[i]).1 != OPSCENTER_FEATURES
    decreases |ms| - start
  {
    if start == |ms| then Absent
    else if ms[start].Unreadable? then Blocked
    else if KindName(ms[start]).1 != OPSCENTER_FEATURES then ScanCore(ms, start + 1)
    else if ms[start].body.Foreign? then Blocked
    else At(start)
  }

  function RewriteCore(inp: Inputs, e: Edit): Edit
    requires inp.coreValues.Prepared? && ScanCore(e.work.manifests).At?
  {
    var j := ScanCore(e.work.manifests).j;
    RewriteAt(e, j, RenderCore(inp, e.work.manifests[j].body.spec))
  }

  // ---------- Second loop: the features of a managed ManifestWork ----------

  predicate IsFeature(m: Manifest) {
    m.Object? && KindName(m).0 == HELM_RELEASE && KindName(m).1 != OPSCENTER_FEATURES
  }

  predicate Selected(m: Manifest) {
    IsFeature(m) && m.body.Release? && Labelled(m.labels, COMPONENT_LABEL, m.name.value)
  }

  /** One round of the loop; None is an error return. */
  function RewriteManifest(inp: Inputs, e: Edit, j: nat): Option<Edit>
    requires j < |e.work.manifests|
  {
    var m := e.work.manifests[j];
    if m.Unreadable? then None
    else if !IsFeature(m) then Some(e)
    else if m.body.Foreign? then None
    else if !Selected(m) then Some(e)
    else match RenderFeature(inp, e.work.name, m.name.value, m.body.spec)
      case Err => None
      case Ok(s) => Some(RewriteAt(e, j, s))
  }

  function RewriteManifests(inp: Inputs, e: Edit, n: nat): (r: Option<Edit>)
    requires n <= |e.work.manifests|
    ensures r.Some? ==> |r.value.work.manifests| == |e.work.manifests| && r.value.work.name == e.work.name
  {
    if n == 0 then Some(e)
    else match RewriteManifests(inp, e, n - 1)
      case None => None
      case Some(r) => RewriteManifest(inp, r, n - 1)
  }

  // ---------- What they select and what they leave ----------

  datatype Pos = Pos(work: nat, manifest: nat)

  ghost predicate InBounds(works: seq<Work>, p: Pos) {
    p.work < |works| && p.manifest < |works[p.work].manifests|
  }

  function ManifestAt(works: seq<Work>, p: Pos): Manifest
    requires InBounds(works, p)
  {
    works[p.work].manifests[p.manifest]
  }

  function SelectedIn(i: nat, ms: seq<Manifest>, n: nat): (r: seq<Pos>)
    requires n <= |ms|
    ensures forall p | p in r :: p.work == i && p.manifest < n && Selected(ms[p.manifest])
    ensures forall j | 0 <= j < n && Selected(ms[j]) :: Pos(i, j) in r
  {
    if n == 0 then []
    else SelectedIn(i, ms, n - 1) + (if Selected(ms[n - 1]) then [Pos(i, n - 1)] else [])
  }

  function WatchedFeatures(works: seq<Work>, n: nat): (r: seq<Pos>)
    requires n <= |works|
    ensures forall p | p in r ::
            p.work < n && Managed(works[p.work]) && InBounds(works, p) && Selected(ManifestAt(works, p))
  {
    if n == 0 then []
    else
      WatchedFeatures(works, n - 1)
      + (if Managed(works[n - 1]) then SelectedIn(n - 1, works[n - 1].manifests, |works[n - 1].manifests|) else [])
  }

  function WatchedCore(works: seq<Work>): (r: seq<Pos>)
    ensures forall p | p in r :: InBounds(works, p) && Typed(ManifestAt(works, p))
                                 && ManifestAt(works, p).name == Some(OPSCENTER_FEATURES)
  {
    match FindWork(works, OPSCENTER_CORE)
    case None => []
    case Some(i) =>
      match ScanCore(works[i].manifests)
      case At(j) => [Pos(i, j)]
      case _ => []
  }

  /** The positions an upgrade rewrites, in the order it rewrites them. */
  function Watched(works: seq<Work>): (r: seq<Pos>)
    ensures forall p | p in r :: InBounds(works, p) && Typed(ManifestAt(works, p))
  {
    WatchedCore(works) + WatchedFeatures(works, |works|)
  }

  ghost predicate NoRepeats(ps: seq<Pos>) {
    forall i, j | 0 <= i < j < |ps| :: ps[i] != ps[j]
  }

  lemma ConcatOnce(a: seq<Pos>, b: seq<Pos>)
    requires NoRepeats(a) && NoRepeats(b) && forall p | p in b :: p !in a
    ensures NoRepeats(a + b)
  {
    forall i, j | 0 <= i < j < |a + b| ensures (a + b)[i] != (a + b)[j] {
      if i < |a| <= j { assert b[j - |a|] in b && a[i] in a; }
    }
  }

  lemma {:induction false} SelectedOnce(i: nat, ms: seq<Manifest>, n: nat)
    requires n <= |ms|
    ensures NoRepeats(SelectedIn(i, ms, n))
  {
    if n > 0 {
      SelectedOnce(i, ms, n - 1);
      ConcatOnce(SelectedIn(i, ms, n - 1), if Selected(ms[n - 1]) then [Pos(i, n - 1)] else []);
    }
  }

  lemma {:induction false} FeaturesOnce(works: seq<Work>, n: nat)
    requires n <= |works|
    ensures NoRepeats(WatchedFeatures(works, n))
  {
    if n > 0 {
      FeaturesOnce(works, n - 1);
      if Managed(works[n - 1]) {
        var ms := works[n - 1].manifests;
        var a, b := WatchedFeatures(works, n - 1), SelectedIn(n - 1, ms, |ms|);
        SelectedOnce(n - 1, ms, |ms|);
        assert forall p | p in b :: p.work == n - 1 && p !in a;
        ConcatOnce(a, b);
      }
    }
  }

  /** No position is rewritten twice. */
  lemma WatchedOnce(works: seq<Work>)
    ensures NoRepeats(Watched(works))
  {
    FeaturesOnce(works, |works|);
    ConcatOnce(WatchedCore(works), WatchedFeatures(works, |works|));
  }

  // ---------- The positions in terms of the manifests ----------

  /** Both kind and name must be there for either to count. */
  lemma KindNameIff(m: Manifest)
    requires m.Object?
    ensures KindName(m).0 == "HelmRelease" <==> m.kind == Some("HelmRelease") && m.name.Some?
    ensures KindName(m).1 == "opscenter-features" <==> m.kind.Some? && m.name == Some("opscenter-features")
  {
  }

  /** What the second loop selects: labelled HelmReleases other than opscenter-features. */
  lemma SelectedIff(m: Manifest)
    ensures Selected(m) <==>
              && m.Object? && m.kind == Some("HelmRelease") && m.body.Release?
              && m.name.Some? && m.name.value != "opscenter-features"
              && "app.kubernetes.io/component" in m.labels && m.labels["app.kubernetes.io/component"] == m.name.value
  {
  }

  /** A manifest of whatever kind that is named opscenter-features. */
  predicate NamedCore(m: Manifest) {
    m.Object? && m.kind.Some? && m.name == Some("opscenter-features")
  }

  /** The scan has passed the first `j` manifests: all readable, none named so. */
  ghost predicate PassedBy(ms: seq<Manifest>, start: nat, j: nat)
    requires start <= j <= |ms|
  {
    forall i | start <= i < j :: !ms[i].Unreadable? && !NamedCore(ms[i])
  }

  lemma {:induction false} ScanFinds(ms: seq<Manifest>, start: nat, j: nat)
    requires start <= j <= |ms| && PassedBy(ms, start, j)
    ensures j == |ms| ==> ScanCore(ms, start) == Absent
    ensures j < |ms| && NamedCore(ms[j]) && ms[j].body.Release? ==> ScanCore(ms, start) == At(j)
    ensures j < |ms| && (ms[j].Unreadable? || (NamedCore(ms[j]) && ms[j].body.Foreign?))
            ==> ScanCore(ms, start) == Blocked
    decreases j - start
  {
    if start < j { ScanFinds(ms, start + 1, j); }
  }

  lemma {:induction false} ScanEnds(ms: seq<Manifest>, start: nat) returns (j: nat)
    requires start <= |ms|
    ensures start <= j <= |ms| && PassedBy(ms, start, j) && (j < |ms| ==> ms[j].Unreadable? || NamedCore(ms[j]))
    decreases |ms| - start
  {
    if start == |ms| || ms[start].Unreadable? || NamedCore(ms[start]) {
      j := start;
    } else {
      j := ScanEnds(ms, start + 1);
    }
  }

  /**
   The scan stops at the first manifest that is unreadable or named opscenter-features, and finds it if it decodes.
   */
  lemma ScanCoreIff(ms: seq<Manifest>, j: nat)
    ensures ScanCore(ms) == At(j) <==> j < |ms| && NamedCore(ms[j]) && ms[j].body.Release? && PassedBy(ms, 0, j)
    ensures ScanCore(ms).Absent? <==> PassedBy(ms, 0, |ms|)
  {
    var k := ScanEnds(ms, 0);
    ScanFinds(ms, 0, k);
    if j <= |ms| && PassedBy(ms, 0, j) { ScanFinds(ms, 0, j); }
    if PassedBy(ms, 0, |ms|) { ScanFinds(ms, 0, |ms|); }
  }

  /** The position of opscenter-features in the first work named opscenter-core. */
  ghost predicate IsCorePosition(works: seq<Work>, p: Pos)
    requires InBounds(works, p)
  {
    && works[p.work].name == "opscenter-core" && (forall i | 0 <= i < p.work :: works[i].name != "opscenter-core")
    && NamedCore(ManifestAt(works, p)) && ManifestAt(works, p).body.Release?
    && PassedBy(works[p.work].manifests, 0, p.manifest)
  }

  /** A labelled feature release in a work that is labelled as managed. */
  ghost predicate IsFeaturePosition(works: seq<Work>, p: Pos)
    requires InBounds(works, p)
  {
    var w, m := works[p.work], ManifestAt(works, p);
    && "featureset.appscode.com/managed" in w.labels && w.labels["featureset.appscode.com/managed"] == "true"
    && m.Object? && m.kind == Some("HelmRelease") && m.body.Release?
    && m.name.Some? && m.name.value != "opscenter-features"
    && "app.kubernetes.io/component" in m.labels && m.labels["app.kubernetes.io/component"] == m.name.value
  }

  lemma CorePositionIff(works: seq<Work>, p: Pos)
    ensures p in WatchedCore(works) <==> InBounds(works, p) && IsCorePosition(works, p)
  {
    var r := FindWork(works, OPSCENTER_CORE);
    if r.Some? { ScanCoreIff(works[r.value].manifests, p.manifest); }
    if InBounds(works, p) && IsCorePosition(works, p) {
      assert !(r.value < p.work) && !(p.work < r.value);
    }
  }

  lemma {:induction false} FeaturePositionIn(works: seq<Work>, n: nat, p: Pos)
    requires n <= |works| && p.work < n && InBounds(works, p)
    requires Managed(works[p.work]) && Selected(ManifestAt(works, p))
    ensures p in WatchedFeatures(works, n)
  {
    if p.work < n - 1 { FeaturePositionIn(works, n - 1, p); }
  }

  /** Exactly these positions are rewritten and watched. */
  lemma WatchedIff(works: seq<Work>, p: Pos)
    ensures p in Watched(works) <==> InBounds(works, p) && (IsCorePosition(works, p) || IsFeaturePosition(works, p))
  {
    CorePositionIff(works, p);
    if InBounds(works, p) {
      SelectedIff(ManifestAt(works, p));
      if Managed(works[p.work]) && Selected(ManifestAt(works, p)) { FeaturePositionIn(works, |works|, p); }
    }
  }

  /** The spec an upgrade writes at a position. */
  function Rendered(inp: Inputs, works: seq<Work>, p: Pos): Result<Spec>
    requires inp.coreValues.Prepared? && InBounds(works, p) && Typed(ManifestAt(works, p))
  {
    var m := ManifestAt(works, p);
    if m.name.value == OPSCENTER_FEATURES then Ok(RenderCore(inp, m.body.spec))
    else RenderFeature(inp, works[p.work].name, m.name.value, m.body.spec)
  }

  function TargetAt(inp: Inputs, works: seq<Work>, p: Pos): Target
    requires inp.coreValues.Prepared? && InBounds(works, p) && Typed(ManifestAt(works, p))
    requires Rendered(inp, works, p).Ok?
  {
    var m := ManifestAt(works, p);
    NewTarget(works[p.work], m.ns, m.name.value, SpecChanged(m.body.spec, Rendered(inp, works, p).value))
  }

  /** The outcome of the second loop on one manifest, and on a whole work. */
  function UpgradedManifest(inp: Inputs, work: string, m: Manifest): Manifest {
    if Selected(m) then
      match RenderFeature(inp, work, m.name.value, m.body.spec)
      case Ok(s) => WithSpec(m, s)
      case Err => m
    else m
  }

  function FeatureTargets(inp: Inputs, w: Work, n: nat): (r: seq<Target>)
    requires n <= |w.manifests|
  {
    if n == 0 then []
    else
      var m := w.manifests[n - 1];
      FeatureTargets(inp, w, n - 1)
      + (if Selected(m) then
           [NewTarget(w, m.ns, m.name.value, SpecChanged(m.body.spec, UpgradedManifest(inp, w.name, m).body.spec))]
         else [])
  }

  function UpgradedFeatures(inp: Inputs, w: Work): Work {
    w.(manifests := seq(|w.manifests|, j requires 0 <= j < |w.manifests| =>
         UpgradedManifest(inp, w.name, w.manifests[j])),
       configs := EnsureAll(w.configs, FeatureTargets(inp, w, |w.manifests|)))
  }

  /** The first `n` manifests of `e0` are dealt with in `e`. */
  ghost predicate Edited(inp: Inputs, e0: Edit, n: nat, e: Edit)
    requires n <= |e0.work.manifests|
  {
    && e.work == e0.work.(manifests := e.work.manifests, configs := e.work.configs)
    && e.work.configs == EnsureAll(e0.work.configs, FeatureTargets(inp, e0.work, n))
    && e.targets == e0.targets + FeatureTargets(inp, e0.work, n)
    && |e.work.manifests| == |e0.work.manifests|
    && (forall j | 0 <= j < n :: e.work.manifests[j] == UpgradedManifest(inp, e0.work.name, e0.work.manifests[j]))
    && (forall j | n <= j < |e0.work.manifests| :: e.work.manifests[j] == e0.work.manifests[j])
  }

  ghost predicate Renderable(inp: Inputs, w: Work, j: nat)
    requires j < |w.manifests|
  {
    var m := w.manifests[j];
    Selected(m) ==> RenderFeature(inp, w.name, m.name.value, m.body.spec).Ok?
  }

  lemma EnsureAllSnoc(configs: seq<ConfigOption>, ts: seq<Target>, t: Target)
    ensures EnsureAll(configs, ts + [t]) == EnsureRules(EnsureAll(configs, ts), t.ns, t.name)
  {
    assert (ts + [t])[..|ts|] == ts;
  }

  /** Editing specs and feedback rules leaves the reported generations alone. */
  lemma TargetOfEdited(before: Work, after: Work, ns: string, name: string, changed: bool)
    requires after.name == before.name && after.status == before.status
    ensures NewTarget(after, ns, name, changed) == NewTarget(before, ns, name, changed)
  {
  }

  lemma RewriteAtEffect(inp: Inputs, e0: Edit, e: Edit, j: nat, s: Spec)
    requires j < |e0.work.manifests| && Edited(inp, e0, j, e)
    requires Selected(e0.work.manifests[j])
    requires UpgradedManifest(inp, e0.work.name, e0.work.manifests[j]) == WithSpec(e0.work.manifests[j], s)
    ensures Edited(inp, e0, j + 1, RewriteAt(e, j, s))
  {
    var m := e0.work.manifests[j];
    var ts := FeatureTargets(inp, e0.work, j);
    var t := NewTarget(e0.work, m.ns, m.name.value, SpecChanged(m.body.spec, s));
    TargetOfEdited(e0.work, e.work, m.ns, m.name.value, SpecChanged(m.body.spec, s));
    assert FeatureTargets(inp, e0.work, j + 1) == ts + [t];
    EnsureAllSnoc(e0.work.configs, ts, t);
    assert e.targets + [t] == e0.targets + (ts + [t]);
  }

  lemma RewriteManifestEffect(inp: Inputs, e0: Edit, e: Edit, j: nat)
    requires j < |e0.work.manifests| && Edited(inp, e0, j, e) && RewriteManifest(inp, e, j).Some?
    ensures Edited(inp, e0, j + 1, RewriteManifest(inp, e, j).value)
    ensures Renderable(inp, e0.work, j)
  {
    var m := e0.work.manifests[j];
    assert e.work.manifests[j] == m;
    if Selected(m) {
      RewriteAtEffect(inp, e0, e, j, RenderFeature(inp, e0.work.name, m.name.value, m.body.spec).value);
    } else {
      assert FeatureTargets(inp, e0.work, j + 1) == FeatureTargets(inp, e0.work, j);
    }
  }

  /** The second loop edits selected manifests only and yields their targets in order. */
  lemma {:induction false} RewriteManifestsEffect(inp: Inputs, e: Edit, n: nat)
    requires n <= |e.work.manifests| && RewriteManifests(inp, e, n).Some?
    ensures Edited(inp, e, n, RewriteManifests(inp, e, n).value)
  {
    if n > 0 {
      RewriteManifestsEffect(inp, e, n - 1);
      RewriteManifestEffect(inp, e, RewriteManifests(inp, e, n - 1).value, n - 1);
    }
  }

  /** What it got through could be rendered. */
  lemma {:induction false} RewriteManifestsRender(inp: Inputs, e: Edit, n: nat, j: nat)
    requires j < n <= |e.work.manifests| && RewriteManifests(inp, e, n).Some?
    ensures Renderable(inp, e.work, j)
  {
    if j < n - 1 {
      RewriteManifestsRender(inp, e, n - 1, j);
    } else {
      RewriteManifestsEffect(inp, e, n - 1);
      RewriteManifestEffect(inp, e, RewriteManifests(inp, e, n - 1).value, n - 1);
    }
  }

  lemma RewriteAllEffect(inp: Inputs, e: Edit)
    requires RewriteManifests(inp, e, |e.work.manifests|).Some?
    ensures var r := RewriteManifests(inp, e, |e.work.manifests|).value;
      && r.work == UpgradedFeatures(inp, e.work)
      && r.targets == e.targets + FeatureTargets(inp, e.work, |e.work.manifests|)
    ensures forall j | 0 <= j < |e.work.manifests| :: Renderable(inp, e.work, j)
  {
    RewriteManifestsEffect(inp, e, |e.work.manifests|);
    forall j | 0 <= j < |e.work.manifests| ensures Renderable(inp, e.work, j) {
      RewriteManifestsRender(inp, e, |e.work.manifests|, j);
    }
    var r := RewriteManifests(inp, e, |e.work.manifests|).value;
    assert r.work.manifests == UpgradedFeatures(inp, e.work).manifests;
  }
}
