/**
 The state a completed `applyUpgrade` ends in: works, ConfigMap and targets together
 (pkg/cluster_upgrade/upgrader.go: applyUpgrade).
*/
module ApplyOutcome {
  import opened Wrappers
  import opened Cluster
  import opened Render
  import opened Rewrite
  import opened Apply
  import opened ApplyEffect
  import opened ApplyFixpoint

  // ---------- The data a run starts with ----------

  /** A labelled HelmRelease that `createConfigMapInSpokeClusterNamespace` lists. */
  ghost predicate ListsRelease(m: Manifest, name: string) {
    && m.Object? && m.kind == Some("HelmRelease") && m.name == Some(name) && m.body.Release?
    && Entry(m.labels, "app.kubernetes.io/name") == Some("featuresets.ui.k8s.appscode.com")
    && name != "flux2" && name != "opscenter-features"
  }

  ghost predicate WorksList(works: seq<Work>, n: nat, name: string)
    requires n <= |works|
  {
    exists i, j | 0 <= i < n && 0 <= j < |works[i].manifests| ::
      Managed(works[i]) && ListsRelease(works[i].manifests[j], name)
  }

  lemma {:induction false} ManifestsDataMarks(ms: seq<Manifest>, n: nat, data: map<string, string>, name: string)
    requires n <= |ms| && ManifestsData(ms, n, data).Some?
    ensures Entry(ManifestsData(ms, n, data).value, name)
            == if exists j :: 0 <= j < n && ListsRelease(ms[j], name) then Some(FALSE) else Entry(data, name)
  {
    if n > 0 {
      ManifestsDataMarks(ms, n - 1, data, name);
    }
  }

  /** The loop marks False exactly the feature releases of the managed works, and leaves the other entries. */
  lemma {:induction false} InitialMarks(works: seq<Work>, n: nat, data: map<string, string>, name: string)
    requires n <= |works| && WorksData(works, n, data).Some?
    ensures Entry(WorksData(works, n, data).value, name)
            == if WorksList(works, n, name) then Some(FALSE) else Entry(data, name)
  {
    if n > 0 {
      InitialMarks(works, n - 1, data, name);
      var w := works[n - 1];
      if Managed(w) {
        ManifestsDataMarks(w.manifests, |w.manifests|, WorksData(works, n - 1, data).value, name);
      }
    }
  }

  /** An entry of a ConfigMap as it is created. */
  ghost function InitialEntry(works: seq<Work>, version: string, name: string): Option<string> {
    if WorksList(works, |works|, name) || name == "opscenter-features" then Some("False")
    else if name == "version" then Some(version)
    else if name == "status" then Some("pending")
    else None
  }

  lemma CreatedEntries(works: seq<Work>, version: string)
    requires WorksData(works, |works|, BaseData(version)).Some?
    ensures forall name ::
              Entry(WorksData(works, |works|, BaseData(version)).value, name) == InitialEntry(works, version, name)
  {
    forall name
      ensures Entry(WorksData(works, |works|, BaseData(version)).value, name) == InitialEntry(works, version, name)
    {
      InitialMarks(works, |works|, BaseData(version), name);
    }
  }

  // ---------- The ConfigMap after the loops ----------

  predicate Targeted(ts: seq<Target>, name: string) {
    exists i | 0 <= i < |ts| :: ts[i].name == name
  }

  /** The run's own data: every target is marked False, and the rest is as it was. */
  ghost predicate Marked(start: map<string, string>, data: map<string, string>, ts: seq<Target>) {
    forall name :: Entry(data, name) == if Targeted(ts, name) then Some(FALSE) else Entry(start, name)
  }

  lemma MarkOne(start: map<string, string>, data: map<string, string>, ts: seq<Target>, t: Target)
    requires Marked(start, data, ts)
    ensures Marked(start, data[t.name := FALSE], ts + [t])
  {
    forall name ensures Targeted(ts + [t], name) <==> Targeted(ts, name) || t.name == name {
      if t.name == name { assert (ts + [t])[|ts|] == t; }
      if Targeted(ts, name) {
        var i :| 0 <= i < |ts| && ts[i].name == name;
        assert (ts + [t])[i] == ts[i];
      }
    }
  }

  lemma RewriteMarksOne(inp: Inputs, start: map<string, string>, e: Edit, j: nat)
    requires j < |e.work.manifests| && Marked(start, e.data, e.targets) && RewriteManifest(inp, e, j).Some?
    ensures Marked(start, RewriteManifest(inp, e, j).value.data, RewriteManifest(inp, e, j).value.targets)
  {
    var m := e.work.manifests[j];
    if Selected(m) {
      var s := RenderFeature(inp, e.work.name, m.name.value, m.body.spec).value;
      MarkOne(start, e.data, e.targets, NewTarget(e.work, m.ns, m.name.value, SpecChanged(m.body.spec, s)));
    }
  }

  lemma {:induction false} RewriteMarks(inp: Inputs, start: map<string, string>, e: Edit, n: nat)
    requires n <= |e.work.manifests| && Marked(start, e.data, e.targets) && RewriteManifests(inp, e, n).Some?
    ensures Marked(start, RewriteManifests(inp, e, n).value.data, RewriteManifests(inp, e, n).value.targets)
  {
    if n > 0 {
      RewriteMarks(inp, start, e, n - 1);
      RewriteMarksOne(inp, start, RewriteManifests(inp, e, n - 1).value, n - 1);
    }
  }

  /** Of the ConfigMap, the loops change the data only. */
  ghost predicate Carries(start: ConfigMap, l: Loop) {
    l.cm == start.(data := l.cm.data) && Marked(start.data, l.cm.data, l.targets)
  }

  lemma {:induction false} WorksCarry(inp: Inputs, start: ConfigMap, l: Loop, works: seq<Work>, n: nat)
    requires Carries(start, l) && n <= |works|
    ensures Carries(start, ApplyWorks(inp, l, works, n))
  {
    if n > 0 {
      WorksCarry(inp, start, l, works, n - 1);
      var p := ApplyWorks(inp, l, works, n - 1);
      var e := Edit(works[n - 1], p.cm.data, p.targets);
      if RewriteManifests(inp, e, |e.work.manifests|).Some? {
        RewriteMarks(inp, start.data, e, |e.work.manifests|);
      }
    }
  }

  lemma LoopsCarry(inp: Inputs, hub: Hub, l: Loop, core: nat)
    requires inp.coreValues.Prepared? && core < |hub.works| && l.targets == []
    ensures Carries(l.cm, Loops(inp, hub, l, core))
  {
    var w := hub.works[core];
    var l1 := ApplyCore(inp, l, w);
    assert Marked(l.cm.data, l.cm.data, []);
    if ScanCore(w.manifests).At? {
      var j := ScanCore(w.manifests).j;
      var m := w.manifests[j];
      var t := NewTarget(w, m.ns, m.name.value, SpecChanged(m.body.spec, RenderCore(inp, m.body.spec)));
      MarkOne(l.cm.data, l.cm.data, [], t);
      assert [] + [t] == [t];
      assert Carries(l.cm, l1);
    }
    WorksCarry(inp, l.cm, l1, l1.hub.works, |l1.hub.works|);
  }

  /** The one ConfigMap a completed apply leaves. */
  ghost predicate RecordOf(inp: Inputs, works: seq<Work>, now: int, end: End, cm: ConfigMap) {
    && cm.version == inp.binding.version
    && cm.created == now - now % SECOND
    && (end.Closed? ==>
          && cm.targets.None? && Labelled(cm.data, STATUS_KEY, COMPLETED) && Watched(works) == []
          && forall name | name != STATUS_KEY :: Entry(cm.data, name) == InitialEntry(works, inp.binding.version, name))
    && (end.Waits? ==>
          && cm.upgradeAt.GetOr("") == inp.binding.upgradeAt
          && cm.targets.Some? && cm.targets.value.Decoded?
          && cm.targets.value.targets != []
          && Yields(inp, works, Watched(works), cm.targets.value.targets)
          && forall name :: Entry(cm.data, name)
               == if Targeted(cm.targets.value.targets, name) then Some(FALSE)
                  else InitialEntry(works, inp.binding.version, name))
  }

  lemma SealRecord(inp: Inputs, start: Hub, now: int, first: ConfigMap, l: Loop)
    requires Running(start, l) && Carries(first, l) && l.ok
    requires forall name :: Entry(first.data, name) == InitialEntry(start.works, inp.binding.version, name)
    requires first.version == inp.binding.version && first.created == now - now % SECOND
    requires first.upgradeAt.None? && first.targets.None?
    requires Yields(inp, start.works, Watched(start.works), l.targets)
    ensures var o := Seal(inp, l);
      var h := Last(o.trace);
      && !o.end.Broken? && h.works == l.hub.works && h.status == start.status
      && |h.configMaps| == 1 && RecordOf(inp, start.works, now, o.end, h.configMaps[0])
      && h.configMaps[0].name == first.name
  {
    assert l.hub.configMaps[0].name == l.cm.name;
    var cm := if l.targets == [] then Finished(l.cm) else Recorded(l.cm, l.targets, inp.binding.upgradeAt);
    assert PatchConfigMap(l.hub, cm).configMaps == [MergeAnnotations(l.cm, cm)];
  }

  /**
   A completed apply rewrote exactly the watched positions, and its ConfigMap lists a target for each of them
   in the same order; with nothing to watch the run is closed at once.
   */
  lemma ApplyCompletes(inp: Inputs, hub: Hub, name: string, now: int)
    requires DistinctNames(hub.works) && !ApplyUpgrade(inp, hub, name, now).end.Broken?
    ensures inp.coreValues.Prepared?
    ensures var o := ApplyUpgrade(inp, hub, name, now);
      var h := Last(o.trace);
      && h.works == AllUpgraded(inp, hub.works) && h.status == hub.status
      && |h.configMaps| == 1 && RecordOf(inp, hub.works, now, o.end, h.configMaps[0])
      && h.configMaps[0].name == name
  {
    var core := FindWork(hub.works, OPSCENTER_CORE).value;
    var data := WorksData(hub.works, |hub.works|, BaseData(inp.binding.version)).value;
    CreatedEntries(hub.works, inp.binding.version);
    var l0 := AfterCreate(inp, hub, name, now, data);
    ClearRuns(inp, hub, name, now, data);
    LoopsRun(inp, hub, l0, core);
    LoopsCarry(inp, hub, l0, core);
    LoopsComplete(inp, hub, l0, core);
    SealRecord(inp, hub, now, l0.cm, Loops(inp, hub, l0, core));
  }

  lemma SealAppends(inp: Inputs, l: Loop)
    requires l.ok
    ensures exists last :: Seal(inp, l).trace == l.trace + [last]
  {
  }

  /** The state of a completing apply as its loops are through. */
  lemma LoopsEnd(inp: Inputs, hub: Hub, name: string, now: int) returns (l: Loop)
    requires DistinctNames(hub.works) && !ApplyUpgrade(inp, hub, name, now).end.Broken?
    ensures ApplyUpgrade(inp, hub, name, now) == Seal(inp, l) && Running(hub, l) && l.ok
    ensures inp.coreValues.Prepared? && l.hub.works == AllUpgraded(inp, hub.works)
  {
    var core := FindWork(hub.works, OPSCENTER_CORE).value;
    var data := WorksData(hub.works, |hub.works|, BaseData(inp.binding.version)).value;
    var l0 := AfterCreate(inp, hub, name, now, data);
    ClearRuns(inp, hub, name, now, data);
    LoopsRun(inp, hub, l0, core);
    LoopsComplete(inp, hub, l0, core);
    l := Loops(inp, hub, l0, core);
  }

  lemma LastButOneOf(trace: seq<Hub>, before: seq<Hub>, last: Hub)
    requires before != [] && trace == before + [last]
    ensures |trace| == |before| + 1 && trace[|before| - 1] == Last(before)
  {
  }

  /** Before its last write, an apply that completes has stored all its works and recorded nothing. */
  lemma BeforeSeal(inp: Inputs, hub: Hub, name: string, now: int) returns (before: seq<Hub>, last: Hub)
    requires DistinctNames(hub.works) && !ApplyUpgrade(inp, hub, name, now).end.Broken?
    ensures before != [] && ApplyUpgrade(inp, hub, name, now).trace == before + [last]
    ensures inp.coreValues.Prepared? && Last(before).works == AllUpgraded(inp, hub.works)
            && Unrecorded(hub, Last(before))
  {
    var l := LoopsEnd(inp, hub, name, now);
    SealAppends(inp, l);
    before := l.trace;
    last :| Seal(inp, l).trace == before + [last];
  }

  /** The same by its place in the trace, next to the end. */
  lemma NextToLast(inp: Inputs, hub: Hub, name: string, now: int) returns (i: nat, h: Hub)
    requires DistinctNames(hub.works) && !ApplyUpgrade(inp, hub, name, now).end.Broken?
    ensures var trace := ApplyUpgrade(inp, hub, name, now).trace;
      i + 2 == |trace| && trace[i] == h
    ensures inp.coreValues.Prepared? && h.works == AllUpgraded(inp, hub.works) && Unrecorded(hub, h)
  {
    var before, last := BeforeSeal(inp, hub, name, now);
    LastButOneOf(ApplyUpgrade(inp, hub, name, now).trace, before, last);
    i, h := |before| - 1, Last(before);
  }

  /** At a position a completed apply wrote, rendering gives back what is stored. */
  lemma RenderedAgain(inp: Inputs, works: seq<Work>, ts: seq<Target>, p: Pos)
    requires inp.coreValues.Prepared? && Yields(inp, works, Watched(works), ts) && p in Watched(works)
    ensures var u := AllUpgraded(inp, works);
      && InBounds(u, p) && Typed(ManifestAt(u, p))
      && Rendered(inp, u, p).Ok? && Rendered(inp, u, p).value == ManifestAt(u, p).body.spec
  {
    UpgradedAt(inp, works, ts, p);
    AllShape(inp, works);
    var m := ManifestAt(works, p);
    assert AllUpgraded(inp, works)[p.work].name == works[p.work].name;
    RenderIdempotent(inp, works[p.work].name, m.name.value, m.body.spec);
  }

  /**
   Applying again on what a completed apply stored: no work changes at any point, and every target of a
   completed second apply waits for just the generation reported now.
   */
  lemma ReapplyIdempotent(inp: Inputs, hub: Hub, name: string, now: int, next: Hub, name': string, now': int)
    requires DistinctNames(hub.works) && !ApplyUpgrade(inp, hub, name, now).end.Broken?
    requires next.works == Last(ApplyUpgrade(inp, hub, name, now).trace).works
    ensures WorksUnchanged(next.works, ApplyUpgrade(inp, next, name', now').trace)
    ensures Watched(next.works) == Watched(hub.works)
    ensures inp.coreValues.Prepared?
    ensures forall p | p in Watched(next.works) ::
              && InBounds(next.works, p) && Typed(ManifestAt(next.works, p)) && Rendered(inp, next.works, p).Ok?
              && var m := ManifestAt(next.works, p);
                 TargetAt(inp, next.works, p).minGeneration
                       == HelmReleaseGeneration(next.works[p.work], m.ns, m.name.value)
  {
    ApplyCompletes(inp, hub, name, now);
    var core := FindWork(hub.works, OPSCENTER_CORE).value;
    var data := WorksData(hub.works, |hub.works|, BaseData(inp.binding.version)).value;
    var l := Loops(inp, hub, AfterCreate(inp, hub, name, now, data), core);
    LoopsComplete(inp, hub, AfterCreate(inp, hub, name, now, data), core);
    AllShape(inp, hub.works);
    DistinctKept(hub.works, next.works);
    SameWatched(hub.works, next.works);
    AllUpgradedSettled(inp, hub.works, l.targets);
    ReapplyUnchanged(inp, next, name', now');
    forall p | p in Watched(next.works)
      ensures Rendered(inp, next.works, p).Ok?
      ensures Rendered(inp, next.works, p).value == ManifestAt(next.works, p).body.spec
    {
      RenderedAgain(inp, hub.works, l.targets, p);
    }
  }

  // ---------- The status entry ----------

  /** No HelmRelease bears the name under which the ConfigMap keeps its own status. */
  ghost predicate StatusFreeWork(w: Work) {
    forall j | 0 <= j < |w.manifests| :: Typed(w.manifests[j]) ==> w.manifests[j].name != Some(STATUS_KEY)
  }

  ghost predicate StatusFree(works: seq<Work>) {
    forall i | 0 <= i < |works| :: StatusFreeWork(works[i])
  }

  predicate StillPending(data: map<string, string>) {
    Labelled(data, STATUS_KEY, PENDING)
  }

  lemma ShapeStatusFree(works: seq<Work>, works': seq<Work>)
    requires SameShape(works, works') && StatusFree(works)
    ensures StatusFree(works')
  {
    forall i | 0 <= i < |works'| ensures StatusFreeWork(works'[i]) {
      assert SameManifests(works[i].manifests, works'[i].manifests) && StatusFreeWork(works[i]);
      forall j | 0 <= j < |works'[i].manifests| && Typed(works'[i].manifests[j])
        ensures works'[i].manifests[j].name != Some(STATUS_KEY)
      {
        assert SameManifest(works[i].manifests[j], works'[i].manifests[j]);
      }
    }
  }

  lemma NotListed(works: seq<Work>)
    requires StatusFree(works)
    ensures !WorksList(works, |works|, STATUS_KEY)
  {
    forall i, j | 0 <= i < |works| && 0 <= j < |works[i].manifests|
      ensures !ListsRelease(works[i].manifests[j], STATUS_KEY)
    {
      assert StatusFreeWork(works[i]);
    }
  }

  lemma NotTargeted(inp: Inputs, works: seq<Work>, ts: seq<Target>)
    requires StatusFree(works) && Yields(inp, works, Watched(works), ts)
    ensures !Targeted(ts, STATUS_KEY)
  {
    forall k | 0 <= k < |ts| ensures ts[k].name != STATUS_KEY {
      var p := Watched(works)[k];
      assert YieldsOne(inp, works, p, ts[k]) && p in Watched(works);
      assert StatusFreeWork(works[p.work]);
    }
  }

  /** The ConfigMap of a recorded run is pending, unless a release named like the entry overwrites it. */
  lemma RecordIsPending(inp: Inputs, hub: Hub, name: string, now: int)
    requires DistinctNames(hub.works) && StatusFree(hub.works) && ApplyUpgrade(inp, hub, name, now).end.Waits?
    ensures var h := Last(ApplyUpgrade(inp, hub, name, now).trace);
      |h.configMaps| == 1 && StillPending(h.configMaps[0].data)
  {
    ApplyCompletes(inp, hub, name, now);
    var cm := Last(ApplyUpgrade(inp, hub, name, now).trace).configMaps[0];
    NotListed(hub.works);
    NotTargeted(inp, hub.works, cm.targets.value.targets);
    assert Entry(cm.data, STATUS_KEY) == InitialEntry(hub.works, inp.binding.version, STATUS_KEY);
  }
}
