/**
 The commit record over whole histories: a pending ConfigMap with targets vouches for the complete apply
 (pkg/cluster_upgrade/upgrader.go, upgrader_helper.go:202-276).
*/
module ProtocolRun {
  import opened Wrappers
  import opened JsonValue
  import opened Cluster
  import opened Render
  import opened Rewrite
  import opened Apply
  import opened ApplyEffect
  import opened ApplyFixpoint
  import opened ApplyOutcome
  import opened RunRecord
  import opened Protocol
  import opened ProtocolStore

  /** The rewrite of this position is stored, and the target watches it with all feedback it needs. */
  ghost predicate Served(inp: Inputs, works: seq<Work>, p: Pos, t: Target) {
    && inp.coreValues.Prepared? && InBounds(works, p) && Typed(ManifestAt(works, p))
    && Rendered(inp, works, p).Ok?
    && !SpecChanged(ManifestAt(works, p).body.spec, Rendered(inp, works, p).value)
    && t.work == works[p.work].name && Key(t.ns, t.name) == KeyOf(ManifestAt(works, p))
    && CarriesRules(works[p.work].configs, t.ns, t.name)
  }

  /** Every manifest the upgrade rewrites is rewritten, and the list names exactly those, in order. */
  ghost predicate Committed(inp: Inputs, works: seq<Work>, ts: seq<Target>) {
    && ts != [] && |ts| == |Watched(works)|
    && forall k | 0 <= k < |ts| :: Served(inp, works, Watched(works)[k], ts[k])
  }

  ghost predicate RunInv(inp: Inputs, s: System) {
    match FindPending(inp.binding, s.hub.configMaps)
    case Nothing => true
    case Malformed => false
    case Run(cm, ts) =>
      && s.hub.configMaps == [cm]
      && NeedsUpgrade(inp.binding, s.hub.status)
      && Committed(inp, s.hub.works, ts)
  }

  // ---------- Recording ----------

  lemma AllUpgradedServed(inp: Inputs, works: seq<Work>, ts: seq<Target>, k: nat)
    requires inp.coreValues.Prepared? && Yields(inp, works, Watched(works), ts) && k < |ts|
    ensures Watched(AllUpgraded(inp, works)) == Watched(works)
    ensures Served(inp, AllUpgraded(inp, works), Watched(works)[k], ts[k])
  {
    var p := Watched(works)[k];
    assert p in Watched(works);
    AllShape(inp, works);
    SameWatched(works, AllUpgraded(inp, works));
    assert YieldsOne(inp, works, p, ts[k]);
    UpgradedAt(inp, works, ts, p);
    RenderedAgain(inp, works, ts, p);
    RulesCarried(inp, works, p);
    assert AllUpgraded(inp, works)[p.work].name == works[p.work].name;
  }

  lemma RecordedCommits(inp: Inputs, hub: Hub, name: string, now: int)
    requires DistinctNames(hub.works) && ApplyUpgrade(inp, hub, name, now).end.Waits?
    ensures var h := Last(ApplyUpgrade(inp, hub, name, now).trace);
      |h.configMaps| == 1 && h.configMaps[0].targets.Some? && h.configMaps[0].targets.value.Decoded?
      && Committed(inp, h.works, h.configMaps[0].targets.value.targets)
  {
    ApplyCompletes(inp, hub, name, now);
    var h := Last(ApplyUpgrade(inp, hub, name, now).trace);
    var ts := h.configMaps[0].targets.value.targets;
    forall k | 0 <= k < |ts|
      ensures Watched(h.works) == Watched(hub.works) && Served(inp, h.works, Watched(hub.works)[k], ts[k])
    {
      AllUpgradedServed(inp, hub.works, ts, k);
    }
    assert Watched(h.works) == Watched(hub.works) by {
      AllUpgradedServed(inp, hub.works, ts, 0);
    }
  }

  lemma FindOne(b: Binding, cm: ConfigMap)
    ensures FindPending(b, [cm]).Nothing? <==> !Resumable(b, cm)
    ensures Resumable(b, cm) && cm.targets.value.Decoded? ==> FindPending(b, [cm]) == Run(cm, cm.targets.value.targets)
  {
  }

  lemma UnrecordedKeepsRun(inp: Inputs, s: System, h: Hub)
    requires FindPending(inp.binding, s.hub.configMaps).Nothing? && Unrecorded(s.hub, h)
    ensures FindPending(inp.binding, h.configMaps).Nothing?
  {
    PendingFound(inp.binding, s.hub.configMaps);
    PendingFound(inp.binding, h.configMaps);
    forall cm | cm in h.configMaps ensures !Resumable(inp.binding, cm) {
    }
  }

  lemma RecordedPlain(inp: Inputs, hub: Hub, name: string, now: int)
    requires DistinctNames(hub.works) && ApplyUpgrade(inp, hub, name, now).end.Waits?
    ensures var h := Last(ApplyUpgrade(inp, hub, name, now).trace);
      |h.configMaps| == 1 && h.configMaps == [h.configMaps[0]] && h.status == hub.status
  {
    ApplyCompletes(inp, hub, name, now);
  }

  lemma RecordedKeepsRun(inp: Inputs, s: System, name: string)
    requires DistinctNames(s.hub.works) && NeedsUpgrade(inp.binding, s.hub.status)
    requires ApplyUpgrade(inp, s.hub, name, s.now).end.Waits?
    ensures RunInv(inp, s.(hub := Last(ApplyUpgrade(inp, s.hub, name, s.now).trace)))
  {
    RecordedPlain(inp, s.hub, name, s.now);
    RecordedCommits(inp, s.hub, name, s.now);
    FindOne(inp.binding, Last(ApplyUpgrade(inp, s.hub, name, s.now).trace).configMaps[0]);
  }

  /** Whatever point an apply reaches, the run is on record complete or not at all. */
  lemma ApplyKeepsRun(inp: Inputs, s: System, name: string, i: nat)
    requires DistinctNames(s.hub.works) && FindPending(inp.binding, s.hub.configMaps).Nothing?
    requires NeedsUpgrade(inp.binding, s.hub.status)
    requires i < |ApplyUpgrade(inp, s.hub, name, s.now).trace|
    ensures var o := ApplyUpgrade(inp, s.hub, name, s.now);
      && RunInv(inp, s.(hub := o.trace[i]))
      && (FindPending(inp.binding, o.trace[i].configMaps).Nothing? || (o.end.Waits? && i == |o.trace| - 1))
  {
    var o := ApplyUpgrade(inp, s.hub, name, s.now);
    if o.end.Waits? && i == |o.trace| - 1 {
      RecordedKeepsRun(inp, s, name);
    } else {
      RecordComesLast(inp, s.hub, name, s.now);
      UnrecordedKeepsRun(inp, s, o.trace[i]);
    }
  }

  // ---------- Observing ----------

  /** An observation keeps the record as it was apart from marks, or ends the run. */
  lemma ObserveRecord(b: Binding, hub: Hub, cm: ConfigMap, ts: seq<Target>, readable: set<nat>, now: int, i: nat)
    requires hub.configMaps == [cm] && FindPending(b, [cm]) == Run(cm, ts)
    requires i < |ObserveUpgrade(hub, cm, ts, readable, now).trace|
    ensures var o := ObserveUpgrade(hub, cm, ts, readable, now);
      var cms := o.trace[i].configMaps;
      && |cms| == 1 && cms[0] == cm.(data := cms[0].data, targets := cms[0].targets)
      && (FindPending(b, cms).Nothing? || FindPending(b, cms) == Run(cms[0], ts))
      && (!o.verdict.Waiting? && i == |o.trace| - 1 ==>
            FindPending(b, cms).Nothing? && cms[0].targets.None? && Labelled(cms[0].data, STATUS_KEY, COMPLETED))
  {
    var o := ObserveUpgrade(hub, cm, ts, readable, now);
    var s := EvaluateTargets(hub.works, ts, readable, cm.data, |ts|);
    var marked := cm.(data := s.data);
    var h := if s.becameReady then PatchConfigMap(hub, marked) else hub;
    SweepChanges(hub.works, ts, readable, cm.data, |ts|);
    PatchOne(hub, cm, marked);
    assert h.configMaps == [marked];
    PatchOne(h, marked, Finished(marked));
    FindOne(b, marked);
    FindOne(b, Finished(marked));
  }

  lemma ReconcileKeepsRun(inp: Inputs, s: System, c: Choice, hub': Hub)
    requires StoreInv(s) && RunInv(inp, s) && ReconcileStep(inp, s, c, hub')
    ensures RunInv(inp, s.(hub := hub'))
  {
    if inp.profileValid && NeedsUpgrade(inp.binding, s.hub.status) {
      match FindPending(inp.binding, s.hub.configMaps)
      case Run(cm, ts) =>
        ObserveRecord(inp.binding, s.hub, cm, ts, c.readable, s.now, c.stop);
        ObserveApart(s.hub, cm, ts, c.readable, s.now, c.stop);
        StatusApart(inp.binding, ObserveUpgrade(s.hub, cm, ts, c.readable, s.now).trace[c.stop], c);
      case Nothing =>
        ApplyKeepsRun(inp, s, c.cmName, c.stop);
        var o := ApplyUpgrade(inp, s.hub, c.cmName, s.now);
        StatusApart(inp.binding, o.trace[c.stop], c);
    }
  }

  // ---------- The other steps ----------

  lemma SameWatchedAfterNulls(works: seq<Work>, p: Pos, raw: Option<Json>)
    requires InBounds(works, p) && Typed(ManifestAt(works, p))
    ensures var m := ManifestAt(works, p);
      var works' := PutManifest(works, p, WithSpec(m, m.body.spec.(values := raw)));
      SameShape(works, works') && Watched(works') == Watched(works)
  {
    var m := ManifestAt(works, p);
    var works' := PutManifest(works, p, WithSpec(m, m.body.spec.(values := raw)));
    assert SameManifests(works[p.work].manifests, works'[p.work].manifests);
    SameWatched(works, works');
  }

  /** Nulls that the API server drops or keeps do not undo a rewrite. */
  lemma ServedAfterNulls(inp: Inputs, works: seq<Work>, p: Pos, raw: Option<Json>, q: Pos, t: Target)
    requires InBounds(works, p) && Typed(ManifestAt(works, p)) && Served(inp, works, q, t)
    requires SameModuloNulls(ManifestAt(works, p).body.spec, ManifestAt(works, p).body.spec.(values := raw))
    ensures var m := ManifestAt(works, p);
      Served(inp, PutManifest(works, p, WithSpec(m, m.body.spec.(values := raw))), q, t)
  {
    var m := ManifestAt(works, p);
    var spec := m.body.spec.(values := raw);
    if p == q {
      RenderCongruent(inp, works[p.work].name, m.name.value, m.body.spec, spec);
      NullsDoNotCount(m.body.spec, spec);
      var works' := PutManifest(works, p, WithSpec(m, spec));
      assert ManifestAt(works', p) == WithSpec(m, spec);
      NullsDoNotCount(Rendered(inp, works, p).value, Rendered(inp, works', p).value);
    } else {
      assert ManifestAt(PutManifest(works, p, WithSpec(m, spec)), q) == ManifestAt(works, q);
    }
  }

  lemma NullsKeepRun(inp: Inputs, works: seq<Work>, p: Pos, raw: Option<Json>, ts: seq<Target>)
    requires InBounds(works, p) && Typed(ManifestAt(works, p)) && Committed(inp, works, ts)
    requires SameModuloNulls(ManifestAt(works, p).body.spec, ManifestAt(works, p).body.spec.(values := raw))
    ensures var m := ManifestAt(works, p);
      Committed(inp, PutManifest(works, p, WithSpec(m, m.body.spec.(values := raw))), ts)
  {
    SameWatchedAfterNulls(works, p, raw);
    forall k | 0 <= k < |ts|
      ensures var m := ManifestAt(works, p);
        Served(inp, PutManifest(works, p, WithSpec(m, m.body.spec.(values := raw))), Watched(works)[k], ts[k])
    {
      ServedAfterNulls(inp, works, p, raw, Watched(works)[k], ts[k]);
    }
  }

  ghost predicate SameButStatus(a: seq<Work>, b: seq<Work>) {
    |a| == |b| && forall i | 0 <= i < |a| :: b[i] == a[i].(status := b[i].status)
  }

  lemma FindIgnoresStatus(a: seq<Work>, b: seq<Work>, name: string)
    requires SameButStatus(a, b)
    ensures FindWork(a, name) == FindWork(b, name)
  {
    var r, r' := FindWork(a, name), FindWork(b, name);
    assert forall i | 0 <= i < |a| :: b[i].name == a[i].name;
    if r.Some? && r'.Some? {
      assert !(r.value < r'.value) && !(r'.value < r.value);
    }
  }

  lemma {:induction false} FeaturesIgnoreStatus(a: seq<Work>, b: seq<Work>, n: nat)
    requires SameButStatus(a, b) && n <= |a|
    ensures WatchedFeatures(a, n) == WatchedFeatures(b, n)
  {
    if n > 0 {
      FeaturesIgnoreStatus(a, b, n - 1);
    }
  }

  lemma WatchedIgnoresStatus(a: seq<Work>, b: seq<Work>)
    requires SameButStatus(a, b)
    ensures Watched(a) == Watched(b)
  {
    FindIgnoresStatus(a, b, OPSCENTER_CORE);
    FeaturesIgnoreStatus(a, b, |a|);
  }

  lemma SameWatchedStatus(works: seq<Work>, i: nat, status: seq<Condition>)
    requires i < |works|
    ensures Watched(works[i := works[i].(status := status)]) == Watched(works)
  {
    WatchedIgnoresStatus(works, works[i := works[i].(status := status)]);
  }

  lemma SyncKeepsCommitted(inp: Inputs, works: seq<Work>, i: nat, status: seq<Condition>, ts: seq<Target>)
    requires i < |works| && Committed(inp, works, ts)
    ensures Committed(inp, works[i := works[i].(status := status)], ts)
  {
    var works' := works[i := works[i].(status := status)];
    SameWatchedStatus(works, i, status);
    forall k | 0 <= k < |ts| ensures Served(inp, works', Watched(works)[k], ts[k]) {
      assert Served(inp, works, Watched(works)[k], ts[k]);
      assert ManifestAt(works', Watched(works)[k]) == ManifestAt(works, Watched(works)[k]);
    }
  }

  /** Every step keeps the record truthful. */
  lemma StepKeepsRun(inp: Inputs, s: System, l: Label, s': System)
    requires StoreInv(s) && RunInv(inp, s) && Step(inp, s, l, s')
    ensures RunInv(inp, s')
  {
    match l
    case Reconcile(c) => ReconcileKeepsRun(inp, s, c, s'.hub);
    case StoreNulls(p, raw) =>
      var r := FindPending(inp.binding, s.hub.configMaps);
      if r.Run? { NullsKeepRun(inp, s.hub.works, p, raw, r.targets); }
    case FeedbackSync(i, key, status, values, applied) =>
      var r := FindPending(inp.binding, s.hub.configMaps);
      if r.Run? { SyncKeepsCommitted(inp, s.hub.works, i, status, r.targets); }
    case _ =>
  }

  lemma {:induction false} PathKeepsRun(inp: Inputs, ss: seq<System>, ls: seq<Label>, n: nat)
    requires IsPath(inp, ss, ls) && n < |ss| && StoreInv(ss[0]) && RunInv(inp, ss[0])
    ensures StoreInv(ss[n]) && RunInv(inp, ss[n])
  {
    if n > 0 {
      PathKeepsRun(inp, ss, ls, n - 1);
      assert StepAt(inp, ss, ls, n - 1);
      StepKeepsStore(inp, ss[n - 1], ls[n - 1], ss[n]);
      StepKeepsRun(inp, ss[n - 1], ls[n - 1], ss[n]);
    }
  }

  /**
   Commit record: in every reachable state, a ConfigMap that a reconcile would resume is the only one, its
   run is still due, every manifest rewrite is stored, and the list watches all of them.
   */
  lemma CommitRecord(inp: Inputs, ss: seq<System>, ls: seq<Label>, n: nat)
    requires IsRun(inp, ss, ls) && n < |ss|
    ensures StoreInv(ss[n]) && RunInv(inp, ss[n])
  {
    PathKeepsRun(inp, ss, ls, n);
  }
}
