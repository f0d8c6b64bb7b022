/** Invariants of the stored objects that every step of the protocol keeps. */
module ProtocolStore {
  import opened Wrappers
  import opened Cluster
  import opened Render
  import opened Rewrite
  import opened Apply
  import opened ApplyEffect
  import opened ApplyOutcome
  import opened RunRecord
  import opened Pinning
  import opened Protocol

  /** Status writes do not touch works or ConfigMaps. */
  lemma StatusApart(b: Binding, hub: Hub, c: Choice)
    ensures AfterStatus(b, hub, c).works == hub.works && AfterStatus(b, hub, c).configMaps == hub.configMaps
  {
  }

  /** Observing touches ConfigMaps only. */
  lemma ObserveApart(hub: Hub, cm: ConfigMap, ts: seq<Target>, readable: set<nat>, now: int, i: nat)
    requires i < |ObserveUpgrade(hub, cm, ts, readable, now).trace|
    ensures var h := ObserveUpgrade(hub, cm, ts, readable, now).trace[i];
      h.works == hub.works && h.status == hub.status
  {
  }

  lemma ApplyOutcomeWorks(inp: Inputs, hub: Hub, name: string, now: int)
    requires DistinctNames(hub.works) && !ApplyUpgrade(inp, hub, name, now).end.Broken?
    ensures var h := Last(ApplyUpgrade(inp, hub, name, now).trace);
      SameWorks(hub.works, h.works) && h.status == hub.status
  {
    ApplyCompletes(inp, hub, name, now);
    AllShape(inp, hub.works);
  }

  lemma ApplyWorksAt(inp: Inputs, hub: Hub, name: string, now: int, i: nat)
    requires i < |ApplyUpgrade(inp, hub, name, now).trace| && DistinctNames(hub.works)
    ensures SameWorks(hub.works, ApplyUpgrade(inp, hub, name, now).trace[i].works)
    ensures ApplyUpgrade(inp, hub, name, now).trace[i].status == hub.status
  {
    RecordComesLast(inp, hub, name, now);
    var o := ApplyUpgrade(inp, hub, name, now);
    if o.end.Waits? && i == |o.trace| - 1 {
      ApplyOutcomeWorks(inp, hub, name, now);
    } else {
      assert Unrecorded(hub, o.trace[i]);
    }
  }

  /** A reconcile leaves the works as they are, edits their specs, or hands them to EnableFeatures. */
  lemma ReconcileWorks(inp: Inputs, s: System, c: Choice, hub': Hub)
    requires ReconcileStep(inp, s, c, hub') && DistinctNames(s.hub.works)
    ensures SameWorks(s.hub.works, hub'.works)
            || (EnabledWorks(s.hub.works, hub'.works) && !NeedsUpgrade(inp.binding, s.hub.status)
                  && hub'.configMaps == s.hub.configMaps)
  {
    if inp.profileValid && NeedsUpgrade(inp.binding, s.hub.status) {
      match FindPending(inp.binding, s.hub.configMaps)
      case Malformed =>
      case Run(cm, ts) => ObserveApart(s.hub, cm, ts, c.readable, s.now, c.stop);
      case Nothing => ApplyWorksAt(inp, s.hub, c.cmName, s.now, c.stop);
    }
  }

  lemma SameFeedback(s: System, s': System, w: Work, w': Work)
    requires FeedbackInv(s, w) && s'.snaps == s.snaps && w'.name == w.name && w'.status == w.status
    ensures FeedbackInv(s', w')
  {
    forall k: Key
      ensures Reports(HelmReleaseFeedback(w', k.ns, k.name).0, SnapAt(s'.snaps, Feed(w'.name, k)), false)
    {
      assert HelmReleaseFeedback(w', k.ns, k.name) == HelmReleaseFeedback(w, k.ns, k.name);
    }
  }

  lemma SameWorksKeep(s: System, s': System)
    requires StoreInv(s) && s'.spoke == s.spoke && s'.snaps == s.snaps
    requires SameWorks(s.hub.works, s'.hub.works)
    ensures StoreInv(s')
  {
    DistinctKept(s.hub.works, s'.hub.works);
    forall i | 0 <= i < |s'.hub.works| ensures FeedbackInv(s', s'.hub.works[i]) {
      SameFeedback(s, s', s.hub.works[i], s'.hub.works[i]);
    }
  }

  /** A work without any feedback reads as empty. */
  lemma ReportsNothing(snap: Option<SpokeRelease>)
    ensures Reports([], snap, false)
  {
  }

  lemma EnabledKeep(s: System, s': System)
    requires StoreInv(s) && s'.spoke == s.spoke && s'.snaps == s.snaps
    requires EnabledWorks(s.hub.works, s'.hub.works)
    ensures StoreInv(s')
  {
    forall i | 0 <= i < |s'.hub.works| ensures FeedbackInv(s', s'.hub.works[i]) {
      var w' := s'.hub.works[i];
      if w'.status == [] {
        forall k: Key
          ensures Reports(HelmReleaseFeedback(w', k.ns, k.name).0, SnapAt(s'.snaps, Feed(w'.name, k)), false)
        {
          assert HelmReleaseFeedback(w', k.ns, k.name).0 == [];
          ReportsNothing(SnapAt(s'.snaps, Feed(w'.name, k)));
        }
      } else {
        assert StatusFrom(s.hub.works, w');
        var j :| 0 <= j < |s.hub.works| && s.hub.works[j].name == w'.name && s.hub.works[j].status == w'.status;
        SameFeedback(s, s', s.hub.works[j], w');
      }
    }
  }

  lemma SyncKeeps(inp: Inputs, s: System, i: nat, key: Key, status: seq<Condition>, values: seq<FeedbackValue>,
      applied: bool, s': System)
    requires StoreInv(s) && Step(inp, s, FeedbackSync(i, key, status, values, applied), s')
    ensures StoreInv(s')
  {
    var w := s.hub.works[i];
    var w' := w.(status := status);
    var o := Synced(s, w, key);
    forall f | f in s'.snaps ensures FluxContract(s'.snaps[f]) {
    }
    forall n | 0 <= n < |s'.hub.works| ensures FeedbackInv(s', s'.hub.works[n]) {
      var v, v' := s.hub.works[n], s'.hub.works[n];
      assert FeedbackInv(s, v);
      assert v.name == v'.name;
      forall k: Key
        ensures Reports(HelmReleaseFeedback(v', k.ns, k.name).0, SnapAt(s'.snaps, Feed(v'.name, k)), false)
      {
        if n == i && k == key {
          assert HelmReleaseFeedback(v', k.ns, k.name).0 == values;
          assert SnapAt(s'.snaps, Feed(v'.name, k)) == o;
        } else {
          assert Feed(v.name, k) != Feed(w.name, key);
          assert SnapAt(s'.snaps, Feed(v'.name, k)) == SnapAt(s.snaps, Feed(v.name, k));
          assert HelmReleaseFeedback(v', k.ns, k.name) == HelmReleaseFeedback(v, k.ns, k.name);
        }
      }
    }
  }

  lemma SpokeOnly(s: System, s': System)
    requires StoreInv(s) && s' == s.(spoke := s'.spoke)
    requires forall k | k in s'.spoke :: FluxContract(s'.spoke[k])
    ensures StoreInv(s')
  {
    forall i | 0 <= i < |s'.hub.works| ensures FeedbackInv(s', s'.hub.works[i]) {
      SameFeedback(s, s', s.hub.works[i], s'.hub.works[i]);
    }
  }

  /** Every step keeps the store invariant. */
  lemma StepKeepsStore(inp: Inputs, s: System, l: Label, s': System)
    requires StoreInv(s) && Step(inp, s, l, s')
    ensures StoreInv(s')
  {
    match l
    case Reconcile(c) =>
      ReconcileWorks(inp, s, c, s'.hub);
      if SameWorks(s.hub.works, s'.hub.works) { SameWorksKeep(s, s'); } else { EnabledKeep(s, s'); }
    case AgentApply(p) =>
      var m := ManifestAt(s.hub.works, p);
      AgentKeepsContract(Canon(m.body.spec), SpokeAt(s.spoke, KeyOf(m)));
      SpokeOnly(s, s');
    case AgentPrune(_) => SpokeOnly(s, s');
    case FluxReconcile(_, _) => SpokeOnly(s, s');
    case FeedbackSync(i, key, status, values, applied) => SyncKeeps(inp, s, i, key, status, values, applied, s');
    case StoreNulls(p, raw) => SameWorksKeep(s, s');
    case Tick(_) => SameWorksKeep(s, s');
  }
}
