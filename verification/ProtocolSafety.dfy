/**
 Safety of a recorded run, in every interleaving with agent, flux and feedback sync
 (pkg/cluster_upgrade/upgrader.go:94-130, pkg/cluster_upgrade/upgrader_helper.go:83-107).
*/
module ProtocolSafety {
  import opened Wrappers
  import opened JsonValue
  import opened Cluster
  import opened Render
  import opened Rewrite
  import opened Apply
  import opened ApplyEffect
  import opened ApplyFixpoint
  import opened ApplyOutcome
  import opened RunRecord
  import opened Pinning
  import opened Protocol
  import opened ProtocolStore
  import opened ProtocolRun

  // ---------- Releases of a system as links ----------

  ghost predicate IsReleaseAt(works: seq<Work>, p: Pos) {
    InBounds(works, p) && IsRelease(ManifestAt(works, p))
  }

  ghost predicate DistinctReleases(works: seq<Work>) {
    forall p: Pos, q: Pos {:trigger IsReleaseAt(works, p), IsReleaseAt(works, q)}
      | IsReleaseAt(works, p) && IsReleaseAt(works, q)
        && KeyOf(ManifestAt(works, p)) == KeyOf(ManifestAt(works, q)) :: p == q
  }

  ghost function FeedAt(works: seq<Work>, p: Pos): Feed
    requires InBounds(works, p) && Typed(ManifestAt(works, p))
  {
    Feed(works[p.work].name, KeyOf(ManifestAt(works, p)))
  }

  /** The stored feedback of this position passes for the generation awaited. */
  ghost predicate PassesAt(works: seq<Work>, p: Pos, min: int)
    requires InBounds(works, p) && Typed(ManifestAt(works, p))
  {
    var m := ManifestAt(works, p);
    HelmReleaseReady(works[p.work], Target(works[p.work].name, m.ns, m.name.value, min))
  }

  /** The link of one position when the hub wants `wanted` there. */
  ghost function LinkFor(s: System, p: Pos, wanted: Json, min: int): Link
    requires InBounds(s.hub.works, p) && Typed(ManifestAt(s.hub.works, p))
  {
    Link(wanted, min, SpokeAt(s.spoke, KeyOf(ManifestAt(s.hub.works, p))), SnapAt(s.snaps, FeedAt(s.hub.works, p)),
         PassesAt(s.hub.works, p, min))
  }

  ghost function LinkAt(s: System, p: Pos, min: int): Link
    requires InBounds(s.hub.works, p) && Typed(ManifestAt(s.hub.works, p))
  {
    LinkFor(s, p, Canon(ManifestAt(s.hub.works, p).body.spec), min)
  }

  /** The watched manifests are HelmReleases, each the only one for its object on the spoke. */
  ghost predicate Watchable(works: seq<Work>) {
    DistinctReleases(works) && forall p | p in Watched(works) :: IsReleaseAt(works, p)
  }

  /** Feedback that reports an object passes only if that object is acceptable. */
  lemma ReadyReports(w: Work, t: Target, o: Option<SpokeRelease>, complete: bool)
    requires Reports(HelmReleaseFeedback(w, t.ns, t.name).0, o, complete) && HelmReleaseReady(w, t)
    ensures AcceptsSome(o, t.minGeneration)
  {
    if o.Some? { ReportsIff(HelmReleaseFeedback(w, t.ns, t.name).0, o.value, complete); }
  }

  lemma LinksOk(s: System, p: Pos, min: int)
    requires StoreInv(s) && IsReleaseAt(s.hub.works, p)
    ensures LinkOk(LinkAt(s, p, min))
  {
    var w, m := s.hub.works[p.work], ManifestAt(s.hub.works, p);
    if PassesAt(s.hub.works, p, min) {
      assert FeedbackInv(s, w);
      var k := KeyOf(m);
      assert Reports(HelmReleaseFeedback(w, k.ns, k.name).0, SnapAt(s.snaps, Feed(w.name, k)), false);
      ReadyReports(w, Target(w.name, m.ns, m.name.value, min), SnapAt(s.snaps, FeedAt(s.hub.works, p)), false);
    }
  }

  // ---------- A step seen from one release ----------

  /** A link depends on the manifest up to its nulls, the object, its snapshot and the feedback as read. */
  lemma SameLink(s: System, s': System, p: Pos, min: int)
    requires IsReleaseAt(s.hub.works, p) && IsReleaseAt(s'.hub.works, p)
    requires FeedAt(s'.hub.works, p) == FeedAt(s.hub.works, p)
    requires Canon(ManifestAt(s'.hub.works, p).body.spec) == Canon(ManifestAt(s.hub.works, p).body.spec)
    requires var f := FeedAt(s.hub.works, p);
      && SpokeAt(s'.spoke, f.key) == SpokeAt(s.spoke, f.key) && SnapAt(s'.snaps, f) == SnapAt(s.snaps, f)
      && HelmReleaseFeedback(s'.hub.works[p.work], f.key.ns, f.key.name)
         == HelmReleaseFeedback(s.hub.works[p.work], f.key.ns, f.key.name)
    ensures LinkAt(s', p, min) == LinkAt(s, p, min)
  {
  }

  lemma AgentMoves(inp: Inputs, s: System, q: Pos, s': System, p: Pos, min: int)
    requires DistinctReleases(s.hub.works) && IsReleaseAt(s.hub.works, p)
    requires Step(inp, s, AgentApply(q), s')
    ensures p == q ==> LinkStep(LinkAt(s, p, min), Move.Agent, LinkAt(s', p, min))
    ensures p != q ==> LinkAt(s', p, min) == LinkAt(s, p, min)
  {
    if p != q {
      assert IsReleaseAt(s.hub.works, q);
    }
  }

  lemma SyncHere(inp: Inputs, s: System, p: Pos, status: seq<Condition>, values: seq<FeedbackValue>, applied: bool,
      s': System, min: int)
    requires IsReleaseAt(s.hub.works, p)
    requires Step(inp, s, FeedbackSync(p.work, KeyOf(ManifestAt(s.hub.works, p)), status, values, applied), s')
    ensures IsReleaseAt(s'.hub.works, p)
    ensures LinkStep(LinkAt(s, p, min), Sync(PassesAt(s'.hub.works, p, min)), LinkAt(s', p, min))
  {
    var w, m := s.hub.works[p.work], ManifestAt(s.hub.works, p);
    var w' := s'.hub.works[p.work];
    assert ManifestAt(s'.hub.works, p) == m && w' == w.(status := status);
    assert HasManifest(w, KeyOf(m)) by {
      assert IsRelease(w.manifests[p.manifest]);
    }
    var o := SpokeAt(s.spoke, KeyOf(m));
    assert Synced(s, w, KeyOf(m)) == o;
    if PassesAt(s'.hub.works, p, min) {
      ReadyReports(w', Target(w'.name, m.ns, m.name.value, min), o, CarriesRules(w.configs, m.ns, m.name.value));
    }
  }

  /** Feedback for another release, or of another work, does not reach this one. */
  lemma SyncElsewhere(inp: Inputs, s: System, i: nat, key: Key, status: seq<Condition>, values: seq<FeedbackValue>,
      applied: bool, s': System, p: Pos, min: int)
    requires DistinctNames(s.hub.works) && IsReleaseAt(s.hub.works, p)
    requires Step(inp, s, FeedbackSync(i, key, status, values, applied), s')
    requires i != p.work || key != KeyOf(ManifestAt(s.hub.works, p))
    ensures IsReleaseAt(s'.hub.works, p) && LinkAt(s', p, min) == LinkAt(s, p, min)
  {
    var w, m := s.hub.works[p.work], ManifestAt(s.hub.works, p);
    assert ManifestAt(s'.hub.works, p) == m;
    assert s'.hub.works[p.work].name == w.name;
    assert FeedAt(s.hub.works, p) != Feed(s.hub.works[i].name, key);
    SameLink(s, s', p, min);
  }

  lemma NullsAt(works: seq<Work>, q: Pos, raw: Option<Json>, p: Pos)
    requires InBounds(works, q) && Typed(ManifestAt(works, q)) && IsReleaseAt(works, p)
    requires SameModuloNulls(ManifestAt(works, q).body.spec, ManifestAt(works, q).body.spec.(values := raw))
    ensures var m := ManifestAt(works, q);
      var works' := PutManifest(works, q, WithSpec(m, m.body.spec.(values := raw)));
      && IsReleaseAt(works', p) && FeedAt(works', p) == FeedAt(works, p)
      && works'[p.work].status == works[p.work].status
      && Canon(ManifestAt(works', p).body.spec) == Canon(ManifestAt(works, p).body.spec)
  {
    var m := ManifestAt(works, q);
    var works' := PutManifest(works, q, WithSpec(m, m.body.spec.(values := raw)));
    if p == q {
      NullsDoNotCount(m.body.spec, m.body.spec.(values := raw));
      assert ManifestAt(works', p) == WithSpec(m, m.body.spec.(values := raw));
    } else {
      assert ManifestAt(works', p) == ManifestAt(works, p);
    }
  }

  lemma NullsMove(inp: Inputs, s: System, q: Pos, raw: Option<Json>, s': System, p: Pos, min: int)
    requires IsReleaseAt(s.hub.works, p) && Step(inp, s, StoreNulls(q, raw), s')
    ensures IsReleaseAt(s'.hub.works, p) && LinkAt(s', p, min) == LinkAt(s, p, min)
  {
    NullsAt(s.hub.works, q, raw, p);
    SameLink(s, s', p, min);
  }

  lemma FluxMoves(inp: Inputs, s: System, key: Key, o: SpokeRelease, s': System, p: Pos, min: int)
    requires IsReleaseAt(s.hub.works, p) && Step(inp, s, FluxReconcile(key, o), s')
    ensures LinkAt(s', p, min) == LinkAt(s, p, min) || LinkStep(LinkAt(s, p, min), Flux(o), LinkAt(s', p, min))
  {
  }

  lemma PruneMoves(inp: Inputs, s: System, key: Key, s': System, p: Pos, min: int)
    requires IsReleaseAt(s.hub.works, p) && Step(inp, s, AgentPrune(key), s')
    ensures LinkAt(s', p, min) == LinkAt(s, p, min)
  {
    assert HasManifest(s.hub.works[p.work], KeyOf(ManifestAt(s.hub.works, p)));
  }

  ghost predicate Moved(l: Link, l': Link) {
    l' == l || exists m :: LinkStep(l, m, l')
  }

  /** While no work is rewritten, a step is a move of this release's link, or nothing to it. */
  lemma StepMoves(inp: Inputs, s: System, l: Label, s': System, p: Pos, min: int)
    requires StoreInv(s) && DistinctReleases(s.hub.works) && IsReleaseAt(s.hub.works, p)
    requires Step(inp, s, l, s') && (l.Reconcile? ==> s'.hub.works == s.hub.works)
    ensures IsReleaseAt(s'.hub.works, p)
    ensures Moved(LinkAt(s, p, min), LinkAt(s', p, min))
  {
    match l
    case Reconcile(_) =>
    case AgentApply(q) => AgentMoves(inp, s, q, s', p, min);
    case AgentPrune(key) => PruneMoves(inp, s, key, s', p, min);
    case FluxReconcile(key, o) => FluxMoves(inp, s, key, o, s', p, min);
    case FeedbackSync(i, key, status, values, applied) =>
      if i == p.work && key == KeyOf(ManifestAt(s.hub.works, p)) {
        SyncHere(inp, s, p, status, values, applied, s', min);
      } else {
        SyncElsewhere(inp, s, i, key, status, values, applied, s', p, min);
      }
    case StoreNulls(q, raw) => NullsMove(inp, s, q, raw, s', p, min);
    case Tick(_) =>
  }

  // ---------- The guard ----------

  /** How much is known when a run is recorded: the exact guard, or feedback in sync. */
  datatype Guard = Exact | InStep

  ghost predicate Kept(g: Guard, l: Link) {
    match g
    case Exact => Pinned(l)
    case InStep => Tracks(l)
  }

  lemma KeptByMove(g: Guard, l: Link, l': Link)
    requires LinkOk(l) && Kept(g, l) && Moved(l, l')
    ensures Kept(g, l')
  {
    if l' != l {
      var m :| LinkStep(l, m, l');
      if g.Exact? { PinnedStep(l, m, l'); } else { TracksStep(l, m, l'); }
    }
  }

  /** The position can be rendered, so that an apply gives it a target. */
  ghost predicate RendersAt(inp: Inputs, works: seq<Work>, p: Pos) {
    inp.coreValues.Prepared? && IsReleaseAt(works, p) && Rendered(inp, works, p).Ok?
  }

  /** The link of a position as the apply of this state is about to record its run. */
  ghost function LinkBefore(inp: Inputs, s: System, p: Pos): Link
    requires RendersAt(inp, s.hub.works, p)
  {
    LinkFor(s, p, Canon(Rendered(inp, s.hub.works, p).value), TargetAt(inp, s.hub.works, p).minGeneration)
  }

  /** The stored feedback of this position describes the spoke object, and that carries the stored spec. */
  ghost predicate InSyncAt(s: System, p: Pos)
    requires InBounds(s.hub.works, p) && Typed(ManifestAt(s.hub.works, p))
  {
    var m := ManifestAt(s.hub.works, p);
    InSync(Canon(m.body.spec), HelmReleaseGeneration(s.hub.works[p.work], m.ns, m.name.value),
           SpokeAt(s.spoke, KeyOf(m)), SnapAt(s.snaps, FeedAt(s.hub.works, p)))
  }

  /** The guard before an apply. */
  ghost predicate GuardedAt(g: Guard, inp: Inputs, s: System, p: Pos) {
    && RendersAt(inp, s.hub.works, p)
    && match g
       case Exact => Pinned(LinkBefore(inp, s, p))
       case InStep => InSyncAt(s, p)
  }

  ghost predicate GuardedStart(g: Guard, inp: Inputs, s: System) {
    Watchable(s.hub.works) && forall p | p in Watched(s.hub.works) :: GuardedAt(g, inp, s, p)
  }

  /** The link of target `k` of the pending run. */
  ghost predicate LinkedTarget(inp: Inputs, s: System, k: nat) {
    && Pending(inp, s) && k < |Awaited(inp, s)| == |Watched(s.hub.works)|
    && IsReleaseAt(s.hub.works, Watched(s.hub.works)[k])
  }

  ghost function TargetLink(inp: Inputs, s: System, k: nat): Link
    requires LinkedTarget(inp, s, k)
  {
    LinkAt(s, Watched(s.hub.works)[k], Awaited(inp, s)[k].minGeneration)
  }

  ghost predicate GuardsTarget(g: Guard, inp: Inputs, s: System, k: nat) {
    LinkedTarget(inp, s, k) && Kept(g, TargetLink(inp, s, k))
  }

  /** Every target of the pending run is told apart from what was there before. */
  ghost predicate GuardInv(g: Guard, inp: Inputs, s: System) {
    Pending(inp, s) ==>
      Watchable(s.hub.works) && forall k | 0 <= k < |Awaited(inp, s)| :: GuardsTarget(g, inp, s, k)
  }

  // ---------- The guard over a run ----------

  /** In a pending run only the observing reconcile touches the hub, and it leaves the works alone. */
  lemma NoOtherWriter(inp: Inputs, s: System, c: Choice, hub': Hub)
    requires RunInv(inp, s) && ReconcileStep(inp, s, c, hub') && Pending(inp, s)
    ensures hub'.works == s.hub.works
    ensures FindPending(inp.binding, hub'.configMaps).Nothing?
            || (FindPending(inp.binding, hub'.configMaps).Run?
                && FindPending(inp.binding, hub'.configMaps).targets == Awaited(inp, s))
  {
    var r := FindPending(inp.binding, s.hub.configMaps);
    if inp.profileValid {
      ObserveRecord(inp.binding, s.hub, r.cm, r.targets, c.readable, s.now, c.stop);
      ObserveApart(s.hub, r.cm, r.targets, c.readable, s.now, c.stop);
      StatusApart(inp.binding, ObserveUpgrade(s.hub, r.cm, r.targets, c.readable, s.now).trace[c.stop], c);
    }
  }

  lemma ShapeWatchable(works: seq<Work>, works': seq<Work>)
    requires SameShape(works, works') && Watchable(works)
    ensures Watchable(works')
  {
    SameWatched(works, works');
    forall p: Pos
      ensures IsReleaseAt(works', p) <==> IsReleaseAt(works, p)
      ensures IsReleaseAt(works, p) ==> KeyOf(ManifestAt(works', p)) == KeyOf(ManifestAt(works, p))
    {
      if InBounds(works, p) {
        assert SameManifests(works[p.work].manifests, works'[p.work].manifests);
        assert SameManifest(ManifestAt(works, p), ManifestAt(works', p));
      }
    }
  }

  lemma NullsWatchable(works: seq<Work>, q: Pos, raw: Option<Json>)
    requires InBounds(works, q) && Typed(ManifestAt(works, q))
    ensures var m := ManifestAt(works, q);
      var works' := PutManifest(works, q, WithSpec(m, m.body.spec.(values := raw)));
      Watched(works') == Watched(works) && (Watchable(works) ==> Watchable(works'))
  {
    SameWatchedAfterNulls(works, q, raw);
    var m := ManifestAt(works, q);
    if Watchable(works) {
      ShapeWatchable(works, PutManifest(works, q, WithSpec(m, m.body.spec.(values := raw))));
    }
  }

  lemma StatusWatchable(works: seq<Work>, i: nat, status: seq<Condition>)
    requires i < |works|
    ensures var works' := works[i := works[i].(status := status)];
      Watched(works') == Watched(works) && (Watchable(works) ==> Watchable(works'))
  {
    SameWatchedStatus(works, i, status);
    var works' := works[i := works[i].(status := status)];
    forall p: Pos ensures IsReleaseAt(works', p) <==> IsReleaseAt(works, p) {
    }
  }

  lemma WatchedAfterStep(inp: Inputs, s: System, l: Label, s': System)
    requires Step(inp, s, l, s') && (l.Reconcile? ==> s'.hub.works == s.hub.works)
    ensures Watched(s'.hub.works) == Watched(s.hub.works)
    ensures Watchable(s.hub.works) ==> Watchable(s'.hub.works)
  {
    match l
    case FeedbackSync(i, _, status, _, _) => StatusWatchable(s.hub.works, i, status);
    case StoreNulls(q, raw) => NullsWatchable(s.hub.works, q, raw);
    case _ => assert s'.hub.works == s.hub.works;
  }

  /** A step of a pending run keeps its targets and what they stand for. */
  lemma PendingStep(inp: Inputs, s: System, l: Label, s': System)
    requires RunInv(inp, s) && Step(inp, s, l, s') && Pending(inp, s)
    ensures Pending(inp, s') ==> Awaited(inp, s') == Awaited(inp, s)
    ensures l.Reconcile? ==> s'.hub.works == s.hub.works
    ensures Watched(s'.hub.works) == Watched(s.hub.works)
    ensures Watchable(s.hub.works) ==> Watchable(s'.hub.works)
  {
    if l.Reconcile? {
      NoOtherWriter(inp, s, l.c, s'.hub);
    }
    WatchedAfterStep(inp, s, l, s');
  }

  lemma TargetMoves(inp: Inputs, s: System, l: Label, s': System, k: nat)
    requires StoreInv(s) && RunInv(inp, s) && Step(inp, s, l, s') && Pending(inp, s) && Pending(inp, s')
    requires Watchable(s.hub.works) && k < |Awaited(inp, s)|
    ensures LinkedTarget(inp, s, k) && LinkedTarget(inp, s', k) && Awaited(inp, s') == Awaited(inp, s)
    ensures LinkOk(TargetLink(inp, s, k)) && Moved(TargetLink(inp, s, k), TargetLink(inp, s', k))
  {
    var p, min := Watched(s.hub.works)[k], Awaited(inp, s)[k].minGeneration;
    assert p in Watched(s.hub.works);
    PendingStep(inp, s, l, s');
    StepMoves(inp, s, l, s', p, min);
    LinksOk(s, p, min);
  }

  lemma PendingKeepsGuard(g: Guard, inp: Inputs, s: System, l: Label, s': System)
    requires StoreInv(s) && RunInv(inp, s) && GuardInv(g, inp, s) && Step(inp, s, l, s') && Pending(inp, s)
    ensures GuardInv(g, inp, s')
  {
    PendingStep(inp, s, l, s');
    if Pending(inp, s') {
      forall k | 0 <= k < |Awaited(inp, s)| ensures GuardsTarget(g, inp, s', k) {
        assert GuardsTarget(g, inp, s, k);
        TargetMoves(inp, s, l, s', k);
        KeptByMove(g, TargetLink(inp, s, k), TargetLink(inp, s', k));
      }
    }
  }

  /** Recording a run turns what was known of a position into the link of its target. */
  lemma RecordedLink(inp: Inputs, s: System, ts: seq<Target>, hub': Hub, k: nat)
    requires inp.coreValues.Prepared? && k < |ts| && Yields(inp, s.hub.works, Watched(s.hub.works), ts)
    requires hub'.works == AllUpgraded(inp, s.hub.works) && IsReleaseAt(s.hub.works, Watched(s.hub.works)[k])
    ensures var p := Watched(s.hub.works)[k];
      && RendersAt(inp, s.hub.works, p) && IsReleaseAt(hub'.works, p)
      && LinkAt(s.(hub := hub'), p, ts[k].minGeneration) == LinkBefore(inp, s, p)
  {
    var p := Watched(s.hub.works)[k];
    var m := ManifestAt(s.hub.works, p);
    assert p in Watched(s.hub.works);
    assert YieldsOne(inp, s.hub.works, p, ts[k]);
    UpgradedAt(inp, s.hub.works, ts, p);
    AllShape(inp, s.hub.works);
    var w, w' := s.hub.works[p.work], hub'.works[p.work];
    assert w'.name == w.name && w'.status == w.status;
    assert HelmReleaseFeedback(w', m.ns, m.name.value) == HelmReleaseFeedback(w, m.ns, m.name.value);
  }

  lemma RecordStartsGuard(g: Guard, inp: Inputs, s: System, ts: seq<Target>, hub': Hub, k: nat)
    requires inp.coreValues.Prepared? && GuardedStart(g, inp, s)
    requires Yields(inp, s.hub.works, Watched(s.hub.works), ts) && k < |ts|
    requires hub'.works == AllUpgraded(inp, s.hub.works)
    ensures var p := Watched(s.hub.works)[k];
      && IsReleaseAt(hub'.works, p)
      && Kept(g, LinkAt(s.(hub := hub'), p, ts[k].minGeneration))
  {
    var p := Watched(s.hub.works)[k];
    assert p in Watched(s.hub.works);
    assert GuardedAt(g, inp, s, p);
    RecordedLink(inp, s, ts, hub', k);
    if g.InStep? {
      var m := ManifestAt(s.hub.works, p);
      InSyncTracks(Canon(m.body.spec), HelmReleaseGeneration(s.hub.works[p.work], m.ns, m.name.value),
            LinkBefore(inp, s, p));
    }
  }

  /** The state an apply with targets leaves: everything watched is upgraded, and the run is on record. */
  ghost predicate Recording(inp: Inputs, s: System, s': System, ts: seq<Target>) {
    && inp.coreValues.Prepared? && s' == s.(hub := s'.hub) && s'.hub.status == s.hub.status
    && s'.hub.works == AllUpgraded(inp, s.hub.works)
    && FindPending(inp.binding, s'.hub.configMaps).Run? && Awaited(inp, s') == ts
    && Yields(inp, s.hub.works, Watched(s.hub.works), ts)
  }

  lemma RecordFound(inp: Inputs, works: seq<Work>, now: int, cms: seq<ConfigMap>)
    requires |cms| == 1 && RecordOf(inp, works, now, Waits, cms[0])
    requires StillPending(cms[0].data) || FindPending(inp.binding, cms).Run?
    ensures FindPending(inp.binding, cms) == Run(cms[0], cms[0].targets.value.targets)
  {
    assert cms == [cms[0]];
    FindOne(inp.binding, cms[0]);
  }

  lemma ApplyRecords(inp: Inputs, s: System, name: string) returns (s': System, ts: seq<Target>)
    requires DistinctNames(s.hub.works) && ApplyUpgrade(inp, s.hub, name, s.now).end.Waits?
    requires StatusFree(s.hub.works)
            || FindPending(inp.binding, Last(ApplyUpgrade(inp, s.hub, name, s.now).trace).configMaps).Run?
    ensures s' == s.(hub := Last(ApplyUpgrade(inp, s.hub, name, s.now).trace)) && Recording(inp, s, s', ts)
  {
    ApplyCompletes(inp, s.hub, name, s.now);
    var h := Last(ApplyUpgrade(inp, s.hub, name, s.now).trace);
    if StatusFree(s.hub.works) { RecordIsPending(inp, s.hub, name, s.now); }
    RecordFound(inp, s.hub.works, s.now, h.configMaps);
    s', ts := s.(hub := h), h.configMaps[0].targets.value.targets;
  }

  lemma RecordingWatched(inp: Inputs, s: System, s': System, ts: seq<Target>)
    requires Recording(inp, s, s', ts)
    ensures Watched(s'.hub.works) == Watched(s.hub.works) && (Watchable(s.hub.works) ==> Watchable(s'.hub.works))
  {
    AllShape(inp, s.hub.works);
    SameWatched(s.hub.works, s'.hub.works);
    if Watchable(s.hub.works) { ShapeWatchable(s.hub.works, s'.hub.works); }
  }

  lemma RecordingKeepsGuard(g: Guard, inp: Inputs, s: System, s': System, ts: seq<Target>)
    requires GuardedStart(g, inp, s) && Recording(inp, s, s', ts)
    ensures GuardInv(g, inp, s')
  {
    RecordingWatched(inp, s, s', ts);
    forall k | 0 <= k < |ts| ensures GuardsTarget(g, inp, s', k) {
      RecordStartsGuard(g, inp, s, ts, s'.hub, k);
    }
  }

  /** A run appears on record only through the last write of an apply. */
  lemma OnlyApplyRecords(inp: Inputs, s: System, l: Label, s': System)
    requires StoreInv(s) && Step(inp, s, l, s')
    requires FindPending(inp.binding, s.hub.configMaps).Nothing? && Pending(inp, s')
    ensures l.Reconcile? && NeedsUpgrade(inp.binding, s.hub.status)
    ensures var o := ApplyUpgrade(inp, s.hub, l.c.cmName, s.now);
      o.end.Waits? && s' == s.(hub := Last(o.trace))
  {
    if l.Reconcile? && inp.profileValid && NeedsUpgrade(inp.binding, s.hub.status) {
      var o := ApplyUpgrade(inp, s.hub, l.c.cmName, s.now);
      ApplyKeepsRun(inp, s, l.c.cmName, l.c.stop);
      StatusApart(inp.binding, o.trace[l.c.stop], l.c);
    }
  }

  lemma StepKeepsGuard(g: Guard, inp: Inputs, s: System, l: Label, s': System)
    requires StoreInv(s) && RunInv(inp, s) && GuardInv(g, inp, s) && Step(inp, s, l, s')
    requires FindPending(inp.binding, s.hub.configMaps).Nothing? && Pending(inp, s')
             ==> GuardedStart(g, inp, s)
    ensures GuardInv(g, inp, s')
  {
    if Pending(inp, s) {
      PendingKeepsGuard(g, inp, s, l, s');
    } else if Pending(inp, s') {
      OnlyApplyRecords(inp, s, l, s');
      var s1, ts := ApplyRecords(inp, s, l.c.cmName);
      RecordingKeepsGuard(g, inp, s, s', ts);
    }
  }

  /** A history in which every recorded apply started from a guarded state. */
  ghost predicate GuardedRun(g: Guard, inp: Inputs, ss: seq<System>, ls: seq<Label>) {
    && IsRun(inp, ss, ls)
    && forall i | 0 <= i < |ls|
         && FindPending(inp.binding, ss[i].hub.configMaps).Nothing?
         && Pending(inp, ss[i + 1]) :: GuardedStart(g, inp, ss[i])
  }

  lemma {:induction false} GuardHolds(g: Guard, inp: Inputs, ss: seq<System>, ls: seq<Label>, n: nat)
    requires GuardedRun(g, inp, ss, ls) && n < |ss|
    ensures StoreInv(ss[n]) && RunInv(inp, ss[n]) && GuardInv(g, inp, ss[n])
  {
    if n > 0 {
      GuardHolds(g, inp, ss, ls, n - 1);
      assert StepAt(inp, ss, ls, n - 1);
      StepKeepsStore(inp, ss[n - 1], ls[n - 1], ss[n]);
      StepKeepsRun(inp, ss[n - 1], ls[n - 1], ss[n]);
      StepKeepsGuard(g, inp, ss[n - 1], ls[n - 1], ss[n]);
    }
  }

  // ---------- What a ready target means ----------

  /** What `evaluateTargets` reads: the target's work exists and reports it ready. */
  ghost predicate PassesTarget(s: System, t: Target) {
    FindWork(s.hub.works, t.work).Some? && HelmReleaseReady(s.hub.works[FindWork(s.hub.works, t.work).value], t)
  }

  lemma WorkOf(inp: Inputs, works: seq<Work>, p: Pos, t: Target)
    requires DistinctNames(works) && Served(inp, works, p, t)
    ensures FindWork(works, t.work) == Some(p.work)
  {
    var r := FindWork(works, t.work).value;
    assert works[r].name == works[p.work].name;
    assert !(r < p.work) && !(p.work < r);
  }

  /** Of a pending run, a target passes exactly when its link does. */
  lemma PassesLink(inp: Inputs, s: System, k: nat)
    requires StoreInv(s) && RunInv(inp, s) && LinkedTarget(inp, s, k)
    ensures PassesTarget(s, Awaited(inp, s)[k]) <==> TargetLink(inp, s, k).passes
  {
    var p, t := Watched(s.hub.works)[k], Awaited(inp, s)[k];
    assert Served(inp, s.hub.works, p, t);
    WorkOf(inp, s.hub.works, p, t);
  }

  /** The object the feedback was read from carried the rendered spec, and flux had released just that. */
  ghost predicate ReleasedAsRendered(inp: Inputs, s: System, p: Pos) {
    && inp.coreValues.Prepared? && InBounds(s.hub.works, p) && Typed(ManifestAt(s.hub.works, p))
    && Rendered(inp, s.hub.works, p).Ok?
    && var wanted := Canon(Rendered(inp, s.hub.works, p).value);
       var f := FeedAt(s.hub.works, p);
       && f in s.snaps && s.snaps[f].spec == wanted
       && s.snaps[f].released == Some(Installed(s.snaps[f].generation, wanted))
  }

  /** An honest link that passes is released as rendered, and the other way round. */
  lemma HonestReleased(inp: Inputs, s: System, k: nat)
    requires StoreInv(s) && RunInv(inp, s) && LinkedTarget(inp, s, k) && TargetLink(inp, s, k).passes
    ensures Honest(TargetLink(inp, s, k)) <==> ReleasedAsRendered(inp, s, Watched(s.hub.works)[k])
  {
    var p, t := Watched(s.hub.works)[k], Awaited(inp, s)[k];
    assert Served(inp, s.hub.works, p, t);
    LinksOk(s, p, t.minGeneration);
  }

  /** Safety: a target that passes `helmReleaseReady` is released from the spec this run wrote, never an older one. */
  lemma ReadyMeansReleased(g: Guard, inp: Inputs, s: System, k: nat)
    requires StoreInv(s) && RunInv(inp, s) && GuardInv(g, inp, s) && Pending(inp, s)
    requires k < |Awaited(inp, s)| && PassesTarget(s, Awaited(inp, s)[k])
    ensures k < |Watched(s.hub.works)| && ReleasedAsRendered(inp, s, Watched(s.hub.works)[k])
  {
    assert GuardsTarget(g, inp, s, k);
    PassesLink(inp, s, k);
    var l := TargetLink(inp, s, k);
    LinksOk(s, Watched(s.hub.works)[k], Awaited(inp, s)[k].minGeneration);
    if g.InStep? { TracksPins(l); }
    assert Honest(l);
    HonestReleased(inp, s, k);
  }

  /** The safety theorem over whole histories. */
  lemma SafeHistory(g: Guard, inp: Inputs, ss: seq<System>, ls: seq<Label>, n: nat, k: nat)
    requires GuardedRun(g, inp, ss, ls) && n < |ss| && Pending(inp, ss[n])
    requires k < |Awaited(inp, ss[n])| && PassesTarget(ss[n], Awaited(inp, ss[n])[k])
    ensures k < |Watched(ss[n].hub.works)| && ReleasedAsRendered(inp, ss[n], Watched(ss[n].hub.works)[k])
  {
    GuardHolds(g, inp, ss, ls, n);
    ReadyMeansReleased(g, inp, ss[n], k);
  }
}
