/**
 Exactly when the readiness test of a run can be trusted, and the histories in which it cannot
 (newUpgradeTarget in pkg/cluster_upgrade/upgrader.go, helmReleaseReady in pkg/cluster_upgrade/upgrader_helper.go).
*/
module ProtocolExact {
  import opened Wrappers
  import opened Cluster
  import opened Render
  import opened Rewrite
  import opened Pinning
  import opened Protocol
  import opened ProtocolRun
  import opened ProtocolSafety

  /** The readiness test passes for target `k`, and what is released is not what this run rendered. */
  ghost predicate AcceptsOld(inp: Inputs, s: System, k: nat) {
    && LinkedTarget(inp, s, k) && PassesTarget(s, Awaited(inp, s)[k])
    && !ReleasedAsRendered(inp, s, Watched(s.hub.works)[k])
  }

  /** From this state on, as long as the run is pending, target `k` passes only when it is released as rendered. */
  ghost predicate SafeFrom(inp: Inputs, s: System, k: nat) {
    forall ss: seq<System>, ls: seq<Label> | IsPath(inp, ss, ls) && ss[0] == s && PendingFrom(inp, ss, 0, |ss|) ::
      !AcceptsOld(inp, ss[|ss| - 1], k)
  }

  // ---------- The guard suffices ----------

  /** The run is pending on this list, at positions that are watchable. */
  ghost predicate WatchesList(inp: Inputs, s: System, ts: seq<Target>) {
    Pending(inp, s) && Awaited(inp, s) == ts && Watchable(s.hub.works)
  }

  lemma WatchesNext(inp: Inputs, s: System, l: Label, s': System, ts: seq<Target>)
    requires RunInv(inp, s) && Step(inp, s, l, s') && WatchesList(inp, s, ts) && Pending(inp, s')
    ensures WatchesList(inp, s', ts)
  {
    PendingStep(inp, s, l, s');
  }

  lemma WatchesAt(inp: Inputs, ss: seq<System>, ls: seq<Label>, n: nat, ts: seq<Target>)
    requires IsPath(inp, ss, ls) && n < |ls| && WatchesList(inp, ss[n], ts) && Pending(inp, ss[n + 1])
    requires StoreInv(ss[0]) && RunInv(inp, ss[0])
    ensures WatchesList(inp, ss[n + 1], ts)
  {
    PathKeepsRun(inp, ss, ls, n);
    assert StepAt(inp, ss, ls, n);
    WatchesNext(inp, ss[n], ls[n], ss[n + 1], ts);
  }

  /** While the run is pending, its positions stay watchable and its list as it is. */
  lemma {:induction false} WatchesAlong(inp: Inputs, ss: seq<System>, ls: seq<Label>, n: nat, ts: seq<Target>)
    requires IsPath(inp, ss, ls) && n < |ss| && PendingFrom(inp, ss, 0, |ss|)
    requires StoreInv(ss[0]) && RunInv(inp, ss[0]) && WatchesList(inp, ss[0], ts)
    ensures WatchesList(inp, ss[n], ts)
  {
    if n > 0 {
      WatchesAlong(inp, ss, ls, n - 1, ts);
      assert Pending(inp, ss[n]);
      WatchesAt(inp, ss, ls, n - 1, ts);
    }
  }

  /** Step `n` of the path is a move of the link of target `k`, or nothing to it. */
  ghost predicate MovesAt(inp: Inputs, ss: seq<System>, k: nat, n: nat)
    requires n + 1 < |ss|
  {
    && LinkedTarget(inp, ss[n], k) && LinkedTarget(inp, ss[n + 1], k)
    && LinkOk(TargetLink(inp, ss[n], k)) && Moved(TargetLink(inp, ss[n], k), TargetLink(inp, ss[n + 1], k))
  }

  lemma PathMoves(inp: Inputs, ss: seq<System>, ls: seq<Label>, k: nat)
    requires IsPath(inp, ss, ls) && PendingFrom(inp, ss, 0, |ss|)
    requires StoreInv(ss[0]) && RunInv(inp, ss[0]) && Watchable(ss[0].hub.works) && k < |Awaited(inp, ss[0])|
    ensures forall n | 0 <= n < |ls| :: MovesAt(inp, ss, k, n)
  {
    forall n | 0 <= n < |ls| ensures MovesAt(inp, ss, k, n) {
      PathKeepsRun(inp, ss, ls, n);
      WatchesAlong(inp, ss, ls, n, Awaited(inp, ss[0]));
      assert StepAt(inp, ss, ls, n) && Pending(inp, ss[n + 1]);
      TargetMoves(inp, ss[n], ls[n], ss[n + 1], k);
    }
  }

  /** A fact about links that no move ends. */
  ghost predicate Lasting(fact: Link -> bool) {
    forall l, l' | LinkOk(l) && fact(l) && Moved(l, l') :: fact(l')
  }

  ghost predicate FactAt(fact: Link -> bool, inp: Inputs, s: System, k: nat) {
    LinkedTarget(inp, s, k) && fact(TargetLink(inp, s, k))
  }

  ghost predicate PassedOn(fact: Link -> bool, inp: Inputs, ss: seq<System>, k: nat, n: nat)
    requires n + 1 < |ss|
  {
    FactAt(fact, inp, ss[n], k) ==> FactAt(fact, inp, ss[n + 1], k)
  }

  lemma FactPassedOn(fact: Link -> bool, inp: Inputs, ss: seq<System>, k: nat, n: nat)
    requires Lasting(fact) && n + 1 < |ss| && MovesAt(inp, ss, k, n)
    ensures PassedOn(fact, inp, ss, k, n)
  {
  }

  lemma {:induction false} FactAlong(fact: Link -> bool, inp: Inputs, ss: seq<System>, k: nat, n: nat)
    requires n < |ss| && FactAt(fact, inp, ss[0], k)
    requires forall i | 0 <= i < |ss| - 1 :: PassedOn(fact, inp, ss, k, i)
    ensures FactAt(fact, inp, ss[n], k)
  {
    if n > 0 {
      FactAlong(fact, inp, ss, k, n - 1);
      assert PassedOn(fact, inp, ss, k, n - 1);
    }
  }

  /** What lasts of a link holds of its target at every point of the path. */
  lemma PathKeepsFact(fact: Link -> bool, inp: Inputs, ss: seq<System>, ls: seq<Label>, k: nat)
    requires IsPath(inp, ss, ls) && PendingFrom(inp, ss, 0, |ss|)
    requires StoreInv(ss[0]) && RunInv(inp, ss[0]) && Watchable(ss[0].hub.works)
    requires Lasting(fact) && FactAt(fact, inp, ss[0], k)
    ensures FactAt(fact, inp, ss[|ls|], k) && StoreInv(ss[|ls|]) && RunInv(inp, ss[|ls|])
  {
    PathMoves(inp, ss, ls, k);
    forall i | 0 <= i < |ls| ensures PassedOn(fact, inp, ss, k, i) {
      FactPassedOn(fact, inp, ss, k, i);
    }
    FactAlong(fact, inp, ss, k, |ls|);
    PathKeepsRun(inp, ss, ls, |ls|);
  }

  lemma PinnedLasts()
    ensures Lasting(l => Pinned(l))
  {
    forall l, l' | LinkOk(l) && Pinned(l) && Moved(l, l') ensures Pinned(l') {
      KeptByMove(Exact, l, l');
    }
  }

  lemma PinnedAccepts(inp: Inputs, s: System, k: nat)
    requires StoreInv(s) && RunInv(inp, s) && LinkedTarget(inp, s, k) && Pinned(TargetLink(inp, s, k))
    ensures !AcceptsOld(inp, s, k)
  {
    PassesLink(inp, s, k);
    LinksOk(s, Watched(s.hub.works)[k], Awaited(inp, s)[k].minGeneration);
    if TargetLink(inp, s, k).passes { HonestReleased(inp, s, k); }
  }

  // ---------- Flux and feedback finish one release ----------

  function PassingValues(o: SpokeRelease): seq<FeedbackValue> {
    [FeedbackValue(READY, None, Some(TRUE)),
     FeedbackValue(GENERATION, Some(o.generation), None),
     FeedbackValue(OBSERVED_GENERATION, Some(o.generation), None)]
  }

  lemma PassingReads(o: SpokeRelease)
    ensures var v := PassingValues(o);
      && FeedbackString(v, READY) == Some(TRUE) && FeedbackInt(v, GENERATION) == Some(o.generation)
      && FeedbackInt(v, OBSERVED_GENERATION) == Some(o.generation)
  {
    var v := PassingValues(o);
    assert FeedbackInt(v, GENERATION) == FeedbackInt(v[1..], GENERATION) == Some(o.generation);
    assert v[1..][1..] == v[2..];
    assert FeedbackInt(v, OBSERVED_GENERATION) == FeedbackInt(v[1..], OBSERVED_GENERATION)
        == FeedbackInt(v[2..], OBSERVED_GENERATION) == Some(o.generation);
  }

  function PassingStatus(w: Work, key: Key, o: SpokeRelease): seq<Condition> {
    [Condition(HELM_RELEASE, key.ns, key.name, true, PassingValues(o))] + w.status
  }

  lemma PrependCondition(w: Work, key: Key, o: SpokeRelease)
    ensures StatusUpdated(w, PassingStatus(w, key, o), key, PassingValues(o), true)
  {
    var c := Condition(HELM_RELEASE, key.ns, key.name, true, PassingValues(o));
    assert ([c] + w.status)[1..] == w.status;
  }

  /** The state after flux has settled the object of a position. */
  ghost function AfterFlux(s: System, p: Pos): System
    requires IsReleaseAt(s.hub.works, p) && KeyOf(ManifestAt(s.hub.works, p)) in s.spoke
  {
    var key := KeyOf(ManifestAt(s.hub.works, p));
    s.(spoke := s.spoke[key := Settle(s.spoke[key])])
  }

  /** The state after the feedback of a settled object has been synced. */
  ghost function AfterSync(s: System, p: Pos): System
    requires IsReleaseAt(s.hub.works, p) && KeyOf(ManifestAt(s.hub.works, p)) in s.spoke
  {
    var key, w := KeyOf(ManifestAt(s.hub.works, p)), s.hub.works[p.work];
    s.(hub := s.hub.(works := s.hub.works[p.work := w.(status := PassingStatus(w, key, s.spoke[key]))]),
       snaps := s.snaps[Feed(w.name, key) := s.spoke[key]])
  }

  ghost function SyncLabel(s: System, p: Pos): Label
    requires IsReleaseAt(s.hub.works, p) && KeyOf(ManifestAt(s.hub.works, p)) in s.spoke
  {
    var key, w := KeyOf(ManifestAt(s.hub.works, p)), s.hub.works[p.work];
    FeedbackSync(p.work, key, PassingStatus(w, key, s.spoke[key]), PassingValues(s.spoke[key]), true)
  }

  lemma SettleStep(inp: Inputs, s: System, p: Pos)
    requires IsReleaseAt(s.hub.works, p) && KeyOf(ManifestAt(s.hub.works, p)) in s.spoke
    requires FluxContract(s.spoke[KeyOf(ManifestAt(s.hub.works, p))])
    ensures var key := KeyOf(ManifestAt(s.hub.works, p));
      Step(inp, s, FluxReconcile(key, Settle(s.spoke[key])), AfterFlux(s, p))
  {
  }

  lemma SyncStep(inp: Inputs, s: System, p: Pos)
    requires IsReleaseAt(s.hub.works, p) && KeyOf(ManifestAt(s.hub.works, p)) in s.spoke
    requires var o := s.spoke[KeyOf(ManifestAt(s.hub.works, p))]; o == Settle(o)
    ensures Step(inp, s, SyncLabel(s, p), AfterSync(s, p))
  {
    var key, w := KeyOf(ManifestAt(s.hub.works, p)), s.hub.works[p.work];
    var o := s.spoke[key];
    assert HasManifest(w, key) by {
      assert IsRelease(w.manifests[p.manifest]);
    }
    PassingReads(o);
    PrependCondition(w, key, o);
    assert Synced(s, w, key) == Some(o);
    assert o.observed == Some(o.generation) && o.ready == Some(TRUE);
    ReportsIff(PassingValues(o), o, CarriesRules(w.configs, key.ns, key.name));
  }

  /** After that sync, the position reports its object, and passes if the generation is high enough. */
  lemma AfterSyncLink(s: System, p: Pos, min: int)
    requires IsReleaseAt(s.hub.works, p) && KeyOf(ManifestAt(s.hub.works, p)) in s.spoke
    ensures IsReleaseAt(AfterSync(s, p).hub.works, p)
    ensures var o := s.spoke[KeyOf(ManifestAt(s.hub.works, p))];
      LinkAt(AfterSync(s, p), p, min) == LinkAt(s, p, min).(snap := Some(o), passes := o.generation >= min)
  {
    var key, w := KeyOf(ManifestAt(s.hub.works, p)), s.hub.works[p.work];
    PassingReads(s.spoke[key]);
    PrependCondition(w, key, s.spoke[key]);
    assert ManifestAt(AfterSync(s, p).hub.works, p) == ManifestAt(s.hub.works, p);
  }

  // ---------- The guard is needed ----------

  /** A path of the environment alone. */
  ghost predicate EnvPath(inp: Inputs, ss: seq<System>, ls: seq<Label>) {
    IsPath(inp, ss, ls) && forall i | 0 <= i < |ls| :: !ls[i].Reconcile?
  }

  ghost predicate Deployed(s: System, p: Pos) {
    IsReleaseAt(s.hub.works, p) && KeyOf(ManifestAt(s.hub.works, p)) in s.spoke
    && FluxContract(s.spoke[KeyOf(ManifestAt(s.hub.works, p))])
  }

  ghost function AfterFinish(s: System, p: Pos): System
    requires Deployed(s, p)
  {
    AfterSync(AfterFlux(s, p), p)
  }

  ghost function FinishPath(s: System, p: Pos): seq<System>
    requires Deployed(s, p)
  {
    [s, AfterFlux(s, p), AfterFinish(s, p)]
  }

  ghost function FinishLabels(s: System, p: Pos): seq<Label>
    requires Deployed(s, p)
  {
    var key := KeyOf(ManifestAt(s.hub.works, p));
    [FluxReconcile(key, Settle(s.spoke[key])), SyncLabel(AfterFlux(s, p), p)]
  }

  lemma FinishSteps(inp: Inputs, s: System, p: Pos)
    requires Deployed(s, p)
    ensures EnvPath(inp, FinishPath(s, p), FinishLabels(s, p))
  {
    var ss, ls := FinishPath(s, p), FinishLabels(s, p);
    SettleStep(inp, s, p);
    SyncStep(inp, AfterFlux(s, p), p);
    assert StepAt(inp, ss, ls, 0) && StepAt(inp, ss, ls, 1);
  }

  /** What those two steps do to the link of the release. */
  lemma FinishedLink(s: System, p: Pos, min: int)
    requires Deployed(s, p)
    ensures var s2 := AfterFinish(s, p);
      var o := Settle(s.spoke[KeyOf(ManifestAt(s.hub.works, p))]);
      IsReleaseAt(s2.hub.works, p)
            && LinkAt(s2, p, min) == LinkAt(s, p, min).(obj := Some(o), snap := Some(o), passes := o.generation >= min)
  {
    AfterSyncLink(AfterFlux(s, p), p, min);
  }

  lemma FinishKeeps(s: System, p: Pos)
    requires Deployed(s, p)
    ensures var s2 := AfterFinish(s, p);
      s2.hub.configMaps == s.hub.configMaps && Watched(s2.hub.works) == Watched(s.hub.works)
  {
    SameWatchedStatus(s.hub.works, p.work, AfterFinish(s, p).hub.works[p.work].status);
  }

  lemma UnpinnedDeployed(s: System, p: Pos, min: int)
    requires StoreInv(s) && IsReleaseAt(s.hub.works, p) && !Pinned(LinkAt(s, p, min)) && Honest(LinkAt(s, p, min))
    ensures Deployed(s, p)
    ensures var s2 := AfterFinish(s, p);
      IsReleaseAt(s2.hub.works, p) && LinkAt(s2, p, min).passes && !Honest(LinkAt(s2, p, min))
  {
    LinksOk(s, p, min);
    FinishedLink(s, p, min);
  }

  /** A passing link that is not honest accepts an old release. */
  lemma DishonestAccepts(inp: Inputs, s: System, k: nat)
    requires StoreInv(s) && RunInv(inp, s) && LinkedTarget(inp, s, k)
    requires TargetLink(inp, s, k).passes && !Honest(TargetLink(inp, s, k))
    ensures AcceptsOld(inp, s, k)
  {
    PassesLink(inp, s, k);
    HonestReleased(inp, s, k);
  }

  lemma FinishInvariants(inp: Inputs, s: System, p: Pos)
    requires StoreInv(s) && RunInv(inp, s) && Deployed(s, p)
    ensures StoreInv(AfterFinish(s, p)) && RunInv(inp, AfterFinish(s, p))
  {
    FinishSteps(inp, s, p);
    PathKeepsRun(inp, FinishPath(s, p), FinishLabels(s, p), 2);
  }

  lemma UnpinnedFinish(inp: Inputs, s: System, k: nat)
    requires StoreInv(s) && LinkedTarget(inp, s, k) && Deployed(s, Watched(s.hub.works)[k])
    requires !Pinned(TargetLink(inp, s, k)) && Honest(TargetLink(inp, s, k))
    ensures var s2 := AfterFinish(s, Watched(s.hub.works)[k]);
      LinkedTarget(inp, s2, k) && TargetLink(inp, s2, k).passes && !Honest(TargetLink(inp, s2, k))
  {
    UnpinnedDeployed(s, Watched(s.hub.works)[k], Awaited(inp, s)[k].minGeneration);
    FinishKeeps(s, Watched(s.hub.works)[k]);
  }

  lemma FinishAccepts(inp: Inputs, s: System, k: nat)
    requires StoreInv(s) && RunInv(inp, s) && LinkedTarget(inp, s, k) && Deployed(s, Watched(s.hub.works)[k])
    requires !Pinned(TargetLink(inp, s, k)) && Honest(TargetLink(inp, s, k))
    ensures AcceptsOld(inp, AfterFinish(s, Watched(s.hub.works)[k]), k)
  {
    UnpinnedFinish(inp, s, k);
    FinishInvariants(inp, s, Watched(s.hub.works)[k]);
    DishonestAccepts(inp, AfterFinish(s, Watched(s.hub.works)[k]), k);
  }

  lemma FinishPending(inp: Inputs, s: System, p: Pos)
    requires Pending(inp, s) && Deployed(s, p)
    ensures PendingFrom(inp, FinishPath(s, p), 0, 3)
  {
  }

  /**
   Without the guard the readiness test is passed by an old release after at most one flux status and one
   feedback sync.
   */
  lemma UnguardedPath(inp: Inputs, s: System, k: nat) returns (ss: seq<System>, ls: seq<Label>)
    requires StoreInv(s) && RunInv(inp, s) && LinkedTarget(inp, s, k) && !Pinned(TargetLink(inp, s, k))
    ensures EnvPath(inp, ss, ls) && ss[0] == s && |ls| <= 2
    ensures PendingFrom(inp, ss, 0, |ss|) && AcceptsOld(inp, ss[|ls|], k)
  {
    if !Honest(TargetLink(inp, s, k)) {
      ss, ls := [s], [];
      DishonestAccepts(inp, s, k);
    } else {
      var p := Watched(s.hub.works)[k];
      UnpinnedDeployed(s, p, Awaited(inp, s)[k].minGeneration);
      ss, ls := FinishPath(s, p), FinishLabels(s, p);
      FinishSteps(inp, s, p);
      FinishPending(inp, s, p);
      FinishAccepts(inp, s, k);
    }
  }

  /**
   The readiness test of a target can be trusted for the rest of its run, whatever happens, if and only if no
   spoke object of another spec has reached the generation awaited and feedback that passes now is of the spec written.
   */
  lemma SafeTargetIff(inp: Inputs, s: System, k: nat)
    requires StoreInv(s) && RunInv(inp, s) && Watchable(s.hub.works) && LinkedTarget(inp, s, k)
    ensures SafeFrom(inp, s, k) <==> Pinned(TargetLink(inp, s, k))
  {
    if Pinned(TargetLink(inp, s, k)) {
      forall ss: seq<System>, ls: seq<Label> | IsPath(inp, ss, ls) && ss[0] == s && PendingFrom(inp, ss, 0, |ss|)
        ensures !AcceptsOld(inp, ss[|ss| - 1], k)
      {
        PinnedLasts();
        PathKeepsFact(l => Pinned(l), inp, ss, ls, k);
        PinnedAccepts(inp, ss[|ls|], k);
      }
    } else {
      var ss, ls := UnguardedPath(inp, s, k);
      assert AcceptsOld(inp, ss[|ss| - 1], k);
    }
  }

  /** So an apply records a run to be trusted exactly when the guard holds before it. */
  lemma SafeRecordingIff(inp: Inputs, s: System, s': System, ts: seq<Target>, k: nat)
    requires StoreInv(s') && RunInv(inp, s') && Recording(inp, s, s', ts) && Watchable(s.hub.works) && k < |ts|
    ensures RendersAt(inp, s.hub.works, Watched(s.hub.works)[k])
    ensures SafeFrom(inp, s', k) <==> Pinned(LinkBefore(inp, s, Watched(s.hub.works)[k]))
  {
    assert Watched(s.hub.works)[k] in Watched(s.hub.works);
    RecordingWatched(inp, s, s', ts);
    RecordedLink(inp, s, ts, s'.hub, k);
    SafeTargetIff(inp, s', k);
  }
}
