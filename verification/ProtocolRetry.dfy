/**
 Histories in which the readiness test passes an old release: a retry before the feedback is in sync, and an
 apply on a ManifestWork that does not report generations yet (newUpgradeTarget in pkg/cluster_upgrade/upgrader.go,
 helmReleaseGeneration in pkg/cluster_upgrade/upgrader_helper.go).
*/
module ProtocolRetry {
  import opened Cluster
  import opened Render
  import opened Rewrite
  import opened Apply
  import opened ApplyEffect
  import opened ApplyFixpoint
  import opened ApplyOutcome
  import opened ApplyAgain
  import opened Pinning
  import opened Protocol
  import opened ProtocolRun
  import opened ProtocolSafety
  import opened ProtocolExact

  function Stopping(name: string, stop: nat): Choice {
    Choice(stop, {}, name, [], false, false, false)
  }

  /** A path of one reconcile. */
  ghost predicate Reconciles(inp: Inputs, s: System, l: Label, s': System) {
    l.Reconcile? && IsPath(inp, [s, s'], [l])
  }

  lemma PathPrepend(inp: Inputs, s: System, l: Label, ss: seq<System>, ls: seq<Label>)
    requires IsPath(inp, ss, ls) && IsPath(inp, [s, ss[0]], [l])
    ensures IsPath(inp, [s] + ss, [l] + ls)
  {
    var ss', ls' := [s] + ss, [l] + ls;
    forall i | 0 <= i < |ls'| ensures StepAt(inp, ss', ls', i) {
      if i > 0 { assert StepAt(inp, ss, ls, i - 1); } else { assert StepAt(inp, [s, ss[0]], [l], 0); }
    }
  }

  /** A state in which an apply is due and would run to its end, whatever name its ConfigMap gets. */
  ghost predicate AboutToApply(inp: Inputs, s: System) {
    && Init(inp, s) && inp.profileValid && NeedsUpgrade(inp.binding, s.hub.status) && StatusFree(s.hub.works)
    && forall name :: ApplyUpgrade(inp, s.hub, name, s.now).end.Waits?
  }

  /** A reconcile that applies comes as far as the write of number `stop`. */
  lemma ApplyStep(inp: Inputs, s: System, name: string, stop: nat, s': System) returns (l: Label)
    requires AboutToApply(inp, s) && stop < |ApplyUpgrade(inp, s.hub, name, s.now).trace|
    requires s' == s.(hub := ApplyUpgrade(inp, s.hub, name, s.now).trace[stop])
    ensures Reconciles(inp, s, l, s')
  {
    l := Reconcile(Stopping(name, stop));
    assert Step(inp, s, l, s');
    assert StepAt(inp, [s, s'], [l], 0);
  }

  /** A reconcile that applies to the end. */
  lemma ApplyThrough(inp: Inputs, s: System, name: string, s': System) returns (l: Label)
    requires AboutToApply(inp, s) && s' == s.(hub := Last(ApplyUpgrade(inp, s.hub, name, s.now).trace))
    ensures Reconciles(inp, s, l, s')
  {
    l := ApplyStep(inp, s, name, |ApplyUpgrade(inp, s.hub, name, s.now).trace| - 1, s');
  }

  /** The step that records the run of an apply that is about to start. */
  lemma RecordingStep(inp: Inputs, s: System) returns (l: Label, s': System, ts: seq<Target>)
    requires AboutToApply(inp, s)
    ensures Reconciles(inp, s, l, s') && Recording(inp, s, s', ts)
  {
    s', ts := ApplyRecords(inp, s, "");
    l := ApplyThrough(inp, s, "", s');
  }

  /** The step of an apply that fails at its very last write. */
  lemma LastButOne(inp: Inputs, s: System) returns (l: Label, s': System)
    requires AboutToApply(inp, s)
    ensures Reconciles(inp, s, l, s') && inp.coreValues.Prepared? && s' == s.(hub := s'.hub)
    ensures s'.hub.works == AllUpgraded(inp, s.hub.works) && Unrecorded(s.hub, s'.hub)
  {
    var i, h := NextToLast(inp, s.hub, "", s.now);
    s' := s.(hub := h);
    l := ApplyStep(inp, s, "", i, s');
  }

  lemma {:induction false} EnvWatched(inp: Inputs, ss: seq<System>, ls: seq<Label>, n: nat)
    requires EnvPath(inp, ss, ls) && n < |ss|
    ensures Watched(ss[n].hub.works) == Watched(ss[0].hub.works)
  {
    if n > 0 {
      EnvWatched(inp, ss, ls, n - 1);
      assert StepAt(inp, ss, ls, n - 1);
      WatchedAfterStep(inp, ss[n - 1], ls[n - 1], ss[n]);
    }
  }

  ghost predicate AcceptsOldAt(inp: Inputs, s: System, p: Pos) {
    exists k: nat :: AcceptsOld(inp, s, k) && Watched(s.hub.works)[k] == p
  }

  /**
   A path of `n` reconciles and at most two steps of flux and feedback, with the run pending from the last
   reconcile on.
   */
  ghost predicate ShortPath(inp: Inputs, ss: seq<System>, ls: seq<Label>, n: nat) {
    && IsPath(inp, ss, ls) && n <= |ls| <= n + 2
    && (forall i | 0 <= i < |ls| :: ls[i].Reconcile? <==> i < n)
    && PendingFrom(inp, ss, n, |ss|)
  }

  ghost predicate LeadsTo(inp: Inputs, s: System, n: nat, s': System) {
    exists ss: seq<System>, ls: seq<Label> :: ShortPath(inp, ss, ls, n) && ss[0] == s && ss[|ls|] == s'
  }

  lemma PendingLater(inp: Inputs, s: System, ss: seq<System>, n: nat)
    requires n <= |ss| && PendingFrom(inp, ss, n, |ss|)
    ensures PendingFrom(inp, [s] + ss, n + 1, |ss| + 1)
  {
    forall i | n + 1 <= i < |ss| + 1 ensures Pending(inp, ([s] + ss)[i]) {
      assert ([s] + ss)[i] == ss[i - 1];
    }
  }

  lemma ReconcilesFirst(l: Label, ls: seq<Label>, n: nat)
    requires l.Reconcile? && forall i | 0 <= i < |ls| :: ls[i].Reconcile? <==> i < n
    ensures forall i | 0 <= i < |[l] + ls| :: ([l] + ls)[i].Reconcile? <==> i < n + 1
  {
  }

  lemma ShortPathPrepend(inp: Inputs, s: System, l: Label, ss: seq<System>, ls: seq<Label>, n: nat)
    requires ShortPath(inp, ss, ls, n) && Reconciles(inp, s, l, ss[0])
    ensures ShortPath(inp, [s] + ss, [l] + ls, n + 1)
  {
    PathPrepend(inp, s, l, ss, ls);
    PendingLater(inp, s, ss, n);
    ReconcilesFirst(l, ls, n);
  }

  lemma LeadsFurther(inp: Inputs, s: System, l: Label, s1: System, n: nat, s': System)
    requires Reconciles(inp, s, l, s1) && LeadsTo(inp, s1, n, s')
    ensures LeadsTo(inp, s, n + 1, s')
  {
    var ss: seq<System>, ls: seq<Label> :| ShortPath(inp, ss, ls, n) && ss[0] == s1 && ss[|ls|] == s';
    ShortPathPrepend(inp, s, l, ss, ls, n);
    assert ([s] + ss)[0] == s && ([s] + ss)[|[l] + ls|] == s';
  }

  lemma UnguardedEnd(inp: Inputs, s: System, p: Pos, k: nat) returns (s': System)
    requires StoreInv(s) && RunInv(inp, s) && LinkedTarget(inp, s, k) && Watched(s.hub.works)[k] == p
    requires !Pinned(TargetLink(inp, s, k))
    ensures LeadsTo(inp, s, 0, s') && AcceptsOldAt(inp, s', p)
  {
    var ss, ls := UnguardedPath(inp, s, k);
    EnvWatched(inp, ss, ls, |ls|);
    assert ShortPath(inp, ss, ls, 0);
    s' := ss[|ls|];
  }

  lemma RecordedUnpinned(inp: Inputs, s: System, s': System, ts: seq<Target>, p: Pos) returns (k: nat)
    requires Recording(inp, s, s', ts) && p in Watched(s.hub.works)
    requires RendersAt(inp, s.hub.works, p) && !Pinned(LinkBefore(inp, s, p))
    ensures LinkedTarget(inp, s', k) && Watched(s'.hub.works)[k] == p && !Pinned(TargetLink(inp, s', k))
  {
    RecordingWatched(inp, s, s', ts);
    k :| k < |Watched(s.hub.works)| && Watched(s.hub.works)[k] == p;
    RecordedLink(inp, s, ts, s'.hub, k);
  }

  lemma UnguardedRecord(inp: Inputs, s: System, p: Pos) returns (l: Label, s1: System, s': System)
    requires AboutToApply(inp, s) && p in Watched(s.hub.works)
    requires RendersAt(inp, s.hub.works, p) && !Pinned(LinkBefore(inp, s, p))
    ensures Reconciles(inp, s, l, s1) && LeadsTo(inp, s1, 0, s') && AcceptsOldAt(inp, s', p)
  {
    var ts;
    l, s1, ts := RecordingStep(inp, s);
    PathKeepsRun(inp, [s, s1], [l], 1);
    var k := RecordedUnpinned(inp, s, s1, ts, p);
    s' := UnguardedEnd(inp, s1, p, k);
  }

  /** An apply that starts without the guard: at most two steps later an old release passes for the new one. */
  lemma UnguardedApply(inp: Inputs, s: System, p: Pos) returns (s': System)
    requires AboutToApply(inp, s) && p in Watched(s.hub.works)
    requires RendersAt(inp, s.hub.works, p) && !Pinned(LinkBefore(inp, s, p))
    ensures LeadsTo(inp, s, 1, s') && AcceptsOldAt(inp, s', p)
  {
    var l, s1;
    l, s1, s' := UnguardedRecord(inp, s, p);
    LeadsFurther(inp, s, l, s1, 0, s');
  }

  /** After an apply that stopped just short of its record, the next one is due and would run to its end. */
  lemma RetryIsDue(inp: Inputs, s: System, s1: System)
    requires AboutToApply(inp, s) && StoreInv(s1) && inp.coreValues.Prepared?
    requires s1 == s.(hub := s1.hub) && s1.hub.works == AllUpgraded(inp, s.hub.works) && Unrecorded(s.hub, s1.hub)
    ensures AboutToApply(inp, s1) && Watched(s1.hub.works) == Watched(s.hub.works)
  {
    UnrecordedKeepsRun(inp, s, s1.hub);
    AllShape(inp, s.hub.works);
    SameWatched(s.hub.works, s1.hub.works);
    ShapeStatusFree(s.hub.works, s1.hub.works);
    forall name ensures ApplyUpgrade(inp, s1.hub, name, s1.now).end.Waits? {
      ReapplyWaits(inp, s.hub, "", s.now, s1.hub, name, s.now);
    }
  }

  lemma AboutToYield(inp: Inputs, s: System) returns (ts: seq<Target>)
    requires AboutToApply(inp, s)
    ensures inp.coreValues.Prepared? && Yields(inp, s.hub.works, Watched(s.hub.works), ts)
  {
    var s';
    s', ts := ApplyRecords(inp, s, "");
  }

  /** The release exists on the spoke, its feedback is in sync, and the upgrade changes its spec. */
  ghost predicate ChangesInSync(inp: Inputs, s: System, p: Pos) {
    && RendersAt(inp, s.hub.works, p) && InSyncAt(s, p) && KeyOf(ManifestAt(s.hub.works, p)) in s.spoke
    && SpecChanged(ManifestAt(s.hub.works, p).body.spec, Rendered(inp, s.hub.works, p).value)
  }

  /** The retry takes the generation of the old object for that of the new spec. */
  lemma RetryUnpinned(inp: Inputs, s: System, ts: seq<Target>, s1: System, p: Pos)
    requires inp.coreValues.Prepared? && Yields(inp, s.hub.works, Watched(s.hub.works), ts) && p in Watched(s.hub.works)
    requires s1 == s.(hub := s1.hub) && s1.hub.works == AllUpgraded(inp, s.hub.works)
    requires ChangesInSync(inp, s, p)
    ensures RendersAt(inp, s1.hub.works, p) && !Pinned(LinkBefore(inp, s1, p))
  {
    var m := ManifestAt(s.hub.works, p);
    UpgradedAt(inp, s.hub.works, ts, p);
    RenderedAgain(inp, s.hub.works, ts, p);
    AllShape(inp, s.hub.works);
    var w, w' := s.hub.works[p.work], s1.hub.works[p.work];
    assert w'.name == w.name && w'.status == w.status;
    assert HelmReleaseFeedback(w', m.ns, m.name.value) == HelmReleaseFeedback(w, m.ns, m.name.value);
  }

  /**
   The retry that is not safe: from a state with all feedback in sync, an apply that changes a release and fails
   at its last write, then one that completes. The second sees no change and a generation that is still the old
   object's, and one flux status and one sync later that object passes for the new one.
   */
  lemma RetryBeforeSync(inp: Inputs, s: System, p: Pos) returns (s': System)
    requires AboutToApply(inp, s) && p in Watched(s.hub.works) && ChangesInSync(inp, s, p)
    ensures LeadsTo(inp, s, 2, s') && AcceptsOldAt(inp, s', p)
  {
    var l, s1 := LastButOne(inp, s);
    PathKeepsRun(inp, [s, s1], [l], 1);
    RetryIsDue(inp, s, s1);
    var ts := AboutToYield(inp, s);
    RetryUnpinned(inp, s, ts, s1, p);
    s' := UnguardedApply(inp, s1, p);
    LeadsFurther(inp, s, l, s1, 1, s');
  }

  /** The ManifestWork does not report the generation of a release that exists with another spec than rendered. */
  ghost predicate UnreportedAt(inp: Inputs, s: System, p: Pos) {
    && RendersAt(inp, s.hub.works, p)
    && var m := ManifestAt(s.hub.works, p);
       && HelmReleaseGeneration(s.hub.works[p.work], m.ns, m.name.value) == 0
       && KeyOf(m) in s.spoke && s.spoke[KeyOf(m)].spec != Canon(Rendered(inp, s.hub.works, p).value)
  }

  lemma UnreportedUnpinned(inp: Inputs, s: System, p: Pos)
    requires StoreInv(s) && UnreportedAt(inp, s, p)
    ensures !Pinned(LinkBefore(inp, s, p))
  {
  }

  /**
   An apply on a ManifestWork that does not report the generation yet awaits generation 1 at most, so the object
   of the old release passes, at whatever generation, before the agent has applied anything.
   */
  lemma GenerationNotReported(inp: Inputs, s: System, p: Pos) returns (s': System)
    requires AboutToApply(inp, s) && p in Watched(s.hub.works) && UnreportedAt(inp, s, p)
    ensures LeadsTo(inp, s, 1, s') && AcceptsOldAt(inp, s', p)
  {
    UnreportedUnpinned(inp, s, p);
    s' := UnguardedApply(inp, s, p);
  }
}
