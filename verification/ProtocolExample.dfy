/**
 A small system in which opscenter-features goes from v1 to v2, and three histories of it: two that accept the old
 release, and one in which a closed run starts over.
*/
module ProtocolExample {
  import opened Wrappers
  import opened Cluster
  import opened Render
  import opened Rewrite
  import opened Apply
  import opened ApplyEffect
  import opened ApplyOutcome
  import opened ApplyAgain
  import opened Pinning
  import opened Protocol
  import opened ProtocolRun
  import opened ProtocolSafety
  import opened ProtocolGate
  import opened ProtocolExact
  import opened ProtocolRetry
  import opened ProtocolProgress

  function ExampleSpec(version: string): Spec {
    Spec(map[], version, [], None, "", "", None, map[])
  }

  function ExampleObject(): SpokeRelease {
    Settle(SpokeRelease(Canon(ExampleSpec("v1")), 1, None, None, None))
  }

  function ExampleKey(): Key {
    Key("kubeops", OPSCENTER_FEATURES)
  }

  /** opscenter-features is to go from v1 to v2. */
  function ExampleInputs(): Inputs {
    Inputs(Binding("v2", "", None), true, "v2", Prepared(None), [], map[], map[], map[], map[],
          (defaults, given) => given)
  }

  function ExampleWork(reported: bool): Work {
    var m := Object(Some(HELM_RELEASE), Some(OPSCENTER_FEATURES), "kubeops", map[], Release(ExampleSpec("v1")));
    var c := Condition(HELM_RELEASE, "kubeops", OPSCENTER_FEATURES, true, PassingValues(ExampleObject()));
    Work(OPSCENTER_CORE, map[], [m], [], if reported then [c] else [])
  }

  /** v1 is released on the spoke, and the hub knows it if it is reported. */
  function ExampleSystem(reported: bool): System {
    System(Hub([ExampleWork(reported)], [], Status("v1", 0)), map[ExampleKey() := ExampleObject()],
           if reported then map[Feed(OPSCENTER_CORE, ExampleKey()) := ExampleObject()] else map[], 0)
  }

  lemma ExampleFeedback(k: Key)
    ensures HelmReleaseFeedback(ExampleWork(false), k.ns, k.name).0 == []
    ensures HelmReleaseFeedback(ExampleWork(true), k.ns, k.name).0
            == if k == ExampleKey() then PassingValues(ExampleObject()) else []
  {
    var w := ExampleWork(true);
    if k != ExampleKey() {
      assert !Describes(w.status[0], k.ns, k.name);
      assert FindCondition(w.status[1..], k.ns, k.name) == None;
    }
  }

  lemma ExampleStored(reported: bool)
    ensures StoreInv(ExampleSystem(reported))
  {
    var s, w := ExampleSystem(reported), ExampleWork(reported);
    PassingReads(ExampleObject());
    forall k: Key
      ensures Reports(HelmReleaseFeedback(w, k.ns, k.name).0, SnapAt(s.snaps, Feed(w.name, k)), false)
    {
      ExampleFeedback(k);
      if reported && k == ExampleKey() {
        ReportsIff(PassingValues(ExampleObject()), ExampleObject(), false);
      } else {
        assert Feed(w.name, k) !in s.snaps;
      }
    }
    assert FeedbackInv(s, w);
  }

  lemma ExampleWatched(reported: bool)
    ensures Watched([ExampleWork(reported)]) == [Pos(0, 0)] && Watchable([ExampleWork(reported)])
    ensures StatusFree([ExampleWork(reported)]) && DistinctNames([ExampleWork(reported)])
  {
    var works := [ExampleWork(reported)];
    assert !Managed(works[0]);
    assert WatchedFeatures(works, 1) == WatchedFeatures(works, 0) == [];
    assert WatchedCore(works) == [Pos(0, 0)];
    assert StatusFreeWork(works[0]);
  }

  lemma ExampleUpgradable(reported: bool, data: map<string, string>)
    ensures var works := [ExampleWork(reported)];
      && FindWork(works, OPSCENTER_CORE).Some? && Upgradable(ExampleInputs(), works)
      && WorksData(works, 1, data).Some?
  {
    var works := [ExampleWork(reported)];
    ExampleWatched(reported);
    assert !Managed(works[0]) && WorksData(works, 0, data) == Some(data);
    assert !Managed(CoreUpgraded(ExampleInputs(), works)[0]);
  }

  lemma ExampleWaits(reported: bool, name: string)
    ensures ApplyUpgrade(ExampleInputs(), ExampleSystem(reported).hub, name, 0).end.Waits?
  {
    ExampleWatched(reported);
    ExampleUpgradable(reported, BaseData("v2"));
    CompletableIff(ExampleInputs(), [ExampleWork(reported)], BaseData("v2"));
    CompletesIff(ExampleInputs(), ExampleSystem(reported).hub, name, 0);
    ApplyCompletes(ExampleInputs(), ExampleSystem(reported).hub, name, 0);
  }

  lemma ExampleApplies(reported: bool)
    ensures AboutToApply(ExampleInputs(), ExampleSystem(reported))
  {
    ExampleStored(reported);
    ExampleWatched(reported);
    var s := ExampleSystem(reported);
    forall name ensures ApplyUpgrade(ExampleInputs(), s.hub, name, s.now).end.Waits? {
      ExampleWaits(reported, name);
    }
  }

  lemma ExampleDiffers()
    ensures SpecChanged(ExampleSpec("v1"), ExampleSpec("v2"))
  {
    if Canon(ExampleSpec("v1")) == Canon(ExampleSpec("v2")) {
      CanonVersion(ExampleSpec("v1"), ExampleSpec("v2"));
    }
  }

  lemma ExampleInSync()
    ensures InSyncAt(ExampleSystem(true), Pos(0, 0))
  {
    PassingReads(ExampleObject());
  }

  lemma ExampleRendered(reported: bool)
    ensures var works := [ExampleWork(reported)];
      RendersAt(ExampleInputs(), works, Pos(0, 0))
            && Rendered(ExampleInputs(), works, Pos(0, 0)).value == ExampleSpec("v2")
  {
  }

  lemma ExampleChanges()
    ensures ChangesInSync(ExampleInputs(), ExampleSystem(true), Pos(0, 0))
  {
    ExampleDiffers();
    ExampleInSync();
    ExampleRendered(true);
  }

  /** The retry that is not safe does happen: v1 passes for v2. */
  lemma RetryHappens() returns (s': System)
    ensures Init(ExampleInputs(), ExampleSystem(true)) && LeadsTo(ExampleInputs(), ExampleSystem(true), 2, s')
    ensures AcceptsOldAt(ExampleInputs(), s', Pos(0, 0))
  {
    ExampleApplies(true);
    ExampleWatched(true);
    ExampleChanges();
    s' := RetryBeforeSync(ExampleInputs(), ExampleSystem(true), Pos(0, 0));
  }

  lemma ExampleUnreported()
    ensures UnreportedAt(ExampleInputs(), ExampleSystem(false), Pos(0, 0))
  {
    ExampleDiffers();
    ExampleRendered(false);
  }

  /** So does the apply on a ManifestWork that reports nothing yet. */
  lemma UnreportedHappens() returns (s': System)
    ensures Init(ExampleInputs(), ExampleSystem(false)) && LeadsTo(ExampleInputs(), ExampleSystem(false), 1, s')
    ensures AcceptsOldAt(ExampleInputs(), s', Pos(0, 0))
  {
    ExampleApplies(false);
    ExampleWatched(false);
    ExampleUnreported();
    s' := GenerationNotReported(ExampleInputs(), ExampleSystem(false), Pos(0, 0));
  }

  // ---------- A closed run that starts over ----------

  lemma ExampleGuarded()
    ensures GuardedStart(InStep, ExampleInputs(), ExampleSystem(true))
  {
    ExampleWatched(true);
    ExampleChanges();
  }

  /** The apply of the example recorded, in sync. */
  lemma ExampleRecorded() returns (l: Label, s': System, ts: seq<Target>)
    ensures Reconciles(ExampleInputs(), ExampleSystem(true), l, s')
    ensures Recording(ExampleInputs(), ExampleSystem(true), s', ts)
    ensures StoreInv(s') && RunInv(ExampleInputs(), s')
  {
    ExampleApplies(true);
    l, s', ts := RecordingStep(ExampleInputs(), ExampleSystem(true));
    PathKeepsRun(ExampleInputs(), [ExampleSystem(true), s'], [l], 1);
  }

  lemma ExampleTarget(s': System, ts: seq<Target>)
    requires Recording(ExampleInputs(), ExampleSystem(true), s', ts)
    ensures |ts| == 1 && ts[0].name == OPSCENTER_FEATURES
  {
    ExampleWatched(true);
    assert YieldsOne(ExampleInputs(), ExampleSystem(true).hub.works, Pos(0, 0), ts[0]);
  }

  /** A run whose first target is opscenter-features has a version to read back. */
  lemma CoreTargetWatched(inp: Inputs, s: System)
    requires RunInv(inp, s) && Pending(inp, s) && Awaited(inp, s)[0].name == OPSCENTER_FEATURES
    ensures WatchedCore(s.hub.works) != []
  {
    var p := Watched(s.hub.works)[0];
    assert Served(inp, s.hub.works, p, Awaited(inp, s)[0]);
    assert p in Watched(s.hub.works) && !Selected(ManifestAt(s.hub.works, p));
    assert p !in WatchedFeatures(s.hub.works, |s.hub.works|);
  }

  /** From the recorded run on: everything becomes ready. */
  lemma ExampleFinishes(s1: System, ts: seq<Target>) returns (s2: System)
    requires Recording(ExampleInputs(), ExampleSystem(true), s1, ts) && StoreInv(s1) && RunInv(ExampleInputs(), s1)
    ensures EnvLeads(ExampleInputs(), s1, s2) && AllPass(ExampleInputs(), s2)
    ensures StoreInv(s2) && RunInv(ExampleInputs(), s2) && Awaited(ExampleInputs(), s2) == ts
  {
    ExampleGuarded();
    RecordingKeepsGuard(InStep, ExampleInputs(), ExampleSystem(true), s1, ts);
    InStepAwaitable(ExampleInputs(), s1);
    s2 := AwaitableFinish(ExampleInputs(), s1);
  }

  /**
   In the example a run is recorded in sync, all its targets become ready and it is closed, but opscenter-core
   cannot be read as the status is written: the binding can settle, and yet the upgrade is due again.
   */
  lemma RestartHappens() returns (l: Label, s1: System, s2: System, c: Choice, s3: System)
    ensures Init(ExampleInputs(), ExampleSystem(true)) && Reconciles(ExampleInputs(), ExampleSystem(true), l, s1)
    ensures EnvLeads(ExampleInputs(), s1, s2) && AllPass(ExampleInputs(), s2)
    ensures Step(ExampleInputs(), s2, Reconcile(c), s3) && Closes(ExampleInputs(), s2, c) && c.statusWritten
    ensures CanSettle(ExampleInputs().binding, s2.hub.works) && NeedsUpgrade(ExampleInputs().binding, s3.hub.status)
  {
    ExampleApplies(true);
    var ts;
    l, s1, ts := ExampleRecorded();
    s2 := ExampleFinishes(s1, ts);
    ExampleTarget(s1, ts);
    CoreTargetWatched(ExampleInputs(), s2);
    c, s3 := AllPassCloses(ExampleInputs(), s2, false);
  }
}
