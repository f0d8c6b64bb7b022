/**
 When a reconcile may write the binding status, and whether that ends the upgrade
 (pkg/controller/managedclusterprofilebinding_controller.go:104-144, 181-235).
*/
module ProtocolGate {
  import opened Cluster
  import opened Render
  import opened SpecEquality
  import opened Rewrite
  import opened Apply
  import opened ApplyEffect
  import opened ApplyOutcome
  import opened RunRecord
  import opened Protocol
  import opened ProtocolStore
  import opened ProtocolRun
  import opened ProtocolSafety

  // ---------- When a reconcile upgrades, enables features, or does neither ----------

  /** No upgrade is due exactly when the version wanted was observed, and a stamp that parses is the one last stored. */
  lemma UpgradeDueIff(b: Binding, st: Status)
    ensures !NeedsUpgrade(b, st) <==>
              && b.version in {"", st.observedVersion}
              && (b.upgradeAt != "" && b.upgradeTime.Some? ==> b.upgradeTime.value == st.lastUpgradeAt)
  {
  }

  /**
   With no upgrade due the ManifestWorks may change exactly if the profile has the binding's version, or that is
   open.
   */
  lemma EnablesIff(inp: Inputs, s: System)
    requires inp.profileValid && !NeedsUpgrade(inp.binding, s.hub.status)
    ensures (exists c, hub' :: ReconcileStep(inp, s, c, hub') && hub'.works != s.hub.works)
            <==> inp.binding.version in {"", inp.profileVersion}
  {
    if inp.binding.version in {"", inp.profileVersion} {
      var works := if s.hub.works == [] then [Work("", map[], [], [], [])] else [];
      var c := Choice(0, {}, "", works, false, false, false);
      assert ReconcileStep(inp, s, c, s.hub.(works := works));
    }
  }

  // ---------- The gate ----------

  /** The run this reconcile closed: nothing to upgrade, or every target seen ready in this one observation. */
  ghost predicate ClosedRun(inp: Inputs, s: System, c: Choice) {
    match FindPending(inp.binding, s.hub.configMaps)
    case Malformed => false
    case Nothing => Watched(s.hub.works) == []
    case Run(_, ts) => forall k | 0 <= k < |ts| :: SeenReady(s.hub.works, ts, c.readable, k)
  }

  /**
   On the upgrade branch the binding status changes only as a run is closed as completed with all its targets
   ready at once, and never while waiting, on timeout, or after an error.
   */
  lemma StatusNeedsClosedRun(inp: Inputs, s: System, c: Choice, hub': Hub)
    requires StoreInv(s) && RunInv(inp, s) && ReconcileStep(inp, s, c, hub')
    requires NeedsUpgrade(inp.binding, s.hub.status) && hub'.status != s.hub.status
    ensures ClosedRun(inp, s, c)
    ensures |hub'.configMaps| == 1 && hub'.configMaps[0].targets.None?
            && Labelled(hub'.configMaps[0].data, STATUS_KEY, COMPLETED)
  {
    match FindPending(inp.binding, s.hub.configMaps)
    case Run(cm, ts) =>
      var o := ObserveUpgrade(s.hub, cm, ts, c.readable, s.now);
      ObserveApart(s.hub, cm, ts, c.readable, s.now, c.stop);
      ObserveRecord(inp.binding, s.hub, cm, ts, c.readable, s.now, c.stop);
      SweepPending(s.hub.works, ts, c.readable, cm.data, |ts|);
      StatusApart(inp.binding, o.trace[c.stop], c);
    case Nothing =>
      var o := ApplyUpgrade(inp, s.hub, c.cmName, s.now);
      ApplyWorksAt(inp, s.hub, c.cmName, s.now, c.stop);
      assert o.end.Closed? && c.stop == |o.trace| - 1;
      ApplyCompletes(inp, s.hub, c.cmName, s.now);
      StatusApart(inp.binding, o.trace[c.stop], c);
  }

  /** End to end: when the status moves on, every release on the spoke runs what this upgrade rendered. */
  lemma StatusMeansReleased(g: Guard, inp: Inputs, ss: seq<System>, ls: seq<Label>, n: nat, p: Pos)
    requires GuardedRun(g, inp, ss, ls) && n < |ls| && ls[n].Reconcile?
    requires NeedsUpgrade(inp.binding, ss[n].hub.status) && ss[n + 1].hub.status != ss[n].hub.status
    requires p in Watched(ss[n].hub.works)
    ensures ReleasedAsRendered(inp, ss[n], p)
  {
    GuardHolds(g, inp, ss, ls, n);
    assert StepAt(inp, ss, ls, n);
    var s := ss[n];
    StatusNeedsClosedRun(inp, s, ls[n].c, ss[n + 1].hub);
    assert FindPending(inp.binding, s.hub.configMaps).Run?;
    var ts := Awaited(inp, s);
    var k :| 0 <= k < |Watched(s.hub.works)| && Watched(s.hub.works)[k] == p;
    assert SeenReady(s.hub.works, ts, ls[n].c.readable, k);
    ReadyMeansReleased(g, inp, s, k);
  }

  // ---------- Reading the version back ----------

  /** Specs equal modulo nulls name the same chart version. */
  lemma CanonVersion(a: Spec, b: Spec)
    requires Canon(a) == Canon(b)
    ensures a.chartVersion == b.chartVersion
  {
    UnchangedIff(a, b);
  }

  /** Reader and rewriter agree: while a run stands recorded, the version read back is the binding's. */
  lemma VersionReadBack(inp: Inputs, works: seq<Work>, ts: seq<Target>)
    requires Committed(inp, works, ts)
    ensures VersionOf(works) == if WatchedCore(works) == [] then "" else inp.binding.version
  {
    if WatchedCore(works) != [] {
      var p := Watched(works)[0];
      assert p == WatchedCore(works)[0] && p in WatchedCore(works);
      assert Served(inp, works, p, ts[0]);
      CanonVersion(ManifestAt(works, p).body.spec, RenderCore(inp, ManifestAt(works, p).body.spec));
    }
  }

  lemma NoCoreNoVersion(works: seq<Work>)
    requires WatchedCore(works) == []
    ensures VersionOf(works) == ""
  {
  }

  // ---------- No upgrade loop, exactly when ----------

  /** The binding can be satisfied: there is a version to read back, and its stamp survives the status. */
  predicate CanSettle(b: Binding, works: seq<Work>) {
    && (b.version == "" || WatchedCore(works) != [])
    && (b.upgradeAt == "" || (b.upgradeTime.Some? && b.upgradeTime.value % SECOND == 0))
  }

  /** This reconcile carries a run to its end: all of its writes succeed and the run is closed as completed. */
  ghost predicate Closes(inp: Inputs, s: System, c: Choice) {
    && inp.profileValid && NeedsUpgrade(inp.binding, s.hub.status)
    && match FindPending(inp.binding, s.hub.configMaps)
       case Malformed => false
       case Run(cm, ts) =>
         var o := ObserveUpgrade(s.hub, cm, ts, c.readable, s.now);
         o.verdict.Success? && c.stop == |o.trace| - 1
       case Nothing =>
         var o := ApplyUpgrade(inp, s.hub, c.cmName, s.now);
         o.end.Closed? && c.stop == |o.trace| - 1
  }

  /** The ManifestWork could be read for the status, where the binding has a version to compare. */
  predicate ReadsBack(b: Binding, c: Choice) {
    c.coreReadable || b.version == ""
  }

  lemma StatusSettles(b: Binding, hub: Hub, c: Choice)
    requires NeedsUpgrade(b, hub.status)
    requires VersionOf(hub.works) == if WatchedCore(hub.works) == [] then "" else b.version
    ensures !NeedsUpgrade(b, AfterStatus(b, hub, c).status)
            <==> c.statusWritten && ReadsBack(b, c) && CanSettle(b, hub.works)
  {
  }

  /** The state in which a closing reconcile comes to write the status. */
  lemma ClosedHub(inp: Inputs, s: System, c: Choice, hub': Hub) returns (h: Hub)
    requires StoreInv(s) && RunInv(inp, s) && ReconcileStep(inp, s, c, hub') && Closes(inp, s, c)
    ensures hub' == AfterStatus(inp.binding, h, c) && h.status == s.hub.status
    ensures VersionOf(h.works) == if WatchedCore(h.works) == [] then "" else inp.binding.version
    ensures WatchedCore(h.works) == WatchedCore(s.hub.works)
    ensures FindPending(inp.binding, h.configMaps).Nothing? && |h.configMaps| == 1
            && Labelled(h.configMaps[0].data, STATUS_KEY, COMPLETED)
  {
    match FindPending(inp.binding, s.hub.configMaps)
    case Run(cm, ts) =>
      h := ObserveUpgrade(s.hub, cm, ts, c.readable, s.now).trace[c.stop];
      ObserveApart(s.hub, cm, ts, c.readable, s.now, c.stop);
      ObserveRecord(inp.binding, s.hub, cm, ts, c.readable, s.now, c.stop);
      VersionReadBack(inp, s.hub.works, ts);
    case Nothing =>
      h := Last(ApplyUpgrade(inp, s.hub, c.cmName, s.now).trace);
      ApplyCompletes(inp, s.hub, c.cmName, s.now);
      AllShape(inp, s.hub.works);
      SameWatchedCore(s.hub.works, h.works);
      assert WatchedCore(s.hub.works) == [];
      NoCoreNoVersion(h.works);
      assert h.configMaps == [h.configMaps[0]];
      FindOne(inp.binding, h.configMaps[0]);
  }

  /**
   After a run that was closed as completed no upgrade is due, if and only if the status was written, opscenter-core
   could be read for it where a version is wanted, and the binding can settle.
   */
  lemma NoUpgradeLoopIff(inp: Inputs, s: System, c: Choice, hub': Hub)
    requires StoreInv(s) && RunInv(inp, s) && ReconcileStep(inp, s, c, hub') && Closes(inp, s, c)
    ensures !NeedsUpgrade(inp.binding, hub'.status)
            <==> c.statusWritten && ReadsBack(inp.binding, c) && CanSettle(inp.binding, s.hub.works)
  {
    var h := ClosedHub(inp, s, c, hub');
    StatusSettles(inp.binding, h, c);
  }

  /**
   A read of opscenter-core that fails once, while the status of a closed run is written, blanks the version: the
   upgrade is due again, and with no run on record the next reconcile applies it from the start.
   */
  lemma UnreadableCoreRestarts(inp: Inputs, s: System, c: Choice, hub': Hub)
    requires StoreInv(s) && RunInv(inp, s) && ReconcileStep(inp, s, c, hub') && Closes(inp, s, c)
    requires c.statusWritten && !c.coreReadable && inp.binding.version != ""
    requires inp.binding.upgradeAt == "" || inp.binding.upgradeTime.Some?
    ensures hub'.status.observedVersion == "" && NeedsUpgrade(inp.binding, hub'.status)
    ensures FindPending(inp.binding, hub'.configMaps).Nothing? && |hub'.configMaps| == 1
            && Labelled(hub'.configMaps[0].data, STATUS_KEY, COMPLETED)
  {
    var h := ClosedHub(inp, s, c, hub');
    StatusApart(inp.binding, h, c);
  }

  // ---------- Once settled ----------

  /** A reconcile that has nothing to upgrade comes to write the status. */
  ghost predicate WritesStatus(inp: Inputs, c: Choice) {
    && inp.profileValid && c.statusWritten && (ShouldEnableFeatures(inp) ==> c.enabledOk)
    && (inp.binding.upgradeAt == "" || inp.binding.upgradeTime.Some?)
  }

  /** The version then stored is not the binding's: the ManifestWork cannot be read, or says otherwise. */
  ghost predicate MisreadsVersion(inp: Inputs, c: Choice, hub': Hub) {
    inp.binding.version != "" && (c.coreReadable ==> VersionOf(hub'.works) != inp.binding.version)
  }

  predicate FractionalStamp(b: Binding) {
    b.upgradeAt != "" && b.upgradeTime.Some? && b.upgradeTime.value % SECOND != 0
  }

  /** What makes an upgrade due again. */
  ghost predicate Unsettles(inp: Inputs, l: Label, s': System) {
    l.Reconcile? && WritesStatus(inp, l.c) && (MisreadsVersion(inp, l.c, s'.hub) || FractionalStamp(inp.binding))
  }

  lemma UnsettlesIff(inp: Inputs, s: System, l: Label, s': System)
    requires Step(inp, s, l, s') && !NeedsUpgrade(inp.binding, s.hub.status)
    ensures NeedsUpgrade(inp.binding, s'.hub.status) <==> Unsettles(inp, l, s')
  {
  }

  ghost predicate SettledFrom(inp: Inputs, ss: seq<System>, m: nat, n: nat)
    requires m <= n < |ss|
  {
    forall i | m <= i <= n :: !NeedsUpgrade(inp.binding, ss[i].hub.status)
  }

  ghost predicate NeverUnsettled(inp: Inputs, ss: seq<System>, ls: seq<Label>, m: nat, n: nat)
    requires m <= n <= |ls| < |ss|
  {
    forall i | m <= i < n :: !Unsettles(inp, ls[i], ss[i + 1])
  }

  lemma UnsettlesAt(inp: Inputs, ss: seq<System>, ls: seq<Label>, n: nat)
    requires IsPath(inp, ss, ls) && n < |ls| && !NeedsUpgrade(inp.binding, ss[n].hub.status)
    ensures NeedsUpgrade(inp.binding, ss[n + 1].hub.status) <==> Unsettles(inp, ls[n], ss[n + 1])
  {
    assert StepAt(inp, ss, ls, n);
    UnsettlesIff(inp, ss[n], ls[n], ss[n + 1]);
  }

  /**
   A binding that is settled stays settled exactly as long as no reconcile stores a version that is not the
   binding's, be it because opscenter-core cannot be read or carries another one, or a stamp that has lost its
   fraction of a second.
   */
  lemma {:induction false} StaysSettledIff(inp: Inputs, ss: seq<System>, ls: seq<Label>, m: nat, n: nat)
    requires IsPath(inp, ss, ls) && m <= n < |ss| && !NeedsUpgrade(inp.binding, ss[m].hub.status)
    ensures SettledFrom(inp, ss, m, n) <==> NeverUnsettled(inp, ss, ls, m, n)
  {
    if m < n {
      StaysSettledIff(inp, ss, ls, m, n - 1);
      if SettledFrom(inp, ss, m, n - 1) {
        UnsettlesAt(inp, ss, ls, n - 1);
      }
    }
  }

  /** The closing reconcile of a history settles the binding. */
  ghost predicate SettlesAt(inp: Inputs, ss: seq<System>, ls: seq<Label>, m: nat)
    requires m < |ls| < |ss|
  {
    ls[m].Reconcile? && ls[m].c.statusWritten && ReadsBack(inp.binding, ls[m].c)
          && CanSettle(inp.binding, ss[m].hub.works)
  }

  lemma SettlesAtIff(inp: Inputs, ss: seq<System>, ls: seq<Label>, m: nat)
    requires IsRun(inp, ss, ls) && m < |ls| && ls[m].Reconcile? && Closes(inp, ss[m], ls[m].c)
    ensures !NeedsUpgrade(inp.binding, ss[m + 1].hub.status) <==> SettlesAt(inp, ss, ls, m)
  {
    CommitRecord(inp, ss, ls, m);
    assert StepAt(inp, ss, ls, m);
    NoUpgradeLoopIff(inp, ss[m], ls[m].c, ss[m + 1].hub);
  }

  /** From the reconcile that closes a run on: settled exactly if that one settled it and nothing unsettles it later. */
  lemma ClosedStaysIff(inp: Inputs, ss: seq<System>, ls: seq<Label>, m: nat, n: nat)
    requires IsRun(inp, ss, ls) && m < n < |ss| && ls[m].Reconcile? && Closes(inp, ss[m], ls[m].c)
    ensures SettledFrom(inp, ss, m + 1, n) <==> SettlesAt(inp, ss, ls, m) && NeverUnsettled(inp, ss, ls, m + 1, n)
  {
    SettlesAtIff(inp, ss, ls, m);
    if SettlesAt(inp, ss, ls, m) {
      StaysSettledIff(inp, ss, ls, m + 1, n);
    }
  }

  lemma StatusSeconds(b: Binding, hub: Hub, c: Choice)
    requires hub.status.lastUpgradeAt % SECOND == 0
    ensures AfterStatus(b, hub, c).status.lastUpgradeAt % SECOND == 0
  {
  }

  lemma ReconcileSeconds(inp: Inputs, s: System, c: Choice, hub': Hub)
    requires StoreInv(s) && RunInv(inp, s) && ReconcileStep(inp, s, c, hub')
    requires NeedsUpgrade(inp.binding, s.hub.status) && s.hub.status.lastUpgradeAt % SECOND == 0
    ensures hub'.status.lastUpgradeAt % SECOND == 0
  {
    if inp.profileValid {
      match FindPending(inp.binding, s.hub.configMaps)
      case Run(cm, ts) =>
        ObserveApart(s.hub, cm, ts, c.readable, s.now, c.stop);
        StatusSeconds(inp.binding, ObserveUpgrade(s.hub, cm, ts, c.readable, s.now).trace[c.stop], c);
      case Nothing =>
        ApplyWorksAt(inp, s.hub, c.cmName, s.now, c.stop);
        StatusSeconds(inp.binding, ApplyUpgrade(inp, s.hub, c.cmName, s.now).trace[c.stop], c);
    }
  }

  /** A force-upgrade stamp with a fraction of a second is never satisfied: every reachable state upgrades again. */
  lemma {:induction false} FractionNeverSettles(inp: Inputs, ss: seq<System>, ls: seq<Label>, n: nat)
    requires IsRun(inp, ss, ls) && n < |ss|
    requires FractionalStamp(inp.binding)
    requires ss[0].hub.status.lastUpgradeAt % SECOND == 0
    ensures NeedsUpgrade(inp.binding, ss[n].hub.status) && ss[n].hub.status.lastUpgradeAt % SECOND == 0
  {
    if n > 0 {
      FractionNeverSettles(inp, ss, ls, n - 1);
      CommitRecord(inp, ss, ls, n - 1);
      assert StepAt(inp, ss, ls, n - 1);
      if ls[n - 1].Reconcile? {
        ReconcileSeconds(inp, ss[n - 1], ls[n - 1].c, ss[n].hub);
      }
    }
  }

  // ---------- One record at a time ----------

  /** An apply leaves leftovers of the start or at most its own ConfigMap. */
  lemma ApplyCount(inp: Inputs, hub: Hub, name: string, now: int, i: nat)
    requires DistinctNames(hub.works) && i < |ApplyUpgrade(inp, hub, name, now).trace|
    ensures var cms := ApplyUpgrade(inp, hub, name, now).trace[i].configMaps;
      |cms| <= 1 || IsSuffix(cms, hub.configMaps)
  {
    var o := ApplyUpgrade(inp, hub, name, now);
    RecordComesLast(inp, hub, name, now);
    if o.end.Waits? && i == |o.trace| - 1 {
      ApplyCompletes(inp, hub, name, now);
    } else {
      assert Unrecorded(hub, o.trace[i]);
    }
  }

  /** Once there is at most one upgrader ConfigMap, there is never more than one again. */
  lemma SingleRecord(inp: Inputs, s: System, l: Label, s': System)
    requires StoreInv(s) && RunInv(inp, s) && Step(inp, s, l, s') && |s.hub.configMaps| <= 1
    ensures |s'.hub.configMaps| <= 1
  {
    if l.Reconcile? && inp.profileValid && NeedsUpgrade(inp.binding, s.hub.status) {
      var c := l.c;
      match FindPending(inp.binding, s.hub.configMaps)
      case Run(cm, ts) =>
        ObserveRecord(inp.binding, s.hub, cm, ts, c.readable, s.now, c.stop);
        StatusApart(inp.binding, ObserveUpgrade(s.hub, cm, ts, c.readable, s.now).trace[c.stop], c);
      case Nothing =>
        ApplyCount(inp, s.hub, c.cmName, s.now, c.stop);
        StatusApart(inp.binding, ApplyUpgrade(inp, s.hub, c.cmName, s.now).trace[c.stop], c);
    }
  }

  lemma SingleRecordAt(inp: Inputs, ss: seq<System>, ls: seq<Label>, n: nat)
    requires IsRun(inp, ss, ls) && n < |ls|
    ensures |ss[n].hub.configMaps| <= 1 ==> |ss[n + 1].hub.configMaps| <= 1
  {
    CommitRecord(inp, ss, ls, n);
    assert StepAt(inp, ss, ls, n);
    if |ss[n].hub.configMaps| <= 1 {
      SingleRecord(inp, ss[n], ls[n], ss[n + 1]);
    }
  }

  /** From the first created ConfigMap on, every later state of a history has at most one. */
  lemma {:induction false} SingleRecordHistory(inp: Inputs, ss: seq<System>, ls: seq<Label>, i: nat, n: nat)
    requires IsRun(inp, ss, ls) && i <= n < |ss| && |ss[i].hub.configMaps| <= 1
    ensures |ss[n].hub.configMaps| <= 1
  {
    if i < n {
      SingleRecordHistory(inp, ss, ls, i, n - 1);
      SingleRecordAt(inp, ss, ls, n - 1);
    }
  }

  /** The step that creates a ConfigMap leaves it the only one. */
  lemma CreatedAlone(inp: Inputs, s: System, l: Label, s': System, cm: ConfigMap)
    requires StoreInv(s) && RunInv(inp, s) && Step(inp, s, l, s')
    requires cm in s'.hub.configMaps && forall x | x in s.hub.configMaps :: x.name != cm.name
    ensures s'.hub.configMaps == [cm]
  {
    if l.Reconcile? && inp.profileValid && NeedsUpgrade(inp.binding, s.hub.status) {
      var c := l.c;
      match FindPending(inp.binding, s.hub.configMaps)
      case Run(current, ts) =>
        ObserveRecord(inp.binding, s.hub, current, ts, c.readable, s.now, c.stop);
        StatusApart(inp.binding, ObserveUpgrade(s.hub, current, ts, c.readable, s.now).trace[c.stop], c);
      case Nothing =>
        ApplyCount(inp, s.hub, c.cmName, s.now, c.stop);
        StatusApart(inp.binding, ApplyUpgrade(inp, s.hub, c.cmName, s.now).trace[c.stop], c);
    }
  }
}
