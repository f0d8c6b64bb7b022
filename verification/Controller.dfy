/**
 One reconcile of a binding, run over a failing API server, is a Reconcile step of the protocol
 (pkg/controller/managedclusterprofilebinding_controller.go, UpgradeCluster in pkg/cluster_upgrade/upgrader.go).
*/
module Controller {
  import opened Cluster
  import opened Render
  import opened Server
  import opened ApplyTrace
  import opened Protocol
  import A = Apply
  import R = RunRecord
  import U = Upgrader

  /** What EnableFeatures leaves, and whether it ended without an error: its rendering is outside this model. */
  datatype Enabling = Enabling(works: seq<Work>, ok: bool)

  /** The version reader: the first manifest named opscenter-features of opscenter-core. */
  method ReadVersion(works: seq<Work>) returns (v: string)
    ensures v == VersionOf(works)
  {
    var core := FindWork(works, OPSCENTER_CORE);
    if core.None? { return ""; }
    var scan := U.FindCore(works[core.value].manifests);
    v := match scan
      case At(j) => works[core.value].manifests[j].body.spec.chartVersion
      case _ => "";
  }

  /** The stamp can be stored: there is none, or it parses. */
  predicate Stampable(b: Binding) {
    b.upgradeAt == "" || b.upgradeTime.Some?
  }

  /** `setOpscenterFeaturesVersion` after a reconcile that had no error. If no call fails the status is stored. */
  method SetVersion(b: Binding, api: ApiServer) returns (ghost coreReadable: bool, ghost statusWritten: bool)
    modifies api
    ensures forall c: Choice | c.coreReadable == coreReadable && c.statusWritten == statusWritten ::
              api.hub == AfterStatus(b, old(api.hub), c)
    ensures old(api.calls) <= api.calls
    ensures api.Worked(old(api.calls)) ==> coreReadable && (Stampable(b) ==> statusWritten)
  {
    coreReadable, statusWritten := true, false;
    var fetched := api.Read();
    if !fetched { return; }
    var readable := api.Read();
    coreReadable := readable;
    var version := "";
    if readable {
      version := ReadVersion(api.hub.works);
    }
    if b.upgradeAt != "" && b.upgradeTime.None? { return; }
    var stamp :=
      if b.upgradeAt != "" then b.upgradeTime.value - b.upgradeTime.value % A.SECOND
      else api.hub.status.lastUpgradeAt;
    ghost var hub := api.hub;
    var next := api.hub.(status := Status(version, stamp));
    var ok := api.Write(next);
    statusWritten := api.hub == next;
  }

  /** The status of a finished reconcile is stored, with the version as it reads. */
  predicate Stores(b: Binding, c: Choice) {
    c.coreReadable && (Stampable(b) ==> c.statusWritten)
  }

  /** Go on from an upgrade branch that has come to its end or not: only a finished run reaches the status. */
  method Conclude(b: Binding, api: ApiServer, r: U.Reply, ghost trace: seq<Hub>, ghost finished: bool,
      ghost ended: bool,
      ghost c0: Choice)
      returns (ghost c: Choice)
    requires trace != [] && On(api.hub, trace)
    requires (r.Finished? ==> finished && ended) && (ended ==> api.hub == A.Last(trace) && (finished ==> r.Finished?))
    modifies api
    ensures StopsAt(b, trace, finished, c, api.hub)
    ensures c.readable == c0.readable && c.cmName == c0.cmName
    ensures old(api.calls) <= api.calls
    ensures ended ==> c.stop == |trace| - 1
    ensures ended && finished && api.Worked(old(api.calls)) ==> Stores(b, c)
  {
    if r.Finished? {
      ghost var readable, written := SetVersion(b, api);
      c := c0.(stop := |trace| - 1, coreReadable := readable, statusWritten := written);
    } else if ended {
      c := c0.(stop := |trace| - 1, statusWritten := false);
    } else {
      ghost var i :| 0 <= i < |trace| && trace[i] == api.hub;
      c := c0.(stop := i, statusWritten := false);
    }
  }

  /**
   What a reconcile chooses when no call fails: it comes to the end of its apply or observation, reads every target,
   and stores the status whenever nothing keeps it from that.
   */
  ghost predicate GoesThrough(inp: Inputs, s: System, c: Choice, enabling: Enabling) {
    if !inp.profileValid then true
    else if NeedsUpgrade(inp.binding, s.hub.status) then
      match R.FindPending(inp.binding, s.hub.configMaps)
      case Malformed => true
      case Run(cm, ts) =>
        var o := R.ObserveUpgrade(s.hub, cm, ts, c.readable, s.now);
        && (forall k: nat | k < |ts| :: k in c.readable)
        && c.stop == |o.trace| - 1 && (o.verdict.Success? ==> Stores(inp.binding, c))
      case Nothing =>
        var o := A.ApplyUpgrade(inp, s.hub, c.cmName, s.now);
        c.stop == |o.trace| - 1 && (o.end.Closed? ==> Stores(inp.binding, c))
    else if ShouldEnableFeatures(inp) then
      && c.enabled == enabling.works && c.enabledOk == enabling.ok
      && (enabling.ok ==> Stores(inp.binding, c))
    else Stores(inp.binding, c)
  }

  lemma EnabledSelf(works: seq<Work>)
    ensures DistinctNames(works) ==> EnabledWorks(works, works)
  {
    forall i | 0 <= i < |works| ensures StatusFrom(works, works[i]) {
    }
  }

  /** A pending run is observed, and the status stored if that finishes it. */
  method Observe(inp: Inputs, api: ApiServer, cm: ConfigMap, ts: seq<Target>, now: int, ghost c0: Choice,
      ghost s: System)
      returns (ghost c: Choice)
    requires s.hub == api.hub && s.now == now && inp.profileValid && NeedsUpgrade(inp.binding, api.hub.status)
    requires R.FindPending(inp.binding, s.hub.configMaps) == R.Run(cm, ts)
    modifies api
    ensures ReconcileStep(inp, s, c, api.hub) && old(api.calls) <= api.calls
    ensures api.Worked(old(api.calls)) ==> GoesThrough(inp, s, c, Enabling([], false))
  {
    var local := new UpgraderConfigMap(cm);
    var r;
    ghost var readable;
    r, readable := U.ObserveUpgrade(api, local, ts, now);
    ghost var o := R.ObserveUpgrade(s.hub, cm, ts, readable, now);
    c := Conclude(inp.binding, api, r, o.trace, o.verdict.Success?,
                  r == U.ReplyTo(o.verdict) && api.hub == A.Last(o.trace), c0.(readable := readable));
  }

  /** An upgrade is applied, and the status stored if there is nothing to wait for. */
  method Apply(inp: Inputs, api: ApiServer, cmName: string, now: int, ghost c0: Choice, ghost s: System)
      returns (ghost c: Choice)
    requires s.hub == api.hub && s.now == now && inp.profileValid && NeedsUpgrade(inp.binding, api.hub.status)
    requires R.FindPending(inp.binding, s.hub.configMaps).Nothing? && c0.cmName == cmName
    modifies api
    ensures ReconcileStep(inp, s, c, api.hub) && old(api.calls) <= api.calls
    ensures api.Worked(old(api.calls)) ==> GoesThrough(inp, s, c, Enabling([], false))
  {
    ghost var o := A.ApplyUpgrade(inp, s.hub, cmName, now);
    var r := U.ApplyUpgrade(inp, api, cmName, now);
    c := Conclude(inp.binding, api, r, o.trace, o.end.Closed?, U.AppliesAs(o, r, api.hub), c0);
  }

  /** An upgrade that stops before it has written anything is a step, too. */
  lemma StopsAtOnce(inp: Inputs, s: System, c: Choice)
    requires inp.profileValid && NeedsUpgrade(inp.binding, s.hub.status)
    ensures ReconcileStep(inp, s, c.(stop := 0, statusWritten := false), s.hub)
  {
    match R.FindPending(inp.binding, s.hub.configMaps)
    case Malformed =>
    case Run(cm, ts) => assert R.ObserveUpgrade(s.hub, cm, ts, c.readable, s.now).trace[0] == s.hub;
    case Nothing => StartsThere(inp, s.hub, c.cmName, s.now);
  }

  lemma StartsThere(inp: Inputs, hub: Hub, name: string, now: int)
    ensures A.ApplyUpgrade(inp, hub, name, now).trace != [] && A.ApplyUpgrade(inp, hub, name, now).trace[0] == hub
  {
    A.RecordComesLast(inp, hub, name, now);
  }

  /** UpgradeCluster and, if it finished, the status. */
  method Upgrade(inp: Inputs, api: ApiServer, cmName: string, now: int, ghost c0: Choice, ghost s: System)
      returns (ghost c: Choice)
    requires s.hub == api.hub && s.now == now && c0.cmName == cmName
    requires inp.profileValid && NeedsUpgrade(inp.binding, api.hub.status)
    modifies api
    ensures ReconcileStep(inp, s, c, api.hub) && old(api.calls) <= api.calls
    ensures api.Worked(old(api.calls)) ==> GoesThrough(inp, s, c, Enabling([], false))
  {
    c := c0.(stop := 0, statusWritten := false);
    StopsAtOnce(inp, s, c0);
    var listed := api.Read();
    if !listed { return; }
    var found := U.FindPendingUpgrade(inp.binding, api.hub.configMaps);
    match found
    case Malformed =>
    case Run(cm, ts) => c := Observe(inp, api, cm, ts, now, c0, s);
    case Nothing => c := Apply(inp, api, cmName, now, c0, s);
  }

  /**
   One whole reconcile. Whatever calls fail, the hub moves by a Reconcile step of the protocol, so every
   theorem about its histories holds of this code; and if none fails it goes through to its end.
   */
  method Reconcile(inp: Inputs, api: ApiServer, cmName: string, now: int, enabling: Enabling, ghost s: System)
      returns (ghost c: Choice)
    requires s.hub == api.hub && s.now == now && DistinctNames(api.hub.works)
    requires EnabledWorks(api.hub.works, enabling.works)
    modifies api
    ensures ReconcileStep(inp, s, c, api.hub) && old(api.calls) <= api.calls
    ensures api.Worked(old(api.calls)) ==> GoesThrough(inp, s, c, enabling)
  {
    c := Choice(0, {}, cmName, enabling.works, enabling.ok, true, false);
    if !inp.profileValid { return; }
    if NeedsUpgrade(inp.binding, api.hub.status) {
      c := Upgrade(inp, api, cmName, now, c, s);
    } else if ShouldEnableFeatures(inp) {
      var ok := api.Write(api.hub.(works := enabling.works));
      if ok && enabling.ok {
        ghost var readable, written := SetVersion(inp.binding, api);
        c := c.(coreReadable := readable, statusWritten := written);
      } else if !ok && api.hub == s.hub {
        c := c.(enabled := api.hub.works, enabledOk := false);
        EnabledSelf(s.hub.works);
      } else {
        c := c.(enabledOk := false);
      }
    } else {
      ghost var readable, written := SetVersion(inp.binding, api);
      c := c.(coreReadable := readable, statusWritten := written);
    }
  }
}
