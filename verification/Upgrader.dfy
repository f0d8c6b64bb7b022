/**
 The controller code itself, over an API server of which any call can fail. Each method is proved against
 the functions of Apply and RunRecord, so that the protocol's steps are exactly what this code can do
 (pkg/cluster_upgrade/upgrader.go, pkg/cluster_upgrade/upgrader_helper.go).
*/
module Upgrader {
  import opened Wrappers
  import opened Cluster
  import opened Render
  import opened Rewrite
  import opened Server
  import opened ApplyTrace
  import opened ApplyEffect
  import opened ApplyOutcome
  import opened ApplyAgain
  import A = Apply
  import R = RunRecord

  /** What UpgradeCluster returns: an error, a requeue, or nothing more to do. */
  datatype Reply = Error | Requeue | Finished

  // ---------- Rewriting one ManifestWork ----------

  /** Rewrite manifest `j` of `mw` to `s`, mark the release and return its target. */
  method RewriteManifestAt(mw: ManifestWork, cm: UpgraderConfigMap, j: nat, s: Spec) returns (t: Target)
    requires j < |mw.manifests| && Typed(mw.manifests[j])
    modifies mw, cm`data
    ensures var e := RewriteAt(Edit(old(mw.Value()), old(cm.data), []), j, s);
      mw.Value() == e.work && cm.Value() == old(cm.Value()).(data := e.data) && [t] == e.targets
  {
    var m := mw.manifests[j];
    var changed := SpecChanged(m.body.spec, s);
    mw.manifests := mw.manifests[j := WithSpec(m, s)];
    cm.Mark(m.name.value, FALSE);
    var w := mw.Export();
    t := NewTarget(w, m.ns, m.name.value, changed);
    mw.EnsureFeedbackRules(m.ns, m.name.value);
  }

  lemma RewriteAtTargets(e: Edit, j: nat, s: Spec)
    requires j < |e.work.manifests| && Typed(e.work.manifests[j])
    ensures var r, r' := RewriteAt(e, j, s), RewriteAt(e.(targets := []), j, s);
      r.work == r'.work && r.data == r'.data && r.targets == e.targets + r'.targets
  {
  }

  lemma {:induction false} FailureStays(inp: Inputs, e: Edit, n: nat, m: nat)
    requires n <= m <= |e.work.manifests| && RewriteManifests(inp, e, n).None?
    ensures RewriteManifests(inp, e, m).None?
  {
    if n < m {
      FailureStays(inp, e, n, m - 1);
    }
  }

  lemma RewriteFails(inp: Inputs, e: Edit, j: nat)
    requires j < |e.work.manifests| && RewriteManifests(inp, e, j).Some?
    requires RewriteManifest(inp, RewriteManifests(inp, e, j).value, j).None?
    ensures RewriteManifests(inp, e, |e.work.manifests|).None?
  {
    FailureStays(inp, e, j + 1, |e.work.manifests|);
  }

  /** The inner loop over the manifests of a managed work. */
  method RewriteFeatures(inp: Inputs, mw: ManifestWork, cm: UpgraderConfigMap, given: seq<Target>)
      returns (ok: bool, targets: seq<Target>)
    modifies mw, cm`data
    ensures var e := RewriteManifests(inp, Edit(old(mw.Value()), old(cm.data), given), |old(mw.manifests)|);
      && (ok <==> e.Some?)
      && (ok ==>
            && mw.Value() == e.value.work && targets == e.value.targets
            && cm.Value() == old(cm.Value()).(data := e.value.data))
  {
    ghost var e0 := Edit(mw.Value(), cm.data, given);
    ghost var cm0 := cm.Value();
    var n := |mw.manifests|;
    targets := given;
    var j := 0;
    while j < n
      invariant j <= n == |mw.manifests| == |e0.work.manifests|
      invariant RewriteManifests(inp, e0, j) == Some(Edit(mw.Value(), cm.data, targets))
      invariant cm.Value() == cm0.(data := cm.data)
    {
      var m := mw.manifests[j];
      if m.Unreadable? || (IsFeature(m) && m.body.Foreign?) {
        RewriteFails(inp, e0, j);
        return false, targets;
      }
      if Selected(m) {
        match RenderFeature(inp, mw.name, m.name.value, m.body.spec)
        case Err =>
          RewriteFails(inp, e0, j);
          return false, targets;
        case Ok(s) =>
          ghost var e := Edit(mw.Value(), cm.data, targets);
          var t := RewriteManifestAt(mw, cm, j, s);
          targets := targets + [t];
          RewriteAtTargets(e, j, s);
      }
      j := j + 1;
    }
    ok := true;
  }

  // ---------- createConfigMapInSpokeClusterNamespace ----------

  lemma {:induction false} ReleaseDataFails(ms: seq<Manifest>, n: nat, base: map<string, string>)
    requires n <= |ms| && A.ManifestsData(ms, n, base).None?
    ensures A.ManifestsData(ms, |ms|, base).None?
    decreases |ms| - n
  {
    if n < |ms| { ReleaseDataFails(ms, n + 1, base); }
  }

  method ReleaseData(ms: seq<Manifest>, base: map<string, string>) returns (r: Option<map<string, string>>)
    ensures r == A.ManifestsData(ms, |ms|, base)
  {
    var data := base;
    var j := 0;
    while j < |ms|
      invariant j <= |ms| && A.ManifestsData(ms, j, base) == Some(data)
    {
      var d := A.ManifestData(ms[j], data);
      if d.None? {
        ReleaseDataFails(ms, j + 1, base);
        return None;
      }
      data := d.value;
      j := j + 1;
    }
    r := Some(data);
  }

  lemma {:induction false} DataFails(works: seq<Work>, n: nat, base: map<string, string>)
    requires n <= |works| && A.WorksData(works, n, base).None?
    ensures A.WorksData(works, |works|, base).None?
    decreases |works| - n
  {
    if n < |works| { DataFails(works, n + 1, base); }
  }

  method InitialData(works: seq<Work>, base: map<string, string>) returns (r: Option<map<string, string>>)
    ensures r == A.WorksData(works, |works|, base)
  {
    var data := base;
    var i := 0;
    while i < |works|
      invariant i <= |works| && A.WorksData(works, i, base) == Some(data)
    {
      if Managed(works[i]) {
        var d := ReleaseData(works[i].manifests, data);
        if d.None? {
          DataFails(works, i + 1, base);
          return None;
        }
        data := d.value;
      }
      i := i + 1;
    }
    r := Some(data);
  }

  /** `deleteStaleUpgraderConfigMaps`: one Delete per listed ConfigMap, in list order. */
  method DeleteStale(api: ApiServer) returns (ok: bool)
    modifies api
    ensures On(api.hub, A.ClearTrace(old(api.hub), |old(api.hub).configMaps|))
    ensures ok ==> api.hub == old(api.hub).(configMaps := [])
    ensures old(api.calls) <= api.calls && (api.Worked(old(api.calls)) ==> ok)
  {
    ghost var hub := api.hub;
    ghost var n := |hub.configMaps|;
    ghost var trace := A.ClearTrace(hub, n);
    assert trace[0] == hub;
    var listed := api.Read();
    if !listed { return false; }
    var k := |api.hub.configMaps|;
    var i := 0;
    while i < k
      invariant i <= k == n && api.hub == hub.(configMaps := hub.configMaps[i..]) && old(api.calls) <= api.calls
    {
      assert trace[i] == api.hub;
      assert trace[i + 1] == api.hub.(configMaps := api.hub.configMaps[1..]);
      var deleted := api.Write(api.hub.(configMaps := api.hub.configMaps[1..]));
      if !deleted { return false; }
      i := i + 1;
    }
    assert trace[n] == api.hub;
    ok := true;
  }

  // ---------- applyUpgrade ----------

  /** Store an edited work, then the ConfigMap; a failure leaves one of the states of the commit. */
  method Commit(api: ApiServer, mw: ManifestWork, cm: UpgraderConfigMap, ghost l: A.Loop, ghost e: Edit)
      returns (ok: bool)
    requires api.hub == l.hub && mw.Value() == e.work && cm.Value() == l.cm.(data := e.data)
    requires l.trace != [] && A.Last(l.trace) == l.hub
    modifies api
    ensures On(api.hub, A.Commit(l, e).trace)
    ensures ok ==> api.hub == A.Commit(l, e).hub
    ensures old(api.calls) <= api.calls && (api.Worked(old(api.calls)) ==> ok)
  {
    ghost var trace := A.Commit(l, e).trace;
    ghost var n := |l.trace|;
    assert trace[n - 1] == l.hub;
    var w := mw.Export();
    var put := api.Write(A.PutSpec(api.hub, w));
    assert trace[n] == A.PutSpec(l.hub, e.work);
    if !put { return false; }
    var c := cm.Export();
    ok := api.Write(A.PatchData(api.hub, c));
    assert trace[n + 1] == A.PatchData(A.PutSpec(l.hub, e.work), l.cm.(data := e.data));
  }

  /** The scan of the first loop. */
  method FindCore(ms: seq<Manifest>) returns (r: Scan)
    ensures r == ScanCore(ms)
  {
    for i := 0 to |ms|
      invariant ScanCore(ms) == ScanCore(ms, i)
    {
      if ms[i].Unreadable? { return Blocked; }
      if KindName(ms[i]).1 == OPSCENTER_FEATURES {
        return if ms[i].body.Foreign? then Blocked else At(i);
      }
    }
    r := Absent;
  }

  /** Hub, local ConfigMap and targets are those of a loop state without an error. */
  ghost predicate Follows(hub: Hub, cm: ConfigMap, targets: seq<Target>, l: A.Loop) {
    && hub == l.hub && cm == l.cm && targets == l.targets
    && l.ok && l.trace != [] && A.Last(l.trace) == l.hub
  }

  lemma FollowsOn(hub: Hub, cm: ConfigMap, targets: seq<Target>, l: A.Loop)
    requires Follows(hub, cm, targets, l)
    ensures On(hub, l.trace)
  {
    LastOn(l.trace);
  }

  /** The first loop: rewrite opscenter-features, store it, and stop looking. */
  method UpgradeCore(inp: Inputs, api: ApiServer, cm: UpgraderConfigMap, core: Work, ghost l: A.Loop)
      returns (ok: bool, targets: seq<Target>)
    requires inp.coreValues.Prepared? && Follows(api.hub, cm.Value(), [], l)
    modifies api, cm`data
    ensures var l' := A.ApplyCore(inp, l, core);
      && On(api.hub, l'.trace)
      && (ok ==> Follows(api.hub, cm.Value(), targets, l'))
      && old(api.calls) <= api.calls
      && (api.Worked(old(api.calls)) ==> (ok <==> l'.ok) && api.hub == A.Last(l'.trace))
  {
    LastOn(l.trace);
    targets := [];
    var scan := FindCore(core.manifests);
    match scan
    case Absent => ok := true;
    case Blocked => ok := false;
    case At(j) =>
      var mw := new ManifestWork(core);
      var t := RewriteManifestAt(mw, cm, j, RenderCore(inp, core.manifests[j].body.spec));
      targets := [t];
      ok := Commit(api, mw, cm, l, RewriteCore(inp, Edit(core, l.cm.data, [])));
  }

  /** One managed work of the second loop. */
  method UpgradeWork(inp: Inputs, api: ApiServer, cm: UpgraderConfigMap, w: Work, given: seq<Target>, ghost l: A.Loop)
      returns (ok: bool, targets: seq<Target>)
    requires Managed(w) && Follows(api.hub, cm.Value(), given, l)
    modifies api, cm`data
    ensures var l' := A.ApplyWork(inp, l, w);
      && On(api.hub, l'.trace)
      && (ok ==> Follows(api.hub, cm.Value(), targets, l'))
      && old(api.calls) <= api.calls
      && (api.Worked(old(api.calls)) ==> (ok <==> l'.ok) && api.hub == A.Last(l'.trace))
  {
    LastOn(l.trace);
    OnPrefix(l.hub, l.trace, A.ApplyWork(inp, l, w).trace);
    targets := given;
    var charts := api.Read();
    if !charts { return false, targets; }
    var mw := new ManifestWork(w);
    ok, targets := RewriteFeatures(inp, mw, cm, targets);
    if !ok { return; }
    ghost var e := RewriteManifests(inp, Edit(w, l.cm.data, l.targets), |w.manifests|).value;
    ok := Commit(api, mw, cm, l, e);
  }

  lemma OneMore(inp: Inputs, l: A.Loop, works: seq<Work>, i: nat, p: A.Loop)
    requires i < |works| && p == A.ApplyWorks(inp, l, works, i)
    ensures A.ApplyWorks(inp, l, works, i + 1) == A.ApplyWork(inp, p, works[i])
  {
  }

  /** The second loop over the works listed after the first one. */
  method UpgradeFeatures(inp: Inputs, api: ApiServer, cm: UpgraderConfigMap, given: seq<Target>, ghost l: A.Loop)
      returns (ok: bool, targets: seq<Target>, ghost n: nat)
    requires Follows(api.hub, cm.Value(), given, l)
    modifies api, cm`data
    ensures n <= |l.hub.works| && On(api.hub, A.ApplyWorks(inp, l, l.hub.works, n).trace)
    ensures ok ==> n == |l.hub.works| && Follows(api.hub, cm.Value(), targets, A.ApplyWorks(inp, l, l.hub.works, n))
    ensures var l' := A.ApplyWorks(inp, l, l.hub.works, |l.hub.works|);
      && old(api.calls) <= api.calls
      && (api.Worked(old(api.calls)) ==> (ok <==> l'.ok) && api.hub == A.Last(l'.trace))
  {
    FollowsOn(api.hub, cm.Value(), given, l);
    targets, n := given, 0;
    ok := api.Read();
    if !ok { return; }
    var works := api.hub.works;
    var i := 0;
    ghost var p := l;
    while i < |works|
      invariant i == n <= |works| && works == l.hub.works && p == A.ApplyWorks(inp, l, works, i)
      invariant Follows(api.hub, cm.Value(), targets, p) && old(api.calls) <= api.calls
    {
      OneMore(inp, l, works, i, p);
      if Managed(works[i]) {
        ok, targets := UpgradeWork(inp, api, cm, works[i], targets, p);
        if !ok {
          WorksPrefix(inp, l, works, i + 1, |works|);
          n := n + 1;
          return;
        }
      }
      p := A.ApplyWork(inp, p, works[i]);
      i, n := i + 1, n + 1;
    }
    FollowsOn(api.hub, cm.Value(), targets, p);
    ok := true;
  }

  /** `finishUpgrade`: the local ConfigMap is closed and patched; `failed` is the error it is given to pass on. */
  method FinishUpgrade(api: ApiServer, cm: UpgraderConfigMap, failed: bool) returns (ok: bool)
    modifies api, cm
    ensures cm.Value() == A.Finished(old(cm.Value()))
    ensures api.hub == old(api.hub) || api.hub == A.PatchConfigMap(old(api.hub), A.Finished(old(cm.Value())))
    ensures ok ==> !failed && api.hub == A.PatchConfigMap(old(api.hub), A.Finished(old(cm.Value())))
    ensures old(api.calls) <= api.calls
    ensures api.Worked(old(api.calls)) ==>
              (ok <==> !failed) && api.hub == A.PatchConfigMap(old(api.hub), A.Finished(old(cm.Value())))
  {
    cm.Finish();
    var c := cm.Export();
    var closed := api.Write(A.PatchConfigMap(api.hub, c));
    ok := closed && !failed;
  }

  /** `recordPendingUpgrade`: targets and stamp go on the local ConfigMap, which is then patched. */
  method RecordPendingUpgrade(api: ApiServer, cm: UpgraderConfigMap, targets: seq<Target>, upgradeAt: string)
      returns (ok: bool)
    modifies api, cm
    ensures cm.Value() == A.Recorded(old(cm.Value()), targets, upgradeAt)
    ensures api.hub == old(api.hub)
            || api.hub == A.PatchConfigMap(old(api.hub), A.Recorded(old(cm.Value()), targets, upgradeAt))
    ensures ok ==> api.hub == A.PatchConfigMap(old(api.hub), A.Recorded(old(cm.Value()), targets, upgradeAt))
    ensures old(api.calls) <= api.calls && (api.Worked(old(api.calls)) ==> ok)
  {
    cm.Record(targets, upgradeAt);
    var c := cm.Export();
    ok := api.Write(A.PatchConfigMap(api.hub, c));
  }

  /** Close the run when there is nothing to watch, record it otherwise. */
  method SealRun(inp: Inputs, api: ApiServer, cm: UpgraderConfigMap, targets: seq<Target>, ghost l: A.Loop)
      returns (r: Reply)
    requires Follows(api.hub, cm.Value(), targets, l)
    modifies api, cm
    ensures var o := A.Seal(inp, l);
      && On(api.hub, o.trace)
      && (r.Requeue? ==> o.end.Waits? && api.hub == A.Last(o.trace))
      && (r.Finished? ==> o.end.Closed? && api.hub == A.Last(o.trace))
      && old(api.calls) <= api.calls
      && (api.Worked(old(api.calls)) ==> !r.Error?)
  {
    ghost var o := A.Seal(inp, l);
    LastOn(o.trace);
    LastOn(l.trace);
    OnPrefix(l.hub, l.trace, o.trace);
    if targets == [] {
      var ok := FinishUpgrade(api, cm, false);
      r := if ok then Finished else Error;
    } else {
      var ok := RecordPendingUpgrade(api, cm, targets, inp.binding.upgradeAt);
      r := if ok then Requeue else Error;
    }
  }

  /** `createConfigMapInSpokeClusterNamespace`, from the deletions to the creation. */
  method CreateRecord(inp: Inputs, api: ApiServer, cmName: string, now: int, ghost core: nat)
      returns (r: Option<UpgraderConfigMap>, ghost data: map<string, string>)
    requires inp.coreValues.Prepared? && FindWork(api.hub.works, OPSCENTER_CORE) == Some(core)
    modifies api
    ensures On(api.hub, A.ApplyUpgrade(inp, old(api.hub), cmName, now).trace)
    ensures r.Some? ==>
              && fresh(r.value)
              && A.WorksData(old(api.hub).works, |old(api.hub).works|, A.BaseData(inp.binding.version)) == Some(data)
              && var l := A.AfterCreate(inp, old(api.hub), cmName, now, data);
                 api.hub == l.hub && r.value.Value() == l.cm
    ensures old(api.calls) <= api.calls
    ensures api.Worked(old(api.calls)) ==>
              var d := A.WorksData(old(api.hub).works, |old(api.hub).works|, A.BaseData(inp.binding.version));
              && (r.Some? <==> d.Some?)
              && (d.None? ==> api.hub == A.Last(A.ApplyUpgrade(inp, old(api.hub), cmName, now).trace))
  {
    ghost var hub := api.hub;
    r, data := None, map[];
    var ok := DeleteStale(api);
    ClearOnTrace(inp, hub, cmName, now, api.hub);
    if !ok { return; }
    ok := api.Read();
    if !ok { return; }
    var d := InitialData(api.hub.works, A.BaseData(inp.binding.version));
    if d.None? { return; }
    data := d.value;
    var c := A.NewConfigMap(cmName, inp.binding.version, now, d.value);
    ok := api.Write(api.hub.(configMaps := [c]));
    ghost var l := A.AfterCreate(inp, hub, cmName, now, data);
    if api.hub == l.hub {
      LastOn(l.trace);
      OnPrefix(api.hub, l.trace, A.ApplyCore(inp, l, hub.works[core]).trace);
      CoreOnTrace(inp, hub, l, core, api.hub);
    }
    if ok {
      var cm := new UpgraderConfigMap(c);
      r := Some(cm);
    }
  }

  /** Both loops and the closing write of an apply whose ConfigMap exists. */
  method RunLoops(inp: Inputs, api: ApiServer, cm: UpgraderConfigMap, w: Work, ghost hub: Hub, ghost core: nat,
      ghost l: A.Loop)
      returns (r: Reply)
    requires inp.coreValues.Prepared? && core < |hub.works| && hub.works[core] == w
    requires Follows(api.hub, cm.Value(), [], l)
    modifies api, cm
    ensures var o := A.Seal(inp, A.Loops(inp, hub, l, core));
      && On(api.hub, o.trace)
      && (r.Requeue? ==> o.end.Waits? && api.hub == A.Last(o.trace))
      && (r.Finished? ==> o.end.Closed? && api.hub == A.Last(o.trace))
      && old(api.calls) <= api.calls
      && (api.Worked(old(api.calls)) ==> (r.Error? <==> o.end.Broken?) && api.hub == A.Last(o.trace))
  {
    var ok, targets := UpgradeCore(inp, api, cm, w, l);
    CoreOnTrace(inp, hub, l, core, api.hub);
    if !ok { return Error; }
    ghost var n;
    ok, targets, n := UpgradeFeatures(inp, api, cm, targets, A.ApplyCore(inp, l, w));
    WorksOnTrace(inp, hub, l, core, n, api.hub);
    if !ok { return Error; }
    r := SealRun(inp, api, cm, targets, A.Loops(inp, hub, l, core));
  }

  /** What an apply without an error leaves: every watched position rendered, on record if there is any. */
  ghost predicate Completed(inp: Inputs, before: Hub, now: int, waits: bool, after: Hub) {
    && inp.coreValues.Prepared? && after.works == AllUpgraded(inp, before.works) && after.status == before.status
    && |after.configMaps| == 1
    && RecordOf(inp, before.works, now, if waits then A.End.Waits else A.End.Closed, after.configMaps[0])
    && (waits <==> Watched(before.works) != [])
  }

  lemma CompletedApply(inp: Inputs, hub: Hub, cmName: string, now: int)
    requires DistinctNames(hub.works)
    ensures var o := A.ApplyUpgrade(inp, hub, cmName, now);
      && (o.end.Broken? <==> !Completable(inp, hub.works))
      && (!o.end.Broken? ==> Completed(inp, hub, now, o.end.Waits?, A.Last(o.trace)))
  {
    CompletesIff(inp, hub, cmName, now);
    if Completable(inp, hub.works) { ApplyCompletes(inp, hub, cmName, now); }
  }

  /** An apply that is not stopped by a failing call ends as specified, and with an error exactly if that does. */
  ghost predicate AppliesAs(o: A.Outcome, r: Reply, hub: Hub) {
    (r.Error? <==> o.end.Broken?) && (r.Requeue? <==> o.end.Waits?) && o.trace != [] && hub == A.Last(o.trace)
  }

  /** The steps of an apply, against the specified one. */
  method RunApply(inp: Inputs, api: ApiServer, cmName: string, now: int) returns (r: Reply)
    modifies api
    ensures var o := A.ApplyUpgrade(inp, old(api.hub), cmName, now);
      && On(api.hub, o.trace)
      && (!r.Error? ==> AppliesAs(o, r, api.hub))
      && old(api.calls) <= api.calls
      && (api.Worked(old(api.calls)) ==> AppliesAs(o, r, api.hub))
  {
    ghost var hub := api.hub;
    StartOn(inp, hub, cmName, now);
    var ok := api.Read();
    var core := FindWork(api.hub.works, OPSCENTER_CORE);
    if !ok || inp.coreValues.Failed? || core.None? { return Error; }
    var w := api.hub.works[core.value];
    var cm;
    ghost var data;
    cm, data := CreateRecord(inp, api, cmName, now, core.value);
    if cm.None? { return Error; }
    r := RunLoops(inp, api, cm.value, w, hub, core.value, A.AfterCreate(inp, hub, cmName, now, data));
  }

  /**
   `applyUpgrade`. Wherever a call fails, the hub is in a state the specified apply goes through. If none fails it goes
   all the way: it ends with an error only if something cannot be read or rendered, and else all works are upgraded,
   the one ConfigMap records that, and it asks to be called again exactly if there is something to watch.
   */
  method ApplyUpgrade(inp: Inputs, api: ApiServer, cmName: string, now: int) returns (r: Reply)
    modifies api
    ensures var o := A.ApplyUpgrade(inp, old(api.hub), cmName, now);
      && On(api.hub, o.trace)
      && (!r.Error? ==> AppliesAs(o, r, api.hub))
      && old(api.calls) <= api.calls
      && (api.Worked(old(api.calls)) ==> AppliesAs(o, r, api.hub))
    ensures DistinctNames(old(api.hub).works) && api.Worked(old(api.calls)) ==>
              (r.Error? <==> !Completable(inp, old(api.hub).works))
    ensures DistinctNames(old(api.hub).works) && !r.Error? ==>
              Completed(inp, old(api.hub), now, r.Requeue?, api.hub)
  {
    ghost var hub := api.hub;
    r := RunApply(inp, api, cmName, now);
    if DistinctNames(hub.works) { CompletedApply(inp, hub, cmName, now); }
  }

  // ---------- Observing ----------

  method FindPendingUpgrade(b: Binding, cms: seq<ConfigMap>) returns (r: R.Found)
    ensures r == R.FindPending(b, cms)
  {
    var i := 0;
    while i < |cms|
      invariant i <= |cms| && R.FindPending(b, cms) == R.FindPending(b, cms[i..])
    {
      assert cms[i..][0] == cms[i] && cms[i..][1..] == cms[i + 1..];
      if R.Resumable(b, cms[i]) {
        return match cms[i].targets.value
          case Corrupt => R.Malformed
          case Decoded(ts) => R.Run(cms[i], ts);
      }
      i := i + 1;
    }
    r := R.Nothing;
  }

  /** Which of `n` reads succeed, the first being call number `from`. */
  ghost function ReadsDone(network: nat -> Fate, from: nat, n: nat): (r: set<nat>)
    ensures forall k: nat :: k in r <==> k < n && network(from + k).Done?
  {
    if n == 0 then {}
    else ReadsDone(network, from, n - 1) + (if network(from + n - 1).Done? then {n - 1} else {})
  }

  /** The loop of `evaluateTargets`; a failed read leaves its target pending. */
  method SweepTargets(api: ApiServer, cm: UpgraderConfigMap, ts: seq<Target>)
      returns (pending: seq<Target>, becameReady: bool, ghost readable: set<nat>)
    modifies api`calls, cm`data
    ensures var s := R.EvaluateTargets(api.hub.works, ts, readable, old(cm.data), |ts|);
      && pending == s.pending && becameReady == s.becameReady
      && cm.Value() == old(cm.Value()).(data := s.data)
    ensures api.calls == old(api.calls) + |ts| && readable == ReadsDone(api.network, old(api.calls), |ts|)
  {
    ghost var data := cm.data;
    readable := ReadsDone(api.network, api.calls, |ts|);
    pending, becameReady := [], false;
    var n := 0;
    while n < |ts|
      invariant n <= |ts| && api.calls == old(api.calls) + n
      invariant R.EvaluateTargets(api.hub.works, ts, readable, data, n) == R.Sweep(pending, cm.data, becameReady)
      invariant cm.Value() == old(cm.Value()).(data := cm.data)
    {
      var t := ts[n];
      var ok := api.Read();
      assert ok <==> n in readable;
      var found := FindWork(api.hub.works, t.work);
      if !ok || found.None? {
        pending := pending + [t];
      } else if HelmReleaseReady(api.hub.works[found.value], t) {
        if !Labelled(cm.data, t.name, TRUE) {
          cm.Mark(t.name, TRUE);
          becameReady := true;
        }
      } else {
        pending := pending + [t];
      }
      n := n + 1;
    }
  }

  /** Every target's ManifestWork is there and reports it ready. */
  ghost predicate AllReady(works: seq<Work>, ts: seq<Target>) {
    forall k | 0 <= k < |ts| ::
      && FindWork(works, ts[k].work).Some?
      && HelmReleaseReady(works[FindWork(works, ts[k].work).value], ts[k])
  }

  lemma AllReadyIff(hub: Hub, cm: ConfigMap, ts: seq<Target>, readable: set<nat>, now: int)
    requires forall k: nat | k < |ts| :: k in readable
    ensures var v := R.ObserveUpgrade(hub, cm, ts, readable, now).verdict;
      && (v.Success? <==> AllReady(hub.works, ts))
      && (v.Waiting? <==> !AllReady(hub.works, ts) && now <= cm.created + R.TIMEOUT)
  {
    R.VerdictIff(hub, cm, ts, readable, now);
    forall k: nat | k < |ts|
      ensures R.SeenReady(hub.works, ts, readable, k) <==>
                && FindWork(hub.works, ts[k].work).Some?
                && HelmReleaseReady(hub.works[FindWork(hub.works, ts[k].work).value], ts[k])
    {
      assert k in readable;
    }
    if AllReady(hub.works, ts) {
      assert forall k | 0 <= k < |ts| :: R.SeenReady(hub.works, ts, readable, k);
    }
  }

  /** The reply to each verdict; giving up on a run is an error. */
  function ReplyTo(v: R.Verdict): Reply {
    match v
    case Success => Finished
    case Waiting => Requeue
    case TimedOut => Error
  }

  /** The steps of an observation, against the specified one. */
  method RunObserve(api: ApiServer, cm: UpgraderConfigMap, ts: seq<Target>, now: int)
      returns (r: Reply, ghost readable: set<nat>)
    modifies api, cm
    ensures var o := R.ObserveUpgrade(old(api.hub), old(cm.Value()), ts, readable, now);
      && On(api.hub, o.trace)
      && (!r.Error? ==> r == ReplyTo(o.verdict) && api.hub == A.Last(o.trace))
      && old(api.calls) + |ts| <= api.calls && readable == ReadsDone(api.network, old(api.calls), |ts|)
      && (api.Worked(old(api.calls)) ==> r == ReplyTo(o.verdict) && api.hub == A.Last(o.trace))
  {
    ghost var hub := api.hub;
    ghost var cm0 := cm.Value();
    var created := cm.created;
    var pending, becameReady;
    pending, becameReady, readable := SweepTargets(api, cm, ts);
    ghost var trace := R.ObserveUpgrade(hub, cm0, ts, readable, now).trace;
    assert trace[0] == hub;
    LastOn(trace);
    if becameReady {
      var c := cm.Export();
      assert trace[1] == A.PatchConfigMap(hub, c);
      var marked := api.Write(A.PatchConfigMap(api.hub, c));
      if !marked { return Error, readable; }
    }
    if pending == [] || now > created + R.TIMEOUT {
      var ok := FinishUpgrade(api, cm, pending != []);
      r := if ok then Finished else Error;
    } else {
      r := Requeue;
    }
  }

  /**
   `observeUpgrade`. If no call fails it reads every target, finishes exactly if all of them are ready, is called again
   exactly if some is not and 30 minutes have not passed, and writes all that is due.
   */
  method ObserveUpgrade(api: ApiServer, cm: UpgraderConfigMap, ts: seq<Target>, now: int)
      returns (r: Reply, ghost readable: set<nat>)
    modifies api, cm
    ensures var o := R.ObserveUpgrade(old(api.hub), old(cm.Value()), ts, readable, now);
      && On(api.hub, o.trace)
      && (!r.Error? ==> r == ReplyTo(o.verdict) && api.hub == A.Last(o.trace))
      && old(api.calls) <= api.calls
      && (api.Worked(old(api.calls)) ==> r == ReplyTo(o.verdict) && api.hub == A.Last(o.trace))
    ensures api.Worked(old(api.calls)) ==>
              && (forall k: nat | k < |ts| :: k in readable)
              && (r.Finished? <==> AllReady(old(api.hub).works, ts))
              && (r.Requeue? <==> !AllReady(old(api.hub).works, ts) && now <= cm.created + R.TIMEOUT)
  {
    ghost var hub, cm0 := api.hub, cm.Value();
    r, readable := RunObserve(api, cm, ts, now);
    if forall k: nat | k < |ts| :: k in readable { AllReadyIff(hub, cm0, ts, readable, now); }
  }
}
