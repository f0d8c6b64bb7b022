/**
 The upgrader ConfigMap as the record of a run: finding it, observing its targets, closing it
 (pkg/cluster_upgrade/upgrader_helper.go, observeUpgrade in pkg/cluster_upgrade/upgrader.go).
*/
module RunRecord {
  import opened Wrappers
  import opened Cluster
  import opened Apply

  // ---------- findPendingUpgrade ----------

  predicate Matches(b: Binding, cm: ConfigMap) {
    && cm.version == b.version
    && Labelled(cm.data, STATUS_KEY, PENDING)
    && cm.upgradeAt.GetOr("") == b.upgradeAt
  }

  /** The ConfigMap of a run of `b` that an observing reconcile takes up. */
  predicate Resumable(b: Binding, cm: ConfigMap) {
    Matches(b, cm) && cm.targets.Some?
  }

  datatype Found = Nothing | Malformed | Run(cm: ConfigMap, targets: seq<Target>)

  function FindPending(b: Binding, cms: seq<ConfigMap>): (r: Found) {
    if cms == [] then Nothing
    else if !Resumable(b, cms[0]) then FindPending(b, cms[1..])
    else if cms[0].targets.value.Corrupt? then Malformed
    else Run(cms[0], cms[0].targets.value.targets)
  }

  /** The scan finds nothing exactly when there is nothing to resume, and what it finds is resumable. */
  lemma {:induction false} PendingFound(b: Binding, cms: seq<ConfigMap>)
    ensures FindPending(b, cms).Nothing? <==> forall cm | cm in cms :: !Resumable(b, cm)
    ensures var r := FindPending(b, cms);
      r.Run? ==> r.cm in cms && Resumable(b, r.cm) && r.cm.targets == Some(Decoded(r.targets))
  {
    if cms != [] {
      PendingFound(b, cms[1..]);
      assert forall cm :: cm in cms <==> cm == cms[0] || cm in cms[1..];
    }
  }

  /**
   What `recordPendingUpgrade` stores is found again, with the full list, by exactly the bindings whose
   version and force-upgrade stamp it carries, as long as it is pending.
   */
  lemma FindAfterRecord(b: Binding, hub: Hub, stored: ConfigMap, cm: ConfigMap, ts: seq<Target>, upgradeAt: string)
    requires hub.configMaps == [stored] && stored.name == cm.name
    requires stored.upgradeAt.None? && cm.upgradeAt.None?
    ensures var cms := PatchConfigMap(hub, Recorded(cm, ts, upgradeAt)).configMaps;
      && |cms| == 1
      && FindPending(b, cms) ==
         if stored.version == b.version && upgradeAt == b.upgradeAt && Labelled(cm.data, STATUS_KEY, PENDING)
         then Run(cms[0], ts) else Nothing
  {
    var h := PatchConfigMap(hub, Recorded(cm, ts, upgradeAt));
    assert hub.configMaps[0].name == cm.name;
    assert h.configMaps == [MergeAnnotations(stored, Recorded(cm, ts, upgradeAt))];
  }

  // ---------- evaluateTargets ----------

  /** `ready` at index k of the targets; unreadable and missing works count as not ready. */
  predicate SeenReady(works: seq<Work>, ts: seq<Target>, readable: set<nat>, k: nat)
    requires k < |ts|
  {
    && k in readable
    && FindWork(works, ts[k].work).Some?
    && HelmReleaseReady(works[FindWork(works, ts[k].work).value], ts[k])
  }

  datatype Sweep = Sweep(pending: seq<Target>, data: map<string, string>, becameReady: bool)

  function EvaluateTargets(works: seq<Work>, ts: seq<Target>, readable: set<nat>, data: map<string, string>,
      n: nat): Sweep
    requires n <= |ts|
  {
    if n == 0 then Sweep([], data, false)
    else
      var s := EvaluateTargets(works, ts, readable, data, n - 1);
      var t := ts[n - 1];
      if !SeenReady(works, ts, readable, n - 1) then s.(pending := s.pending + [t])
      else if Labelled(s.data, t.name, TRUE) then s
      else s.(data := s.data[t.name := TRUE], becameReady := true)
  }

  /** Some target of that name was seen ready. */
  ghost predicate NameReady(works: seq<Work>, ts: seq<Target>, readable: set<nat>, n: nat, name: string)
    requires n <= |ts|
  {
    exists k | 0 <= k < n :: ts[k].name == name && SeenReady(works, ts, readable, k)
  }

  /** A mark is True after a sweep exactly when it was before or its release was seen ready; other data stays. */
  lemma {:induction false} SweepMarks(works: seq<Work>, ts: seq<Target>, readable: set<nat>, data: map<string, string>,
      n: nat, name: string)
    requires n <= |ts|
    ensures var s := EvaluateTargets(works, ts, readable, data, n);
      && (Labelled(s.data, name, TRUE) <==> Labelled(data, name, TRUE) || NameReady(works, ts, readable, n, name))
      && (!NameReady(works, ts, readable, n, name) ==>
            (name in s.data <==> name in data) && (name in data ==> s.data[name] == data[name]))
  {
    if n > 0 {
      SweepMarks(works, ts, readable, data, n - 1, name);
    }
  }

  /** The patch is due exactly when a mark changed. */
  lemma {:induction false} SweepChanges(works: seq<Work>, ts: seq<Target>, readable: set<nat>,
      data: map<string, string>, n: nat)
    requires n <= |ts|
    ensures var s := EvaluateTargets(works, ts, readable, data, n);
      s.becameReady <==> s.data != data
  {
    if n > 0 {
      SweepChanges(works, ts, readable, data, n - 1);
      var t := ts[n - 1];
      var s := EvaluateTargets(works, ts, readable, data, n - 1);
      if SeenReady(works, ts, readable, n - 1) && !Labelled(s.data, t.name, TRUE) {
        SweepMarks(works, ts, readable, data, n - 1, t.name);
        assert !Labelled(data, t.name, TRUE);
        assert Labelled(s.data[t.name := TRUE], t.name, TRUE);
      }
    }
  }

  /** Nothing stays pending exactly when every target was seen ready. */
  lemma {:induction false} SweepPending(works: seq<Work>, ts: seq<Target>, readable: set<nat>,
      data: map<string, string>, n: nat)
    requires n <= |ts|
    ensures var s := EvaluateTargets(works, ts, readable, data, n);
      && (s.pending == [] <==> forall k | 0 <= k < n :: SeenReady(works, ts, readable, k))
      && (forall t | t in s.pending :: exists k | 0 <= k < n :: ts[k] == t && !SeenReady(works, ts, readable, k))
  {
    if n > 0 {
      SweepPending(works, ts, readable, data, n - 1);
    }
  }

  /** And every target that was not seen ready stays pending. */
  lemma {:induction false} SweepKeeps(works: seq<Work>, ts: seq<Target>, readable: set<nat>,
      data: map<string, string>, n: nat, k: nat)
    requires k < n <= |ts| && !SeenReady(works, ts, readable, k)
    ensures ts[k] in EvaluateTargets(works, ts, readable, data, n).pending
  {
    if k < n - 1 { SweepKeeps(works, ts, readable, data, n - 1, k); }
  }

  // ---------- observeUpgrade ----------

  const TIMEOUT := 1800 * SECOND
  const POLL_INTERVAL := 6 * SECOND

  datatype Verdict = Success | TimedOut | Waiting
  datatype Observation = Observation(trace: seq<Hub>, verdict: Verdict)

  function ObserveUpgrade(hub: Hub, cm: ConfigMap, ts: seq<Target>, readable: set<nat>, now: int): Observation {
    var s := EvaluateTargets(hub.works, ts, readable, cm.data, |ts|);
    var marked := cm.(data := s.data);
    var h := if s.becameReady then PatchConfigMap(hub, marked) else hub;
    var trace := if s.becameReady then [hub, h] else [hub];
    if s.pending == [] then Observation(trace + [PatchConfigMap(h, Finished(marked))], Success)
    else if now > cm.created + TIMEOUT then Observation(trace + [PatchConfigMap(h, Finished(marked))], TimedOut)
    else Observation(trace, Waiting)
  }

  /** An observation succeeds exactly when it sees every target ready, and gives up only past the deadline. */
  lemma VerdictIff(hub: Hub, cm: ConfigMap, ts: seq<Target>, readable: set<nat>, now: int)
    ensures var v := ObserveUpgrade(hub, cm, ts, readable, now).verdict;
      var all := forall k | 0 <= k < |ts| :: SeenReady(hub.works, ts, readable, k);
      && (v.Success? <==> all)
      && (v.TimedOut? <==> !all && now > cm.created + TIMEOUT)
  {
    SweepPending(hub.works, ts, readable, cm.data, |ts|);
  }

  lemma PatchOne(hub: Hub, stored: ConfigMap, cm: ConfigMap)
    requires hub.configMaps == [stored]
    requires cm == stored.(data := cm.data, targets := cm.targets)
    ensures PatchConfigMap(hub, cm).configMaps == [cm]
  {
    assert hub.configMaps[0].name == cm.name;
    assert stored.others + cm.others == stored.others;
    assert MergeAnnotations(stored, cm) == cm;
  }

  /** A run closed without an error shows True for every target. */
  lemma SuccessMarksAll(hub: Hub, cm: ConfigMap, ts: seq<Target>, readable: set<nat>, now: int, k: nat)
    requires ObserveUpgrade(hub, cm, ts, readable, now).verdict.Success?
    requires hub.configMaps == [cm] && k < |ts| && ts[k].name != STATUS_KEY
    ensures var trace := ObserveUpgrade(hub, cm, ts, readable, now).trace;
      var cms := trace[|trace| - 1].configMaps;
      |cms| == 1 && Labelled(cms[0].data, ts[k].name, TRUE) && Labelled(cms[0].data, STATUS_KEY, COMPLETED)
  {
    var s := EvaluateTargets(hub.works, ts, readable, cm.data, |ts|);
    SweepPending(hub.works, ts, readable, cm.data, |ts|);
    SweepMarks(hub.works, ts, readable, cm.data, |ts|, ts[k].name);
    assert SeenReady(hub.works, ts, readable, k);
    var marked := cm.(data := s.data);
    var h := if s.becameReady then PatchConfigMap(hub, marked) else hub;
    PatchOne(hub, cm, marked);
    PatchOne(h, h.configMaps[0], Finished(marked));
  }

  // ---------- Bounded wait ----------

  /** Times of timer-driven observations of one run: one poll after the apply, and then at least a poll apart. */
  ghost predicate Timed(applied: int, times: seq<int>) {
    && (times != [] ==> times[0] >= applied + POLL_INTERVAL)
    && forall i | 0 < i < |times| :: times[i] >= times[i - 1] + POLL_INTERVAL
  }

  lemma {:induction false} TimesGrow(applied: int, times: seq<int>, i: nat)
    requires Timed(applied, times) && i < |times|
    ensures times[i] >= applied + (i + 1) * POLL_INTERVAL
  {
    if i > 0 {
      TimesGrow(applied, times, i - 1);
    }
  }

  /** 300 such times fit, so that the next bound is sharp. */
  lemma WaitsFit(applied: int) returns (times: seq<int>)
    ensures |times| == 300 && Timed(applied, times) && forall i | 0 <= i < 300 :: times[i] <= applied + TIMEOUT
  {
    times := seq(300, i requires 0 <= i < 300 => applied + (i + 1) * POLL_INTERVAL);
  }

  /** Past 30 minutes from its creation, and not before, a run that is not ready is given up. */
  lemma GivesUpIff(hub: Hub, cm: ConfigMap, ts: seq<Target>, readable: set<nat>, now: int)
    ensures ObserveUpgrade(hub, cm, ts, readable, now).verdict.TimedOut? <==>
              && now - cm.created > 30 * 60 * 1_000_000_000
              && exists k | 0 <= k < |ts| :: !SeenReady(hub.works, ts, readable, k)
  {
    VerdictIff(hub, cm, ts, readable, now);
  }

  /** At most 300 such times lie before the deadline. */
  lemma BoundedWait(applied: int, times: seq<int>)
    requires Timed(applied, times) && forall i | 0 <= i < |times| :: times[i] <= applied + TIMEOUT
    ensures |times| <= 300
  {
    if times != [] {
      TimesGrow(applied, times, |times| - 1);
    }
  }
}
