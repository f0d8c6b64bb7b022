/**
 One whole `applyUpgrade` (pkg/cluster_upgrade/upgrader.go), with the creation of its ConfigMap
 (pkg/cluster_upgrade/upgrader_helper.go). A run is described by the sequence of hub states its API
 writes go through, so that a failure after any API call leaves one of those states.
*/
module Apply {
  import opened Wrappers
  import opened Cluster
  import opened Render
  import opened Rewrite

  // ---------- API writes ----------

  /** CreateOrPatch of a ManifestWork: only its spec is sent. */
  function PutSpec(hub: Hub, w: Work): Hub {
    hub.(works := seq(|hub.works|, i requires 0 <= i < |hub.works| =>
      if hub.works[i].name == w.name then hub.works[i].(manifests := w.manifests, configs := w.configs)
      else hub.works[i]))
  }

  predicate HasConfigMap(hub: Hub, name: string) {
    exists i | 0 <= i < |hub.configMaps| :: hub.configMaps[i].name == name
  }

  /** CreateOrPatch of the ConfigMap's data, as in the loops of `applyUpgrade`. */
  function PatchData(hub: Hub, cm: ConfigMap): Hub {
    if HasConfigMap(hub, cm.name) then
      hub.(configMaps := seq(|hub.configMaps|, i requires 0 <= i < |hub.configMaps| =>
        if hub.configMaps[i].name == cm.name then hub.configMaps[i].(data := cm.data) else hub.configMaps[i]))
    else hub.(configMaps := hub.configMaps + [cm])
  }

  function MergeAnnotations(stored: ConfigMap, cm: ConfigMap): ConfigMap {
    stored.(data := cm.data,
            upgradeAt := if cm.upgradeAt.Some? then cm.upgradeAt else stored.upgradeAt,
            targets := cm.targets,
            others := stored.others + cm.others)
  }

  /** `patchConfigMapData`: data, plus a merge of the annotations in which the targets may be dropped. */
  function PatchConfigMap(hub: Hub, cm: ConfigMap): Hub {
    if HasConfigMap(hub, cm.name) then
      hub.(configMaps := seq(|hub.configMaps|, i requires 0 <= i < |hub.configMaps| =>
        if hub.configMaps[i].name == cm.name then MergeAnnotations(hub.configMaps[i], cm) else hub.configMaps[i]))
    else hub.(configMaps := hub.configMaps + [cm])
  }

  /** `finishUpgrade` and `recordPendingUpgrade`, up to the patch. */
  function Finished(cm: ConfigMap): ConfigMap {
    cm.(data := cm.data[STATUS_KEY := COMPLETED], targets := None)
  }

  function Recorded(cm: ConfigMap, targets: seq<Target>, upgradeAt: string): ConfigMap {
    cm.(targets := Some(Decoded(targets)),
        upgradeAt := if upgradeAt != "" then Some(upgradeAt) else cm.upgradeAt)
  }

  /** A spec patch reaches the works of that name, and of those manifests and feedback options only. */
  lemma PutSpecReaches(hub: Hub, w: Work, i: nat)
    requires i < |hub.works|
    ensures var hub' := PutSpec(hub, w);
      && hub'.configMaps == hub.configMaps && hub'.status == hub.status && |hub'.works| == |hub.works|
      && var (x, y) := (hub.works[i], hub'.works[i]);
         && y.name == x.name && y.labels == x.labels && y.status == x.status
         && y.manifests == (if x.name == w.name then w.manifests else x.manifests)
         && y.configs == (if x.name == w.name then w.configs else x.configs)
  {
  }

  /**
   A patch of a ConfigMap replaces its data, sets or drops its targets, keeps its version, creation time and every
   annotation it does not set, and leaves other ConfigMaps and the rest of the hub alone.
   */
  lemma PatchReaches(hub: Hub, cm: ConfigMap, i: nat)
    requires i < |hub.configMaps| && HasConfigMap(hub, cm.name)
    ensures var hub' := PatchConfigMap(hub, cm);
      && hub'.works == hub.works && hub'.status == hub.status && |hub'.configMaps| == |hub.configMaps|
      && var (x, y) := (hub.configMaps[i], hub'.configMaps[i]);
         if x.name != cm.name then y == x
         else
           && y.name == x.name && y.version == x.version && y.created == x.created
           && y.data == cm.data && y.targets == cm.targets
           && y.upgradeAt == (if cm.upgradeAt.None? then x.upgradeAt else cm.upgradeAt)
           && forall k :: Entry(y.others, k) == if k in cm.others then Some(cm.others[k]) else Entry(x.others, k)
  {
  }

  /** The data patch of the loops reaches the data alone; a ConfigMap that is gone is created anew by either. */
  lemma DataPatchReaches(hub: Hub, cm: ConfigMap, i: nat)
    ensures i < |hub.configMaps| && HasConfigMap(hub, cm.name) ==>
              && |PatchData(hub, cm).configMaps| == |hub.configMaps|
              && PatchData(hub, cm).configMaps[i]
                 == if hub.configMaps[i].name == cm.name then hub.configMaps[i].(data := cm.data) else hub.configMaps[i]
    ensures PatchData(hub, cm).works == hub.works && PatchData(hub, cm).status == hub.status
    ensures !HasConfigMap(hub, cm.name) ==>
              PatchData(hub, cm).configMaps == hub.configMaps + [cm] == PatchConfigMap(hub, cm).configMaps
  {
  }

  // ---------- createConfigMapInSpokeClusterNamespace ----------

  function ManifestData(m: Manifest, data: map<string, string>): Option<map<string, string>> {
    if m.Unreadable? then None
    else if KindName(m).0 != HELM_RELEASE then Some(data)
    else if m.body.Foreign? then None
    else if !Labelled(m.labels, NAME_LABEL, FEATURE_SETS) then Some(data)
    else if m.name.value == FLUX_CD || m.name.value == OPSCENTER_FEATURES then Some(data)
    else Some(data[m.name.value := FALSE])
  }

  function ManifestsData(ms: seq<Manifest>, n: nat, data: map<string, string>): Option<map<string, string>>
    requires n <= |ms|
  {
    if n == 0 then Some(data)
    else match ManifestsData(ms, n - 1, data)
      case None => None
      case Some(d) => ManifestData(ms[n - 1], d)
  }

  function WorksData(works: seq<Work>, n: nat, data: map<string, string>): Option<map<string, string>>
    requires n <= |works|
  {
    if n == 0 then Some(data)
    else match WorksData(works, n - 1, data)
      case None => None
      case Some(d) =>
        if Managed(works[n - 1]) then ManifestsData(works[n - 1].manifests, |works[n - 1].manifests|, d) else Some(d)
  }

  function BaseData(version: string): map<string, string> {
    map[OPSCENTER_FEATURES := FALSE, "version" := version, STATUS_KEY := PENDING]
  }

  function NewConfigMap(name: string, version: string, now: int, data: map<string, string>): ConfigMap {
    ConfigMap(name, version, now - now % SECOND, data, None, None, map[])
  }

  const SECOND := 1_000_000_000

  /** The hub after the last write. */
  function Last(trace: seq<Hub>): Hub
    requires trace != []
  {
    trace[|trace| - 1]
  }

  // ---------- applyUpgrade ----------

  /** The state of the apply: hub, local ConfigMap, targets, the states passed through, and no error so far. */
  datatype Loop = Loop(hub: Hub, cm: ConfigMap, targets: seq<Target>, trace: seq<Hub>, ok: bool)

  /** Store an edited work, then the ConfigMap. */
  function Commit(l: Loop, e: Edit): (r: Loop)
    ensures |r.trace| > |l.trace|
  {
    var cm := l.cm.(data := e.data);
    var h1 := PutSpec(l.hub, e.work);
    var h2 := PatchData(h1, cm);
    Loop(h2, cm, e.targets, l.trace + [h1, h2], l.ok)
  }

  function ApplyCore(inp: Inputs, l: Loop, core: Work): (r: Loop)
    requires inp.coreValues.Prepared?
    ensures |r.trace| >= |l.trace|
  {
    match ScanCore(core.manifests)
    case Absent => l
    case Blocked => l.(ok := false)
    case At(_) => Commit(l, RewriteCore(inp, Edit(core, l.cm.data, l.targets)))
  }

  function ApplyWork(inp: Inputs, l: Loop, w: Work): (r: Loop)
    ensures |r.trace| >= |l.trace|
  {
    if !l.ok || !Managed(w) then l
    else match RewriteManifests(inp, Edit(w, l.cm.data, l.targets), |w.manifests|)
      case None => l.(ok := false)
      case Some(e) => Commit(l, e)
  }

  function ApplyWorks(inp: Inputs, l: Loop, works: seq<Work>, n: nat): (r: Loop)
    requires n <= |works|
    ensures |r.trace| >= |l.trace|
  {
    if n == 0 then l else ApplyWork(inp, ApplyWorks(inp, l, works, n - 1), works[n - 1])
  }

  /** How an apply ends: with an error of its own, with recorded targets, or with nothing to wait for. */
  datatype End = Broken | Waits | Closed

  datatype Outcome = Outcome(trace: seq<Hub>, end: End)

  /** `deleteStaleUpgraderConfigMaps` deletes in list order. */
  function ClearTrace(hub: Hub, n: nat): seq<Hub>
    requires n <= |hub.configMaps|
  {
    seq(n + 1, i requires 0 <= i <= n => hub.(configMaps := hub.configMaps[i..]))
  }

  function AfterCreate(inp: Inputs, hub: Hub, name: string, now: int, data: map<string, string>): Loop {
    var cm := NewConfigMap(name, inp.binding.version, now, data);
    var h := hub.(configMaps := [cm]);
    Loop(h, cm, [], ClearTrace(hub, |hub.configMaps|) + [h], true)
  }

  /** Both loops; the second one lists the works again. */
  function Loops(inp: Inputs, hub: Hub, l: Loop, core: nat): Loop
    requires inp.coreValues.Prepared? && core < |hub.works|
  {
    var l1 := ApplyCore(inp, l, hub.works[core]);
    if l1.ok then ApplyWorks(inp, l1, l1.hub.works, |l1.hub.works|) else l1
  }

  function Seal(inp: Inputs, l: Loop): Outcome {
    if !l.ok then Outcome(l.trace, Broken)
    else if l.targets == [] then Outcome(l.trace + [PatchConfigMap(l.hub, Finished(l.cm))], Closed)
    else Outcome(l.trace + [PatchConfigMap(l.hub, Recorded(l.cm, l.targets, inp.binding.upgradeAt))], Waits)
  }

  function ApplyUpgrade(inp: Inputs, hub: Hub, name: string, now: int): (r: Outcome)
    ensures r.trace != []
  {
    var core := FindWork(hub.works, OPSCENTER_CORE);
    if inp.coreValues.Failed? || core.None? then Outcome([hub], Broken)
    else match WorksData(hub.works, |hub.works|, BaseData(inp.binding.version))
      case None => Outcome(ClearTrace(hub, |hub.configMaps|), Broken)
      case Some(data) =>
        Seal(inp, Loops(inp, hub, AfterCreate(inp, hub, name, now, data), core.value))
  }

  // ---------- Every state on the way ----------

  /** Same works, apart from what a spec patch sends. */
  ghost predicate SameWorks(before: seq<Work>, after: seq<Work>) {
    && |before| == |after|
    && (forall i | 0 <= i < |before| ::
          after[i] == before[i].(manifests := after[i].manifests, configs := after[i].configs))
  }

  predicate IsSuffix(a: seq<ConfigMap>, b: seq<ConfigMap>) {
    |a| <= |b| && a == b[|b| - |a|..]
  }

  /** A state in which the run is not recorded: at most its own unmarked ConfigMap, or leftovers of the start. */
  ghost predicate Unrecorded(start: Hub, h: Hub) {
    && SameWorks(start.works, h.works)
    && h.status == start.status
    && (|h.configMaps| <= 1 || IsSuffix(h.configMaps, start.configMaps))
    && (forall cm | cm in h.configMaps :: cm in start.configMaps || cm.targets.None?)
  }

  ghost predicate UnrecordedTrace(start: Hub, trace: seq<Hub>) {
    trace != [] && trace[0] == start && forall i | 0 <= i < |trace| :: Unrecorded(start, trace[i])
  }

  /** The loop invariant of an apply started in `start`. */
  ghost predicate Running(start: Hub, l: Loop) {
    && UnrecordedTrace(start, l.trace)
    && l.trace[|l.trace| - 1] == l.hub
    && Unrecorded(start, l.hub)
    && l.hub.configMaps == [l.cm]
    && l.cm.targets.None?
  }

  lemma ClearRuns(inp: Inputs, hub: Hub, name: string, now: int, data: map<string, string>)
    ensures UnrecordedTrace(hub, ClearTrace(hub, |hub.configMaps|))
    ensures Running(hub, AfterCreate(inp, hub, name, now, data))
  {
    var t := ClearTrace(hub, |hub.configMaps|);
    forall i | 0 <= i < |t| ensures Unrecorded(hub, t[i]) {
      forall cm | cm in t[i].configMaps ensures cm in hub.configMaps {
      }
    }
  }

  lemma CommitRuns(start: Hub, l: Loop, e: Edit)
    requires Running(start, l)
    ensures Running(start, Commit(l, e))
  {
    var cm := l.cm.(data := e.data);
    var h1 := PutSpec(l.hub, e.work);
    assert SameWorks(start.works, h1.works);
    assert h1.configMaps[0].name == cm.name;
    assert PatchData(h1, cm).configMaps == [cm];
    assert Unrecorded(start, h1) && Unrecorded(start, PatchData(h1, cm));
  }

  lemma {:induction false} WorksRun(inp: Inputs, start: Hub, l: Loop, works: seq<Work>, n: nat)
    requires Running(start, l) && n <= |works|
    ensures Running(start, ApplyWorks(inp, l, works, n))
  {
    if n > 0 {
      WorksRun(inp, start, l, works, n - 1);
      var p := ApplyWorks(inp, l, works, n - 1);
      var w := works[n - 1];
      if p.ok && Managed(w) {
        var e := RewriteManifests(inp, Edit(w, p.cm.data, p.targets), |w.manifests|);
        if e.Some? {
          CommitRuns(start, p, e.value);
        }
      }
    }
  }

  lemma LoopsRun(inp: Inputs, start: Hub, l: Loop, core: nat)
    requires Running(start, l) && inp.coreValues.Prepared? && core < |start.works|
    ensures Running(start, Loops(inp, start, l, core))
  {
    var w := start.works[core];
    if ScanCore(w.manifests).At? {
      CommitRuns(start, l, RewriteCore(inp, Edit(w, l.cm.data, l.targets)));
    }
    var l1 := ApplyCore(inp, l, w);
    WorksRun(inp, start, l1, l1.hub.works, |l1.hub.works|);
  }

  lemma SealUnrecorded(inp: Inputs, start: Hub, l: Loop)
    requires Running(start, l)
    ensures var o := Seal(inp, l);
      && l.trace <= o.trace
      && (forall i | 0 <= i < |o.trace| && !(o.end.Waits? && i == |o.trace| - 1) :: Unrecorded(start, o.trace[i]))
  {
    var h := PatchConfigMap(l.hub, Finished(l.cm));
    assert l.hub.configMaps[0].name == l.cm.name;
    assert h.configMaps == [MergeAnnotations(l.cm, Finished(l.cm))];
    assert Unrecorded(start, h);
  }

  /** Until the very last write of an apply that has targets, nothing on the hub records the run. */
  lemma RecordComesLast(inp: Inputs, hub: Hub, name: string, now: int)
    ensures var o := ApplyUpgrade(inp, hub, name, now);
      && o.trace != [] && o.trace[0] == hub
      && (forall i | 0 <= i < |o.trace| && !(o.end.Waits? && i == |o.trace| - 1) :: Unrecorded(hub, o.trace[i]))
  {
    var core := FindWork(hub.works, OPSCENTER_CORE);
    if inp.coreValues.Prepared? && core.Some? {
      var data := WorksData(hub.works, |hub.works|, BaseData(inp.binding.version));
      ClearRuns(inp, hub, name, now, data.GetOr(map[]));
      if data.Some? {
        var l := AfterCreate(inp, hub, name, now, data.value);
        LoopsRun(inp, hub, l, core.value);
        SealUnrecorded(inp, hub, Loops(inp, hub, l, core.value));
      }
    }
  }
}
