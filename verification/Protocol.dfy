/**
 The hub/spoke upgrade protocol as a state machine: the reconciler of
 pkg/controller/managedclusterprofilebinding_controller.go with UpgradeCluster
 (pkg/cluster_upgrade/upgrader.go), the work agent, flux, the feedback sync and the clock.
*/
module Protocol {
  import opened Wrappers
  import opened JsonValue
  import opened Cluster
  import opened Feedback
  import opened Render
  import opened Rewrite
  import opened Apply
  import opened RunRecord
  import opened Pinning

  datatype Key = Key(ns: string, name: string)
  datatype Feed = Feed(work: string, key: Key)

  /** `snaps` remembers, per ManifestWork and release, the spoke object the stored feedback was read from. */
  datatype System = System(hub: Hub, spoke: map<Key, SpokeRelease>, snaps: map<Feed, SpokeRelease>, now: int)

  predicate IsRelease(m: Manifest) {
    Typed(m) && m.kind == Some(HELM_RELEASE)
  }

  function KeyOf(m: Manifest): Key
    requires Typed(m)
  {
    Key(m.ns, m.name.value)
  }

  function SpokeAt(spoke: map<Key, SpokeRelease>, key: Key): Option<SpokeRelease> {
    if key in spoke then Some(spoke[key]) else None
  }

  function SnapAt(snaps: map<Feed, SpokeRelease>, feed: Feed): Option<SpokeRelease> {
    if feed in snaps then Some(snaps[feed]) else None
  }

  // ---------- Reconcile ----------

  predicate NeedsUpgrade(b: Binding, st: Status) {
    || (b.version != "" && b.version != st.observedVersion)
    || (b.upgradeAt != "" && b.upgradeTime.Some? && st.lastUpgradeAt != b.upgradeTime.value)
  }

  predicate ShouldEnableFeatures(inp: Inputs) {
    inp.profileVersion == inp.binding.version || inp.binding.version == ""
  }

  /** The version of the first manifest named opscenter-features, read back from the ManifestWork. */
  function VersionOf(works: seq<Work>): string {
    match FindWork(works, OPSCENTER_CORE)
    case None => ""
    case Some(i) =>
      match ScanCore(works[i].manifests)
      case At(j) => works[i].manifests[j].body.spec.chartVersion
      case _ => ""
  }

  /** What a reconcile meets on its way; everything the environment may choose. */
  datatype Choice = Choice(
    stop: nat, readable: set<nat>, cmName: string, enabled: seq<Work>, enabledOk: bool,
    coreReadable: bool, statusWritten: bool)

  /** `setOpscenterFeaturesVersion` without an upgrade error; a failed read of the ManifestWork blanks the version. */
  function AfterStatus(b: Binding, hub: Hub, c: Choice): Hub {
    if !c.statusWritten || (b.upgradeAt != "" && b.upgradeTime.None?) then hub
    else
      hub.(status := Status(
        if c.coreReadable then VersionOf(hub.works) else "",
        if b.upgradeAt != "" then b.upgradeTime.value - b.upgradeTime.value % SECOND else hub.status.lastUpgradeAt))
  }

  ghost predicate StatusFrom(works: seq<Work>, w: Work) {
    exists i | 0 <= i < |works| :: works[i].name == w.name && works[i].status == w.status
  }

  /** EnableFeatures may rewrite the ManifestWorks at will, but names stay unique and feedback is not its to write. */
  ghost predicate EnabledWorks(before: seq<Work>, after: seq<Work>) {
    && DistinctNames(after)
    && forall i | 0 <= i < |after| :: after[i].status == [] || StatusFrom(before, after[i])
  }

  /** UpgradeCluster stops after some API write; only a finished run goes on to the status. */
  ghost predicate StopsAt(b: Binding, trace: seq<Hub>, finished: bool, c: Choice, hub': Hub) {
    && c.stop < |trace|
    && hub' == if finished && c.stop == |trace| - 1 then AfterStatus(b, trace[c.stop], c) else trace[c.stop]
  }

  ghost predicate ReconcileStep(inp: Inputs, s: System, c: Choice, hub': Hub) {
    var hub := s.hub;
    if !inp.profileValid then hub' == hub
    else if NeedsUpgrade(inp.binding, hub.status) then
      match FindPending(inp.binding, hub.configMaps)
      case Malformed => hub' == hub
      case Run(cm, ts) =>
        var o := ObserveUpgrade(hub, cm, ts, c.readable, s.now);
        StopsAt(inp.binding, o.trace, o.verdict.Success?, c, hub')
      case Nothing =>
        var o := ApplyUpgrade(inp, hub, c.cmName, s.now);
        StopsAt(inp.binding, o.trace, o.end.Closed?, c, hub')
    else if ShouldEnableFeatures(inp) then
      && EnabledWorks(hub.works, c.enabled)
      && hub' == (if c.enabledOk then AfterStatus(inp.binding, hub.(works := c.enabled), c)
            else hub.(works := c.enabled))
    else hub' == AfterStatus(inp.binding, hub, c)
  }

  // ---------- Feedback ----------

  /** The integer entry of that name is the field's, or, unless all must be reported, missing. */
  ghost predicate ReportsInt(values: seq<FeedbackValue>, name: string, field: Option<int>, complete: bool) {
    FirstInt(values, name, field) || (!complete && FirstInt(values, name, None))
  }

  ghost predicate ReportsText(values: seq<FeedbackValue>, name: string, field: Option<string>, complete: bool) {
    FirstText(values, name, field) || (!complete && FirstText(values, name, None))
  }

  /** Feedback values read from one object, or from none; `complete` when the rules report every field. */
  ghost predicate Reports(values: seq<FeedbackValue>, snap: Option<SpokeRelease>, complete: bool) {
    match snap
    case None => values == []
    case Some(o) =>
      && ReportsInt(values, GENERATION, Some(o.generation), complete)
      && ReportsInt(values, OBSERVED_GENERATION, o.observed, complete)
      && ReportsText(values, READY, o.ready, complete)
  }

  ghost predicate ReadsField<T>(value: Option<T>, field: Option<T>, complete: bool) {
    value == field || (!complete && value == None)
  }

  /** What the readers of feedback make of such values. */
  lemma ReportsIff(values: seq<FeedbackValue>, o: SpokeRelease, complete: bool)
    ensures Reports(values, Some(o), complete) <==>
            && ReadsField(FeedbackInt(values, GENERATION), Some(o.generation), complete)
            && ReadsField(FeedbackInt(values, OBSERVED_GENERATION), o.observed, complete)
            && ReadsField(FeedbackString(values, READY), o.ready, complete)
  {
    FeedbackIntIff(values, GENERATION, Some(o.generation));
    FeedbackIntIff(values, GENERATION, None);
    FeedbackIntIff(values, OBSERVED_GENERATION, o.observed);
    FeedbackIntIff(values, OBSERVED_GENERATION, None);
    FeedbackStringIff(values, READY, o.ready);
    FeedbackStringIff(values, READY, None);
  }

  ghost predicate HasManifest(w: Work, key: Key) {
    exists j | 0 <= j < |w.manifests| :: IsRelease(w.manifests[j]) && KeyOf(w.manifests[j]) == key
  }

  /** One release's condition is replaced; the others read as before. */
  ghost predicate StatusUpdated(w: Work, status: seq<Condition>, key: Key, values: seq<FeedbackValue>, applied: bool) {
    && HelmReleaseFeedback(w.(status := status), key.ns, key.name) == (values, applied)
    && forall k: Key | k != key ::
         HelmReleaseFeedback(w.(status := status), k.ns, k.name) == HelmReleaseFeedback(w, k.ns, k.name)
  }

  // ---------- Steps ----------

  datatype Label =
    | Reconcile(c: Choice)
    | AgentApply(p: Pos)
    | AgentPrune(key: Key)
    | FluxReconcile(key: Key, o: SpokeRelease)
    | FeedbackSync(work: nat, key: Key, status: seq<Condition>, values: seq<FeedbackValue>, applied: bool)
    | StoreNulls(p: Pos, raw: Option<Json>)
    | Tick(elapsed: nat)

  function PutManifest(works: seq<Work>, p: Pos, m: Manifest): seq<Work>
    requires p.work < |works| && p.manifest < |works[p.work].manifests|
  {
    works[p.work := works[p.work].(manifests := works[p.work].manifests[p.manifest := m])]
  }

  /** The object a sync of this release reads: a ManifestWork reports only what it still lists. */
  ghost function Synced(s: System, w: Work, key: Key): Option<SpokeRelease> {
    if HasManifest(w, key) then SpokeAt(s.spoke, key) else None
  }

  function SetSnap(snaps: map<Feed, SpokeRelease>, feed: Feed, o: Option<SpokeRelease>): map<Feed, SpokeRelease> {
    match o
    case Some(x) => snaps[feed := x]
    case None => snaps - {feed}
  }

  ghost predicate Step(inp: Inputs, s: System, l: Label, s': System) {
    match l
    case Reconcile(c) => ReconcileStep(inp, s, c, s'.hub) && s' == s.(hub := s'.hub)
    case AgentApply(p) =>
      && InBounds(s.hub.works, p) && IsRelease(ManifestAt(s.hub.works, p))
      && var m := ManifestAt(s.hub.works, p);
         s' == s.(spoke := s.spoke[KeyOf(m) := Applied(Canon(m.body.spec), SpokeAt(s.spoke, KeyOf(m)))])
    case AgentPrune(key) =>
      && (forall i | 0 <= i < |s.hub.works| :: !HasManifest(s.hub.works[i], key))
      && s' == s.(spoke := s.spoke - {key})
    case FluxReconcile(key, o) =>
      key in s.spoke && FluxStep(s.spoke[key], o) && s' == s.(spoke := s.spoke[key := o])
    case FeedbackSync(i, key, status, values, applied) =>
      && i < |s.hub.works|
      && var w := s.hub.works[i];
         var o := Synced(s, w, key);
         && StatusUpdated(w, status, key, values, applied)
         && Reports(values, o, CarriesRules(w.configs, key.ns, key.name))
         && s' == s.(hub := s.hub.(works := s.hub.works[i := w.(status := status)]),
                     snaps := SetSnap(s.snaps, Feed(w.name, key), o))
    case StoreNulls(p, raw) =>
      && InBounds(s.hub.works, p) && Typed(ManifestAt(s.hub.works, p))
      && var m := ManifestAt(s.hub.works, p);
         var spec := m.body.spec.(values := raw);
         SameModuloNulls(m.body.spec, spec)
         && s' == s.(hub := s.hub.(works := PutManifest(s.hub.works, p, WithSpec(m, spec))))
    case Tick(elapsed) => s' == s.(now := s.now + elapsed)
  }

  // ---------- Runs ----------

  ghost predicate FeedbackInv(s: System, w: Work) {
    forall k: Key :: Reports(HelmReleaseFeedback(w, k.ns, k.name).0, SnapAt(s.snaps, Feed(w.name, k)), false)
  }

  /** Stored feedback was read from the remembered objects, and all objects honour flux's contract. */
  ghost predicate StoreInv(s: System) {
    && DistinctNames(s.hub.works)
    && (forall k | k in s.spoke :: FluxContract(s.spoke[k]))
    && (forall f | f in s.snaps :: FluxContract(s.snaps[f]))
    && (forall i | 0 <= i < |s.hub.works| :: FeedbackInv(s, s.hub.works[i]))
  }

  /** The start of a history: no run on record. */
  ghost predicate Init(inp: Inputs, s: System) {
    StoreInv(s) && FindPending(inp.binding, s.hub.configMaps).Nothing?
  }

  ghost predicate StepAt(inp: Inputs, ss: seq<System>, ls: seq<Label>, i: nat)
    requires |ss| == |ls| + 1 && i < |ls|
  {
    Step(inp, ss[i], ls[i], ss[i + 1])
  }

  /** Steps taken one after the other, under a constant binding, profile and catalog. */
  ghost predicate IsPath(inp: Inputs, ss: seq<System>, ls: seq<Label>) {
    |ss| == |ls| + 1 && forall i | 0 <= i < |ls| :: StepAt(inp, ss, ls, i)
  }

  /** A history: a path that starts with no run on record. */
  ghost predicate IsRun(inp: Inputs, ss: seq<System>, ls: seq<Label>) {
    IsPath(inp, ss, ls) && Init(inp, ss[0])
  }

  // ---------- The pending run ----------

  /** The ConfigMap of a run that the next observing reconcile takes up. */
  ghost predicate Pending(inp: Inputs, s: System) {
    FindPending(inp.binding, s.hub.configMaps).Run?
  }

  ghost function Awaited(inp: Inputs, s: System): seq<Target>
    requires Pending(inp, s)
  {
    FindPending(inp.binding, s.hub.configMaps).targets
  }

  /** Pending in the states from `m` on, before `n`. */
  ghost predicate PendingFrom(inp: Inputs, ss: seq<System>, m: nat, n: nat)
    requires m <= n <= |ss|
  {
    forall i | m <= i < n :: Pending(inp, ss[i])
  }
}
