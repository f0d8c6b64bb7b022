/**
 The objects the hub stores for one managed cluster namespace, as the upgrader reads them
 (pkg/cluster_upgrade/upgrader.go, pkg/cluster_upgrade/upgrader_helper.go, pkg/common/constants.go).
*/
module Cluster {
  import opened Wrappers
  import opened JsonValue

  const HELM_RELEASE := "HelmRelease"
  const OPSCENTER_CORE := "opscenter-core"
  const OPSCENTER_FEATURES := "opscenter-features"
  const FLUX_CD := "flux2"
  const MANAGED_LABEL := "featureset.appscode.com/managed"
  const COMPONENT_LABEL := "app.kubernetes.io/component"
  const NAME_LABEL := "app.kubernetes.io/name"
  const FEATURE_SETS := "featuresets.ui.k8s.appscode.com"
  const STATUS_KEY := "status"
  const PENDING := "pending"
  const COMPLETED := "completed"
  const TRUE := "True"
  const FALSE := "False"
  const READY := "Ready"
  const RELEASED := "Released"
  const GENERATION := "Generation"
  const OBSERVED_GENERATION := "ObservedGeneration"

  // ---------- HelmRelease specs and manifests ----------

  datatype Install = Install(createNamespace: bool, rest: map<string, Json>)

  /** The typed HelmRelease spec. `chart` and `rest` hold the fields the upgrader never touches. */
  datatype Spec = Spec(
    chart: map<string, Json>, chartVersion: string, valuesFrom: seq<Json>, values: Option<Json>,
    targetNamespace: string, storageNamespace: string, install: Option<Install>, rest: map<string, Json>)

  datatype Field = Field(key: string, value: Option<Json>)

  /** `m` with a field laid over it, which `omitempty` leaves out when it has no value. */
  function Overlay(m: map<string, Json>, f: Field): map<string, Json> {
    if f.value.Some? then m[f.key := f.value.value] else m - {f.key}
  }

  function Text(key: string, v: string): Field {
    Field(key, if v == "" then None else Some(Str(v)))
  }

  function InstallJson(i: Install): Json {
    Obj(Overlay(i.rest, Field("createNamespace", if i.createNamespace then Some(Bool(true)) else None)))
  }

  function ChartJson(s: Spec): Json {
    Obj(map["spec" := Obj(Overlay(s.chart, Text("version", s.chartVersion)))])
  }

  /** The fields laid over `rest`, in turn; the raw values come last. */
  function FieldAt(s: Spec, i: nat): Field {
    match i
    case 0 => Field("chart", Some(ChartJson(s)))
    case 1 => Field("valuesFrom", if s.valuesFrom == [] then None else Some(Arr(s.valuesFrom)))
    case 2 => Text("targetNamespace", s.targetNamespace)
    case 3 => Text("storageNamespace", s.storageNamespace)
    case 4 => Field("install", if s.install.None? then None else Some(InstallJson(s.install.value)))
    case _ => Field("values", s.values)
  }

  function Members(s: Spec, n: nat): map<string, Json> {
    if n == 0 then s.rest else Overlay(Members(s, n - 1), FieldAt(s, n - 1))
  }

  /** The spec as JSON: what `utils.Copy(hr.Spec, &m)` yields. */
  function SpecJson(s: Spec): Json {
    Obj(Members(s, 6))
  }

  /** The spec modulo nulls: the only thing `specChanged` and the spoke tell apart. */
  function Canon(s: Spec): Json {
    Prune(SpecJson(s))
  }

  /** What decoding the manifest as a HelmRelease gives; `Foreign` when that fails. */
  datatype Body = Foreign | Release(spec: Spec)

  /** `Unreadable` bytes make `utils.Copy` or `GetKindNameNamespace` fail. */
  datatype Manifest =
    | Unreadable
    | Object(kind: Option<string>, name: Option<string>, ns: string, labels: map<string, string>, body: Body)

  /** `GetKindNameNamespace`: a missing kind or name blanks both, without an error. */
  function KindName(m: Manifest): (string, string)
    requires m.Object?
  {
    if m.kind.Some? && m.name.Some? then (m.kind.value, m.name.value) else ("", "")
  }

  predicate Labelled(labels: map<string, string>, key: string, v: string) {
    key in labels && labels[key] == v
  }

  function Entry(data: map<string, string>, key: string): Option<string> {
    if key in data then Some(data[key]) else None
  }

  // ---------- ManifestWorks ----------

  datatype FeedbackValue = FeedbackValue(name: string, integer: Option<int>, text: Option<string>)
  datatype Condition = Condition(kind: string, ns: string, name: string, applied: bool, values: seq<FeedbackValue>)

  /** The JSON paths of the feedback rules, by what they read; `OtherPath` is any other. */
  datatype FieldPath =
    | ReadyStatus | ReleasedStatus | MetadataGeneration | StatusObservedGeneration | OtherPath(text: string)
  datatype JsonPath = JsonPath(name: string, path: FieldPath)
  datatype ConfigOption = ConfigOption(group: string, resource: string, ns: string, name: string, rules: seq<JsonPath>)
  datatype Work = Work(
    name: string, labels: map<string, string>, manifests: seq<Manifest>, configs: seq<ConfigOption>,
    status: seq<Condition>)

  predicate Managed(w: Work) {
    Labelled(w.labels, MANAGED_LABEL, "true")
  }

  // ---------- The upgrader ConfigMap ----------

  datatype Target = Target(work: string, ns: string, name: string, minGeneration: int)

  /** The targets annotation, decoded. */
  datatype Annotation = Corrupt | Decoded(targets: seq<Target>)

  datatype ConfigMap = ConfigMap(
    name: string, version: string, created: int, data: map<string, string>,
    upgradeAt: Option<string>, targets: Option<Annotation>, others: map<string, string>)

  /** The binding's status; time 0 is the zero `metav1.Time`. */
  datatype Status = Status(observedVersion: string, lastUpgradeAt: int)

  datatype Hub = Hub(works: seq<Work>, configMaps: seq<ConfigMap>, status: Status)

  /** The binding; `upgradeAt` is "" when unset, `upgradeTime` what RFC 3339 parsing yields, in nanoseconds. */
  datatype Binding = Binding(version: string, upgradeAt: string, upgradeTime: Option<int>)

  ghost predicate DistinctNames(works: seq<Work>) {
    forall i, j | 0 <= i < j < |works| :: works[i].name != works[j].name
  }

  function FindWork(works: seq<Work>, name: string): (r: Option<nat>)
    ensures r.Some? ==> r.value < |works| && works[r.value].name == name
    ensures r.None? ==> forall i | 0 <= i < |works| :: works[i].name != name
    ensures r.Some? ==> forall i | 0 <= i < r.value :: works[i].name != name
  {
    if works == [] then None
    else if works[0].name == name then Some(0)
    else
      var r := FindWork(works[1..], name);
      assert forall i | 1 <= i < |works| :: works[i] == works[1..][i - 1];
      if r.Some? then Some(r.value + 1) else None
  }

  // ---------- Reading feedback ----------

  predicate Describes(c: Condition, ns: string, name: string) {
    c.kind == HELM_RELEASE && c.name == name && c.ns == ns
  }

  function FindCondition(status: seq<Condition>, ns: string, name: string): Option<Condition> {
    if status == [] then None
    else if Describes(status[0], ns, name) then Some(status[0])
    else FindCondition(status[1..], ns, name)
  }

  function HelmReleaseFeedback(w: Work, ns: string, name: string): (seq<FeedbackValue>, bool) {
    match FindCondition(w.status, ns, name)
    case Some(c) => (c.values, c.applied)
    case None => ([], false)
  }

  function FeedbackInt(values: seq<FeedbackValue>, name: string): Option<int> {
    if values == [] then None
    else if values[0].name == name && values[0].integer.Some? then values[0].integer
    else FeedbackInt(values[1..], name)
  }

  function FeedbackString(values: seq<FeedbackValue>, name: string): Option<string> {
    if values == [] then None
    else if values[0].name == name && values[0].text.Some? then values[0].text
    else FeedbackString(values[1..], name)
  }

  function HelmReleaseGeneration(w: Work, ns: string, name: string): int {
    FeedbackInt(HelmReleaseFeedback(w, ns, name).0, GENERATION).GetOr(0)
  }

  predicate HelmReleaseReady(w: Work, t: Target) {
    var (values, applied) := HelmReleaseFeedback(w, t.ns, t.name);
    var generation := FeedbackInt(values, GENERATION);
    && applied
    && FeedbackString(values, READY) == Some(TRUE)
    && generation.Some? && generation.value >= t.minGeneration
    && FeedbackInt(values, OBSERVED_GENERATION) == generation
  }

  function NewTarget(w: Work, ns: string, name: string, changed: bool): Target {
    Target(w.name, ns, name, HelmReleaseGeneration(w, ns, name) + if changed then 1 else 0)
  }

  // ---------- Feedback rules ----------

  const HELM_GROUP := "helm.toolkit.fluxcd.io"
  const HELM_RESOURCE := "helmreleases"
  const RULES := [
    JsonPath(READY, ReadyStatus), JsonPath(RELEASED, ReleasedStatus),
    JsonPath(GENERATION, MetadataGeneration), JsonPath(OBSERVED_GENERATION, StatusObservedGeneration)]

  predicate Identifies(c: ConfigOption, ns: string, name: string) {
    c.resource == HELM_RESOURCE && c.name == name && c.ns == ns
  }

  function FindConfig(configs: seq<ConfigOption>, ns: string, name: string): (r: nat)
    ensures r <= |configs|
    ensures r < |configs| ==> Identifies(configs[r], ns, name)
    ensures forall i | 0 <= i < r :: !Identifies(configs[i], ns, name)
  {
    if configs == [] || Identifies(configs[0], ns, name) then 0
    else
      assert forall i | 1 <= i < |configs| :: configs[i] == configs[1..][i - 1];
      1 + FindConfig(configs[1..], ns, name)
  }

  /** `ensureHelmReleaseFeedbackRules`: overwrite the rules of the first matching option, or append one. */
  function EnsureRules(configs: seq<ConfigOption>, ns: string, name: string): seq<ConfigOption> {
    var i := FindConfig(configs, ns, name);
    if i < |configs| then configs[i := configs[i].(rules := RULES)]
    else configs + [ConfigOption(HELM_GROUP, HELM_RESOURCE, ns, name, RULES)]
  }

  /** The option that governs this release reports every path `HelmReleaseReady` reads. */
  predicate CarriesRules(configs: seq<ConfigOption>, ns: string, name: string) {
    var i := FindConfig(configs, ns, name);
    i < |configs| && configs[i].rules == RULES
  }

  function EnsureAll(configs: seq<ConfigOption>, ts: seq<Target>): seq<ConfigOption> {
    if ts == [] then configs
    else
      var last := ts[|ts| - 1];
      EnsureRules(EnsureAll(configs, ts[..|ts| - 1]), last.ns, last.name)
  }

  lemma FirstConfig(configs: seq<ConfigOption>, ns: string, name: string, k: nat)
    requires k < |configs| && Identifies(configs[k], ns, name)
    requires forall i | 0 <= i < k :: !Identifies(configs[i], ns, name)
    ensures FindConfig(configs, ns, name) == k
  {
  }

  lemma EnsureRulesCarries(configs: seq<ConfigOption>, ns: string, name: string)
    ensures CarriesRules(EnsureRules(configs, ns, name), ns, name)
  {
    FirstConfig(EnsureRules(configs, ns, name), ns, name, FindConfig(configs, ns, name));
  }

  lemma EnsureRulesNoop(configs: seq<ConfigOption>, ns: string, name: string)
    ensures EnsureRules(configs, ns, name) == configs <==> CarriesRules(configs, ns, name)
  {
  }

  /** No later target undoes the rules of an earlier one. */
  lemma EnsureRulesKeeps(configs: seq<ConfigOption>, ns: string, name: string, ns': string, name': string)
    requires CarriesRules(configs, ns, name)
    ensures CarriesRules(EnsureRules(configs, ns', name'), ns, name)
  {
    FirstConfig(EnsureRules(configs, ns', name'), ns, name, FindConfig(configs, ns, name));
  }

  /** The option is for the HelmRelease of this namespace and name. */
  predicate OptionFor(c: ConfigOption, ns: string, name: string) {
    c.resource == "helmreleases" && c.ns == ns && c.name == name
  }

  /** Carrying the rules means: the first option for the release lists just these four paths, by these names. */
  lemma CarriesIff(configs: seq<ConfigOption>, ns: string, name: string)
    ensures CarriesRules(configs, ns, name) <==>
            exists i | 0 <= i < |configs| ::
              && OptionFor(configs[i], ns, name) && (forall j | 0 <= j < i :: !OptionFor(configs[j], ns, name))
              && configs[i].rules == [
                   JsonPath("Ready", ReadyStatus), JsonPath("Released", ReleasedStatus),
                   JsonPath("Generation", MetadataGeneration), JsonPath("ObservedGeneration", StatusObservedGeneration)]
  {
    forall c: ConfigOption ensures OptionFor(c, ns, name) <==> Identifies(c, ns, name) {
    }
    var i := FindConfig(configs, ns, name);
    if i < |configs| { assert OptionFor(configs[i], ns, name); }
  }

  ghost predicate Named(c: ConfigOption, ts: seq<Target>) {
    exists t :: t in ts && OptionFor(c, t.ns, t.name)
  }

  /** Options of releases that are not targets stay as they are and where they are. */
  ghost predicate OthersKept(before: seq<ConfigOption>, after: seq<ConfigOption>, ts: seq<Target>) {
    && |before| <= |after|
    && (forall i | 0 <= i < |before| && after[i] != before[i] ::
          Named(before[i], ts) && after[i] == before[i].(rules := RULES))
    && (forall i | |before| <= i < |after| ::
          Named(after[i], ts) && after[i].group == HELM_GROUP && after[i].rules == RULES)
  }

  lemma {:induction false} EnsureAllKeepsOthers(configs: seq<ConfigOption>, ts: seq<Target>)
    ensures OthersKept(configs, EnsureAll(configs, ts), ts)
  {
    if ts != [] {
      var front, last := ts[..|ts| - 1], ts[|ts| - 1];
      EnsureAllKeepsOthers(configs, front);
      var mid, after := EnsureAll(configs, front), EnsureAll(configs, ts);
      assert last in ts && forall t | t in front :: t in ts;
      forall i | 0 <= i < |after| && (i >= |mid| || after[i] != mid[i])
        ensures Named(after[i], ts) && after[i].rules == RULES
      {
        assert Identifies(after[i], last.ns, last.name);
      }
    }
  }

  lemma {:induction false} EnsureAllCarries(configs: seq<ConfigOption>, ts: seq<Target>)
    ensures forall t | t in ts :: CarriesRules(EnsureAll(configs, ts), t.ns, t.name)
  {
    if ts != [] {
      var front, last := ts[..|ts| - 1], ts[|ts| - 1];
      EnsureAllCarries(configs, front);
      var mid := EnsureAll(configs, front);
      EnsureRulesCarries(mid, last.ns, last.name);
      forall t | t in ts ensures CarriesRules(EnsureAll(configs, ts), t.ns, t.name) {
        if t in front {
          EnsureRulesKeeps(mid, t.ns, t.name, last.ns, last.name);
        }
      }
    }
  }

  lemma {:induction false} EnsureAllKeeps(configs: seq<ConfigOption>, ts: seq<Target>, ns: string, name: string)
    requires CarriesRules(configs, ns, name)
    ensures CarriesRules(EnsureAll(configs, ts), ns, name)
  {
    if ts != [] {
      EnsureAllKeeps(configs, ts[..|ts| - 1], ns, name);
      EnsureRulesKeeps(EnsureAll(configs, ts[..|ts| - 1]), ns, name, ts[|ts| - 1].ns, ts[|ts| - 1].name);
    }
  }

  lemma {:induction false} EnsureAllNoop(configs: seq<ConfigOption>, ts: seq<Target>)
    requires forall t | t in ts :: CarriesRules(configs, t.ns, t.name)
    ensures EnsureAll(configs, ts) == configs
  {
    if ts != [] {
      EnsureAllNoop(configs, ts[..|ts| - 1]);
      EnsureRulesNoop(configs, ts[|ts| - 1].ns, ts[|ts| - 1].name);
    }
  }

  /** Ensuring the rules of a list of targets twice changes nothing more. */
  lemma EnsureAllIdempotent(configs: seq<ConfigOption>, ts: seq<Target>)
    ensures EnsureAll(EnsureAll(configs, ts), ts) == EnsureAll(configs, ts)
  {
    EnsureAllCarries(configs, ts);
    EnsureAllNoop(EnsureAll(configs, ts), ts);
  }
}
