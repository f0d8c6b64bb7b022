/**
 What an upgrade writes into one HelmRelease spec, and when that counts as a change
 (pkg/cluster_upgrade/upgrader.go: specChanged and the bodies of the two loops of applyUpgrade).
*/
module Render {
  import opened Wrappers
  import opened JsonValue
  import opened Cluster

  /** Raw bytes that should hold a JSON object; a JSON null decodes to no values at all. */
  datatype Raw = Undecodable | Decodes(values: Option<Json>)

  /** A feature as the binding or the profile lists it; `values` is None for a nil pointer. */
  datatype FeatureSpec = FeatureSpec(values: Option<Raw>, chartName: string, chartNamespace: string,
      createNamespace: bool)

  /** A Feature object of the catalog rendered for the target version. */
  datatype CatalogFeature = CatalogFeature(values: Option<Raw>, chartVersion: string, chartNamespace: string,
      createNamespace: bool)

  /** The values of the opscenter-features release, or the failure to compute them. */
  datatype CoreValues = Failed | Prepared(values: Option<Json>)

  /** Everything `applyUpgrade` reads besides the hub; `merge` is `values.MergeMaps`. */
  datatype Inputs = Inputs(
    binding: Binding, profileValid: bool, profileVersion: string,
    coreValues: CoreValues, coreValuesFrom: seq<Json>,
    bindingFeatures: map<string, FeatureSpec>, profileFeatures: map<string, FeatureSpec>,
    catalog: map<string, CatalogFeature>,
    charts: map<string, map<string, Raw>>,
    merge: (Option<Json>, Option<Json>) -> Option<Json>)

  function Decode(raw: Option<Raw>): Result<Option<Json>> {
    match raw
    case None => Ok(None)
    case Some(Undecodable) => Err
    case Some(Decodes(v)) => Ok(v)
  }

  function SetValues(s: Spec, v: Option<Json>): Spec {
    if v.Some? then s.(values := v) else s
  }

  /** The first loop: opscenter-features moves to the binding's version. */
  function RenderCore(inp: Inputs, s: Spec): Spec
    requires inp.coreValues.Prepared?
  {
    SetValues(s.(chartVersion := inp.binding.version, valuesFrom := inp.coreValuesFrom), inp.coreValues.values)
  }

  predicate BindingHasValues(inp: Inputs, name: string) {
    name in inp.bindingFeatures && inp.bindingFeatures[name].values.Some?
  }

  function CurrentValues(inp: Inputs, name: string): Result<Option<Json>> {
    if BindingHasValues(inp, name) then Decode(inp.bindingFeatures[name].values)
    else if name in inp.profileFeatures then Decode(inp.profileFeatures[name].values)
    else Ok(None)
  }

  /** The catalog's Feature with the namespace choices of the profile, but its own chart version. */
  function ResolveFeature(inp: Inputs, name: string): Result<CatalogFeature> {
    if name !in inp.catalog then Err
    else
      var f := inp.catalog[name];
      if name in inp.profileFeatures && inp.profileFeatures[name].chartName != "" then
        var p := inp.profileFeatures[name];
        Ok(f.(chartNamespace := p.chartNamespace, createNamespace := p.createNamespace))
      else Ok(f)
  }

  function ChartDefaults(inp: Inputs, work: string, name: string): Result<Option<Json>> {
    if work in inp.charts && name in inp.charts[work] then Decode(Some(inp.charts[work][name])) else Ok(None)
  }

  /** Binding values replace everything; otherwise chart, Feature and profile values are merged. */
  function FinalValues(inp: Inputs, work: string, name: string): Result<Option<Json>> {
    match (CurrentValues(inp, name), ResolveFeature(inp, name))
    case (Ok(current), Ok(f)) =>
      (match Decode(f.values)
       case Err => Err
       case Ok(featureValues) =>
         if BindingHasValues(inp, name) then Ok(current)
         else match ChartDefaults(inp, work, name)
           case Err => Err
           case Ok(defaults) => Ok(inp.merge(inp.merge(defaults, featureValues), current)))
    case _ => Err
  }

  function Place(f: CatalogFeature, s: Spec): Spec {
    s.(chartVersion := f.chartVersion,
       targetNamespace := if f.chartNamespace != "" then f.chartNamespace else s.targetNamespace,
       storageNamespace := if f.chartNamespace != "" then f.chartNamespace else s.storageNamespace,
       install := if s.install.Some? then Some(s.install.value.(createNamespace := f.createNamespace)) else None)
  }

  /** The second loop: a feature of a managed ManifestWork moves to its Feature's chart version. */
  function RenderFeature(inp: Inputs, work: string, name: string, s: Spec): Result<Spec> {
    match (FinalValues(inp, work, name), ResolveFeature(inp, name))
    case (Ok(v), Ok(f)) => Ok(Place(f, SetValues(s, v)))
    case _ => Err
  }

  /** `specChanged` on a readable manifest. */
  predicate SpecChanged(before: Spec, after: Spec) {
    Canon(before) != Canon(after)
  }

  // ---------- Equality modulo nulls ----------

  function PruneValues(v: Option<Json>): Option<Json> {
    if v.None? || v.value.Null? then None else Some(Prune(v.value))
  }

  /** Two specs that differ at most in nulls of their raw values. */
  predicate SameModuloNulls(a: Spec, b: Spec) {
    a.(values := b.values) == b && PruneValues(a.values) == PruneValues(b.values)
  }

  lemma {:induction false} SameMembers(a: Spec, b: Spec, n: nat)
    requires a.(values := b.values) == b && n < 6
    ensures Members(a, n) == Members(b, n)
  {
    if n > 0 {
      SameMembers(a, b, n - 1);
      assert ChartJson(a) == ChartJson(b);
      assert FieldAt(a, n - 1) == FieldAt(b, n - 1);
    }
  }

  lemma PruneOverlay(m: map<string, Json>, key: string, v: Option<Json>, w: Option<Json>)
    requires PruneValues(v) == PruneValues(w)
    ensures Prune(Obj(Overlay(m, Field(key, v)))) == Prune(Obj(Overlay(m, Field(key, w))))
  {
    assert Prune(Obj(Overlay(m, Field(key, v)))).members == Prune(Obj(Overlay(m, Field(key, w)))).members;
  }

  /** Nulls in spec.values never count as a change. */
  lemma NullsDoNotCount(a: Spec, b: Spec)
    requires SameModuloNulls(a, b)
    ensures !SpecChanged(a, b)
  {
    SameMembers(a, b, 5);
    PruneOverlay(Members(a, 5), "values", a.values, b.values);
  }

  /** Rendering does not see those nulls either. */
  lemma RenderCongruent(inp: Inputs, work: string, name: string, a: Spec, b: Spec)
    requires SameModuloNulls(a, b)
    ensures inp.coreValues.Prepared? ==> SameModuloNulls(RenderCore(inp, a), RenderCore(inp, b))
    ensures RenderFeature(inp, work, name, a).Ok? <==> RenderFeature(inp, work, name, b).Ok?
    ensures RenderFeature(inp, work, name, a).Ok?
            ==> SameModuloNulls(RenderFeature(inp, work, name, a).value, RenderFeature(inp, work, name, b).value)
  {
  }

  /** Rendering its own output again gives the same spec. */
  lemma RenderIdempotent(inp: Inputs, work: string, name: string, s: Spec)
    ensures inp.coreValues.Prepared? ==> RenderCore(inp, RenderCore(inp, s)) == RenderCore(inp, s)
    ensures RenderFeature(inp, work, name, s).Ok?
            ==> RenderFeature(inp, work, name, RenderFeature(inp, work, name, s).value)
                  == RenderFeature(inp, work, name, s)
  {
  }

  // ---------- What rendering writes ----------

  /**
   opscenter-features gets the binding's version, the prepared valuesFrom and, if there are any, the prepared
   values.
   */
  lemma RenderCoreWrites(inp: Inputs, s: Spec)
    requires inp.coreValues.Prepared?
    ensures var r := RenderCore(inp, s);
      && r.chartVersion == inp.binding.version && r.valuesFrom == inp.coreValuesFrom
      && r.values == (if inp.coreValues.values.Some? then inp.coreValues.values else s.values)
      && r.chart == s.chart && r.rest == s.rest && r.install == s.install
      && r.targetNamespace == s.targetNamespace && r.storageNamespace == s.storageNamespace
  {
  }

  /** The raw bytes, where there are any, decode to these values. */
  ghost predicate Gives(raw: Option<Raw>, v: Option<Json>) {
    match raw
    case None => v == None
    case Some(Decodes(x)) => v == x
    case Some(Undecodable) => false
  }

  /** The values a binding, a profile and a chart list for a feature, as raw bytes. */
  function BindingRaw(inp: Inputs, name: string): Option<Raw> {
    if name in inp.bindingFeatures then inp.bindingFeatures[name].values else None
  }

  function ProfileRaw(inp: Inputs, name: string): Option<Raw> {
    if name in inp.profileFeatures then inp.profileFeatures[name].values else None
  }

  function ChartRaw(inp: Inputs, work: string, name: string): Option<Raw> {
    if work in inp.charts && name in inp.charts[work] then Some(inp.charts[work][name]) else None
  }

  /** Rendering a feature fails exactly if it is not in the catalog or values that are needed do not decode. */
  lemma RenderFailsIff(inp: Inputs, work: string, name: string, s: Spec)
    ensures RenderFeature(inp, work, name, s).Err? <==>
              || name !in inp.catalog
              || inp.catalog[name].values == Some(Undecodable)
              || (if BindingRaw(inp, name).Some? then BindingRaw(inp, name) == Some(Undecodable)
                  else ProfileRaw(inp, name) == Some(Undecodable) || ChartRaw(inp, work, name) == Some(Undecodable))
  {
  }

  /** Values that the binding lists replace everything; if they decode to nothing the stored ones stay. */
  lemma BindingValuesStand(inp: Inputs, work: string, name: string, s: Spec, v: Option<Json>)
    requires RenderFeature(inp, work, name, s).Ok? && BindingRaw(inp, name).Some? && Gives(BindingRaw(inp, name), v)
    ensures RenderFeature(inp, work, name, s).value.values == if v.Some? then v else s.values
  {
  }

  /** Without them the profile's values are merged over the catalog's, and those over the chart's. */
  lemma OtherValuesMerge(inp: Inputs, work: string, name: string, s: Spec, d: Option<Json>, f: Option<Json>,
      p: Option<Json>)
    requires RenderFeature(inp, work, name, s).Ok? && BindingRaw(inp, name).None? && name in inp.catalog
    requires Gives(ChartRaw(inp, work, name), d) && Gives(inp.catalog[name].values, f)
            && Gives(ProfileRaw(inp, name), p)
    ensures var v := inp.merge(inp.merge(d, f), p);
      RenderFeature(inp, work, name, s).value.values == if v.Some? then v else s.values
  {
  }

  /**
   Apart from the values: the chart version is the catalog's, even where the profile names a chart and so decides
   the namespace and its creation; an empty namespace leaves the namespaces there are, an absent `install` stays
   absent, and nothing else moves.
   */
  lemma RenderKeeps(inp: Inputs, work: string, name: string, s: Spec)
    requires RenderFeature(inp, work, name, s).Ok?
    ensures name in inp.catalog
    ensures var r := RenderFeature(inp, work, name, s).value;
      var byProfile := name in inp.profileFeatures && inp.profileFeatures[name].chartName != "";
      var ns := if byProfile then inp.profileFeatures[name].chartNamespace else inp.catalog[name].chartNamespace;
      && r.chartVersion == inp.catalog[name].chartVersion
      && r.targetNamespace == (if ns == "" then s.targetNamespace else ns)
      && r.storageNamespace == (if ns == "" then s.storageNamespace else ns)
      && (r.install.Some? <==> s.install.Some?)
      && (r.install.Some? ==>
            && r.install.value.rest == s.install.value.rest
            && r.install.value.createNamespace
               == if byProfile then inp.profileFeatures[name].createNamespace else inp.catalog[name].createNamespace)
      && r.chart == s.chart && r.valuesFrom == s.valuesFrom && r.rest == s.rest
  {
  }
}
