/**
 What an installed feature waits for, and why that is installed too
 (updateHelmReleaseDependency in pkg/feature_installer/enable_featureset.go, validateFeatureList in
 pkg/controller/helpers.go).
*/
module Dependencies {
  import opened Wrappers
  import opened Features
  import S = Sanitize

  const KUBE_UI_SERVER := "kube-ui-server"
  const AKP_CRD_MANAGER := "akp-crd-manager"

  /** The requirements that become dependencies, of the first `n`; outside opscenter-core the claim filters them. */
  function Filtered(claim: Option<Claim>, reqs: seq<string>, n: nat): seq<string>
    requires n <= |reqs|
  {
    if n == 0 then []
    else
      Filtered(claim, reqs, n - 1)
      + (if claim.Some? && !Waived(claim.value, reqs[n - 1]) then [reqs[n - 1]] else [])
  }

  /** The claim that filters the requirements of this feature, if any does. */
  function Filtering(f: Feature, claim: ClaimRead): Option<Claim> {
    if f.featureSet != Cluster.OPSCENTER_CORE && claim.Decoded? then Some(claim.claim) else None
  }

  /** The dependsOn of a feature: an error, no field at all, or a list. */
  function DependsOn(catalog: Catalog, claim: ClaimRead, name: string): Result<Option<seq<string>>>
    requires name in catalog
  {
    var f := catalog[name];
    if f.featureSet != Cluster.OPSCENTER_CORE && !claim.Decoded? then Err
    else if name == KUBE_UI_SERVER then Ok(Some([Cluster.OPSCENTER_FEATURES]))
    else if f.required == [] then Ok(None)
    else if exists i | 0 <= i < |f.required| :: f.required[i] !in catalog then Err
    else Ok(Some(Filtered(Filtering(f, claim), f.required, |f.required|)))
  }

  /** opscenter-features is created apart from the others, and waits for akp-crd-manager where its list has it. */
  function CoreDependsOn(coreFeatures: seq<string>): seq<string> {
    if AKP_CRD_MANAGER in coreFeatures then [AKP_CRD_MANAGER] else []
  }

  /** What the release of a listed feature waits for, opscenter-features included. */
  function WaitsFor(catalog: Catalog, claim: ClaimRead, lists: Lists, name: string): Result<Option<seq<string>>>
    requires name in catalog
  {
    if name == Cluster.OPSCENTER_FEATURES then
      Ok(Some(CoreDependsOn(if Cluster.OPSCENTER_CORE in lists then lists[Cluster.OPSCENTER_CORE] else [])))
    else DependsOn(catalog, claim, name)
  }

  /** The features of opscenter-core that are applied as a feature set. */
  function CoreFeatures(features: seq<string>): seq<string> {
    if features == [] then []
    else
      var f := features[0];
      (if f == Cluster.OPSCENTER_FEATURES || f == Cluster.FLUX_CD || f == LICENSE_PROXYSERVER then [] else [f])
      + CoreFeatures(features[1..])
  }

  lemma {:induction false} CoreFeaturesMember(features: seq<string>, f: string)
    ensures f in CoreFeatures(features) <==>
            f in features && f != Cluster.OPSCENTER_FEATURES && f != Cluster.FLUX_CD && f != LICENSE_PROXYSERVER
  {
    if features != [] {
      CoreFeaturesMember(features[1..], f);
      assert features == [features[0]] + features[1..];
    }
  }

  /** The core branch of `enableFeatureSet`: the dependencies of opscenter-features and the rest to apply. */
  method EnableCore(features: seq<string>) returns (dependsOn: seq<string>, coreFeatures: seq<string>)
    ensures dependsOn == CoreDependsOn(features) && coreFeatures == CoreFeatures(features)
  {
    dependsOn, coreFeatures := [], [];
    if AKP_CRD_MANAGER in features {
      dependsOn := dependsOn + [AKP_CRD_MANAGER];
    }
    assert features[0..] == features;
    for i := 0 to |features|
      invariant CoreFeatures(features) == coreFeatures + CoreFeatures(features[i..])
    {
      var f := features[i];
      assert features[i..][0] == f && features[i..][1..] == features[i + 1..];
      if f != Cluster.OPSCENTER_FEATURES && f != Cluster.FLUX_CD && f != LICENSE_PROXYSERVER {
        coreFeatures := coreFeatures + [f];
      }
    }
  }

  /** `updateHelmReleaseDependency`. */
  method UpdateDependency(catalog: Catalog, claim: ClaimRead, name: string) returns (r: Result<Option<seq<string>>>)
    requires name in catalog
    ensures r == DependsOn(catalog, claim, name)
  {
    var f := catalog[name];
    var featureMap := None;
    if f.featureSet != Cluster.OPSCENTER_CORE {
      if !claim.Decoded? { return Err; }
      featureMap := Some(claim.claim);
    }
    if name == KUBE_UI_SERVER { return Ok(Some([Cluster.OPSCENTER_FEATURES])); }
    if f.required == [] { return Ok(None); }
    var dependsOn := [];
    for i := 0 to |f.required|
      invariant dependsOn == Filtered(featureMap, f.required, i)
      invariant forall k | 0 <= k < i :: f.required[k] in catalog
    {
      var req := f.required[i];
      if req !in catalog { return Err; }
      if req == LICENSE_PROXYSERVER { continue; }
      if featureMap.Some? && req !in featureMap.value.disabled && req !in featureMap.value.external {
        dependsOn := dependsOn + [req];
      }
    }
    r := Ok(Some(dependsOn));
  }

  lemma {:induction false} FilteredMember(claim: Option<Claim>, reqs: seq<string>, n: nat, d: string)
    requires n <= |reqs|
    ensures d in Filtered(claim, reqs, n) <==> claim.Some? && !Waived(claim.value, d) && d in reqs[..n]
  {
    if n > 0 {
      FilteredMember(claim, reqs, n - 1, d);
      assert reqs[..n] == reqs[..n - 1] + [reqs[n - 1]];
    }
  }

  /** Outside kube-ui-server's fixed one, dependencies are exactly the requirements the closure follows. */
  lemma DependsOnRequires(catalog: Catalog, claim: ClaimRead, name: string, d: string)
    requires name in catalog && name != KUBE_UI_SERVER && DependsOn(catalog, claim, name).Ok?
    ensures (DependsOn(catalog, claim, name).value.Some? && d in DependsOn(catalog, claim, name).value.value)
            <==> claim.Decoded? && Requires(catalog, claim.claim, name, d)
  {
    var f := catalog[name];
    assert f.required[..|f.required|] == f.required;
    FilteredMember(Filtering(f, claim), f.required, |f.required|, d);
  }

  /** The call fails exactly without a claim outside opscenter-core, or with a requirement the catalog does not know. */
  lemma DependsOnFailsIff(catalog: Catalog, claim: ClaimRead, name: string)
    requires name in catalog
    ensures DependsOn(catalog, claim, name).Err? <==>
              || (catalog[name].featureSet != "opscenter-core" && !claim.Decoded?)
              || (name != "kube-ui-server" && exists req :: req in catalog[name].required && req !in catalog)
  {
  }

  /** kube-ui-server waits for opscenter-features alone; a feature without requirements has no such field. */
  lemma DependsOnFixed(catalog: Catalog, claim: ClaimRead, name: string)
    requires name in catalog && DependsOn(catalog, claim, name).Ok?
    ensures name == "kube-ui-server" ==> DependsOn(catalog, claim, name).value == Some(["opscenter-features"])
    ensures name != "kube-ui-server" ==> (DependsOn(catalog, claim, name).value.None? <==> catalog[name].required == [])
  {
  }

  /** `validateFeatureList`. */
  predicate Validated(profile: map<string, string>) {
    Cluster.OPSCENTER_FEATURES in profile && KUBE_UI_SERVER in profile
  }

  /** The names gathered from binding and profile. */
  ghost predicate Gathered(binding: map<string, string>, profile: map<string, string>, lists: Lists) {
    forall f, n :: In(lists, f, n) <==>
      (n in binding && binding[n] == f) || (n !in binding && n in profile && profile[n] == f)
  }

  lemma GatheredNames(binding: map<string, string>, profile: map<string, string>, lists: Lists, n: string)
    requires Gathered(binding, profile, lists)
    ensures n in Names(lists) <==> n in binding || n in profile
  {
    NamesIn(lists, n);
    if n in binding { assert In(lists, binding[n], n); }
    else if n in profile { assert In(lists, profile[n], n); }
  }

  /** No dangling dependency: what any listed feature waits for is listed. */
  lemma NoDanglingDependency(catalog: Catalog, claim: ClaimRead, binding: map<string, string>,
      profile: map<string, string>, start: Lists, lists: Lists, name: string, d: string)
    requires Validated(profile) && Gathered(binding, profile, start)
    requires Closure(catalog, ClaimOr(claim), Names(start), Names(lists))
    requires name in Names(lists) && name in catalog && WaitsFor(catalog, claim, lists, name).Ok?
    requires WaitsFor(catalog, claim, lists, name).value.Some? && d in WaitsFor(catalog, claim, lists, name).value.value
    ensures d in Names(lists)
  {
    if name == Cluster.OPSCENTER_FEATURES {
      assert In(lists, Cluster.OPSCENTER_CORE, d);
      NamesIn(lists, d);
    } else if name == KUBE_UI_SERVER {
      GatheredNames(binding, profile, start, Cluster.OPSCENTER_FEATURES);
    } else {
      DependsOnRequires(catalog, claim, name, d);
    }
  }

  /**
   Within opscenter-core nothing waits for what is filtered out: its features wait for opscenter-features, which is
   created on its own, or for a feature that passes the filter, and for nothing else.
   */
  lemma CoreDependenciesPass(catalog: Catalog, claim: ClaimRead, lists: Lists, name: string, d: string)
    requires name in catalog && catalog[name].featureSet == Cluster.OPSCENTER_CORE && Cluster.OPSCENTER_CORE in lists
    requires WaitsFor(catalog, claim, lists, name).Ok? && WaitsFor(catalog, claim, lists, name).value.Some?
    requires d in WaitsFor(catalog, claim, lists, name).value.value
    ensures (name == KUBE_UI_SERVER && d == Cluster.OPSCENTER_FEATURES)
            || (name == Cluster.OPSCENTER_FEATURES && d == AKP_CRD_MANAGER
                  && d in CoreFeatures(lists[Cluster.OPSCENTER_CORE]))
  {
    if name == Cluster.OPSCENTER_FEATURES {
      CoreFeaturesMember(lists[Cluster.OPSCENTER_CORE], d);
    } else if name != KUBE_UI_SERVER {
      DependsOnRequires(catalog, claim, name, d);
    }
  }

  /**
   A dependency outside opscenter-core that sanitizing then leaves out is blocked by its exclusion group:
   with the same catalog and claim no other rule can strand a release on it.
   */
  lemma DependencyInstalledOrGroupBlocked(env: S.Env, seeds: set<string>, lists: Lists, name: string, d: string,
      featureSet: string)
    requires Closure(env.catalog, ClaimOr(env.read), seeds, Names(lists))
    requires name in Names(lists) && name in env.catalog && name != KUBE_UI_SERVER
    requires DependsOn(env.catalog, env.read, name).Ok? && DependsOn(env.catalog, env.read, name).value.Some?
    requires d in DependsOn(env.catalog, env.read, name).value.value
    requires In(lists, featureSet, d) && featureSet != Cluster.OPSCENTER_CORE
            && S.SanitizedFeatures(env, lists[featureSet]).Ok?
    ensures d in Names(lists)
    ensures d in S.SanitizedFeatures(env, lists[featureSet]).value
            || S.GroupBlocks(env, S.SanitizedFeatures(env, lists[featureSet]).value, d)
  {
    DependsOnRequires(env.catalog, env.read, name, d);
    if d !in S.SanitizedFeatures(env, lists[featureSet]).value {
      S.SanitizedLeavesOut(env, lists[featureSet], d);
    }
  }
}
