/**
 From binding and profile to the ManifestWorks: the lists that `Reconcile` gathers and `EnableFeatures` completes,
 and what its last pass leaves of the works (pkg/controller/managedclusterprofilebinding_controller.go:86-98,
 EnableFeatures in pkg/feature_installer/enable_featureset.go).
*/
module Install {
  import opened Wrappers
  import opened Cluster
  import opened Features
  import opened Removal
  import D = Dependencies

  /** The feature set a name ends up in: the binding's choice, else the profile's, else the catalog's. */
  predicate Belongs(catalog: Catalog, binding: map<string, string>, profile: map<string, string>, featureSet: string,
      name: string)
  {
    if name in binding then binding[name] == featureSet
    else if name in profile then profile[name] == featureSet
    else name in catalog && catalog[name].featureSet == featureSet
  }

  /** The names are those of binding and profile and what they require, each listed once, where it belongs. */
  ghost predicate FullLists(catalog: Catalog, claim: ClaimRead, binding: map<string, string>,
      profile: map<string, string>, lists: Lists)
  {
    && Once(lists)
    && Closure(catalog, ClaimOr(claim), binding.Keys + profile.Keys, Names(lists))
    && forall f, n :: In(lists, f, n) <==> n in Names(lists) && Belongs(catalog, binding, profile, f, n)
  }

  /** Why the lists cannot be completed: the claim is needed and does not parse, or a needed feature is unknown. */
  ghost predicate Incompletable(catalog: Catalog, claim: ClaimRead, binding: map<string, string>,
      profile: map<string, string>)
  {
    || (claim.Unparsable? && exists f :: f in binding.Keys + profile.Keys && Demanding(catalog, f))
    || MissesFeature(catalog, ClaimOr(claim), binding.Keys + profile.Keys)
  }

  lemma SeedNames(binding: map<string, string>, profile: map<string, string>, lists: Lists)
    requires D.Gathered(binding, profile, lists)
    ensures Names(lists) == binding.Keys + profile.Keys
  {
    forall n ensures n in Names(lists) <==> n in binding.Keys + profile.Keys {
      D.GatheredNames(binding, profile, lists, n);
    }
  }

  /** Gathered names stand where binding or profile put them, and added ones where the catalog does. */
  lemma AllBelong(catalog: Catalog, binding: map<string, string>, profile: map<string, string>, start: Lists,
      lists: Lists)
    requires D.Gathered(binding, profile, start)
    requires forall f, n :: In(lists, f, n) <==>
               In(start, f, n) || (n in Names(lists) - Names(start) && n in catalog && catalog[n].featureSet == f)
    ensures forall f, n :: In(lists, f, n) <==> n in Names(lists) && Belongs(catalog, binding, profile, f, n)
  {
    forall f, n ensures In(lists, f, n) <==> n in Names(lists) && Belongs(catalog, binding, profile, f, n) {
      NamesIn(lists, n);
      D.GatheredNames(binding, profile, start, n);
    }
  }

  method CompleteLists(catalog: Catalog, claim: ClaimRead, binding: map<string, string>, profile: map<string, string>)
      returns (r: Result<Lists>)
    ensures r.Err? <==> Incompletable(catalog, claim, binding, profile)
    ensures r.Ok? ==> FullLists(catalog, claim, binding, profile, r.value)
  {
    var table := new FeatureTable();
    table.Gather(binding, profile);
    ghost var start := table.lists;
    SeedNames(binding, profile, start);
    var installer := new Installer(catalog, claim);
    var added := installer.AddRequiredFeatures(table);
    if !added.AllAdded? { return Err; }
    AllBelong(catalog, binding, profile, start, table.lists);
    r := Ok(table.lists);
  }

  datatype Installation = Incomplete | Undecodable | Trimmed(works: map<string, seq<Manifest>>)

  /** The manifest is a HelmRelease. */
  predicate IsHelmRelease(m: Manifest) {
    m.Object? && m.kind == Some(HELM_RELEASE)
  }

  /** No HelmRelease of the one has the name of one of the other. */
  ghost predicate NoneShared(ms: seq<Manifest>, ns: seq<Manifest>) {
    forall m, n | m in ms && n in ns && IsHelmRelease(m) && IsHelmRelease(n) :: m.name != n.name
  }

  /**
   `EnableFeatures`, with `works` as its loops over the feature sets leave them. Whatever those wrote, of a listed
   feature set's work whose manifests have kind and name exactly the releases outside its list go, the others stay as
   often as they stand there and in their order, and no name is left in the works of two feature sets.
   */
  method EnableFeatures(catalog: Catalog, claim: ClaimRead, binding: map<string, string>, profile: map<string, string>,
      works: map<string, seq<Manifest>>)
      returns (r: Installation, lists: Lists)
    ensures r.Incomplete? <==> Incompletable(catalog, claim, binding, profile)
    ensures !r.Incomplete? ==> FullLists(catalog, claim, binding, profile, lists)
    ensures r.Undecodable? ==> exists f :: f in works && f in lists && Remaining(works[f], lists[f]).Err?
    ensures r.Trimmed? ==> r.works.Keys == works.Keys
    ensures r.Trimmed? ==> forall f | f in works && f !in lists :: r.works[f] == works[f]
    ensures r.Trimmed? ==> forall f | f in works && f in lists && FirstStop(works[f]).None? ::
              Subsequence(r.works[f], works[f])
    ensures r.Trimmed? ==> forall f | f in works && f in lists && FirstStop(works[f]).None? :: forall m ::
              multiset(r.works[f])[m] ==
              if IsHelmRelease(m) && m.name.Some? && !In(lists, f, m.name.value) then 0 else multiset(works[f])[m]
    ensures r.Trimmed? ==> forall f, g | f in works && g in works && f in lists && g in lists && f != g
              && FirstStop(works[f]).None? && FirstStop(works[g]).None? :: NoneShared(r.works[f], r.works[g])
  {
    var completed := CompleteLists(catalog, claim, binding, profile);
    if completed.Err? { return Incomplete, map[]; }
    lists := completed.value;
    var ok, after := RemovalPass(works, lists);
    if !ok { return Undecodable, lists; }
    forall f | f in works && f in lists && FirstStop(works[f]).None?
      ensures Subsequence(after[f], works[f])
      ensures forall m :: multiset(after[f])[m] ==
                if IsHelmRelease(m) && m.name.Some? && !In(lists, f, m.name.value) then 0 else multiset(works[f])[m]
    {
      ListedKeeps(works[f], lists[f]);
    }
    forall f, g | f in works && g in works && f in lists && g in lists && f != g
      && FirstStop(works[f]).None? && FirstStop(works[g]).None?
      ensures NoneShared(after[f], after[g])
    {
      forall m, n | m in after[f] && n in after[g] && IsHelmRelease(m) && IsHelmRelease(n) ensures m.name != n.name {
        NoSharedRelease(lists, f, g, works[f], works[g], m, n);
      }
    }
    r := Trimmed(after);
  }
}
