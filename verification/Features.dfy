/**
 The feature lists of a binding: gathering them, and adding what the listed features require
 (addFeatures in pkg/controller/managedclusterprofilebinding_controller.go, addRequiredFeatures in
 pkg/feature_installer/enable_featureset.go).
*/
module Features {
  import Cluster

  const LICENSE_PROXYSERVER := "license-proxyserver"

  datatype Feature = Feature(featureSet: string, required: seq<string>, exclusionGroup: string)
  type Catalog = map<string, Feature>
  datatype Claim = Claim(enabled: set<string>, disabled: seq<string>, external: seq<string>)

  /** `getFeatureStatus`: the claim may be absent, or not parse. */
  datatype ClaimRead = Absent | Unparsable | Decoded(claim: Claim)

  /** `addRequiredFeatures` takes an absent claim as an empty one. */
  function ClaimOr(r: ClaimRead): Claim {
    if r.Decoded? then r.claim else Claim({}, [], [])
  }

  /** A requirement that is neither installed nor depended upon. */
  predicate Waived(claim: Claim, name: string) {
    name == LICENSE_PROXYSERVER || name in claim.disabled || name in claim.external
  }

  /** What is waived: license-proxyserver, and what a claim that parses lists as disabled or externally managed. */
  lemma WaivedIff(read: ClaimRead, name: string)
    ensures Waived(ClaimOr(read), name) <==>
              || name == "license-proxyserver"
              || (read.Decoded? && (name in read.claim.disabled || name in read.claim.external))
  {
  }

  // ---------- The lists, by feature set ----------

  type Lists = map<string, seq<string>>

  predicate In(lists: Lists, featureSet: string, name: string) {
    featureSet in lists && name in lists[featureSet]
  }

  ghost function Names(lists: Lists): set<string> {
    set featureSet, i | featureSet in lists && 0 <= i < |lists[featureSet]| :: lists[featureSet][i]
  }

  /** No name stands at two places. */
  ghost predicate Once(lists: Lists) {
    forall f, g, i, j | f in lists && g in lists && 0 <= i < |lists[f]| && 0 <= j < |lists[g]|
      && lists[f][i] == lists[g][j] :: f == g && i == j
  }

  function Append(lists: Lists, featureSet: string, name: string): Lists {
    lists[featureSet := (if featureSet in lists then lists[featureSet] else []) + [name]]
  }

  /** Lists only grow, and at their ends. */
  ghost predicate Grown(before: Lists, after: Lists) {
    forall f | f in before :: f in after && before[f] <= after[f]
  }

  lemma AppendGrows(start: Lists, lists: Lists, featureSet: string, name: string)
    requires Grown(start, lists)
    ensures Grown(start, Append(lists, featureSet, name))
  {
  }

  lemma NamesIn(lists: Lists, name: string)
    ensures name in Names(lists) <==> exists featureSet :: In(lists, featureSet, name)
  {
    if name in Names(lists) {
      var featureSet, i :| featureSet in lists && 0 <= i < |lists[featureSet]| && lists[featureSet][i] == name;
      assert In(lists, featureSet, name);
    }
  }

  lemma AppendIn(lists: Lists, featureSet: string, name: string)
    ensures forall f, n ::
              In(Append(lists, featureSet, name), f, n) <==> In(lists, f, n) || (f == featureSet && n == name)
    ensures Names(Append(lists, featureSet, name)) == Names(lists) + {name}
  {
    var after := Append(lists, featureSet, name);
    forall f, n ensures In(after, f, n) <==> In(lists, f, n) || (f == featureSet && n == name) {
    }
    forall n ensures n in Names(after) <==> n in Names(lists) + {name} {
      NamesIn(lists, n);
      NamesIn(after, n);
      assert In(after, featureSet, name);
    }
  }

  lemma AppendOnce(lists: Lists, featureSet: string, name: string)
    requires Once(lists) && name !in Names(lists)
    ensures Once(Append(lists, featureSet, name))
  {
    var after := Append(lists, featureSet, name);
    forall f, i | f in lists && 0 <= i < |lists[f]| ensures lists[f][i] != name {
      assert lists[f][i] in Names(lists);
    }
  }

  /** featureInfo and featurePushed of one reconcile. */
  class FeatureTable {
    var lists: Lists
    var pushed: set<string>

    constructor ()
      ensures lists == map[] && pushed == {}
    {
      lists, pushed := map[], {};
    }

    ghost predicate Valid()
      reads this
    {
      Once(lists) && pushed == Names(lists)
    }

    /** `addFeatures`, in whatever order the map is ranged over; `features` gives each name its feature set. */
    method AddFeatures(features: map<string, string>)
      requires Valid()
      modifies this
      ensures Valid() && Grown(old(lists), lists)
      ensures forall f, n :: In(lists, f, n) <==>
                In(old(lists), f, n) || (n in features && n !in old(Names(lists)) && features[n] == f)
    {
      var todo := features.Keys;
      while todo != {}
        invariant Valid() && todo <= features.Keys && Grown(old(lists), lists)
        invariant forall f, n :: In(lists, f, n) <==>
                    In(old(lists), f, n) || (n in features && n !in todo && n !in old(Names(lists)) && features[n] == f)
        decreases todo
      {
        var name :| name in todo;
        if name !in pushed {
          forall n ensures n in old(Names(lists)) ==> n in Names(lists) {
            NamesIn(old(lists), n);
            NamesIn(lists, n);
          }
          AppendIn(lists, features[name], name);
          AppendOnce(lists, features[name], name);
          AppendGrows(old(lists), lists, features[name], name);
          lists := Append(lists, features[name], name);
          pushed := pushed + {name};
        } else {
          NamesIn(lists, name);
          NamesIn(old(lists), name);
        }
        todo := todo - {name};
      }
    }

    /** The binding's features first, then the profile's: each name once, and the binding's feature set wins. */
    method Gather(binding: map<string, string>, profile: map<string, string>)
      requires lists == map[] && pushed == {}
      modifies this
      ensures Valid()
      ensures forall f, n :: In(lists, f, n) <==>
                (n in binding && binding[n] == f) || (n !in binding && n in profile && profile[n] == f)
    {
      AddFeatures(binding);
      forall n ensures n in Names(lists) <==> n in binding {
        NamesIn(lists, n);
        if n in binding { assert In(lists, binding[n], n); }
      }
      AddFeatures(profile);
    }
  }

  // ---------- Requirements ----------

  /** A feature outside opscenter-core asks for a requirement that is not waived. */
  ghost predicate Requires(catalog: Catalog, claim: Claim, f: string, req: string) {
    && f in catalog && catalog[f].featureSet != Cluster.OPSCENTER_CORE
    && req in catalog[f].required && !Waived(claim, req)
  }

  ghost predicate ClosedUnder(catalog: Catalog, claim: Claim, s: set<string>) {
    forall f, req | f in s && Requires(catalog, claim, f, req) :: req in s
  }

  /** Every closed set around `seeds` holds `name`. */
  ghost predicate Needed(catalog: Catalog, claim: Claim, seeds: set<string>, name: string) {
    forall s: set<string> | seeds <= s && ClosedUnder(catalog, claim, s) :: name in s
  }

  /** Something needed is neither listed nor in the catalog. */
  ghost predicate MissesFeature(catalog: Catalog, claim: Claim, seeds: set<string>) {
    exists name :: Needed(catalog, claim, seeds, name) && name !in seeds && name !in catalog
  }

  /** A feature outside opscenter-core that requires anything: the claim is looked up for it. */
  predicate Demanding(catalog: Catalog, f: string) {
    f in catalog && catalog[f].featureSet != Cluster.OPSCENTER_CORE && catalog[f].required != []
  }

  /** Every closed set around `seeds` holds all of `names`. */
  ghost predicate Within(catalog: Catalog, claim: Claim, seeds: set<string>, names: set<string>) {
    forall s: set<string> | seeds <= s && ClosedUnder(catalog, claim, s) :: names <= s
  }

  /** `names` is the least set around `seeds` that is closed under requirements. */
  ghost predicate Closure(catalog: Catalog, claim: Claim, seeds: set<string>, names: set<string>) {
    && seeds <= names && ClosedUnder(catalog, claim, names)
    && Within(catalog, claim, seeds, names)
  }

  /** There is only one closure, and it is the set of needed names; so no ranging order can matter. */
  lemma ClosureUnique(catalog: Catalog, claim: Claim, seeds: set<string>, a: set<string>)
    requires Closure(catalog, claim, seeds, a)
    ensures forall name :: name in a <==> Needed(catalog, claim, seeds, name)
    ensures forall b | Closure(catalog, claim, seeds, b) :: a == b
  {
    forall name ensures name in a <==> Needed(catalog, claim, seeds, name) {
    }
  }

  datatype Added = AllAdded | MissingFeature | ClaimUnreadable

  method ListNames(lists: Lists) returns (queue: seq<string>)
    ensures forall n :: n in queue <==> n in Names(lists)
  {
    queue := [];
    var todo := lists.Keys;
    while todo != {}
      invariant todo <= lists.Keys
      invariant forall n :: n in queue <==> exists f :: f !in todo && In(lists, f, n)
      decreases todo
    {
      var f :| f in todo;
      forall n ensures n in queue + lists[f] <==> exists g :: g !in todo - {f} && In(lists, g, n) {
        if n in lists[f] { assert f !in todo - {f} && In(lists, f, n); }
        if n in queue {
          var g :| g !in todo && In(lists, g, n);
          assert g !in todo - {f};
        }
      }
      queue := queue + lists[f];
      todo := todo - {f};
    }
    forall n ensures n in queue <==> n in Names(lists) {
      NamesIn(lists, n);
    }
  }

  /** Outside the queue, nothing present has an unmet requirement; `current` is being worked on. */
  ghost predicate Processed(catalog: Catalog, claim: Claim, present: set<string>, queue: seq<string>,
      current: set<string>)
  {
    forall f, req | f in present && f !in queue && f !in current && Requires(catalog, claim, f, req) :: req in present
  }

  /** What `addRequiredFeatures` has established about the table so far. */
  ghost predicate Growing(catalog: Catalog, claim: Claim, start: Lists, lists: Lists, present: set<string>,
      queue: seq<string>)
  {
    && Once(lists) && present == Names(lists) && Grown(start, lists)
    && Names(start) <= present && present - Names(start) <= catalog.Keys
    && (forall n | n in queue :: n in present)
    && Within(catalog, claim, Names(start), present)
    && (forall f, n :: In(lists, f, n) <==>
          In(start, f, n) || (n in present - Names(start) && n in catalog && catalog[n].featureSet == f))
  }

  lemma GrowOne(catalog: Catalog, claim: Claim, start: Lists, lists: Lists, present: set<string>, queue: seq<string>,
      name: string, req: string)
    requires Growing(catalog, claim, start, lists, present, queue)
    requires name in present && Requires(catalog, claim, name, req) && req !in present && req in catalog
    ensures Growing(catalog, claim, start, Append(lists, catalog[req].featureSet, req), present + {req}, queue + [req])
  {
    AppendIn(lists, catalog[req].featureSet, req);
    AppendOnce(lists, catalog[req].featureSet, req);
    AppendGrows(start, lists, catalog[req].featureSet, req);
    forall s: set<string> | Names(start) <= s && ClosedUnder(catalog, claim, s) ensures present + {req} <= s {
      assert name in s;
    }
  }

  lemma Missing(catalog: Catalog, claim: Claim, seeds: set<string>, name: string, req: string)
    requires Needed(catalog, claim, seeds, name) && Requires(catalog, claim, name, req)
    requires req !in seeds && req !in catalog
    ensures MissesFeature(catalog, claim, seeds)
  {
    assert Needed(catalog, claim, seeds, req);
  }

  /** Once every requirement of `name` is present or waived, nothing outside the queue is unmet. */
  lemma ProcessedAll(catalog: Catalog, claim: Claim, present: set<string>, queue: seq<string>, name: string)
    requires name in catalog && Processed(catalog, claim, present, queue, {name})
    requires forall req | req in catalog[name].required :: req in present || Waived(claim, req)
    ensures Processed(catalog, claim, present, queue, {})
  {
  }

  class Installer {
    const catalog: Catalog
    const claim: ClaimRead

    constructor (catalog: Catalog, claim: ClaimRead)
      ensures this.catalog == catalog && this.claim == claim
    {
      this.catalog, this.claim := catalog, claim;
    }

    /** List a missing requirement of `name` and queue it. */
    method Adopt(table: FeatureTable, name: string, req: string, given: seq<string>, ghost start: Lists)
        returns (queue: seq<string>)
      requires Growing(catalog, ClaimOr(claim), start, table.lists, table.pushed, given)
      requires Processed(catalog, ClaimOr(claim), table.pushed, given, {name})
      requires name in table.pushed && Requires(catalog, ClaimOr(claim), name, req)
      requires req !in table.pushed && req in catalog
      modifies table
      ensures Growing(catalog, ClaimOr(claim), start, table.lists, table.pushed, queue)
      ensures Processed(catalog, ClaimOr(claim), table.pushed, queue, {name})
      ensures table.pushed == old(table.pushed) + {req}
    {
      GrowOne(catalog, ClaimOr(claim), start, table.lists, table.pushed, given, name, req);
      table.lists := Append(table.lists, catalog[req].featureSet, req);
      table.pushed := table.pushed + {req};
      queue := given + [req];
    }

    /** One requirement of `name`: present, waived, added, or unknown. */
    method Meet(table: FeatureTable, name: string, req: string, given: seq<string>, ghost start: Lists)
        returns (ok: bool, queue: seq<string>)
      requires Growing(catalog, ClaimOr(claim), start, table.lists, table.pushed, given)
      requires Processed(catalog, ClaimOr(claim), table.pushed, given, {name})
      requires name in table.pushed && name in catalog && catalog[name].featureSet != Cluster.OPSCENTER_CORE
      requires req in catalog[name].required
      modifies table
      ensures Growing(catalog, ClaimOr(claim), start, table.lists, table.pushed, queue)
      ensures Processed(catalog, ClaimOr(claim), table.pushed, queue, {name})
      ensures old(table.pushed) <= table.pushed && (table.pushed == old(table.pushed) ==> queue == given)
      ensures ok ==> req in table.pushed || Waived(ClaimOr(claim), req)
      ensures !ok ==> MissesFeature(catalog, ClaimOr(claim), Names(start))
    {
      ok, queue := true, given;
      if req !in table.pushed && !Waived(ClaimOr(claim), req) {
        if req in catalog {
          queue := Adopt(table, name, req, given, start);
        } else {
          Missing(catalog, ClaimOr(claim), Names(start), name, req);
          ok := false;
        }
      }
    }

    /** One pass over the requirements of `name`. */
    method AddRequirements(table: FeatureTable, name: string, given: seq<string>, ghost start: Lists)
        returns (ok: bool, queue: seq<string>)
      requires name in catalog && catalog[name].featureSet != Cluster.OPSCENTER_CORE && name in table.pushed
      requires Growing(catalog, ClaimOr(claim), start, table.lists, table.pushed, given)
      requires Processed(catalog, ClaimOr(claim), table.pushed, given, {name})
      modifies table
      ensures Growing(catalog, ClaimOr(claim), start, table.lists, table.pushed, queue)
      ensures old(table.pushed) <= table.pushed
      ensures table.pushed == old(table.pushed) ==> queue == given
      ensures ok ==> Processed(catalog, ClaimOr(claim), table.pushed, queue, {})
      ensures !ok ==> MissesFeature(catalog, ClaimOr(claim), Names(start))
    {
      queue := given;
      var reqs := catalog[name].required;
      for i := 0 to |reqs|
        invariant old(table.pushed) <= table.pushed
        invariant Growing(catalog, ClaimOr(claim), start, table.lists, table.pushed, queue)
        invariant Processed(catalog, ClaimOr(claim), table.pushed, queue, {name})
        invariant forall k | 0 <= k < i :: reqs[k] in table.pushed || Waived(ClaimOr(claim), reqs[k])
        invariant table.pushed == old(table.pushed) ==> queue == given
      {
        ok, queue := Meet(table, name, reqs[i], queue, start);
        if !ok { return; }
      }
      ProcessedAll(catalog, ClaimOr(claim), table.pushed, queue, name);
      ok := true;
    }

    /**
     `addRequiredFeatures`: on any requirement graph, cycles included, the lists grow to the least set closed
     under requirements, each new name once and under its own feature set; it fails exactly when a needed
     feature is unknown, or when the claim is needed and does not parse.
     */
    method AddRequiredFeatures(table: FeatureTable) returns (r: Added)
      requires table.Valid()
      modifies table
      ensures r.ClaimUnreadable?
              <==> claim.Unparsable? && exists f :: f in old(Names(table.lists)) && Demanding(catalog, f)
      ensures !r.ClaimUnreadable? ==>
                (r.MissingFeature? <==> MissesFeature(catalog, ClaimOr(claim), old(Names(table.lists))))
      ensures r.AllAdded? ==>
                && table.Valid() && Grown(old(table.lists), table.lists)
                && Closure(catalog, ClaimOr(claim), old(Names(table.lists)), Names(table.lists))
                && forall f, n :: In(table.lists, f, n) <==>
                     In(old(table.lists), f, n)
                     || (n in Names(table.lists) - old(Names(table.lists)) && n in catalog
                           && catalog[n].featureSet == f)
    {
      ghost var start := table.lists;
      var queue := ListNames(table.lists);
      while queue != []
        invariant Growing(catalog, ClaimOr(claim), start, table.lists, table.pushed, queue)
        invariant Processed(catalog, ClaimOr(claim), table.pushed, queue, {})
        invariant claim.Unparsable? ==>
                    table.lists == start && forall f | f in Names(start) && Demanding(catalog, f) :: f in queue
        decreases catalog.Keys - table.pushed, |queue|
      {
        var name := queue[0];
        ghost var before := queue;
        queue := queue[1..];
        assert forall n :: n in before <==> n == name || n in queue;
        if name in catalog && catalog[name].featureSet != Cluster.OPSCENTER_CORE && catalog[name].required != [] {
          assert Demanding(catalog, name);
          if claim.Unparsable? { return ClaimUnreadable; }
          ghost var pushed := table.pushed;
          var ok;
          ok, queue := AddRequirements(table, name, queue, start);
          if !ok { return MissingFeature; }
          if table.pushed != pushed {
            assert catalog.Keys - table.pushed < catalog.Keys - pushed;
          }
        }
      }
      r := AllAdded;
      ClosureUnique(catalog, ClaimOr(claim), Names(start), table.pushed);
    }
  }
}
