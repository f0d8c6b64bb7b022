/**
 The last pass of EnableFeatures: HelmReleases that are no longer listed leave their ManifestWork
 (removeHRFomManifestWork in pkg/feature_installer/enable_featureset.go).
*/
module Removal {
  import opened Wrappers
  import opened Cluster
  import F = Features

  /** The manifest is a HelmRelease that is not listed. */
  predicate Unlisted(m: Manifest, features: seq<string>) {
    m.Object? && m.kind == Some(HELM_RELEASE) && m.name.Some? && m.name.value !in features
  }

  /** The loop returns early, without an error and without any removal, at such a manifest. */
  predicate Nameless(m: Manifest) {
    m.Object? && (m.kind.None? || (m.kind == Some(HELM_RELEASE) && m.name.None?))
  }

  function Listed(ms: seq<Manifest>, features: seq<string>): seq<Manifest> {
    if ms == [] then []
    else (if Unlisted(ms[0], features) then [] else [ms[0]]) + Listed(ms[1..], features)
  }

  /** The first manifest that ends the loop. */
  function FirstStop(ms: seq<Manifest>): (r: Option<Manifest>)
    ensures r.None? <==> forall m | m in ms :: !m.Unreadable? && !Nameless(m)
    ensures r.Some? ==> r.value.Unreadable? || Nameless(r.value)
  {
    if ms == [] then None
    else if ms[0].Unreadable? || Nameless(ms[0]) then Some(ms[0])
    else
      assert forall m :: m in ms <==> m == ms[0] || m in ms[1..];
      FirstStop(ms[1..])
  }

  /** `removeHRFomManifestWork` on the manifests of a work. */
  function Remaining(ms: seq<Manifest>, features: seq<string>): Result<seq<Manifest>> {
    match FirstStop(ms)
    case None => Ok(Listed(ms, features))
    case Some(m) => if m.Unreadable? then Err else Ok(ms)
  }

  lemma RemovalStep(ms: seq<Manifest>, features: seq<string>, i: nat)
    requires i < |ms|
    ensures Listed(ms[i..], features)
            == (if Unlisted(ms[i], features) then [] else [ms[i]]) + Listed(ms[i + 1..], features)
    ensures FirstStop(ms[i..]) == if ms[i].Unreadable? || Nameless(ms[i]) then Some(ms[i]) else FirstStop(ms[i + 1..])
  {
    assert ms[i..][0] == ms[i] && ms[i..][1..] == ms[i + 1..];
  }

  /** What the rest of the list, from `i` on, still contributes. */
  ghost predicate Splits(ms: seq<Manifest>, features: seq<string>, i: nat, updated: seq<Manifest>)
    requires i <= |ms|
  {
    FirstStop(ms) == FirstStop(ms[i..]) && Listed(ms, features) == updated + Listed(ms[i..], features)
  }

  lemma SplitsStart(ms: seq<Manifest>, features: seq<string>)
    ensures Splits(ms, features, 0, [])
  {
    assert ms[0..] == ms && [] + Listed(ms, features) == Listed(ms, features);
  }

  lemma {:induction false} SplitsStep(ms: seq<Manifest>, features: seq<string>, i: nat, updated: seq<Manifest>)
    requires i < |ms| && Splits(ms, features, i, updated)
    ensures ms[i].Unreadable? || Nameless(ms[i]) ==> FirstStop(ms) == Some(ms[i])
    ensures !ms[i].Unreadable? && !Nameless(ms[i]) ==>
              Splits(ms, features, i + 1, if Unlisted(ms[i], features) then updated else updated + [ms[i]])
  {
    RemovalStep(ms, features, i);
    var rest := Listed(ms[i + 1..], features);
    assert updated + ([] + rest) == updated + rest && updated + ([ms[i]] + rest) == updated + [ms[i]] + rest;
  }

  lemma SplitsDone(ms: seq<Manifest>, features: seq<string>, updated: seq<Manifest>)
    requires Splits(ms, features, |ms|, updated)
    ensures Remaining(ms, features) == Result<seq<Manifest>>.Ok(updated)
  {
    assert ms[|ms|..] == [] && updated + [] == updated;
  }

  method RemoveReleases(ms: seq<Manifest>, features: seq<string>) returns (r: Result<seq<Manifest>>)
    ensures r == Remaining(ms, features)
  {
    var updated := [];
    var i := 0;
    SplitsStart(ms, features);
    while i < |ms|
      invariant i <= |ms| && Splits(ms, features, i, updated)
    {
      var m := ms[i];
      SplitsStep(ms, features, i, updated);
      if m.Unreadable? { return Err; }
      if m.kind.None? { return Ok(ms); }
      if m.kind.value == HELM_RELEASE {
        if m.name.None? { return Ok(ms); }
        if m.name.value !in features {
          i := i + 1;
          continue;
        }
      }
      updated := updated + [m];
      i := i + 1;
    }
    SplitsDone(ms, features, updated);
    r := Ok(updated);
  }

  // ---------- What stays ----------

  /** `sub` is `ms` without some elements, in order. */
  ghost predicate Subsequence(sub: seq<Manifest>, ms: seq<Manifest>) {
    if sub == [] then true
    else if ms == [] then false
    else (sub[0] == ms[0] && Subsequence(sub[1..], ms[1..])) || Subsequence(sub, ms[1..])
  }

  /** Exactly the unlisted HelmReleases go, every other manifest stays as often as it was there, and the order stays. */
  lemma {:induction false} ListedKeeps(ms: seq<Manifest>, features: seq<string>)
    ensures Subsequence(Listed(ms, features), ms)
    ensures forall m :: m in Listed(ms, features) <==> m in ms && !Unlisted(m, features)
    ensures forall m :: multiset(Listed(ms, features))[m] == if Unlisted(m, features) then 0 else multiset(ms)[m]
  {
    if ms != [] {
      ListedKeeps(ms[1..], features);
      var rest := Listed(ms[1..], features);
      assert ms == [ms[0]] + ms[1..];
      if !Unlisted(ms[0], features) {
        assert Listed(ms, features)[1..] == rest;
      } else {
        assert Listed(ms, features) == rest;
      }
    }
  }

  /**
   The pass leaves no unlisted HelmRelease behind exactly when no HelmRelease without a name (or manifest without
   a kind) cuts it short, or there was none to remove.
   */
  lemma RemovalComplete(ms: seq<Manifest>, features: seq<string>)
    requires Remaining(ms, features).Ok?
    ensures (forall m | m in Remaining(ms, features).value :: !Unlisted(m, features))
            <==> FirstStop(ms).None? || forall m | m in ms :: !Unlisted(m, features)
  {
    ListedKeeps(ms, features);
  }

  lemma {:induction false} NamelessStops(before: seq<Manifest>, nameless: Manifest, after: seq<Manifest>)
    requires Nameless(nameless) && forall m | m in before :: !m.Unreadable?
    ensures FirstStop(before + [nameless] + after).Some? && !FirstStop(before + [nameless] + after).value.Unreadable?
  {
    var ms := before + [nameless] + after;
    if before != [] {
      assert ms[1..] == before[1..] + [nameless] + after && ms[0] == before[0];
      NamelessStops(before[1..], nameless, after);
    }
  }

  /** One HelmRelease without a name, wherever it stands, keeps every unlisted one installed. */
  lemma NamelessKeepsAll(before: seq<Manifest>, nameless: Manifest, after: seq<Manifest>, features: seq<string>)
    requires nameless.Object? && nameless.kind == Some(HELM_RELEASE) && nameless.name.None?
    requires forall m | m in before :: !m.Unreadable?
    ensures Remaining(before + [nameless] + after, features) == Result<seq<Manifest>>.Ok(before + [nameless] + after)
  {
    NamelessStops(before, nameless, after);
  }

  /**
   After the pass over works whose manifests all have kind and name, no HelmRelease name stands in the works
   of two feature sets, because no feature is listed twice.
   */
  lemma NoSharedRelease(lists: F.Lists, f: string, g: string, ms: seq<Manifest>, ns: seq<Manifest>, m: Manifest,
      n: Manifest)
    requires F.Once(lists) && f in lists && g in lists && f != g
    requires FirstStop(ms).None? && FirstStop(ns).None?
    requires m in Remaining(ms, lists[f]).value && n in Remaining(ns, lists[g]).value
    requires m.Object? && n.Object? && m.kind == n.kind == Some(HELM_RELEASE)
    ensures m.name != n.name
  {
    ListedKeeps(ms, lists[f]);
    ListedKeeps(ns, lists[g]);
    var i :| 0 <= i < |lists[f]| && lists[f][i] == m.name.value;
    var j :| 0 <= j < |lists[g]| && lists[g][j] == n.name.value;
  }

  /** The works of the feature sets outside `todo` are filtered, all others as they were. */
  ghost predicate FilteredWorks(works: map<string, seq<Manifest>>, lists: F.Lists, todo: set<string>,
      after: map<string, seq<Manifest>>)
  {
    && after.Keys == works.Keys
    && forall f | f in works ::
         if f in lists && f !in todo then Remaining(works[f], lists[f]) == Result<seq<Manifest>>.Ok(after[f])
         else after[f] == works[f]
  }

  /**
   The last loop of `EnableFeatures`, in whatever order the map is ranged over: every listed feature set's work is
   filtered. After an error each is filtered or as it was, and one that does not decode is as it was.
   */
  method RemovalPass(works: map<string, seq<Manifest>>, lists: F.Lists)
      returns (ok: bool, after: map<string, seq<Manifest>>)
    ensures ok ==> FilteredWorks(works, lists, {}, after)
    ensures after.Keys == works.Keys
    ensures forall f | f in works && after[f] != works[f] ::
              f in lists && Remaining(works[f], lists[f]) == Result<seq<Manifest>>.Ok(after[f])
    ensures !ok ==> exists f :: f in works && f in lists && Remaining(works[f], lists[f]).Err? && after[f] == works[f]
  {
    after := works;
    var todo := lists.Keys;
    while todo != {}
      invariant todo <= lists.Keys && FilteredWorks(works, lists, todo, after)
      decreases todo
    {
      var f :| f in todo;
      if f in works {
        var ms := RemoveReleases(after[f], lists[f]);
        if ms.Err? { return false, after; }
        after := after[f := ms.value];
      }
      todo := todo - {f};
    }
    ok := true;
  }
}
