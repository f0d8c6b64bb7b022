/**
 Exclusion groups: which listed features of a feature set are installed
 (sanitizeFeatures and existInManifestWork in pkg/feature_installer/helpers.go).
*/
module Sanitize {
  import opened Wrappers
  import opened Cluster
  import F = Features
  import opened Strings

  /** What `sanitizeFeatures` reads: catalog, claim as found, and the ManifestWorks of the cluster. */
  datatype Env = Env(catalog: F.Catalog, read: F.ClaimRead, works: seq<Work>) {
    const claim: F.Claim := F.ClaimOr(read)
  }

  /** `existInManifestWork`, from manifest `start` on; a manifest that does not decode is an error. */
  function ExistsFrom(ms: seq<Manifest>, name: string, start: nat): Result<bool>
    requires start <= |ms|
    decreases |ms| - start
  {
    if start == |ms| then Ok(false)
    else if ms[start].Unreadable? || ms[start].body.Foreign? then Err
    else if ms[start].name.GetOr("") == name then Ok(true)
    else ExistsFrom(ms, name, start + 1)
  }

  /** The feature is in the ManifestWork of its own feature set already. */
  function ExistIn(env: Env, f: string): Result<bool>
    requires f in env.catalog
  {
    match FindWork(env.works, env.catalog[f].featureSet)
    case None => Ok(false)
    case Some(i) => ExistsFrom(env.works[i].manifests, f, 0)
  }

  /** The manifest decodes as a HelmRelease. */
  predicate DecodesAsRelease(m: Manifest) {
    m.Object? && m.body.Release?
  }

  /** Some manifest bears the name, and all before it decode. */
  ghost predicate FoundIn(ms: seq<Manifest>, name: string) {
    exists j | 0 <= j < |ms| ::
      && DecodesAsRelease(ms[j]) && ms[j].name.GetOr("") == name
      && forall i | 0 <= i < j :: DecodesAsRelease(ms[i])
  }

  /** All manifests decode, and none bears the name. */
  ghost predicate MissingIn(ms: seq<Manifest>, name: string) {
    forall j | 0 <= j < |ms| :: DecodesAsRelease(ms[j]) && ms[j].name.GetOr("") != name
  }

  lemma {:induction false} ExistsFromIff(ms: seq<Manifest>, name: string, start: nat)
    requires start <= |ms|
    ensures ExistsFrom(ms, name, start).Ok? && ExistsFrom(ms, name, start).value <==>
            exists j | start <= j < |ms| ::
              && DecodesAsRelease(ms[j]) && ms[j].name.GetOr("") == name
              && forall i | start <= i < j :: DecodesAsRelease(ms[i])
    ensures ExistsFrom(ms, name, start).Ok? && !ExistsFrom(ms, name, start).value <==>
            forall j | start <= j < |ms| :: DecodesAsRelease(ms[j]) && ms[j].name.GetOr("") != name
    decreases |ms| - start
  {
    if start < |ms| { ExistsFromIff(ms, name, start + 1); }
  }

  /** The ManifestWork of the feature's own feature set: the first of that name, if there is one. */
  ghost predicate OwnWork(env: Env, f: string, w: Option<Work>)
    requires f in env.catalog
  {
    match w
    case None => forall i | 0 <= i < |env.works| :: env.works[i].name != env.catalog[f].featureSet
    case Some(x) =>
      exists i | 0 <= i < |env.works| ::
        && env.works[i] == x && x.name == env.catalog[f].featureSet
        && forall k | 0 <= k < i :: env.works[k].name != env.catalog[f].featureSet
  }

  /** The feature's HelmRelease stands in the ManifestWork of its own feature set. */
  ghost predicate InOwnWork(env: Env, f: string) {
    f in env.catalog && exists w :: OwnWork(env, f, Some(w)) && FoundIn(w.manifests, f)
  }

  /** It does not: there is no such ManifestWork, or all of that decodes and nothing in it bears the name. */
  ghost predicate NotInOwnWork(env: Env, f: string) {
    f in env.catalog && (OwnWork(env, f, None) || exists w :: OwnWork(env, f, Some(w)) && MissingIn(w.manifests, f))
  }

  /** `existInManifestWork` answers for the feature's own ManifestWork, and fails exactly if neither answer is right. */
  lemma ExistInIff(env: Env, f: string)
    requires f in env.catalog
    ensures ExistIn(env, f).Ok? && ExistIn(env, f).value <==> InOwnWork(env, f)
    ensures ExistIn(env, f).Ok? && !ExistIn(env, f).value <==> NotInOwnWork(env, f)
  {
    var r := FindWork(env.works, env.catalog[f].featureSet);
    if r.Some? {
      var w := env.works[r.value];
      assert OwnWork(env, f, Some(w));
      forall x | OwnWork(env, f, Some(x)) ensures x == w {
        var i :| 0 <= i < |env.works| && env.works[i] == x && x.name == env.catalog[f].featureSet
                 && forall k | 0 <= k < i :: env.works[k].name != env.catalog[f].featureSet;
        assert !(i < r.value) && !(r.value < i);
      }
      ExistsFromIff(w.manifests, f, 0);
    }
  }

  predicate Dropped(env: Env, f: string) {
    f in env.claim.external || f in env.claim.disabled
  }

  function Group(env: Env, f: string): string {
    if f in env.catalog then env.catalog[f].exclusionGroup else ""
  }

  /** Neither failing condition of the loop: known, and its ManifestWork readable if it is looked at. */
  predicate Resolvable(env: Env, f: string) {
    f in env.catalog && (Dropped(env, f) || ExistIn(env, f).Ok?)
  }

  /** Being outside its ManifestWork is what makes a group matter. */
  predicate AlreadyIn(env: Env, f: string)
    requires Resolvable(env, f) && !Dropped(env, f)
  {
    ExistIn(env, f).value
  }

  predicate Admits(env: Env, taken: set<string>, f: string)
    requires Resolvable(env, f)
  {
    !Dropped(env, f) && (Group(env, f) == "" || AlreadyIn(env, f) || Group(env, f) !in taken)
  }

  function Take(env: Env, taken: set<string>, f: string): set<string> {
    if Group(env, f) == "" then taken else taken + {Group(env, f)}
  }

  /** The loop of `sanitizeFeatures`, over the sorted list, with the groups taken so far. */
  function Admitted(env: Env, fs: seq<string>, taken: set<string>): Result<seq<string>> {
    if fs == [] then Ok([])
    else if !Resolvable(env, fs[0]) then Err
    else if !Admits(env, taken, fs[0]) then Admitted(env, fs[1..], taken)
    else match Admitted(env, fs[1..], Take(env, taken, fs[0]))
      case Err => Err
      case Ok(rest) => Ok([fs[0]] + rest)
  }

  /** Groups that have an enabled feature in the claim. */
  function EnabledGroups(env: Env): set<string> {
    set f | f in env.catalog && f in env.claim.enabled && env.catalog[f].exclusionGroup != "" ::
          env.catalog[f].exclusionGroup
  }

  /** Without a claim that parses there is no answer at all. */
  function SanitizedFeatures(env: Env, fs: seq<string>): Result<seq<string>> {
    if env.read.Decoded? then Admitted(env, Sort(fs), EnabledGroups(env)) else Err
  }

  // ---------- The code ----------

  /** Features grow per group; what counts is which groups have any. */
  ghost predicate Mirrors(groups: map<string, seq<string>>, taken: set<string>) {
    forall g :: g in taken <==> g in groups && groups[g] != []
  }

  lemma MirrorsMore(groups: map<string, seq<string>>, taken: set<string>, g: string, f: string)
    requires Mirrors(groups, taken)
    ensures Mirrors(groups[g := (if g in groups then groups[g] else []) + [f]], taken + {g})
  {
  }

  method EnabledByGroup(env: Env) returns (groups: map<string, seq<string>>)
    ensures Mirrors(groups, EnabledGroups(env))
  {
    groups := map[];
    var todo := env.catalog.Keys;
    while todo != {}
      invariant todo <= env.catalog.Keys
      invariant forall g :: g in groups && groups[g] != [] <==>
                  exists f :: f in env.catalog && f !in todo && f in env.claim.enabled
                        && env.catalog[f].exclusionGroup == g && g != ""
      decreases todo
    {
      var f :| f in todo;
      var g := env.catalog[f].exclusionGroup;
      if g != "" && f in env.claim.enabled {
        groups := groups[g := (if g in groups then groups[g] else []) + [f]];
      }
      todo := todo - {f};
    }
  }

  method SortSlice(a: array<string>)
    modifies a
    ensures a[..] == Sort(old(a[..]))
  {
    var s := Sort(a[..]);
    SortSorts(a[..]);
    assert |s| == |multiset(s)| == |multiset(a[..])| == a.Length;
    forall k | 0 <= k < a.Length {
      a[k] := s[k];
    }
  }

  function Prepend(fs: seq<string>, r: Result<seq<string>>): Result<seq<string>> {
    match r
    case Err => Err
    case Ok(rest) => Ok(fs + rest)
  }

  lemma PrependNone(r: Result<seq<string>>)
    ensures Prepend([], r) == r
  {
    if r.Ok? { assert [] + r.value == r.value; }
  }

  lemma PrependTwice(fs: seq<string>, f: string, r: Result<seq<string>>)
    ensures Prepend(fs, Prepend([f], r)) == Prepend(fs + [f], r)
  {
    if r.Ok? { assert fs + ([f] + r.value) == fs + [f] + r.value; }
  }

  /** The first feature of the rest fails the call, is passed over, or joins those sanitized so far. */
  lemma AdmittedStep(env: Env, fs: seq<string>, taken: set<string>, sanitized: seq<string>, whole: Result<seq<string>>)
    requires fs != [] && whole == Prepend(sanitized, Admitted(env, fs, taken))
    ensures !Resolvable(env, fs[0]) ==> whole.Err?
    ensures Resolvable(env, fs[0]) && !Admits(env, taken, fs[0]) ==>
              whole == Prepend(sanitized, Admitted(env, fs[1..], taken))
    ensures Resolvable(env, fs[0]) && Admits(env, taken, fs[0]) ==>
              whole == Prepend(sanitized + [fs[0]], Admitted(env, fs[1..], Take(env, taken, fs[0])))
  {
    PrependTwice(sanitized, fs[0], Admitted(env, fs[1..], Take(env, taken, fs[0])));
  }

  /** `sanitizeFeatures`: needs the claim, sorts its slice in place and returns the features to install. */
  method SanitizeFeatures(env: Env, features: array<string>) returns (r: Result<seq<string>>)
    modifies features
    ensures features[..] == if env.read.Decoded? then Sort(old(features[..])) else old(features[..])
    ensures r == SanitizedFeatures(env, old(features[..]))
  {
    if !env.read.Decoded? { return Err; }
    var groups := EnabledByGroup(env);
    SortSlice(features);
    ghost var sorted, taken := features[..], EnabledGroups(env);
    var sanitized: seq<string> := [];
    var i := 0;
    ghost var whole := Admitted(env, sorted, taken);
    assert sorted[0..] == sorted;
    PrependNone(whole);
    while i < features.Length
      invariant i <= features.Length == |sorted| && features[..] == sorted && Mirrors(groups, taken)
      invariant whole == Prepend(sanitized, Admitted(env, sorted[i..], taken))
    {
      var f := features[i];
      assert f == sorted[i] && sorted[i..][0] == f && sorted[i..][1..] == sorted[i + 1..];
      AdmittedStep(env, sorted[i..], taken, sanitized, whole);
      if f !in env.catalog { return Err; }
      if f in env.claim.external || f in env.claim.disabled {
        i := i + 1;
        continue;
      }
      var exist := ExistIn(env, f);
      if exist.Err? { return Err; }
      var g := env.catalog[f].exclusionGroup;
      if g != "" && g in groups && groups[g] != [] && !exist.value {
        i := i + 1;
        continue;
      }
      sanitized := sanitized + [f];
      if g != "" {
        MirrorsMore(groups, taken, g, f);
        groups := groups[g := (if g in groups then groups[g] else []) + [f]];
      }
      taken := Take(env, taken, f);
      i := i + 1;
    }
    assert sorted[i..] == [] && sanitized + [] == sanitized;
    r := Ok(sanitized);
  }

  // ---------- What is admitted ----------

  /** Known, and if it is not dropped its own ManifestWork answers whether it is there. */
  ghost predicate Readable(env: Env, f: string) {
    f in env.catalog && (Dropped(env, f) || InOwnWork(env, f) || NotInOwnWork(env, f))
  }

  lemma ResolvableIff(env: Env, f: string)
    ensures Resolvable(env, f) <==> Readable(env, f)
    ensures Resolvable(env, f) && !Dropped(env, f) ==> (AlreadyIn(env, f) <==> InOwnWork(env, f))
  {
    if f in env.catalog { ExistInIff(env, f); }
  }

  lemma {:induction false} AdmittedFails(env: Env, fs: seq<string>, taken: set<string>)
    ensures Admitted(env, fs, taken).Ok? <==> forall f | f in fs :: Resolvable(env, f)
  {
    if fs != [] {
      assert fs == [fs[0]] + fs[1..];
      if Resolvable(env, fs[0]) {
        AdmittedFails(env, fs[1..], if Admits(env, taken, fs[0]) then Take(env, taken, fs[0]) else taken);
      }
    }
  }

  /**
   The call fails exactly when the claim is missing or does not parse, or some listed feature is unknown or its
   ManifestWork unreadable.
   */
  lemma FailsIff(env: Env, fs: seq<string>)
    ensures SanitizedFeatures(env, fs).Err? <==> !env.read.Decoded? || exists f :: f in fs && !Readable(env, f)
  {
    forall f ensures Resolvable(env, f) <==> Readable(env, f) {
      ResolvableIff(env, f);
    }
    SortSorts(fs);
    AdmittedFails(env, Sort(fs), EnabledGroups(env));
    forall f ensures f in fs <==> f in Sort(fs) {
      assert f in multiset(fs) <==> f in multiset(Sort(fs));
    }
  }

  /** A group blocks a feature: an enabled member, or one admitted earlier. */
  ghost predicate Blocked(env: Env, taken: set<string>, earlier: seq<string>, f: string) {
    Group(env, f) != "" && (Group(env, f) in taken || exists e | e in earlier :: Group(env, e) == Group(env, f))
  }

  ghost predicate Admissible(env: Env, taken: set<string>, earlier: seq<string>, f: string)
  {
    !Dropped(env, f) && (InOwnWork(env, f) || !Blocked(env, taken, earlier, f))
  }

  lemma SameBlock(env: Env, taken: set<string>, x: string, earlier: seq<string>, f: string)
    ensures Blocked(env, taken, [x] + earlier, f) <==> Blocked(env, Take(env, taken, x), earlier, f)
  {
    assert forall e :: e in [x] + earlier <==> e == x || e in earlier;
  }

  /**
   The next feature is admitted exactly when it is neither disabled nor externally managed and, unless it is
   in its ManifestWork already, no enabled feature and no admitted one before it is of its group.
   */
  lemma {:induction false} AdmittedNext(env: Env, fs: seq<string>, f: string, taken: set<string>)
    requires Admitted(env, fs, taken).Ok? && Readable(env, f)
    ensures Admitted(env, fs + [f], taken).Ok?
    ensures var a := Admitted(env, fs, taken).value;
      Admitted(env, fs + [f], taken).value == if Admissible(env, taken, a, f) then a + [f] else a
  {
    ResolvableIff(env, f);
    if fs == [] {
      assert [f][1..] == [] && fs + [f] == [f];
    } else {
      var x, rest := fs[0], fs[1..];
      assert (fs + [f])[1..] == rest + [f] && (fs + [f])[0] == x;
      var taken' := if Admits(env, taken, x) then Take(env, taken, x) else taken;
      AdmittedNext(env, rest, f, taken');
      var a, a' := Admitted(env, fs, taken).value, Admitted(env, rest, taken').value;
      if Admits(env, taken, x) {
        SameBlock(env, taken, x, a', f);
        assert a == [x] + a' && [x] + (a' + [f]) == a + [f];
      }
    }
  }

  lemma {:induction false} TakenStayOut(env: Env, fs: seq<string>, taken: set<string>, j: nat)
    requires Admitted(env, fs, taken).Ok? && j < |Admitted(env, fs, taken).value|
    ensures var f := Admitted(env, fs, taken).value[j];
      Readable(env, f) && !Dropped(env, f) && (Group(env, f) in taken && Group(env, f) != "" ==> InOwnWork(env, f))
  {
    ResolvableIff(env, fs[0]);
    if Admits(env, taken, fs[0]) {
      if j > 0 { TakenStayOut(env, fs[1..], Take(env, taken, fs[0]), j - 1); }
    } else {
      TakenStayOut(env, fs[1..], taken, j);
    }
  }

  /** No group gains a second member, and none at all once it is taken; members already installed are free. */
  lemma {:induction false} GroupsExclusive(env: Env, fs: seq<string>, taken: set<string>, i: nat, j: nat)
    requires Admitted(env, fs, taken).Ok?
    requires var a := Admitted(env, fs, taken).value;
      i < j < |a| && Group(env, a[i]) == Group(env, a[j]) != ""
    ensures var f := Admitted(env, fs, taken).value[j];
      Readable(env, f) && !Dropped(env, f) && InOwnWork(env, f)
  {
    var x := fs[0];
    if Admits(env, taken, x) {
      var taken' := Take(env, taken, x);
      var a, a' := Admitted(env, fs, taken).value, Admitted(env, fs[1..], taken').value;
      assert a == [x] + a';
      if i == 0 {
        TakenStayOut(env, fs[1..], taken', j - 1);
      } else {
        GroupsExclusive(env, fs[1..], taken', i - 1, j - 1);
      }
    } else {
      GroupsExclusive(env, fs[1..], taken, i, j);
    }
  }

  // ---------- Groups over all feature sets ----------

  /** A member of group `g` that is not dropped. */
  predicate MemberOf(env: Env, f: string, g: string) {
    Group(env, f) == g && !Dropped(env, f)
  }

  /** A feature of group `g` that is admitted without being installed already. */
  ghost predicate NewMember(env: Env, f: string, g: string) {
    MemberOf(env, f, g) && Readable(env, f) && !InOwnWork(env, f)
  }

  /** Of the members of `g` in this order, the first is not installed yet. */
  ghost predicate StartsFresh(env: Env, fs: seq<string>, g: string) {
    if fs == [] then false
    else if MemberOf(env, fs[0], g) then !InOwnWork(env, fs[0])
    else StartsFresh(env, fs[1..], g)
  }

  lemma TakenAdmitsNone(env: Env, fs: seq<string>, taken: set<string>, g: string)
    requires Admitted(env, fs, taken).Ok? && g != "" && g in taken
    ensures forall f | f in Admitted(env, fs, taken).value :: !NewMember(env, f, g)
  {
    forall f | f in Admitted(env, fs, taken).value ensures !NewMember(env, f, g) {
      var j :| 0 <= j < |Admitted(env, fs, taken).value| && Admitted(env, fs, taken).value[j] == f;
      TakenStayOut(env, fs, taken, j);
    }
  }

  /** A list admits a new member of a group exactly if the group is free and its first member is not installed. */
  lemma {:induction false} AdmitsNewIff(env: Env, fs: seq<string>, taken: set<string>, g: string)
    requires Admitted(env, fs, taken).Ok? && g != ""
    ensures (exists f :: f in Admitted(env, fs, taken).value && NewMember(env, f, g))
            <==> g !in taken && StartsFresh(env, fs, g)
  {
    AdmittedFails(env, fs, taken);
    if fs != [] { ResolvableIff(env, fs[0]); }
    if g in taken {
      TakenAdmitsNone(env, fs, taken, g);
    } else if fs != [] {
      var x := fs[0];
      assert x in fs;
      if Admits(env, taken, x) {
        var taken' := Take(env, taken, x);
        var a, a' := Admitted(env, fs, taken).value, Admitted(env, fs[1..], taken').value;
        assert a == [x] + a';
        AdmitsNewIff(env, fs[1..], taken', g);
        assert forall f :: f in a <==> f == x || f in a';
        assert NewMember(env, x, g) <==> Group(env, x) == g && !InOwnWork(env, x);
        if NewMember(env, x, g) { assert x in a; }
      } else {
        AdmitsNewIff(env, fs[1..], taken, g);
      }
    }
  }

  /** The calls of one installation: the lists, opscenter-core apart, each with the ManifestWorks its call finds. */
  datatype Calls = Calls(catalog: F.Catalog, read: F.ClaimRead, works: map<string, seq<Work>>, lists: F.Lists)

  function EnvOf(calls: Calls, featureSet: string): Env
    requires featureSet in calls.works
  {
    Env(calls.catalog, calls.read, calls.works[featureSet])
  }

  /** Every feature set's list is sanitized without an error. */
  ghost predicate AllSanitized(calls: Calls) {
    calls.read.Decoded? && calls.works.Keys == calls.lists.Keys
    && forall s | s in calls.lists :: SanitizedFeatures(EnvOf(calls, s), calls.lists[s]).Ok?
  }

  /** The list of this feature set admits a new member of the group at this place. */
  ghost predicate NewAt(calls: Calls, g: string, s: string, i: nat)
    requires AllSanitized(calls)
  {
    s in calls.lists
    && var env := EnvOf(calls, s);
       var a := SanitizedFeatures(env, calls.lists[s]).value;
       i < |a| && NewMember(env, a[i], g)
  }

  /** Over all feature sets, at most one new member of the group is admitted. */
  ghost predicate GroupExclusive(calls: Calls, g: string)
    requires AllSanitized(calls)
  {
    forall s, t, i, j | NewAt(calls, g, s, i) && NewAt(calls, g, t, j) ::
      s == t && i == j
  }

  /** This feature set's list starts the group: no feature of it is enabled, and its first member is not installed. */
  ghost predicate StartsGroup(calls: Calls, g: string, s: string)
    requires AllSanitized(calls)
  {
    s in calls.lists
    && var env := EnvOf(calls, s);
       g !in EnabledGroups(env)
       && StartsFresh(env, Sort(calls.lists[s]), g)
  }

  lemma NewIffStarts(calls: Calls, g: string, s: string)
    requires AllSanitized(calls) && g != ""
    ensures (exists i: nat :: NewAt(calls, g, s, i)) <==> StartsGroup(calls, g, s)
  {
    if s in calls.lists {
      var env := EnvOf(calls, s);
      var a := SanitizedFeatures(env, calls.lists[s]).value;
      AdmitsNewIff(env, Sort(calls.lists[s]), EnabledGroups(env), g);
      if f :| f in a && NewMember(env, f, g) {
        var i :| 0 <= i < |a| && a[i] == f;
        assert NewAt(calls, g, s, i);
      }
    }
  }

  lemma NewOncePerSet(calls: Calls, g: string, s: string, i: nat, j: nat)
    requires AllSanitized(calls) && g != ""
    requires NewAt(calls, g, s, i) && NewAt(calls, g, s, j)
    ensures i == j
  {
    var env := EnvOf(calls, s);
    if i < j {
      GroupsExclusive(env, Sort(calls.lists[s]), EnabledGroups(env), i, j);
    } else if j < i {
      GroupsExclusive(env, Sort(calls.lists[s]), EnabledGroups(env), j, i);
    }
  }

  /**
   Exclusion over all feature sets of one installation, whose calls do not share their groups: a group gets at most
   one new member if and only if at most one feature set's list starts it.
   */
  lemma GroupExclusiveIff(calls: Calls, g: string)
    requires AllSanitized(calls) && g != ""
    ensures GroupExclusive(calls, g) <==>
            forall s, t | StartsGroup(calls, g, s) && StartsGroup(calls, g, t) :: s == t
  {
    if GroupExclusive(calls, g) {
      forall s, t | StartsGroup(calls, g, s) && StartsGroup(calls, g, t)
        ensures s == t
      {
        NewIffStarts(calls, g, s);
        NewIffStarts(calls, g, t);
      }
    } else {
      var s, t, i, j :| NewAt(calls, g, s, i) && NewAt(calls, g, t, j) && !(s == t && i == j);
      NewIffStarts(calls, g, s);
      NewIffStarts(calls, g, t);
      if s == t { NewOncePerSet(calls, g, s, i, j); }
    }
  }

  /** Two features of a free group, each alone in the list of its feature set, are both admitted. */
  lemma TwoSetsAdmitBoth(env: Env, a: string, b: string, g: string)
    requires env.read.Decoded? && g != "" && g !in EnabledGroups(env) && NewMember(env, a, g) && NewMember(env, b, g)
    ensures SanitizedFeatures(env, [a]) == Result<seq<string>>.Ok([a])
    ensures SanitizedFeatures(env, [b]) == Result<seq<string>>.Ok([b])
  {
    SortOfSorted([a]);
    SortOfSorted([b]);
    AdmittedNext(env, [], a, EnabledGroups(env));
    AdmittedNext(env, [], b, EnabledGroups(env));
    assert [] + [a] == [a] && [] + [b] == [b];
  }

  // ---------- Order ----------

  lemma {:induction false} AdmittedFrom(env: Env, fs: seq<string>, taken: set<string>)
    requires Admitted(env, fs, taken).Ok?
    ensures forall f | f in Admitted(env, fs, taken).value :: f in fs
    ensures Sorted(fs) ==> Sorted(Admitted(env, fs, taken).value)
  {
    if fs != [] {
      if Admits(env, taken, fs[0]) {
        AdmittedFrom(env, fs[1..], Take(env, taken, fs[0]));
        var rest := Admitted(env, fs[1..], Take(env, taken, fs[0])).value;
        if Sorted(fs) {
          forall k | 0 <= k < |rest| ensures Le(fs[0], rest[k]) {
            assert rest[k] in fs[1..];
          }
        }
      } else {
        AdmittedFrom(env, fs[1..], taken);
      }
    }
  }

  /** The result is sorted, and the order of the input does not matter. */
  lemma SanitizedOrder(env: Env, fs: seq<string>, gs: seq<string>)
    requires multiset(fs) == multiset(gs)
    ensures SanitizedFeatures(env, fs) == SanitizedFeatures(env, gs)
    ensures SanitizedFeatures(env, fs).Ok? ==> Sorted(SanitizedFeatures(env, fs).value)
  {
    SortSorts(fs);
    SortSorts(gs);
    SortedUnique(Sort(fs), Sort(gs));
    if SanitizedFeatures(env, fs).Ok? { AdmittedFrom(env, Sort(fs), EnabledGroups(env)); }
  }

  lemma {:induction false} AdmittedAgain(env: Env, fs: seq<string>, taken: set<string>)
    requires Admitted(env, fs, taken).Ok?
    ensures Admitted(env, Admitted(env, fs, taken).value, taken) == Admitted(env, fs, taken)
  {
    if fs != [] {
      if Admits(env, taken, fs[0]) {
        AdmittedAgain(env, fs[1..], Take(env, taken, fs[0]));
        var rest := Admitted(env, fs[1..], Take(env, taken, fs[0])).value;
        assert ([fs[0]] + rest)[1..] == rest;
      } else {
        AdmittedAgain(env, fs[1..], taken);
      }
    }
  }

  /** Sanitizing a sanitized list changes nothing. */
  lemma SanitizedAgain(env: Env, fs: seq<string>)
    requires SanitizedFeatures(env, fs).Ok?
    ensures SanitizedFeatures(env, SanitizedFeatures(env, fs).value) == SanitizedFeatures(env, fs)
  {
    SortSorts(fs);
    AdmittedFrom(env, Sort(fs), EnabledGroups(env));
    SortOfSorted(SanitizedFeatures(env, fs).value);
    AdmittedAgain(env, Sort(fs), EnabledGroups(env));
  }

  // ---------- Reasons ----------

  /** A listed feature that is not installed is disabled, externally managed, or its group blocks it. */
  ghost predicate GroupBlocks(env: Env, out: seq<string>, f: string) {
    && Readable(env, f) && !Dropped(env, f) && !InOwnWork(env, f)
    && Blocked(env, EnabledGroups(env), out, f)
  }

  lemma {:induction false} LeftOut(env: Env, fs: seq<string>, taken: set<string>, f: string)
    requires Admitted(env, fs, taken).Ok? && f in fs && f !in Admitted(env, fs, taken).value
    ensures Readable(env, f)
    ensures Dropped(env, f) || (!InOwnWork(env, f) && Blocked(env, taken, Admitted(env, fs, taken).value, f))
  {
    ResolvableIff(env, f);
    var x := fs[0];
    assert fs == [x] + fs[1..];
    if Admits(env, taken, x) {
      var taken' := Take(env, taken, x);
      var a, a' := Admitted(env, fs, taken).value, Admitted(env, fs[1..], taken').value;
      assert a == [x] + a' && x in a;
      LeftOut(env, fs[1..], taken', f);
      if !Dropped(env, f) && Group(env, f) !in taken {
        if Group(env, f) in taken' {
          assert Group(env, x) == Group(env, f);
        } else {
          var e :| e in a' && Group(env, e) == Group(env, f);
          assert e in a;
        }
      }
    } else if f != x || f in fs[1..] {
      LeftOut(env, fs[1..], taken, f);
    }
  }

  lemma SanitizedLeavesOut(env: Env, fs: seq<string>, f: string)
    requires SanitizedFeatures(env, fs).Ok? && f in fs && f !in SanitizedFeatures(env, fs).value
    ensures Dropped(env, f) || GroupBlocks(env, SanitizedFeatures(env, fs).value, f)
  {
    SortSorts(fs);
    assert f in multiset(Sort(fs));
    LeftOut(env, Sort(fs), EnabledGroups(env), f);
  }
}
