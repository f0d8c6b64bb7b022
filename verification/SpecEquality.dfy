/**
 When two HelmRelease specs compare as equal: field by field, and in the untyped parts key by key, up to nulls
 (specChanged in pkg/cluster_upgrade/upgrader.go:94-111).
*/
module SpecEquality {
  import opened Wrappers
  import opened JsonValue
  import opened Cluster
  import opened Render

  /** The value of a key once nulls are pruned. */
  function PrunedAt(m: map<string, Json>, k: string): Option<Json> {
    if k in m && !m[k].Null? then Some(Prune(m[k])) else None
  }

  /** The two hold the same at every key but these, up to nulls. */
  ghost predicate SameButNulls(a: map<string, Json>, b: map<string, Json>, except: set<string>) {
    forall k | k !in except :: PrunedAt(a, k) == PrunedAt(b, k)
  }

  lemma PruneObjects(a: map<string, Json>, b: map<string, Json>)
    ensures Prune(Obj(a)) == Prune(Obj(b)) <==> SameButNulls(a, b, {})
  {
    var p, q := Prune(Obj(a)).members, Prune(Obj(b)).members;
    if SameButNulls(a, b, {}) {
      forall k ensures k in p <==> k in q {
        assert PrunedAt(a, k) == PrunedAt(b, k);
      }
      forall k | k in p ensures p[k] == q[k] {
        assert PrunedAt(a, k) == PrunedAt(b, k);
      }
      assert p == q;
    }
    if p == q {
      forall k ensures PrunedAt(a, k) == PrunedAt(b, k) {
        assert k in p <==> k in a && !a[k].Null?;
        assert k in q <==> k in b && !b[k].Null?;
        if k in p { assert p[k] == q[k]; }
      }
    }
  }

  lemma PruneLists(a: seq<Json>, b: seq<Json>)
    ensures Prune(Arr(a)) == Prune(Arr(b)) <==> |a| == |b| && forall i | 0 <= i < |a| :: Prune(a[i]) == Prune(b[i])
  {
    var p, q := Prune(Arr(a)).items, Prune(Arr(b)).items;
    if |a| == |b| && forall i | 0 <= i < |a| :: Prune(a[i]) == Prune(b[i]) {
      assert p == q;
    }
    if p == q {
      forall i | 0 <= i < |a| ensures Prune(a[i]) == Prune(b[i]) {
        assert p[i] == q[i];
      }
    }
  }

  /** A map with one typed field laid over it: the field counts at its key, the map elsewhere. */
  lemma PruneOverlays(a: map<string, Json>, f: Field, b: map<string, Json>, g: Field)
    requires f.key == g.key
    ensures Prune(Obj(Overlay(a, f))) == Prune(Obj(Overlay(b, g)))
            <==> PruneValues(f.value) == PruneValues(g.value) && SameButNulls(a, b, {f.key})
  {
    var m, n := Overlay(a, f), Overlay(b, g);
    PruneObjects(m, n);
    assert PrunedAt(m, f.key) == PruneValues(f.value) && PrunedAt(n, f.key) == PruneValues(g.value);
    forall k | k != f.key ensures PrunedAt(m, k) == PrunedAt(a, k) && PrunedAt(n, k) == PrunedAt(b, k) {
    }
  }

  // ---------- The members of a spec ----------

  /** The keys of the typed fields. */
  const FIELD_KEYS := ["chart", "valuesFrom", "targetNamespace", "storageNamespace", "install", "values"]

  lemma KeysDistinct(s: Spec, i: nat, j: nat)
    requires i < 6 && j < 6
    ensures FieldAt(s, i).key == FIELD_KEYS[i]
    ensures i != j ==> FIELD_KEYS[i] != FIELD_KEYS[j]
  {
    assert |FIELD_KEYS[0]| == 5 && |FIELD_KEYS[1]| == 10 && |FIELD_KEYS[2]| == 15 && |FIELD_KEYS[3]| == 16;
    assert |FIELD_KEYS[4]| == 7 && |FIELD_KEYS[5]| == 6;
  }

  lemma {:induction false} MemberField(s: Spec, n: nat, i: nat)
    requires i < n <= 6
    ensures PrunedAt(Members(s, n), FIELD_KEYS[i]) == PruneValues(FieldAt(s, i).value)
  {
    KeysDistinct(s, n - 1, i);
    KeysDistinct(s, i, i);
    if i < n - 1 { MemberField(s, n - 1, i); }
  }

  lemma {:induction false} MemberRest(s: Spec, n: nat, k: string)
    requires n <= 6 && k !in FIELD_KEYS
    ensures PrunedAt(Members(s, n), k) == PrunedAt(s.rest, k)
  {
    if n > 0 {
      MemberRest(s, n - 1, k);
      KeysDistinct(s, n - 1, n - 1);
      assert FIELD_KEYS[n - 1] in FIELD_KEYS;
    }
  }

  ghost predicate SameTyped(a: Spec, b: Spec) {
    forall i: nat | i < 6 :: PruneValues(FieldAt(a, i).value) == PruneValues(FieldAt(b, i).value)
  }

  ghost predicate SameRest(a: Spec, b: Spec) {
    forall k | k !in FIELD_KEYS :: PrunedAt(a.rest, k) == PrunedAt(b.rest, k)
  }

  lemma CanonByKey(a: Spec, b: Spec)
    ensures Canon(a) == Canon(b) <==> SameTyped(a, b) && SameRest(a, b)
  {
    var m, n := Members(a, 6), Members(b, 6);
    PruneObjects(m, n);
    forall i: nat | i < 6
      ensures PrunedAt(m, FIELD_KEYS[i]) == PruneValues(FieldAt(a, i).value)
      ensures PrunedAt(n, FIELD_KEYS[i]) == PruneValues(FieldAt(b, i).value)
    {
      MemberField(a, 6, i);
      MemberField(b, 6, i);
    }
    forall k | k !in FIELD_KEYS ensures PrunedAt(m, k) == PrunedAt(a.rest, k) && PrunedAt(n, k) == PrunedAt(b.rest, k) {
      MemberRest(a, 6, k);
      MemberRest(b, 6, k);
    }
    if SameTyped(a, b) && SameRest(a, b) {
      forall k ensures PrunedAt(m, k) == PrunedAt(n, k) {
        if k in FIELD_KEYS {
          var i :| 0 <= i < 6 && FIELD_KEYS[i] == k;
        }
      }
    }
    if SameButNulls(m, n, {}) {
      forall i: nat | i < 6 ensures PruneValues(FieldAt(a, i).value) == PruneValues(FieldAt(b, i).value) {
        assert PrunedAt(m, FIELD_KEYS[i]) == PrunedAt(n, FIELD_KEYS[i]);
      }
      forall k | k !in FIELD_KEYS ensures PrunedAt(a.rest, k) == PrunedAt(b.rest, k) {
        assert PrunedAt(m, k) == PrunedAt(n, k);
      }
    }
  }

  // ---------- Field by field ----------

  lemma TextsEqual(key: string, v: string, w: string)
    ensures PruneValues(Text(key, v).value) == PruneValues(Text(key, w).value) <==> v == w
  {
  }

  lemma WrappedEqual(x: Json, y: Json)
    requires !x.Null? && !y.Null?
    ensures Prune(Obj(map["spec" := x])) == Prune(Obj(map["spec" := y])) <==> Prune(x) == Prune(y)
  {
    var a, b := map["spec" := x], map["spec" := y];
    PruneObjects(a, b);
    assert PrunedAt(a, "spec") == Some(Prune(x)) && PrunedAt(b, "spec") == Some(Prune(y));
    assert forall k | k != "spec" :: PrunedAt(a, k) == None && PrunedAt(b, k) == None;
  }

  lemma ChartsEqual(a: Spec, b: Spec)
    ensures Prune(ChartJson(a)) == Prune(ChartJson(b))
            <==> a.chartVersion == b.chartVersion && SameButNulls(a.chart, b.chart, {"version"})
  {
    var f, g := Text("version", a.chartVersion), Text("version", b.chartVersion);
    PruneOverlays(a.chart, f, b.chart, g);
    WrappedEqual(Obj(Overlay(a.chart, f)), Obj(Overlay(b.chart, g)));
    TextsEqual("version", a.chartVersion, b.chartVersion);
  }

  lemma InstallsEqual(i: Install, j: Install)
    ensures Prune(InstallJson(i)) == Prune(InstallJson(j))
            <==> i.createNamespace == j.createNamespace && SameButNulls(i.rest, j.rest, {"createNamespace"})
  {
    PruneOverlays(i.rest, Field("createNamespace", if i.createNamespace then Some(Bool(true)) else None),
                  j.rest, Field("createNamespace", if j.createNamespace then Some(Bool(true)) else None));
  }

  /** The two specs agree in every field; in `chart`, `install.rest` and `rest` the typed keys do not count. */
  ghost predicate SameFields(a: Spec, b: Spec) {
    && a.chartVersion == b.chartVersion && SameButNulls(a.chart, b.chart, {"version"})
    && |a.valuesFrom| == |b.valuesFrom|
    && (forall i | 0 <= i < |a.valuesFrom| :: Prune(a.valuesFrom[i]) == Prune(b.valuesFrom[i]))
    && a.targetNamespace == b.targetNamespace && a.storageNamespace == b.storageNamespace
    && (a.install.Some? <==> b.install.Some?)
    && (a.install.Some? ==>
          && a.install.value.createNamespace == b.install.value.createNamespace
          && SameButNulls(a.install.value.rest, b.install.value.rest, {"createNamespace"}))
    && PruneValues(a.values) == PruneValues(b.values)
    && SameButNulls(a.rest, b.rest,
         {"chart", "valuesFrom", "targetNamespace", "storageNamespace", "install", "values"})
  }

  lemma RestKeys(a: Spec, b: Spec)
    ensures SameRest(a, b) <==> SameButNulls(a.rest, b.rest,
              {"chart", "valuesFrom", "targetNamespace", "storageNamespace", "install", "values"})
  {
    forall k
      ensures k in FIELD_KEYS <==>
              k in {"chart", "valuesFrom", "targetNamespace", "storageNamespace", "install", "values"}
    {
      assert FIELD_KEYS[0] == "chart" && FIELD_KEYS[1] == "valuesFrom" && FIELD_KEYS[2] == "targetNamespace";
      assert FIELD_KEYS[3] == "storageNamespace" && FIELD_KEYS[4] == "install" && FIELD_KEYS[5] == "values";
    }
  }

  lemma TypedFields(a: Spec, b: Spec)
    ensures SameTyped(a, b) <==>
            && Prune(ChartJson(a)) == Prune(ChartJson(b))
            && PruneValues(FieldAt(a, 1).value) == PruneValues(FieldAt(b, 1).value)
            && a.targetNamespace == b.targetNamespace && a.storageNamespace == b.storageNamespace
            && PruneValues(FieldAt(a, 4).value) == PruneValues(FieldAt(b, 4).value)
            && PruneValues(a.values) == PruneValues(b.values)
  {
    TextsEqual("targetNamespace", a.targetNamespace, b.targetNamespace);
    TextsEqual("storageNamespace", a.storageNamespace, b.storageNamespace);
    assert SameTyped(a, b) <==> forall i: nat | i < 6 ::
      PruneValues(FieldAt(a, i).value) == PruneValues(FieldAt(b, i).value);
    if SameTyped(a, b) {
      assert PruneValues(FieldAt(a, 0).value) == PruneValues(FieldAt(b, 0).value);
      assert PruneValues(FieldAt(a, 2).value) == PruneValues(FieldAt(b, 2).value);
      assert PruneValues(FieldAt(a, 3).value) == PruneValues(FieldAt(b, 3).value);
      assert PruneValues(FieldAt(a, 5).value) == PruneValues(FieldAt(b, 5).value);
    }
  }

  /** Nothing but nulls escapes the comparison: a spec reads as unchanged exactly if it agrees in every field. */
  lemma UnchangedIff(a: Spec, b: Spec)
    ensures !SpecChanged(a, b) <==> SameFields(a, b)
  {
    CanonByKey(a, b);
    TypedFields(a, b);
    RestKeys(a, b);
    ChartsEqual(a, b);
    PruneLists(a.valuesFrom, b.valuesFrom);
    if a.install.Some? && b.install.Some? { InstallsEqual(a.install.value, b.install.value); }
  }

  /** New values count as a change exactly if they differ in more than nulls. */
  lemma ValuesChangedIff(a: Spec, v: Option<Json>)
    ensures SpecChanged(a, a.(values := v)) <==> PruneValues(a.values) != PruneValues(v)
  {
    UnchangedIff(a, a.(values := v));
  }
}
