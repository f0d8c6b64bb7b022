/**
 JSON documents, null pruning (pkg/cluster_upgrade/upgrader.go) and the merge patch of RFC 7396.
*/
module JsonValue {
  import opened Wrappers

  datatype Json =
    | Null
    | Bool(b: bool)
    | Num(n: real)
    | Str(s: string)
    | Arr(items: seq<Json>)
    | Obj(members: map<string, Json>)

  /** What `pruneNulls` leaves: null members go, at every depth; list elements stay where they are. */
  function Prune(v: Json): (r: Json)
    ensures r.Null? <==> v.Null?
  {
    match v
    case Arr(items) => Arr(seq(|items|, i requires 0 <= i < |items| => Prune(items[i])))
    case Obj(m) => Obj(map k | k in m && !m[k].Null? :: Prune(m[k]))
    case _ => v
  }

  /** No object anywhere inside `v` has a null member. */
  predicate NoNullMembers(v: Json) {
    match v
    case Arr(items) => forall i | 0 <= i < |items| :: NoNullMembers(items[i])
    case Obj(m) => forall k | k in m :: !m[k].Null? && NoNullMembers(m[k])
    case _ => true
  }

  lemma {:induction false} PruneRemovesNulls(v: Json)
    ensures NoNullMembers(Prune(v))
  {
    match v
    case Arr(items) =>
      forall i | 0 <= i < |items| ensures NoNullMembers(Prune(v).items[i]) {
        PruneRemovesNulls(items[i]);
      }
    case Obj(m) =>
      forall k | k in Prune(v).members ensures NoNullMembers(Prune(v).members[k]) {
        PruneRemovesNulls(m[k]);
      }
    case _ =>
  }

  /** Pruning changes exactly the documents that hold a null member. */
  lemma {:induction false} PruneFixpoint(v: Json)
    ensures Prune(v) == v <==> NoNullMembers(v)
  {
    PruneRemovesNulls(v);
    if NoNullMembers(v) {
      match v
      case Arr(items) =>
        forall i | 0 <= i < |items| ensures Prune(items[i]) == items[i] {
          PruneFixpoint(items[i]);
        }
        assert Prune(v).items == items;
      case Obj(m) =>
        forall k | k in m ensures Prune(m[k]) == m[k] {
          PruneFixpoint(m[k]);
        }
        assert Prune(v).members == m;
      case _ =>
    }
  }

  lemma PruneIdempotent(v: Json)
    ensures Prune(Prune(v)) == Prune(v)
  {
    PruneRemovesNulls(v);
    PruneFixpoint(Prune(v));
  }

  /**
   What pruning means, entry by entry: objects lose exactly their null members, lists keep their length and every
   element, null or not, in place, and this at every depth.
   */
  ghost predicate PrunedForm(v: Json, r: Json) {
    match v
    case Arr(items) =>
      && r.Arr? && |r.items| == |items|
      && forall i | 0 <= i < |items| :: PrunedForm(items[i], r.items[i])
    case Obj(m) =>
      && r.Obj? && (forall k :: k in r.members <==> k in m && !m[k].Null?)
      && forall k | k in m && k in r.members :: PrunedForm(m[k], r.members[k])
    case _ => r == v
  }

  /** A document has that form exactly if it is the pruned one. */
  lemma {:induction false} PruneForm(v: Json, r: Json)
    ensures PrunedForm(v, r) <==> r == Prune(v)
  {
    match v
    case Arr(items) =>
      if r.Arr? && |r.items| == |items| {
        forall i | 0 <= i < |items| ensures PrunedForm(items[i], r.items[i]) <==> r.items[i] == Prune(items[i]) {
          PruneForm(items[i], r.items[i]);
        }
        assert r == Prune(v) <==> r.items == Prune(v).items;
      }
    case Obj(m) =>
      if r.Obj? {
        forall k | k in m && k in r.members ensures PrunedForm(m[k], r.members[k]) <==> r.members[k] == Prune(m[k]) {
          PruneForm(m[k], r.members[k]);
        }
        assert r == Prune(v) <==> r.members == Prune(v).members;
      }
    case _ =>
  }

  // ---------- JSON Merge Patch, section 2 of RFC 7396 ----------

  function MembersOf(target: Option<Json>): map<string, Json> {
    if target.Some? && target.value.Obj? then target.value.members else map[]
  }

  function Lookup(m: map<string, Json>, k: string): Option<Json> {
    if k in m then Some(m[k]) else None
  }

  /** MergePatch(Target, Patch); `None` is an undefined target. */
  function MergePatch(target: Option<Json>, patch: Json): (r: Json)
    ensures !patch.Obj? ==> r == patch
    ensures patch.Obj? ==> r.Obj?
    decreases patch
  {
    match patch
    case Obj(p) =>
      var t := MembersOf(target);
      Obj(map k | k in t.Keys + p.Keys && !(k in p && p[k].Null?) ::
            if k in p then MergePatch(Lookup(t, k), p[k]) else t[k])
    case _ => patch
  }

  /** A document created by a merge patch is the document written, up to pruned nulls. */
  lemma {:induction false} StoredByMergePatch(v: Json)
    ensures Prune(MergePatch(None, v)) == Prune(v)
  {
    match v
    case Obj(m) =>
      var r := MergePatch(None, v).members;
      forall k | k in m && !m[k].Null? ensures k in r && Prune(r[k]) == Prune(m[k]) {
        StoredByMergePatch(m[k]);
      }
      assert Prune(Obj(r)).members == Prune(v).members;
    case _ =>
  }

  /** The merge patch that a client sends to turn `before` into `after`: only the members that differ. */
  function Diff(before: Json, after: Json): (p: Json)
    requires before.Obj? && after.Obj?
    ensures p.Obj?
    decreases after
  {
    var o, n := before.members, after.members;
    Obj(map k | k in o.Keys + n.Keys && !(k in o && k in n && o[k] == n[k]) ::
          if k !in n then Null
          else if k in o && o[k].Obj? && n[k].Obj? then Diff(o[k], n[k])
          else n[k])
  }

  /** Over a target that is no object, or by a patch that is none, the patch stands alone. */
  lemma PatchedOverOther(target: Option<Json>, v: Json)
    requires target.Some? && target.value.Obj? ==> !v.Obj?
    ensures Prune(MergePatch(target, v)) == Prune(v)
  {
    StoredByMergePatch(v);
    if v.Obj? {
      assert MembersOf(target) == MembersOf(None);
      assert MergePatch(target, v) == MergePatch(None, v);
    }
  }

  /** Sending the difference as a merge patch leaves the new document, up to pruned nulls. */
  lemma {:induction false} PatchedByDiff(before: Json, after: Json)
    requires before.Obj? && after.Obj?
    ensures Prune(MergePatch(Some(before), Diff(before, after))) == Prune(after)
    decreases after
  {
    var o, n := before.members, after.members;
    var d := Diff(before, after).members;
    var r := MergePatch(Some(before), Diff(before, after)).members;
    forall k | k in n && !n[k].Null? ensures k in r && !r[k].Null? && Prune(r[k]) == Prune(n[k]) {
      if k in o && o[k] == n[k] {
        assert k !in d && r[k] == o[k];
      } else if k in o && o[k].Obj? && n[k].Obj? {
        PatchedByDiff(o[k], n[k]);
        assert r[k] == MergePatch(Some(o[k]), d[k]);
      } else {
        assert d[k] == n[k] && r[k] == MergePatch(Lookup(o, k), n[k]);
        PatchedOverOther(Lookup(o, k), n[k]);
      }
    }
    assert forall k | k in r && !r[k].Null? :: k in n && !n[k].Null?;
    assert Prune(Obj(r)).members == Prune(after).members;
  }
}
