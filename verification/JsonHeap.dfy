/**
 `pruneNulls` as the code runs it: on maps and slices in memory, deleting and overwriting entries in place
 (pkg/cluster_upgrade/upgrader.go:67-87).
*/
module JsonHeap {
  import opened JsonValue

  /** A Go `any` holding decoded JSON: nil, a scalar, or a reference to a map or a slice. */
  datatype Any = Nil | Scalar(v: Json) | MapRef(m: MapObject) | ListRef(l: ListObject)

  class MapObject {
    var entries: map<string, Any>
    ghost var Repr: set<object>
  }

  class ListObject {
    var items: seq<Any>
    ghost var Repr: set<object>
  }

  ghost function Ref(a: Any): set<object> {
    match a
    case MapRef(m) => {m}
    case ListRef(l) => {l}
    case _ => {}
  }

  ghost function ReprOf(a: Any): set<object>
    reads Ref(a)
  {
    match a
    case MapRef(m) => m.Repr
    case ListRef(l) => l.Repr
    case _ => {}
  }

  /** In memory, `a` is the tree `j`: no part is shared and none contains itself. */
  ghost predicate Holds(a: Any, j: Json)
    reads Ref(a), ReprOf(a)
    decreases j, 1
  {
    match a
    case Nil => j.Null?
    case Scalar(v) => j == v && !v.Null? && !v.Obj? && !v.Arr?
    case MapRef(m) => j.Obj? && MapHolds(m, j.members)
    case ListRef(l) => j.Arr? && ListHolds(l, j.items)
  }

  ghost predicate Child(parent: object, repr: set<object>, a: Any)
    reads repr
  {
    Ref(a) <= repr && Ref(a) <= ReprOf(a) <= repr && parent !in ReprOf(a)
  }

  ghost predicate Apart(repr: set<object>, a: Any, b: Any)
    reads repr
  {
    Ref(a) <= repr && Ref(b) <= repr && ReprOf(a) !! ReprOf(b)
  }

  ghost predicate MapHolds(m: MapObject, members: map<string, Json>)
    reads m, m.Repr
    decreases Obj(members), 0
  {
    && m in m.Repr && m.entries.Keys == members.Keys
    && (forall k {:trigger m.entries[k]} | k in m.entries ::
          Child(m, m.Repr, m.entries[k]) && Holds(m.entries[k], members[k]))
    && (forall k, k' {:trigger m.entries[k], m.entries[k']} | k in m.entries && k' in m.entries && k != k' ::
          Apart(m.Repr, m.entries[k], m.entries[k']))
  }

  ghost predicate ListHolds(l: ListObject, items: seq<Json>)
    reads l, l.Repr
    decreases Arr(items), 0
  {
    && l in l.Repr && |l.items| == |items|
    && (forall i | 0 <= i < |l.items| :: Child(l, l.Repr, l.items[i]) && Holds(l.items[i], items[i]))
    && (forall i, k | 0 <= i < |l.items| && 0 <= k < |l.items| && i != k :: Apart(l.Repr, l.items[i], l.items[k]))
  }

  /** Pruning in place turns the tree `j` into exactly `Prune(j)`, touching nothing outside it. */
  method PruneNulls(a: Any, ghost j: Json)
    requires Holds(a, j)
    modifies ReprOf(a)
    ensures ReprOf(a) == old(ReprOf(a))
    ensures Holds(a, Prune(j))
    decreases j, 2
  {
    match a
    case MapRef(m) => PruneMap(m, j);
    case ListRef(l) => PruneList(l, j);
    case _ =>
  }

  method DeleteEntry(m: MapObject, key: string, ghost members: map<string, Json>)
    requires MapHolds(m, members) && key in m.entries
    modifies m`entries
    ensures MapHolds(m, members - {key})
  {
    label Start:
    m.entries := m.entries - {key};
    ghost var left := members - {key};
    forall k | k in m.entries ensures Child(m, m.Repr, m.entries[k]) {
      assert old@Start(Child(m, m.Repr, m.entries[k]));
    }
    forall k | k in m.entries ensures Holds(m.entries[k], left[k]) {
      assert old@Start(Child(m, m.Repr, m.entries[k])) && old@Start(Holds(m.entries[k], members[k]));
    }
    forall k, k' | k in m.entries && k' in m.entries && k != k' ensures Apart(m.Repr, m.entries[k], m.entries[k']) {
      assert old@Start(Apart(m.Repr, m.entries[k], m.entries[k']));
    }
  }

  /** A tree apart from another is not touched when that one is pruned. */
  ghost predicate Separate(a: Any, b: Any)
    reads Ref(a), Ref(b)
  {
    Ref(a) <= ReprOf(a) && Ref(b) <= ReprOf(b) && ReprOf(a) !! ReprOf(b)
  }

  method PruneApart(child: Any, ghost j: Json, ghost others: map<string, Any>, ghost members: map<string, Json>)
    requires Holds(child, j) && others.Keys <= members.Keys
    requires forall k | k in others :: Separate(child, others[k]) && Holds(others[k], members[k])
    modifies ReprOf(child)
    ensures ReprOf(child) == old(ReprOf(child)) && Holds(child, Prune(j))
    ensures forall k | k in others :: ReprOf(others[k]) == old(ReprOf(others[k])) && Holds(others[k], members[k])
    decreases j, 3
  {
    PruneNulls(child, j);
  }

  /** Where the parts of every entry live. */
  ghost predicate Footprints(m: MapObject, reprs: map<string, set<object>>)
    reads m, m.Repr
  {
    && m in m.Repr && reprs.Keys == m.entries.Keys
    && (forall k {:trigger reprs[k]} | k in reprs ::
          Ref(m.entries[k]) <= m.Repr && Ref(m.entries[k]) <= ReprOf(m.entries[k]) == reprs[k] <= m.Repr
                && m !in reprs[k])
    && (forall k, k' {:trigger reprs[k], reprs[k']} | k in reprs && k' in reprs && k != k' :: reprs[k] !! reprs[k'])
  }

  lemma HasFootprints(m: MapObject, members: map<string, Json>) returns (reprs: map<string, set<object>>)
    requires MapHolds(m, members)
    ensures Footprints(m, reprs)
    ensures forall k | k in m.entries :: Holds(m.entries[k], members[k])
  {
    reprs := map k | k in m.entries :: ReprOf(m.entries[k]);
    forall k | k in reprs ensures Child(m, m.Repr, m.entries[k]) {
    }
    forall k, k' | k in reprs && k' in reprs && k != k' ensures reprs[k] !! reprs[k'] {
      assert Apart(m.Repr, m.entries[k], m.entries[k']);
    }
  }

  lemma FootprintsHold(m: MapObject, members: map<string, Json>, reprs: map<string, set<object>>)
    requires Footprints(m, reprs) && members.Keys == m.entries.Keys
    requires forall k | k in m.entries :: Holds(m.entries[k], members[k])
    ensures MapHolds(m, members)
  {
    forall k | k in m.entries ensures Child(m, m.Repr, m.entries[k]) {
      assert k in reprs && ReprOf(m.entries[k]) == reprs[k];
    }
    forall k, k' | k in m.entries && k' in m.entries && k != k' ensures Apart(m.Repr, m.entries[k], m.entries[k']) {
      assert reprs[k] !! reprs[k'];
    }
  }

  method PruneEntry(m: MapObject, key: string, ghost members: map<string, Json>)
    requires MapHolds(m, members) && key in m.entries
    modifies m.Repr
    ensures m.Repr == old(m.Repr) && m.entries == old(m.entries)
    ensures MapHolds(m, members[key := Prune(members[key])])
    decreases members[key], 4
  {
    ghost var reprs := HasFootprints(m, members);
    var child := m.entries[key];
    ghost var entries := m.entries;
    assert ReprOf(child) == reprs[key];
    forall k | k in entries - {key} ensures Separate(child, entries[k]) {
      assert reprs[k] !! reprs[key];
    }
    PruneApart(child, members[key], entries - {key}, members);
    assert m.entries == entries;
    forall k | k in entries ensures ReprOf(entries[k]) == reprs[k] {
      assert k != key ==> k in entries - {key};
    }
    FootprintsHold(m, members[key := Prune(members[key])], reprs);
    m.entries := m.entries[key := child];
    assert m.entries == entries;
  }

  /** `members` after every key outside `todo` has been dealt with. */
  ghost predicate HalfPruned(start: map<string, Json>, members: map<string, Json>, todo: set<string>) {
    && todo <= members.Keys <= start.Keys
    && (forall k | k in todo :: members[k] == start[k])
    && (forall k | k in start && k !in todo :: k in members <==> !start[k].Null?)
    && (forall k | k in members && k !in todo :: members[k] == Prune(start[k]))
  }

  lemma HalfPrunedStep(start: map<string, Json>, members: map<string, Json>, todo: set<string>, key: string)
    requires HalfPruned(start, members, todo) && key in todo
    ensures start[key].Null? ==> HalfPruned(start, members - {key}, todo - {key})
    ensures !start[key].Null? ==> HalfPruned(start, members[key := Prune(start[key])], todo - {key})
  {
  }

  lemma HalfPrunedDone(start: map<string, Json>, members: map<string, Json>)
    requires HalfPruned(start, members, {})
    ensures members == Prune(Obj(start)).members
  {
  }

  lemma EntryKind(m: MapObject, members: map<string, Json>, key: string)
    requires MapHolds(m, members) && key in members
    ensures key in m.entries && (m.entries[key] == Nil <==> members[key].Null?)
  {
    assert Holds(m.entries[key], members[key]);
  }

  /** One round of the loop over a map. */
  method PruneKey(m: MapObject, key: string, ghost start: map<string, Json>, ghost given: map<string, Json>,
      ghost todo: set<string>)
      returns (ghost members: map<string, Json>)
    requires MapHolds(m, given) && HalfPruned(start, given, todo) && key in todo
    modifies m.Repr
    ensures m.Repr == old(m.Repr) && MapHolds(m, members) && HalfPruned(start, members, todo - {key})
    decreases Obj(start), 0
  {
    EntryKind(m, given, key);
    HalfPrunedStep(start, given, todo, key);
    if m.entries[key] == Nil {
      DeleteEntry(m, key, given);
      members := given - {key};
    } else {
      PruneEntry(m, key, given);
      members := given[key := Prune(given[key])];
    }
  }

  method PruneMap(m: MapObject, ghost j: Json)
    requires j.Obj? && MapHolds(m, j.members)
    modifies m.Repr
    ensures m.Repr == old(m.Repr)
    ensures MapHolds(m, Prune(j).members)
    decreases j, 1
  {
    ghost var members := j.members;
    var todo := m.entries.Keys;
    while todo != {}
      invariant m.Repr == old(m.Repr) && MapHolds(m, members)
      invariant HalfPruned(j.members, members, todo)
      decreases todo
    {
      var key :| key in todo;
      members := PruneKey(m, key, j.members, members, todo);
      todo := todo - {key};
    }
    HalfPrunedDone(j.members, members);
  }

  method PruneItem(l: ListObject, i: nat, ghost items: seq<Json>)
    requires ListHolds(l, items) && i < |l.items|
    modifies l.Repr
    ensures l.Repr == old(l.Repr) && l.items == old(l.items)
    ensures ListHolds(l, items[i := Prune(items[i])])
    decreases items[i], 3
  {
    var child := l.items[i];
    PruneNulls(child, items[i]);
    l.items := l.items[i := child];
  }

  method PruneList(l: ListObject, ghost j: Json)
    requires j.Arr? && ListHolds(l, j.items)
    modifies l.Repr
    ensures l.Repr == old(l.Repr)
    ensures ListHolds(l, Prune(j).items)
    decreases j, 1
  {
    ghost var items := j.items;
    for i := 0 to |l.items|
      invariant l.Repr == old(l.Repr) && ListHolds(l, items) && |items| == |j.items| && l.items == old(l.items)
      invariant forall k | 0 <= k < |items| :: items[k] == if k < i then Prune(j.items[k]) else j.items[k]
    {
      PruneItem(l, i, items);
      items := items[i := Prune(items[i])];
    }
    assert items == Prune(j).items;
  }
}
