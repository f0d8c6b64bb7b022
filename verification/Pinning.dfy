/**
 One HelmRelease between the hub and its spoke: what `MinGeneration` proves, and exactly when
 (newUpgradeTarget in pkg/cluster_upgrade/upgrader.go, helmReleaseReady in upgrader_helper.go).

 The environment contracts of the spoke are the steps of this module:
 the work agent bumps the generation exactly when the spec differs modulo nulls; flux that reports Ready with
 `observedGeneration == generation` has released that generation; feedback is an atomic snapshot of the object.
*/
module Pinning {
  import opened Wrappers
  import opened JsonValue
  import opened Cluster

  datatype Installed = Installed(generation: int, spec: Json)

  /** The HelmRelease on the spoke. */
  datatype SpokeRelease = SpokeRelease(spec: Json, generation: int, observed: Option<int>, ready: Option<string>,
      released: Option<Installed>)

  ghost predicate FluxContract(o: SpokeRelease) {
    && o.generation >= 1
    && (o.observed.Some? ==> o.observed.value <= o.generation)
    && (o.ready == Some(TRUE) && o.observed == Some(o.generation) ==>
          o.released == Some(Installed(o.generation, o.spec)))
  }

  /** The agent applies the spec the hub wants. */
  function Applied(wanted: Json, o: Option<SpokeRelease>): SpokeRelease {
    match o
    case None => SpokeRelease(wanted, 1, None, None, None)
    case Some(x) => if x.spec == wanted then x else x.(spec := wanted, generation := x.generation + 1)
  }

  lemma AgentKeepsContract(wanted: Json, o: Option<SpokeRelease>)
    requires o.Some? ==> FluxContract(o.value)
    ensures FluxContract(Applied(wanted, o))
  {
  }

  /** Flux writes any status that honours its contract; spec and generation are not its to change. */
  ghost predicate FluxStep(o: SpokeRelease, o': SpokeRelease) {
    o'.spec == o.spec && o'.generation == o.generation && FluxContract(o')
  }

  /** What `helmReleaseReady` asks of a snapshot. */
  ghost predicate Accepts(o: SpokeRelease, min: int) {
    o.ready == Some(TRUE) && o.generation >= min && o.observed == Some(o.generation)
  }

  // ---------- One release while nothing rewrites its manifest ----------

  /**
   The spec on the hub and the generation awaited, the object on the spoke, the snapshot last fed back, and
   whether the feedback as the hub reads it passes the readiness test.
   */
  datatype Link = Link(wanted: Json, min: int, obj: Option<SpokeRelease>, snap: Option<SpokeRelease>, passes: bool)

  /** A sync may report less than the object has, so that an acceptable object need not pass. */
  datatype Move = Agent | Flux(o: SpokeRelease) | Sync(passes: bool)

  ghost predicate AcceptsSome(o: Option<SpokeRelease>, min: int) {
    o.Some? && Accepts(o.value, min)
  }

  ghost predicate LinkStep(l: Link, m: Move, l': Link) {
    match m
    case Agent => l' == l.(obj := Some(Applied(l.wanted, l.obj)))
    case Flux(o) => l.obj.Some? && FluxStep(l.obj.value, o) && l' == l.(obj := Some(o))
    case Sync(passes) => l' == l.(snap := l.obj, passes := passes) && (passes ==> AcceptsSome(l.obj, l.min))
  }

  ghost predicate LinkOk(l: Link) {
    && (l.obj.Some? ==> FluxContract(l.obj.value))
    && (l.snap.Some? ==> FluxContract(l.snap.value))
    && (l.passes ==> AcceptsSome(l.snap, l.min))
  }

  ghost predicate LinkRun(ls: seq<Link>, ms: seq<Move>) {
    && |ls| == |ms| + 1 && LinkOk(ls[0])
    && forall i | 0 <= i < |ms| :: LinkStep(ls[i], ms[i], ls[i + 1])
  }

  /** Feedback that passes describes a finished release of the wanted spec. */
  ghost predicate Honest(l: Link) {
    l.passes ==>
      l.snap.Some? && l.snap.value.spec == l.wanted
      && l.snap.value.released == Some(Installed(l.snap.value.generation, l.wanted))
  }

  /** The guard: no object of another spec could be accepted, and feedback that passes is not of another spec. */
  ghost predicate Pinned(l: Link) {
    && (l.obj.Some? && l.obj.value.spec != l.wanted ==> l.obj.value.generation < l.min)
    && (l.passes && l.snap.Some? ==> l.snap.value.spec == l.wanted)
  }

  lemma PinnedStep(l: Link, m: Move, l': Link)
    requires LinkOk(l) && Pinned(l) && LinkStep(l, m, l')
    ensures LinkOk(l') && Pinned(l') && Honest(l')
  {
  }

  lemma {:induction false} PinnedRun(ls: seq<Link>, ms: seq<Move>, n: nat)
    requires LinkRun(ls, ms) && Pinned(ls[0]) && n <= |ms|
    ensures LinkOk(ls[n]) && Pinned(ls[n]) && Honest(ls[n])
  {
    if n > 0 {
      PinnedRun(ls, ms, n - 1);
      PinnedStep(ls[n - 1], ms[n - 1], ls[n]);
    }
  }

  ghost predicate Safe(l: Link) {
    forall ls, ms | LinkRun(ls, ms) && ls[0] == l :: forall i | 0 <= i < |ls| :: Honest(ls[i])
  }

  /** Flux finishing with the object as it is. */
  function Settle(o: SpokeRelease): SpokeRelease {
    o.(observed := Some(o.generation), ready := Some(TRUE), released := Some(Installed(o.generation, o.spec)))
  }

  /** Without the guard, one flux step and one sync already show an old release as the new one. */
  lemma UnpinnedRun(l: Link) returns (ls: seq<Link>, ms: seq<Move>)
    requires LinkOk(l) && !Pinned(l)
    ensures LinkRun(ls, ms) && ls[0] == l && |ms| <= 2 && !Honest(ls[|ls| - 1])
  {
    if !Honest(l) {
      ls, ms := [l], [];
    } else {
      var o := Settle(l.obj.value);
      var l1 := l.(obj := Some(o));
      ls, ms := [l, l1, l1.(snap := Some(o), passes := true)], [Flux(o), Sync(true)];
    }
  }

  /** A run may trust its readiness test, in every interleaving, exactly when the guard holds as it starts. */
  lemma SafeIffPinned(l: Link)
    requires LinkOk(l)
    ensures Safe(l) <==> Pinned(l)
  {
    if Pinned(l) {
      forall ls, ms | LinkRun(ls, ms) && ls[0] == l ensures forall i | 0 <= i < |ls| :: Honest(ls[i]) {
        forall i | 0 <= i < |ls| ensures Honest(ls[i]) {
          PinnedRun(ls, ms, i);
        }
      }
    } else {
      var ls, ms := UnpinnedRun(l);
      assert !Honest(ls[|ls| - 1]);
    }
  }

  // ---------- No hang ----------

  /** The generation the spoke ends up with once it carries the wanted spec. */
  function FinalGeneration(l: Link): int {
    match l.obj
    case None => 1
    case Some(o) => if o.spec == l.wanted then o.generation else o.generation + 1
  }

  /** Nothing that agent, flux and sync do lifts the generation above the final one. */
  lemma {:induction false} NeverAbove(ls: seq<Link>, ms: seq<Move>, n: nat)
    requires LinkRun(ls, ms) && !ls[0].passes && n <= |ms|
    ensures ls[n].wanted == ls[0].wanted && ls[n].min == ls[0].min && FinalGeneration(ls[n]) == FinalGeneration(ls[0])
    ensures ls[n].passes ==> ls[0].min <= FinalGeneration(ls[0])
  {
    if n > 0 {
      NeverAbove(ls, ms, n - 1);
      assert LinkStep(ls[n - 1], ms[n - 1], ls[n]);
    }
  }

  ghost predicate CanPass(l: Link) {
    exists ls: seq<Link>, ms: seq<Move> :: LinkRun(ls, ms) && ls[0] == l && ls[|ls| - 1].passes
  }

  /**
   A release that does not pass yet can come to pass exactly when the generation awaited is no higher than
   1 for an object still to be created, its own for one that carries the spec, and one more for any other.
   */
  lemma NoHangIff(l: Link)
    requires LinkOk(l) && !l.passes
    ensures CanPass(l) <==> l.min <= match l.obj
                                     case None => 1
                                     case Some(o) => if o.spec == l.wanted then o.generation else o.generation + 1
  {
    if l.min <= FinalGeneration(l) {
      AgentKeepsContract(l.wanted, l.obj);
      var o := Applied(l.wanted, l.obj);
      var ls := [l, l.(obj := Some(o)), l.(obj := Some(Settle(o))),
                 l.(obj := Some(Settle(o)), snap := Some(Settle(o)), passes := true)];
      assert LinkRun(ls, [Agent, Flux(Settle(o)), Sync(true)]);
    } else {
      forall ls: seq<Link>, ms: seq<Move> | LinkRun(ls, ms) && ls[0] == l ensures !ls[|ls| - 1].passes {
        NeverAbove(ls, ms, |ms|);
      }
    }
  }

  // ---------- The hypothesis of newUpgradeTarget ----------

  /** `MinGeneration` from the reported generation and the `changed` bit. */
  function MinGeneration(reported: int, changed: bool): int {
    reported + if changed then 1 else 0
  }

  /**
   Feedback in sync as the manifest is rewritten: the spoke carries the spec the hub had, and the generation
   reported is its own; 0 when the object does not exist yet.
   */
  ghost predicate InSync(hubSpec: Json, reported: int, obj: Option<SpokeRelease>, snap: Option<SpokeRelease>) {
    match obj
    case None => reported == 0 && snap.None?
    case Some(o) =>
      && o.spec == hubSpec && reported == o.generation
      && snap.Some? && snap.value.spec == o.spec && snap.value.generation == o.generation
  }

  ghost predicate TracksObj(wanted: Json, o: SpokeRelease, min: int) {
    if o.spec == wanted then o.generation == min || (o.generation == 1 && min == 0) else o.generation == min - 1
  }

  /** What an in-sync rewrite establishes and every later step keeps: the generation tells the specs apart. */
  ghost predicate Tracks(l: Link) {
    && (l.obj.None? ==> 0 <= l.min <= 1)
    && (l.obj.Some? ==> TracksObj(l.wanted, l.obj.value, l.min))
    && (l.snap.Some? ==> TracksObj(l.wanted, l.snap.value, l.min))
  }

  lemma InSyncTracks(hubSpec: Json, reported: int, l: Link)
    requires InSync(hubSpec, reported, l.obj, l.snap) && l.min == MinGeneration(reported, hubSpec != l.wanted)
    ensures Tracks(l)
  {
  }

  lemma TracksStep(l: Link, m: Move, l': Link)
    requires Tracks(l) && LinkStep(l, m, l')
    ensures Tracks(l')
  {
  }

  /** Tracking implies the guard, hence safety, and that the caught-up generation is the awaited one. */
  lemma TracksPins(l: Link)
    requires LinkOk(l) && Tracks(l)
    ensures Pinned(l) && Honest(l)
    ensures FinalGeneration(l) >= l.min
    ensures l.obj.Some? && l.obj.value.spec == l.wanted && l.min > 0 ==> l.obj.value.generation == l.min
  {
  }
}
