/**
 No hang: exactly when a pending run can still be completed, and that it always can when its feedback was in sync
 (newUpgradeTarget and observeUpgrade in pkg/cluster_upgrade/upgrader.go, helmReleaseReady in upgrader_helper.go).
*/
module ProtocolProgress {
  import opened Wrappers
  import opened Cluster
  import opened Render
  import opened Rewrite
  import opened RunRecord
  import opened Pinning
  import opened Protocol
  import opened ProtocolStore
  import opened ProtocolRun
  import opened ProtocolSafety
  import opened ProtocolGate
  import opened ProtocolExact

  /** What agent, flux and feedback sync can lead to. */
  ghost predicate EnvLeads(inp: Inputs, s: System, s': System) {
    exists ss: seq<System>, ls: seq<Label> :: EnvPath(inp, ss, ls) && ss[0] == s && ss[|ls|] == s'
  }

  lemma EnvConcat(inp: Inputs, a: seq<System>, ls: seq<Label>, b: seq<System>, ms: seq<Label>)
    requires EnvPath(inp, a, ls) && EnvPath(inp, b, ms) && a[|ls|] == b[0]
    ensures EnvPath(inp, a + b[1..], ls + ms) && (a + b[1..])[|ls + ms|] == b[|ms|]
  {
    var ss, ns := a + b[1..], ls + ms;
    forall i | 0 <= i < |ns| ensures StepAt(inp, ss, ns, i) {
      if i < |ls| { assert StepAt(inp, a, ls, i); } else { assert StepAt(inp, b, ms, i - |ls|); }
    }
  }

  lemma EnvTransitive(inp: Inputs, s: System, s1: System, s2: System)
    requires EnvLeads(inp, s, s1) && EnvLeads(inp, s1, s2)
    ensures EnvLeads(inp, s, s2)
  {
    var a: seq<System>, ls: seq<Label> :| EnvPath(inp, a, ls) && a[0] == s && a[|ls|] == s1;
    var b: seq<System>, ms: seq<Label> :| EnvPath(inp, b, ms) && b[0] == s1 && b[|ms|] == s2;
    EnvConcat(inp, a, ls, b, ms);
  }

  lemma EnvSelf(inp: Inputs, s: System)
    ensures EnvLeads(inp, s, s)
  {
    assert EnvPath(inp, [s], []);
  }

  // ---------- One round: agent, flux and sync for one release ----------

  ghost function AfterAgent(s: System, p: Pos): System
    requires IsReleaseAt(s.hub.works, p)
  {
    var m := ManifestAt(s.hub.works, p);
    s.(spoke := s.spoke[KeyOf(m) := Applied(Canon(m.body.spec), SpokeAt(s.spoke, KeyOf(m)))])
  }

  lemma AfterAgentStep(inp: Inputs, s: System, p: Pos)
    requires StoreInv(s) && IsReleaseAt(s.hub.works, p)
    ensures Deployed(AfterAgent(s, p), p) && EnvPath(inp, [s, AfterAgent(s, p)], [AgentApply(p)])
  {
    var m := ManifestAt(s.hub.works, p);
    AgentKeepsContract(Canon(m.body.spec), SpokeAt(s.spoke, KeyOf(m)));
    assert Step(inp, s, AgentApply(p), AfterAgent(s, p));
    assert StepAt(inp, [s, AfterAgent(s, p)], [AgentApply(p)], 0);
  }

  ghost function Round(s: System, p: Pos): System
    requires StoreInv(s) && IsReleaseAt(s.hub.works, p) && Deployed(AfterAgent(s, p), p)
  {
    AfterFinish(AfterAgent(s, p), p)
  }

  lemma RoundLeads(inp: Inputs, s: System, p: Pos)
    requires StoreInv(s) && IsReleaseAt(s.hub.works, p)
    ensures Deployed(AfterAgent(s, p), p) && EnvLeads(inp, s, Round(s, p))
  {
    var s1 := AfterAgent(s, p);
    AfterAgentStep(inp, s, p);
    FinishSteps(inp, s1, p);
    assert EnvLeads(inp, s, s1);
    assert EnvLeads(inp, s1, FinishPath(s1, p)[|FinishLabels(s1, p)|]);
    EnvTransitive(inp, s, s1, Round(s, p));
  }

  /** A round lets its own release pass, if that can pass at all. */
  lemma RoundHere(s: System, p: Pos, min: int)
    requires StoreInv(s) && IsReleaseAt(s.hub.works, p) && Deployed(AfterAgent(s, p), p)
    ensures IsReleaseAt(Round(s, p).hub.works, p)
    ensures LinkAt(Round(s, p), p, min).passes <==> min <= FinalGeneration(LinkAt(s, p, min))
  {
    FinishedLink(AfterAgent(s, p), p, min);
  }

  /** A round leaves the links of other releases alone. */
  lemma RoundElsewhere(s: System, p: Pos, q: Pos, min: int)
    requires StoreInv(s) && IsReleaseAt(s.hub.works, p) && Deployed(AfterAgent(s, p), p)
    requires IsReleaseAt(s.hub.works, q) && KeyOf(ManifestAt(s.hub.works, q)) != KeyOf(ManifestAt(s.hub.works, p))
    ensures IsReleaseAt(Round(s, p).hub.works, q) && LinkAt(Round(s, p), q, min) == LinkAt(s, q, min)
  {
    var key, w := KeyOf(ManifestAt(s.hub.works, p)), s.hub.works[p.work];
    var s1 := AfterFlux(AfterAgent(s, p), p);
    PrependCondition(w, key, s1.spoke[key]);
    assert ManifestAt(Round(s, p).hub.works, q) == ManifestAt(s.hub.works, q);
    SameLink(s, Round(s, p), q, min);
  }

  lemma RoundWatched(s: System, p: Pos)
    requires StoreInv(s) && IsReleaseAt(s.hub.works, p) && Deployed(AfterAgent(s, p), p)
    ensures var s' := Round(s, p);
      s'.hub == s.hub.(works := s'.hub.works) && s'.now == s.now && Watched(s'.hub.works) == Watched(s.hub.works)
  {
    FinishKeeps(AfterAgent(s, p), p);
  }

  lemma {:induction false} PathKeepsStore(inp: Inputs, ss: seq<System>, ls: seq<Label>, n: nat)
    requires IsPath(inp, ss, ls) && n < |ss| && StoreInv(ss[0])
    ensures StoreInv(ss[n])
  {
    if n > 0 {
      PathKeepsStore(inp, ss, ls, n - 1);
      assert StepAt(inp, ss, ls, n - 1);
      StepKeepsStore(inp, ss[n - 1], ls[n - 1], ss[n]);
    }
  }

  lemma RoundKeeps(inp: Inputs, s: System, p: Pos)
    requires StoreInv(s) && IsReleaseAt(s.hub.works, p) && Deployed(AfterAgent(s, p), p)
    ensures var s' := Round(s, p);
      && StoreInv(s') && (Watchable(s.hub.works) ==> Watchable(s'.hub.works))
  {
    var s1 := AfterAgent(s, p);
    AfterAgentStep(inp, s, p);
    StepKeepsStore(inp, s, AgentApply(p), s1);
    FinishSteps(inp, s1, p);
    StatusWatchable(s.hub.works, p.work, Round(s, p).hub.works[p.work].status);
    PathKeepsStore(inp, FinishPath(s1, p), FinishLabels(s1, p), 2);
  }

  // ---------- All targets of a run ----------

  /** The target passes, or its generation is not out of reach. */
  ghost predicate Awaitable(inp: Inputs, s: System, k: nat) {
    LinkedTarget(inp, s, k)
    && (TargetLink(inp, s, k).passes || TargetLink(inp, s, k).min <= FinalGeneration(TargetLink(inp, s, k)))
  }

  ghost predicate Passing(inp: Inputs, s: System, k: nat) {
    LinkedTarget(inp, s, k) && TargetLink(inp, s, k).passes
  }

  ghost predicate SameTarget(inp: Inputs, s: System, s': System, k: nat) {
    LinkedTarget(inp, s, k) && LinkedTarget(inp, s', k) && TargetLink(inp, s', k) == TargetLink(inp, s, k)
  }

  /** What a run needs to go on: everything but the record itself. */
  ghost predicate Sound(inp: Inputs, s: System) {
    && StoreInv(s) && Pending(inp, s) && Watchable(s.hub.works)
    && |Awaited(inp, s)| == |Watched(s.hub.works)|
  }

  lemma SoundLinks(inp: Inputs, s: System, k: nat)
    requires Sound(inp, s) && k < |Awaited(inp, s)|
    ensures LinkedTarget(inp, s, k)
  {
    assert Watched(s.hub.works)[k] in Watched(s.hub.works);
  }

  lemma KeysApart(works: seq<Work>, i: nat, j: nat)
    requires Watchable(works) && i < |Watched(works)| && j < |Watched(works)| && i != j
    ensures var p, q := Watched(works)[i], Watched(works)[j];
      IsReleaseAt(works, p) && IsReleaseAt(works, q) && KeyOf(ManifestAt(works, p)) != KeyOf(ManifestAt(works, q))
  {
    var p, q := Watched(works)[i], Watched(works)[j];
    WatchedOnce(works);
    assert p != q && p in Watched(works) && q in Watched(works);
  }

  lemma SameTargetLink(inp: Inputs, s: System, s': System, k: nat)
    requires LinkedTarget(inp, s, k) && s'.hub.configMaps == s.hub.configMaps
    requires Watched(s'.hub.works) == Watched(s.hub.works) && IsReleaseAt(s'.hub.works, Watched(s.hub.works)[k])
    requires var p, min := Watched(s.hub.works)[k], Awaited(inp, s)[k].minGeneration;
      LinkAt(s', p, min) == LinkAt(s, p, min)
    ensures SameTarget(inp, s, s', k)
  {
  }

  lemma RoundOther(inp: Inputs, s: System, n: nat, k: nat)
    requires Sound(inp, s) && n < |Awaited(inp, s)| && k < |Awaited(inp, s)| && k != n
    requires IsReleaseAt(s.hub.works, Watched(s.hub.works)[n])
            && Deployed(AfterAgent(s, Watched(s.hub.works)[n]), Watched(s.hub.works)[n])
    ensures SameTarget(inp, s, Round(s, Watched(s.hub.works)[n]), k)
  {
    var p, q := Watched(s.hub.works)[n], Watched(s.hub.works)[k];
    KeysApart(s.hub.works, n, k);
    RoundWatched(s, p);
    RoundElsewhere(s, p, q, Awaited(inp, s)[k].minGeneration);
    SameTargetLink(inp, s, Round(s, p), k);
  }

  /** After a round for target `n`, it passes if it was awaitable, and nothing has changed for the others. */
  lemma RoundTarget(inp: Inputs, s: System, n: nat) returns (s': System)
    requires Sound(inp, s) && n < |Awaited(inp, s)| && Awaitable(inp, s, n) && !Passing(inp, s, n)
    ensures EnvLeads(inp, s, s') && s'.hub == s.hub.(works := s'.hub.works) && Sound(inp, s') && Passing(inp, s', n)
    ensures forall k | 0 <= k < |Awaited(inp, s)| && k != n :: SameTarget(inp, s, s', k)
  {
    var ps := Watched(s.hub.works);
    RoundLeads(inp, s, ps[n]);
    s' := Round(s, ps[n]);
    RoundKeeps(inp, s, ps[n]);
    RoundWatched(s, ps[n]);
    RoundHere(s, ps[n], Awaited(inp, s)[n].minGeneration);
    forall k | 0 <= k < |Awaited(inp, s)| && k != n ensures SameTarget(inp, s, s', k) {
      RoundOther(inp, s, n, k);
    }
  }

  /** The first `n` targets pass, and the others still can. */
  ghost predicate Ahead(inp: Inputs, s: System, n: nat) {
    Sound(inp, s)
    && (forall k | 0 <= k < n && k < |Awaited(inp, s)| :: Passing(inp, s, k))
    && (forall k | n <= k < |Awaited(inp, s)| :: Awaitable(inp, s, k))
  }

  lemma SameTargetPasses(inp: Inputs, s: System, s': System, k: nat)
    requires SameTarget(inp, s, s', k)
    ensures Passing(inp, s, k) ==> Passing(inp, s', k)
    ensures Awaitable(inp, s, k) ==> Awaitable(inp, s', k)
  {
  }

  lemma RoundAhead(inp: Inputs, s: System, s': System, n: nat)
    requires Ahead(inp, s, n) && n < |Awaited(inp, s)| && Sound(inp, s') && Passing(inp, s', n)
    requires Awaited(inp, s') == Awaited(inp, s)
    requires forall k | 0 <= k < |Awaited(inp, s)| && k != n :: SameTarget(inp, s, s', k)
    ensures Ahead(inp, s', n + 1)
  {
    forall k | 0 <= k < |Awaited(inp, s)| && k != n
      ensures Passing(inp, s, k) ==> Passing(inp, s', k)
      ensures Awaitable(inp, s, k) ==> Awaitable(inp, s', k)
    {
      assert SameTarget(inp, s, s', k);
      SameTargetPasses(inp, s, s', k);
    }
  }

  lemma AheadMore(inp: Inputs, s: System, n: nat)
    requires Ahead(inp, s, n) && Passing(inp, s, n)
    ensures Ahead(inp, s, n + 1)
  {
  }

  lemma OneAhead(inp: Inputs, s: System, n: nat) returns (s': System)
    requires Ahead(inp, s, n) && n < |Awaited(inp, s)|
    ensures EnvLeads(inp, s, s') && s'.hub == s.hub.(works := s'.hub.works) && Ahead(inp, s', n + 1)
  {
    assert Awaitable(inp, s, n);
    if Passing(inp, s, n) {
      s' := s;
      EnvSelf(inp, s);
      AheadMore(inp, s, n);
    } else {
      s' := RoundTarget(inp, s, n);
      RoundAhead(inp, s, s', n);
    }
  }

  lemma {:induction false} AllAhead(inp: Inputs, s: System, n: nat) returns (s': System)
    requires Ahead(inp, s, n) && n <= |Awaited(inp, s)|
    ensures EnvLeads(inp, s, s') && s'.hub == s.hub.(works := s'.hub.works) && Ahead(inp, s', |Awaited(inp, s)|)
    decreases |Awaited(inp, s)| - n
  {
    if n == |Awaited(inp, s)| {
      s' := s;
      EnvSelf(inp, s);
    } else {
      var s1 := OneAhead(inp, s, n);
      s' := AllAhead(inp, s1, n + 1);
      EnvTransitive(inp, s, s1, s');
    }
  }

  // ---------- Exactly when a run can be completed ----------

  /** All targets are ready in this one state. */
  ghost predicate AllPass(inp: Inputs, s: System) {
    Pending(inp, s) && forall k | 0 <= k < |Awaited(inp, s)| :: PassesTarget(s, Awaited(inp, s)[k])
  }

  /** Some interleaving of any steps, in which the run stays pending, makes all its targets ready at once. */
  ghost predicate CanAllPass(inp: Inputs, s: System) {
    exists ss: seq<System>, ls: seq<Label> ::
      IsPath(inp, ss, ls) && ss[0] == s && PendingFrom(inp, ss, 0, |ss|) && AllPass(inp, ss[|ls|])
  }

  lemma {:induction false} EnvPending(inp: Inputs, ss: seq<System>, ls: seq<Label>, n: nat)
    requires EnvPath(inp, ss, ls) && n < |ss|
    ensures ss[n].hub.configMaps == ss[0].hub.configMaps && ss[n].hub.status == ss[0].hub.status
  {
    if n > 0 {
      EnvPending(inp, ss, ls, n - 1);
      assert StepAt(inp, ss, ls, n - 1);
    }
  }

  lemma AheadPasses(inp: Inputs, s: System)
    requires RunInv(inp, s) && Sound(inp, s) && Ahead(inp, s, |Awaited(inp, s)|)
    ensures AllPass(inp, s)
  {
    forall k | 0 <= k < |Awaited(inp, s)| ensures PassesTarget(s, Awaited(inp, s)[k]) {
      assert Passing(inp, s, k);
      PassesLink(inp, s, k);
    }
  }

  /** A run whose targets are all awaitable is brought to where all pass by agent, flux and feedback alone. */
  lemma AwaitableFinish(inp: Inputs, s: System) returns (s': System)
    requires RunInv(inp, s) && Sound(inp, s) && Ahead(inp, s, 0)
    ensures EnvLeads(inp, s, s') && s'.hub == s.hub.(works := s'.hub.works) && AllPass(inp, s')
    ensures StoreInv(s') && RunInv(inp, s')
  {
    s' := AllAhead(inp, s, 0);
    var ss: seq<System>, ls: seq<Label> :| EnvPath(inp, ss, ls) && ss[0] == s && ss[|ls|] == s';
    PathKeepsRun(inp, ss, ls, |ls|);
    AheadPasses(inp, s');
  }

  lemma EnvCanPass(inp: Inputs, s: System, s': System)
    requires Pending(inp, s) && EnvLeads(inp, s, s') && AllPass(inp, s')
    ensures CanAllPass(inp, s)
  {
    var ss: seq<System>, ls: seq<Label> :| EnvPath(inp, ss, ls) && ss[0] == s && ss[|ls|] == s';
    forall i | 0 <= i < |ss| ensures Pending(inp, ss[i]) {
      EnvPending(inp, ss, ls, i);
    }
  }

  /** A link that does not pass and has its generation out of reach. */
  ghost predicate Stuck(l: Link) {
    !l.passes && FinalGeneration(l) < l.min
  }

  lemma StuckLasts()
    ensures Lasting(l => Stuck(l))
  {
  }

  lemma StuckNeverPasses(inp: Inputs, ss: seq<System>, ls: seq<Label>, k: nat)
    requires IsPath(inp, ss, ls) && PendingFrom(inp, ss, 0, |ss|) && RunInv(inp, ss[0]) && Sound(inp, ss[0])
    requires LinkedTarget(inp, ss[0], k) && Stuck(TargetLink(inp, ss[0], k))
    ensures !AllPass(inp, ss[|ls|])
  {
    StuckLasts();
    PathKeepsFact(l => Stuck(l), inp, ss, ls, k);
    PassesLink(inp, ss[|ls|], k);
  }

  /**
   No hang, exactly: the targets of a pending run can be made ready, all at once, if and only if each passes now or
   awaits a generation no higher than the one its object has or gets when the agent applies the spec.
   */
  lemma CanAllPassIff(inp: Inputs, s: System)
    requires RunInv(inp, s) && Sound(inp, s)
    ensures CanAllPass(inp, s) <==> forall k | 0 <= k < |Awaited(inp, s)| :: Awaitable(inp, s, k)
  {
    if forall k | 0 <= k < |Awaited(inp, s)| :: Awaitable(inp, s, k) {
      var s' := AwaitableFinish(inp, s);
      EnvCanPass(inp, s, s');
    } else {
      var k :| 0 <= k < |Awaited(inp, s)| && !Awaitable(inp, s, k);
      SoundLinks(inp, s, k);
      forall ss: seq<System>, ls: seq<Label> | IsPath(inp, ss, ls) && ss[0] == s && PendingFrom(inp, ss, 0, |ss|)
        ensures !AllPass(inp, ss[|ls|])
      {
        StuckNeverPasses(inp, ss, ls, k);
      }
    }
  }

  // ---------- A release that has caught up ----------

  /** The agent has applied the stored spec and flux has finished with it. */
  ghost predicate CaughtUp(s: System, p: Pos) {
    && IsReleaseAt(s.hub.works, p) && KeyOf(ManifestAt(s.hub.works, p)) in s.spoke
    && var o := s.spoke[KeyOf(ManifestAt(s.hub.works, p))];
       o.spec == Canon(ManifestAt(s.hub.works, p).body.spec) && o.ready == Some(TRUE)
             && o.observed == Some(o.generation)
  }

  /** Any full sync of such a release passes for every generation it has reached, and reports its own. */
  lemma CaughtUpSync(inp: Inputs, s: System, p: Pos, status: seq<Condition>, values: seq<FeedbackValue>, s': System,
      min: int)
    requires CaughtUp(s, p)
    requires var m := ManifestAt(s.hub.works, p); CarriesRules(s.hub.works[p.work].configs, m.ns, m.name.value)
    requires Step(inp, s, FeedbackSync(p.work, KeyOf(ManifestAt(s.hub.works, p)), status, values, true), s')
    ensures var m := ManifestAt(s.hub.works, p);
      var o := s.spoke[KeyOf(m)];
      && IsReleaseAt(s'.hub.works, p) && (PassesAt(s'.hub.works, p, min) <==> min <= o.generation)
      && HelmReleaseGeneration(s'.hub.works[p.work], m.ns, m.name.value) == o.generation
  {
    var m := ManifestAt(s.hub.works, p);
    var w, key := s.hub.works[p.work], KeyOf(m);
    assert ManifestAt(s'.hub.works, p) == m && s'.hub.works[p.work] == w.(status := status);
    assert HasManifest(w, key) by {
      assert IsRelease(w.manifests[p.manifest]);
    }
    assert HelmReleaseFeedback(s'.hub.works[p.work], key.ns, key.name) == (values, true);
    ReportsIff(values, s.spoke[key], true);
  }

  lemma CaughtUpReports(inp: Inputs, s: System, k: nat, status: seq<Condition>, values: seq<FeedbackValue>, s': System)
    requires RunInv(inp, s) && GuardsTarget(InStep, inp, s, k) && CaughtUp(s, Watched(s.hub.works)[k])
    requires var p := Watched(s.hub.works)[k];
      Step(inp, s, FeedbackSync(p.work, KeyOf(ManifestAt(s.hub.works, p)), status, values, true), s')
    ensures var (p, t) := (Watched(s.hub.works)[k], Awaited(inp, s)[k]);
      && IsReleaseAt(s'.hub.works, p) && HelmReleaseReady(s'.hub.works[p.work], t)
      && var reported := HelmReleaseGeneration(s'.hub.works[p.work], t.ns, t.name);
         reported == t.minGeneration || (reported == 1 && t.minGeneration == 0)
  {
    var p, t := Watched(s.hub.works)[k], Awaited(inp, s)[k];
    assert Served(inp, s.hub.works, p, t);
    assert Tracks(TargetLink(inp, s, k));
    CaughtUpSync(inp, s, p, status, values, s', t.minGeneration);
  }

  /**
   Once agent and flux have caught up with a target of a run recorded in sync, any full sync makes it pass, and the
   generation reported is the one awaited (1 against 0 for an object that did not exist), changed or not.
   */
  lemma CaughtUpIsReady(inp: Inputs, s: System, k: nat, status: seq<Condition>, values: seq<FeedbackValue>, s': System)
    requires StoreInv(s) && RunInv(inp, s) && GuardsTarget(InStep, inp, s, k) && CaughtUp(s, Watched(s.hub.works)[k])
    requires var p := Watched(s.hub.works)[k];
      Step(inp, s, FeedbackSync(p.work, KeyOf(ManifestAt(s.hub.works, p)), status, values, true), s')
    ensures PassesTarget(s', Awaited(inp, s)[k])
    ensures var t := Awaited(inp, s)[k];
      var reported := HelmReleaseGeneration(s'.hub.works[FindWork(s'.hub.works, t.work).value], t.ns, t.name);
      reported == t.minGeneration || (reported == 1 && t.minGeneration == 0)
  {
    var p, t := Watched(s.hub.works)[k], Awaited(inp, s)[k];
    assert Served(inp, s.hub.works, p, t);
    CaughtUpReports(inp, s, k, status, values, s');
    FindIgnoresStatus(s.hub.works, s'.hub.works, t.work);
    WorkOf(inp, s.hub.works, p, t);
  }

  // ---------- Closing the run ----------

  /** The ManifestWorks of all `n` targets can be read. */
  function Everywhere(n: nat): (r: set<nat>)
    ensures forall k: nat :: k in r <==> k < n
  {
    if n == 0 then {} else Everywhere(n - 1) + {n - 1}
  }

  function Observing(ts: seq<Target>, stop: nat, coreReadable: bool): Choice {
    Choice(stop, Everywhere(|ts|), "", [], false, coreReadable, true)
  }

  lemma AllPassSucceeds(inp: Inputs, s: System, c: Choice)
    requires AllPass(inp, s) && c.readable == Everywhere(|Awaited(inp, s)|)
    ensures ObserveUpgrade(s.hub, FindPending(inp.binding, s.hub.configMaps).cm, Awaited(inp, s), c.readable,
            s.now).verdict.Success?
  {
    var ts := Awaited(inp, s);
    VerdictIff(s.hub, FindPending(inp.binding, s.hub.configMaps).cm, ts, c.readable, s.now);
    forall k | 0 <= k < |ts| ensures SeenReady(s.hub.works, ts, c.readable, k) {
      assert PassesTarget(s, ts[k]);
    }
  }

  /**
   One reconcile that meets all targets ready closes the run; whether opscenter-core can then be read for the
   status decides, beside the binding, whether the upgrade is over.
   */
  lemma AllPassCloses(inp: Inputs, s: System, coreReadable: bool) returns (c: Choice, s': System)
    requires StoreInv(s) && RunInv(inp, s) && AllPass(inp, s) && inp.profileValid
    ensures c.coreReadable == coreReadable && c.statusWritten
    ensures Step(inp, s, Reconcile(c), s') && Closes(inp, s, c) && !Pending(inp, s')
    ensures !NeedsUpgrade(inp.binding, s'.hub.status)
            <==> ReadsBack(inp.binding, c) && CanSettle(inp.binding, s.hub.works)
  {
    var cm, ts := FindPending(inp.binding, s.hub.configMaps).cm, Awaited(inp, s);
    var o := ObserveUpgrade(s.hub, cm, ts, Everywhere(|ts|), s.now);
    c := Observing(ts, |o.trace| - 1, coreReadable);
    AllPassSucceeds(inp, s, c);
    var hub' := AfterStatus(inp.binding, o.trace[c.stop], c);
    s' := s.(hub := hub');
    ObserveRecord(inp.binding, s.hub, cm, ts, c.readable, s.now, c.stop);
    StatusApart(inp.binding, o.trace[c.stop], c);
    NoUpgradeLoopIff(inp, s, c, hub');
  }

  // ---------- Histories with feedback in sync ----------

  lemma InStepAwaitable(inp: Inputs, s: System)
    requires StoreInv(s) && RunInv(inp, s) && GuardInv(InStep, inp, s) && Pending(inp, s)
    ensures Sound(inp, s) && Ahead(inp, s, 0)
  {
    forall k | 0 <= k < |Awaited(inp, s)| ensures Awaitable(inp, s, k) {
      assert GuardsTarget(InStep, inp, s, k);
      LinksOk(s, Watched(s.hub.works)[k], Awaited(inp, s)[k].minGeneration);
      TracksPins(TargetLink(inp, s, k));
    }
  }

  /**
   No hang: if every recorded apply met its feedback in sync, then from every pending state of the history agent,
   flux and feedback can make all targets ready at once, and one reconcile without failures then closes the run, after
   which no upgrade is due if and only if the binding can settle.
   */
  lemma NeverHangs(inp: Inputs, ss: seq<System>, ls: seq<Label>, n: nat) returns (s1: System, c: Choice, s2: System)
    requires GuardedRun(InStep, inp, ss, ls) && n < |ss| && Pending(inp, ss[n]) && inp.profileValid
    ensures EnvLeads(inp, ss[n], s1) && AllPass(inp, s1)
    ensures Step(inp, s1, Reconcile(c), s2) && Closes(inp, s1, c) && !Pending(inp, s2)
    ensures !NeedsUpgrade(inp.binding, s2.hub.status) <==> CanSettle(inp.binding, s1.hub.works)
  {
    GuardHolds(InStep, inp, ss, ls, n);
    InStepAwaitable(inp, ss[n]);
    s1 := AwaitableFinish(inp, ss[n]);
    c, s2 := AllPassCloses(inp, s1, true);
  }
}
