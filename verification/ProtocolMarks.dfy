/**
 The per-release marks of a run's ConfigMap over a whole history, up to and including the write that closes it:
 once True they stay True, and True means seen ready (evaluateTargets in pkg/cluster_upgrade/upgrader_helper.go).
*/
module ProtocolMarks {
  import opened Wrappers
  import opened Cluster
  import opened Render
  import opened Apply
  import opened ApplyOutcome
  import opened RunRecord
  import opened Protocol
  import opened ProtocolStore
  import opened ProtocolRun
  import opened ProtocolSafety

  /** The entry of a release in the one upgrader ConfigMap. */
  function MarkOf(s: System, name: string): Option<string> {
    if |s.hub.configMaps| == 1 then Entry(s.hub.configMaps[0].data, name) else None
  }

  /** This step is an observation whose ConfigMap patch was stored, and it saw a release of that name ready. */
  ghost predicate StoresReady(inp: Inputs, s: System, l: Label, name: string) {
    && Pending(inp, s) && l.Reconcile? && inp.profileValid && l.c.stop >= 1
    && NameReady(s.hub.works, Awaited(inp, s), l.c.readable, |Awaited(inp, s)|, name)
  }

  // ---------- One observation ----------

  /** The data after write `i` of an observation; `name` is not the status entry, or the run is not closed by it. */
  lemma ObservedEntry(hub: Hub, cm: ConfigMap, ts: seq<Target>, readable: set<nat>, now: int, i: nat, name: string)
    requires hub.configMaps == [cm] && i < |ObserveUpgrade(hub, cm, ts, readable, now).trace|
    requires var o := ObserveUpgrade(hub, cm, ts, readable, now);
      name != STATUS_KEY || o.verdict.Waiting? || i < |o.trace| - 1
    ensures var cms := ObserveUpgrade(hub, cm, ts, readable, now).trace[i].configMaps;
      |cms| == 1 && Entry(cms[0].data, name)
                    == if i >= 1 && NameReady(hub.works, ts, readable, |ts|, name) then Some(TRUE)
                       else Entry(cm.data, name)
  {
    var s := EvaluateTargets(hub.works, ts, readable, cm.data, |ts|);
    SweepMarks(hub.works, ts, readable, cm.data, |ts|, name);
    var marked := cm.(data := s.data);
    var h := if s.becameReady then PatchConfigMap(hub, marked) else hub;
    SweepChanges(hub.works, ts, readable, cm.data, |ts|);
    PatchOne(hub, cm, marked);
    assert h.configMaps == [marked];
    PatchOne(h, marked, Finished(marked));
  }

  lemma ObserveMark(inp: Inputs, s: System, c: Choice, hub': Hub, name: string)
    requires RunInv(inp, s) && Pending(inp, s) && ReconcileStep(inp, s, c, hub')
    requires name != STATUS_KEY || Pending(inp, s.(hub := hub'))
    ensures MarkOf(s.(hub := hub'), name)
            == if StoresReady(inp, s, Reconcile(c), name) then Some(TRUE) else MarkOf(s, name)
  {
    if inp.profileValid {
      var cm, ts := FindPending(inp.binding, s.hub.configMaps).cm, Awaited(inp, s);
      ObserveRecord(inp.binding, s.hub, cm, ts, c.readable, s.now, c.stop);
      StatusApart(inp.binding, ObserveUpgrade(s.hub, cm, ts, c.readable, s.now).trace[c.stop], c);
      ObservedEntry(s.hub, cm, ts, c.readable, s.now, c.stop, name);
    }
  }

  /** A step of a pending run: a mark becomes True through a stored observation, and changes in no other way. */
  lemma StepMark(inp: Inputs, s: System, l: Label, s': System, name: string)
    requires RunInv(inp, s) && Step(inp, s, l, s') && Pending(inp, s)
    requires name != STATUS_KEY || Pending(inp, s')
    ensures MarkOf(s', name) == if StoresReady(inp, s, l, name) then Some(TRUE) else MarkOf(s, name)
  {
    if l.Reconcile? {
      ObserveMark(inp, s, l.c, s'.hub, name);
    }
  }

  // ---------- A whole run ----------

  ghost predicate EverStored(inp: Inputs, ss: seq<System>, ls: seq<Label>, m: nat, n: nat, name: string)
    requires m <= n <= |ls| < |ss|
  {
    exists i | m <= i < n :: StoresReady(inp, ss[i], ls[i], name)
  }

  ghost predicate Latched(inp: Inputs, ss: seq<System>, ls: seq<Label>, m: nat, n: nat, name: string)
    requires m <= n <= |ls| < |ss|
  {
    MarkOf(ss[n], name) == if EverStored(inp, ss, ls, m, n, name) then Some(TRUE) else MarkOf(ss[m], name)
  }

  lemma MarkStepAt(inp: Inputs, ss: seq<System>, ls: seq<Label>, n: nat, name: string)
    requires IsRun(inp, ss, ls) && n < |ls| && Pending(inp, ss[n]) && (name != STATUS_KEY || Pending(inp, ss[n + 1]))
    ensures MarkOf(ss[n + 1], name) == if StoresReady(inp, ss[n], ls[n], name) then Some(TRUE) else MarkOf(ss[n], name)
  {
    CommitRecord(inp, ss, ls, n);
    assert StepAt(inp, ss, ls, n);
    StepMark(inp, ss[n], ls[n], ss[n + 1], name);
  }

  /**
   Marks are latched: from a pending state on, up to and including the write that closes the run, a mark is True
   exactly if a stored observation in between saw its release ready or it was before, and else what it was,
   however the targets flap.
   */
  lemma {:induction false} MarksLatched(inp: Inputs, ss: seq<System>, ls: seq<Label>, m: nat, n: nat, name: string)
    requires IsRun(inp, ss, ls) && m <= n <= |ls| && PendingFrom(inp, ss, m, n)
    requires name != STATUS_KEY || Pending(inp, ss[n])
    ensures Latched(inp, ss, ls, m, n, name)
  {
    if m < n {
      assert Pending(inp, ss[n - 1]);
      MarksLatched(inp, ss, ls, m, n - 1, name);
      MarkStepAt(inp, ss, ls, n - 1, name);
    }
  }

  // ---------- From the recording on ----------

  /** When the one upgrader ConfigMap was created. */
  function Created(s: System): int {
    if |s.hub.configMaps| == 1 then s.hub.configMaps[0].created else 0
  }

  /** A run goes on record with every target marked False, created as the clock stood. */
  ghost predicate StartsUnmarked(inp: Inputs, s: System) {
    Pending(inp, s) && Created(s) == s.now - s.now % SECOND
    && forall t | t in Awaited(inp, s) :: MarkOf(s, t.name) == Some(FALSE)
  }

  lemma UnmarkedRecord(inp: Inputs, works: seq<Work>, now: int, s: System)
    requires |s.hub.configMaps| == 1 && RecordOf(inp, works, now, End.Waits, s.hub.configMaps[0]) && s.now == now
    requires Pending(inp, s)
    ensures StartsUnmarked(inp, s)
  {
    RecordFound(inp, works, now, s.hub.configMaps);
  }

  lemma RecordStartsUnmarked(inp: Inputs, s: System, l: Label, s': System)
    requires StoreInv(s) && Step(inp, s, l, s')
    requires FindPending(inp.binding, s.hub.configMaps).Nothing? && Pending(inp, s')
    ensures StartsUnmarked(inp, s')
  {
    OnlyApplyRecords(inp, s, l, s');
    ApplyCompletes(inp, s.hub, l.c.cmName, s.now);
    UnmarkedRecord(inp, s.hub.works, s.now, s');
  }

  lemma StartAt(inp: Inputs, ss: seq<System>, ls: seq<Label>, m: nat)
    requires IsRun(inp, ss, ls) && m < |ls| && FindPending(inp.binding, ss[m].hub.configMaps).Nothing?
            && Pending(inp, ss[m + 1])
    ensures StartsUnmarked(inp, ss[m + 1])
  {
    CommitRecord(inp, ss, ls, m);
    assert StepAt(inp, ss, ls, m);
    RecordStartsUnmarked(inp, ss[m], ls[m], ss[m + 1]);
  }

  /**
   What the marks of a run say at any time, and in the end when it was closed on success or on timeout: a
   target's mark is True if a stored observation since the run went on record saw its release ready, else False.
   */
  lemma MarksTell(inp: Inputs, ss: seq<System>, ls: seq<Label>, m: nat, n: nat, t: Target)
    requires IsRun(inp, ss, ls) && 0 < m < n <= |ls| && PendingFrom(inp, ss, m, n)
    requires FindPending(inp.binding, ss[m - 1].hub.configMaps).Nothing?
    requires t in Awaited(inp, ss[m]) && t.name != STATUS_KEY
    ensures MarkOf(ss[n], t.name) == Some(if EverStored(inp, ss, ls, m, n, t.name) then TRUE else FALSE)
  {
    StartAt(inp, ss, ls, m - 1);
    MarksLatched(inp, ss, ls, m, n, t.name);
  }

  // ---------- Bounded wait ----------

  lemma StepKeepsCreated(inp: Inputs, s: System, l: Label, s': System)
    requires RunInv(inp, s) && Step(inp, s, l, s') && Pending(inp, s)
    ensures Created(s') == Created(s)
  {
    if l.Reconcile? && inp.profileValid {
      var cm, ts, c := FindPending(inp.binding, s.hub.configMaps).cm, Awaited(inp, s), l.c;
      ObserveRecord(inp.binding, s.hub, cm, ts, c.readable, s.now, c.stop);
      StatusApart(inp.binding, ObserveUpgrade(s.hub, cm, ts, c.readable, s.now).trace[c.stop], c);
    }
  }

  lemma {:induction false} CreatedKept(inp: Inputs, ss: seq<System>, ls: seq<Label>, m: nat, n: nat)
    requires IsRun(inp, ss, ls) && m <= n < |ss| && PendingFrom(inp, ss, m, n)
    ensures Created(ss[n]) == Created(ss[m])
  {
    if m < n {
      CreatedKept(inp, ss, ls, m, n - 1);
      CommitRecord(inp, ss, ls, n - 1);
      assert StepAt(inp, ss, ls, n - 1) && Pending(inp, ss[n - 1]);
      StepKeepsCreated(inp, ss[n - 1], ls[n - 1], ss[n]);
    }
  }

  /** This step observes the pending run and asks to be called again. */
  ghost predicate WaitsOn(inp: Inputs, s: System, l: Label) {
    && l.Reconcile? && Pending(inp, s)
    && ObserveUpgrade(s.hub, FindPending(inp.binding, s.hub.configMaps).cm, Awaited(inp, s), l.c.readable,
          s.now).verdict.Waiting?
  }

  lemma WaitsBeforeDeadline(inp: Inputs, s: System, l: Label)
    requires RunInv(inp, s) && WaitsOn(inp, s, l)
    ensures s.now <= Created(s) + TIMEOUT
  {
  }

  lemma WaitAt(inp: Inputs, ss: seq<System>, ls: seq<Label>, m: nat, i: nat)
    requires IsRun(inp, ss, ls) && m <= i < |ls| && PendingFrom(inp, ss, m, i) && WaitsOn(inp, ss[i], ls[i])
    ensures ss[i].now <= Created(ss[m]) + TIMEOUT
  {
    CommitRecord(inp, ss, ls, i);
    WaitsBeforeDeadline(inp, ss[i], ls[i]);
    CreatedKept(inp, ss, ls, m, i);
  }

  lemma PendingEarlier(inp: Inputs, ss: seq<System>, m: nat, i: nat, n: nat)
    requires m <= i <= n <= |ss| && PendingFrom(inp, ss, m, n)
    ensures PendingFrom(inp, ss, m, i)
  {
  }

  /**
   Bounded wait: counted from the step that recorded the run, with timer-driven observations a poll interval
   apart, at most 300 of them wait before one closes the run.
   */
  lemma BoundedWaitHistory(inp: Inputs, ss: seq<System>, ls: seq<Label>, m: nat, n: nat, obs: seq<nat>, times: seq<int>)
    requires IsRun(inp, ss, ls) && 0 < m <= n <= |ls| && PendingFrom(inp, ss, m, n) && Pending(inp, ss[m])
    requires FindPending(inp.binding, ss[m - 1].hub.configMaps).Nothing?
    requires |times| == |obs| && Timed(ss[m].now, times)
    requires forall i | 0 <= i < |obs| ::
            m <= obs[i] < n && WaitsOn(inp, ss[obs[i]], ls[obs[i]]) && times[i] == ss[obs[i]].now
    ensures |obs| <= 300
  {
    StartAt(inp, ss, ls, m - 1);
    forall i | 0 <= i < |times| ensures times[i] <= ss[m].now + TIMEOUT {
      PendingEarlier(inp, ss, m, obs[i], n);
      WaitAt(inp, ss, ls, m, obs[i]);
    }
    BoundedWait(ss[m].now, times);
  }
}
