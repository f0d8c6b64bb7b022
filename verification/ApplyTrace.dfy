/** An apply only ever appends to its trace, so every state met on the way is in the final one. */
module ApplyTrace {
  import opened Cluster
  import opened Render
  import opened Apply

  ghost predicate On(h: Hub, trace: seq<Hub>) {
    exists i | 0 <= i < |trace| :: trace[i] == h
  }

  lemma OnPrefix(h: Hub, a: seq<Hub>, b: seq<Hub>)
    requires On(h, a) && a <= b
    ensures On(h, b)
  {
    var i :| 0 <= i < |a| && a[i] == h;
    assert b[i] == h;
  }

  lemma {:induction false} WorksPrefix(inp: Inputs, l: Loop, works: seq<Work>, n: nat, m: nat)
    requires n <= m <= |works|
    ensures ApplyWorks(inp, l, works, n).trace <= ApplyWorks(inp, l, works, m).trace
    ensures !ApplyWorks(inp, l, works, n).ok ==> ApplyWorks(inp, l, works, m) == ApplyWorks(inp, l, works, n)
  {
    if n < m {
      WorksPrefix(inp, l, works, n, m - 1);
    }
  }

  /** The loops of an apply whose ConfigMap has been created. */
  lemma CoreOnTrace(inp: Inputs, hub: Hub, l: Loop, core: nat, h: Hub)
    requires inp.coreValues.Prepared? && core < |hub.works|
    requires On(h, ApplyCore(inp, l, hub.works[core]).trace)
    ensures On(h, Seal(inp, Loops(inp, hub, l, core)).trace)
  {
    var l1 := ApplyCore(inp, l, hub.works[core]);
    WorksPrefix(inp, l1, l1.hub.works, 0, |l1.hub.works|);
    OnPrefix(h, l1.trace, Loops(inp, hub, l, core).trace);
    OnPrefix(h, Loops(inp, hub, l, core).trace, Seal(inp, Loops(inp, hub, l, core)).trace);
  }

  lemma WorksOnTrace(inp: Inputs, hub: Hub, l: Loop, core: nat, n: nat, h: Hub)
    requires inp.coreValues.Prepared? && core < |hub.works|
    requires var l1 := ApplyCore(inp, l, hub.works[core]);
      l1.ok && n <= |l1.hub.works| && On(h, ApplyWorks(inp, l1, l1.hub.works, n).trace)
    ensures On(h, Seal(inp, Loops(inp, hub, l, core)).trace)
  {
    var l1 := ApplyCore(inp, l, hub.works[core]);
    WorksPrefix(inp, l1, l1.hub.works, n, |l1.hub.works|);
    OnPrefix(h, ApplyWorks(inp, l1, l1.hub.works, n).trace, Loops(inp, hub, l, core).trace);
    OnPrefix(h, Loops(inp, hub, l, core).trace, Seal(inp, Loops(inp, hub, l, core)).trace);
  }

  lemma ClearOnTrace(inp: Inputs, hub: Hub, name: string, now: int, h: Hub)
    requires inp.coreValues.Prepared? && FindWork(hub.works, OPSCENTER_CORE).Some?
    requires On(h, ClearTrace(hub, |hub.configMaps|))
    ensures On(h, ApplyUpgrade(inp, hub, name, now).trace)
  {
    var data := WorksData(hub.works, |hub.works|, BaseData(inp.binding.version));
    if data.Some? {
      var core := FindWork(hub.works, OPSCENTER_CORE).value;
      var l := AfterCreate(inp, hub, name, now, data.value);
      OnPrefix(h, ClearTrace(hub, |hub.configMaps|), l.trace);
      OnPrefix(h, l.trace, ApplyCore(inp, l, hub.works[core]).trace);
      CoreOnTrace(inp, hub, l, core, h);
    }
  }

  lemma LastOn(trace: seq<Hub>)
    requires trace != []
    ensures On(Last(trace), trace)
  {
  }

  lemma StartOn(inp: Inputs, hub: Hub, name: string, now: int)
    ensures On(hub, ApplyUpgrade(inp, hub, name, now).trace)
  {
    var clear := ClearTrace(hub, |hub.configMaps|);
    assert clear[0] == hub;
    if inp.coreValues.Prepared? && FindWork(hub.works, OPSCENTER_CORE).Some? {
      ClearOnTrace(inp, hub, name, now, hub);
    } else {
      assert ApplyUpgrade(inp, hub, name, now).trace[0] == hub;
    }
  }
}
