/**
 The objects the controller works with: the hub's API server, of which any call can fail, and the local
 copies of a ManifestWork and of the upgrader ConfigMap that it edits in place.
*/
module Server {
  import opened Wrappers
  import opened Cluster
  import opened Apply

  /** The fate of one API call: it succeeds, is refused, or takes effect without the caller learning so. */
  datatype Fate = Done | Refused | Lost

  class ApiServer {
    var hub: Hub
    var calls: nat
    const network: nat -> Fate

    constructor (hub: Hub, network: nat -> Fate)
      ensures this.hub == hub && this.network == network && calls == 0
    {
      this.hub := hub;
      this.network := network;
      this.calls := 0;
    }

    /** Since call number `from` no call was refused or lost. */
    ghost predicate Worked(from: nat)
      reads this
    {
      from <= calls && forall k | from <= k < calls :: network(k).Done?
    }

    /** A Get or a List. */
    method Read() returns (ok: bool)
      modifies this`calls
      ensures calls == old(calls) + 1 && (ok <==> network(old(calls)).Done?)
    {
      ok := network(calls).Done?;
      calls := calls + 1;
    }

    /** Any write: the server moves to `next` or stays, and only a success says which. */
    method Write(next: Hub) returns (ok: bool)
      modifies this
      ensures calls == old(calls) + 1 && (ok <==> network(old(calls)).Done?)
      ensures hub == if network(old(calls)).Refused? then old(hub) else next
    {
      var r := network(calls);
      calls := calls + 1;
      if !r.Refused? { hub := next; }
      ok := r.Done?;
    }
  }

  class ManifestWork {
    const name: string
    const labels: map<string, string>
    const status: seq<Condition>
    var manifests: seq<Manifest>
    var configs: seq<ConfigOption>

    constructor (w: Work)
      ensures Value() == w
    {
      name, labels, status := w.name, w.labels, w.status;
      manifests, configs := w.manifests, w.configs;
    }

    ghost function Value(): Work
      reads this
    {
      Work(name, labels, manifests, configs, status)
    }

    method Export() returns (w: Work)
      ensures w == Value()
    {
      w := Work(name, labels, manifests, configs, status);
    }

    /** `ensureHelmReleaseFeedbackRules`. */
    method EnsureFeedbackRules(ns: string, hrName: string)
      modifies this`configs
      ensures configs == EnsureRules(old(configs), ns, hrName)
    {
      for i := 0 to |configs|
        invariant configs == old(configs)
        invariant forall k | 0 <= k < i :: !Identifies(configs[k], ns, hrName)
      {
        if Identifies(configs[i], ns, hrName) {
          FirstConfig(configs, ns, hrName, i);
          configs := configs[i := configs[i].(rules := RULES)];
          return;
        }
      }
      configs := configs + [ConfigOption(HELM_GROUP, HELM_RESOURCE, ns, hrName, RULES)];
    }
  }

  class UpgraderConfigMap {
    const name: string
    const version: string
    const created: int
    var data: map<string, string>
    var upgradeAt: Option<string>
    var targets: Option<Annotation>
    var others: map<string, string>

    constructor (cm: ConfigMap)
      ensures Value() == cm
    {
      name, version, created := cm.name, cm.version, cm.created;
      data, upgradeAt, targets, others := cm.data, cm.upgradeAt, cm.targets, cm.others;
    }

    ghost function Value(): ConfigMap
      reads this
    {
      ConfigMap(name, version, created, data, upgradeAt, targets, others)
    }

    method Export() returns (cm: ConfigMap)
      ensures cm == Value()
    {
      cm := ConfigMap(name, version, created, data, upgradeAt, targets, others);
    }

    method Mark(key: string, mark: string)
      modifies this`data
      ensures Value() == old(Value()).(data := old(data)[key := mark])
    {
      data := data[key := mark];
    }

    /** The edit of `finishUpgrade`. */
    method Finish()
      modifies this`data, this`targets
      ensures Value() == Finished(old(Value()))
    {
      data := data[STATUS_KEY := COMPLETED];
      targets := None;
    }

    /** The edit of `recordPendingUpgrade`. */
    method Record(ts: seq<Target>, stamp: string)
      modifies this`targets, this`upgradeAt
      ensures Value() == Recorded(old(Value()), ts, stamp)
    {
      targets := Some(Decoded(ts));
      if stamp != "" {
        upgradeAt := Some(stamp);
      }
    }
  }
}
