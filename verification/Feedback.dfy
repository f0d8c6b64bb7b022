/**
 What the readers of ManifestWork feedback mean, entry by entry
 (helmReleaseFeedback, feedbackInt, feedbackString and helmReleaseReady in pkg/cluster_upgrade/upgrader_helper.go).
*/
module Feedback {
  import opened Wrappers
  import opened Cluster

  predicate HasInt(v: FeedbackValue, name: string) {
    v.name == name && v.integer.Some?
  }

  predicate HasText(v: FeedbackValue, name: string) {
    v.name == name && v.text.Some?
  }

  /** The first entry of that name with an integer has this one; None if there is no such entry. */
  ghost predicate FirstInt(values: seq<FeedbackValue>, name: string, x: Option<int>) {
    match x
    case None => forall i | 0 <= i < |values| :: !HasInt(values[i], name)
    case Some(_) =>
      exists i | 0 <= i < |values| ::
        HasInt(values[i], name) && values[i].integer == x && forall j | 0 <= j < i :: !HasInt(values[j], name)
  }

  ghost predicate FirstText(values: seq<FeedbackValue>, name: string, x: Option<string>) {
    match x
    case None => forall i | 0 <= i < |values| :: !HasText(values[i], name)
    case Some(_) =>
      exists i | 0 <= i < |values| ::
        HasText(values[i], name) && values[i].text == x && forall j | 0 <= j < i :: !HasText(values[j], name)
  }

  /** The condition is that of the HelmRelease of this namespace and name. */
  predicate Concerns(c: Condition, ns: string, name: string) {
    c.kind == "HelmRelease" && c.ns == ns && c.name == name
  }

  ghost predicate FirstCondition(status: seq<Condition>, ns: string, name: string, c: Option<Condition>) {
    match c
    case None => forall i | 0 <= i < |status| :: !Concerns(status[i], ns, name)
    case Some(x) =>
      exists i | 0 <= i < |status| ::
        Concerns(status[i], ns, name) && status[i] == x && forall j | 0 <= j < i :: !Concerns(status[j], ns, name)
  }

  // ---------- The readers ----------

  lemma {:induction false} FeedbackIntReads(values: seq<FeedbackValue>, name: string)
    ensures FirstInt(values, name, FeedbackInt(values, name))
  {
    if values != [] && !HasInt(values[0], name) {
      FeedbackIntReads(values[1..], name);
      var x := FeedbackInt(values[1..], name);
      assert forall i | 1 <= i < |values| :: values[i] == values[1..][i - 1];
      if x.Some? {
        var i :| 0 <= i < |values| - 1 && HasInt(values[1..][i], name) && values[1..][i].integer == x
                 && forall j | 0 <= j < i :: !HasInt(values[1..][j], name);
        assert HasInt(values[i + 1], name) && values[i + 1].integer == x;
        assert forall j | 0 <= j < i + 1 :: !HasInt(values[j], name);
      }
    }
  }

  lemma {:induction false} FeedbackStringReads(values: seq<FeedbackValue>, name: string)
    ensures FirstText(values, name, FeedbackString(values, name))
  {
    if values != [] && !HasText(values[0], name) {
      FeedbackStringReads(values[1..], name);
      var x := FeedbackString(values[1..], name);
      assert forall i | 1 <= i < |values| :: values[i] == values[1..][i - 1];
      if x.Some? {
        var i :| 0 <= i < |values| - 1 && HasText(values[1..][i], name) && values[1..][i].text == x
                 && forall j | 0 <= j < i :: !HasText(values[1..][j], name);
        assert HasText(values[i + 1], name) && values[i + 1].text == x;
        assert forall j | 0 <= j < i + 1 :: !HasText(values[j], name);
      }
    }
  }

  lemma {:induction false} FindConditionReads(status: seq<Condition>, ns: string, name: string)
    ensures FirstCondition(status, ns, name, FindCondition(status, ns, name))
  {
    if status != [] && !Concerns(status[0], ns, name) {
      FindConditionReads(status[1..], ns, name);
      var c := FindCondition(status[1..], ns, name);
      assert forall i | 1 <= i < |status| :: status[i] == status[1..][i - 1];
      if c.Some? {
        var i :| 0 <= i < |status| - 1 && Concerns(status[1..][i], ns, name) && status[1..][i] == c.value
                 && forall j | 0 <= j < i :: !Concerns(status[1..][j], ns, name);
        assert Concerns(status[i + 1], ns, name) && status[i + 1] == c.value;
        assert forall j | 0 <= j < i + 1 :: !Concerns(status[j], ns, name);
      }
    }
  }

  lemma OneInt(values: seq<FeedbackValue>, name: string, x: Option<int>, y: Option<int>)
    requires FirstInt(values, name, x) && FirstInt(values, name, y)
    ensures x == y
  {
    if x.Some? && y.Some? {
      var i :| 0 <= i < |values| && HasInt(values[i], name) && values[i].integer == x
               && forall k | 0 <= k < i :: !HasInt(values[k], name);
      var j :| 0 <= j < |values| && HasInt(values[j], name) && values[j].integer == y
               && forall k | 0 <= k < j :: !HasInt(values[k], name);
      assert !(i < j) && !(j < i);
    }
  }

  lemma OneText(values: seq<FeedbackValue>, name: string, x: Option<string>, y: Option<string>)
    requires FirstText(values, name, x) && FirstText(values, name, y)
    ensures x == y
  {
    if x.Some? && y.Some? {
      var i :| 0 <= i < |values| && HasText(values[i], name) && values[i].text == x
               && forall k | 0 <= k < i :: !HasText(values[k], name);
      var j :| 0 <= j < |values| && HasText(values[j], name) && values[j].text == y
               && forall k | 0 <= k < j :: !HasText(values[k], name);
      assert !(i < j) && !(j < i);
    }
  }

  lemma OneCondition(status: seq<Condition>, ns: string, name: string, c: Option<Condition>, d: Option<Condition>)
    requires FirstCondition(status, ns, name, c) && FirstCondition(status, ns, name, d)
    ensures c == d
  {
    if c.Some? && d.Some? {
      var i :| 0 <= i < |status| && Concerns(status[i], ns, name) && status[i] == c.value
               && forall k | 0 <= k < i :: !Concerns(status[k], ns, name);
      var j :| 0 <= j < |status| && Concerns(status[j], ns, name) && status[j] == d.value
               && forall k | 0 <= k < j :: !Concerns(status[k], ns, name);
      assert !(i < j) && !(j < i);
    }
  }

  /** `feedbackInt` gives exactly the first integer of that name, or nothing. */
  lemma FeedbackIntIff(values: seq<FeedbackValue>, name: string, x: Option<int>)
    ensures FeedbackInt(values, name) == x <==> FirstInt(values, name, x)
  {
    FeedbackIntReads(values, name);
    if FirstInt(values, name, x) { OneInt(values, name, x, FeedbackInt(values, name)); }
  }

  /** `feedbackString` gives exactly the first string of that name, or nothing. */
  lemma FeedbackStringIff(values: seq<FeedbackValue>, name: string, x: Option<string>)
    ensures FeedbackString(values, name) == x <==> FirstText(values, name, x)
  {
    FeedbackStringReads(values, name);
    if FirstText(values, name, x) { OneText(values, name, x, FeedbackString(values, name)); }
  }

  /** The first condition of this HelmRelease, by kind, namespace and name. */
  lemma FindConditionIff(status: seq<Condition>, ns: string, name: string, c: Option<Condition>)
    ensures FindCondition(status, ns, name) == c <==> FirstCondition(status, ns, name, c)
  {
    FindConditionReads(status, ns, name);
    if FirstCondition(status, ns, name, c) { OneCondition(status, ns, name, c, FindCondition(status, ns, name)); }
  }

  // ---------- Readiness and generation ----------

  /** This condition says: applied, Ready, and observed at a generation that is high enough. */
  ghost predicate SaysReady(c: Condition, min: int) {
    && c.applied && FirstText(c.values, "Ready", Some("True"))
    && exists g: int :: g >= min && FirstInt(c.values, "Generation", Some(g))
                        && FirstInt(c.values, "ObservedGeneration", Some(g))
  }

  /** A release is ready exactly if its first condition says so. */
  lemma ReadyIff(w: Work, t: Target)
    ensures HelmReleaseReady(w, t) <==>
            exists c :: FirstCondition(w.status, t.ns, t.name, Some(c)) && SaysReady(c, t.minGeneration)
  {
    var found := FindCondition(w.status, t.ns, t.name);
    FindConditionReads(w.status, t.ns, t.name);
    forall c | FirstCondition(w.status, t.ns, t.name, Some(c)) ensures found == Some(c) {
      OneCondition(w.status, t.ns, t.name, Some(c), found);
    }
    if found.Some? {
      var values := found.value.values;
      FeedbackStringIff(values, "Ready", Some("True"));
      forall x, name ensures FeedbackInt(values, name) == x <==> FirstInt(values, name, x) {
        FeedbackIntIff(values, name, x);
      }
    }
  }

  /** The generation reported is that of the first condition, and 0 without one or if it has none. */
  lemma GenerationIff(w: Work, ns: string, name: string, c: Option<Condition>, g: Option<int>)
    requires FirstCondition(w.status, ns, name, c)
    requires if c.Some? then FirstInt(c.value.values, "Generation", g) else g == None
    ensures HelmReleaseGeneration(w, ns, name) == match g case Some(x) => x case None => 0
  {
    FindConditionIff(w.status, ns, name, c);
    if c.Some? { FeedbackIntIff(c.value.values, "Generation", g); }
  }
}
