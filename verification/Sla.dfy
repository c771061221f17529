/** Two verdicts on one list of measurements: scripts/establish_performance_baselines.py. */
module Sla {

  datatype Measurement = Measurement(metric: string, value: real)

  datatype Target = Target(p50: real, p95: real, p99: real, sla: real)

  /** `statistics.median` and the two quantile expressions, as some functions of the values. */
  datatype Percentiles = Percentiles(p50: seq<real> -> real, p95: seq<real> -> real, p99: seq<real> -> real)

  datatype Checks = Checks(p50: bool, p95: bool, p99: bool, sla: bool) {
    predicate All() {
      p50 && p95 && p99 && sla
    }
  }

  datatype Validation = Validation(pass: bool, validated: map<string, Checks>, issues: seq<string>)

  datatype Compliance = Compliance(compliant: bool, violations: seq<Measurement>, percentage: real)

  // ---- The grouping loop ----

  /** The values of one metric among the first `n` measurements, in order. */
  function Values(ms: seq<Measurement>, metric: string, n: nat): seq<real>
    requires n <= |ms|
  {
    if n == 0 then []
    else Values(ms, metric, n - 1) + if ms[n - 1].metric == metric then [ms[n - 1].value] else []
  }

  function Max(values: seq<real>): (m: real)
    requires values != []
    ensures m in values && forall v :: v in values ==> v <= m
  {
    if |values| == 1 then values[0]
    else
      var rest := Max(values[1..]);
      assert forall v :: v in values ==> v == values[0] || v in values[1..];
      if values[0] >= rest then values[0] else rest
  }

  function ChecksOf(p: Percentiles, values: seq<real>, t: Target): Checks
    requires values != []
  {
    Checks(p.p50(values) <= t.p50, p.p95(values) <= t.p95, p.p99(values) <= t.p99, Max(values) <= t.sla)
  }

  lemma {:induction false} ValuesIn(ms: seq<Measurement>, metric: string, n: nat)
    requires n <= |ms|
    ensures forall v :: v in Values(ms, metric, n) <==> exists i :: 0 <= i < n && ms[i] == Measurement(metric, v)
  {
    if n > 0 {
      ValuesIn(ms, metric, n - 1);
    }
  }

  /** The groups hold exactly the metrics measured so far, each with its values in order. */
  ghost predicate Grouped(ms: seq<Measurement>, n: nat, groups: map<string, seq<real>>)
    requires n <= |ms|
  {
    forall m :: if m in groups then groups[m] == Values(ms, m, n) != [] else Values(ms, m, n) == []
  }

  lemma {:induction false} GroupStep(ms: seq<Measurement>, n: nat, groups: map<string, seq<real>>)
    requires n < |ms| && Grouped(ms, n, groups)
    ensures
      var x := ms[n];
      Grouped(ms, n + 1, groups[x.metric := (if x.metric in groups then groups[x.metric] else []) + [x.value]])
  {
    var x := ms[n];
    var groups' := groups[x.metric := (if x.metric in groups then groups[x.metric] else []) + [x.value]];
    forall m ensures if m in groups' then groups'[m] == Values(ms, m, n + 1) != [] else Values(ms, m, n + 1) == [] {
      if m != x.metric {
        assert Values(ms, m, n + 1) == Values(ms, m, n) + [] == Values(ms, m, n);
      }
    }
  }

  /** A dictionary remembers the order of its keys: `names`, without repetition. */
  ghost predicate KeyOrder(names: seq<string>, keys: set<string>) {
    && (forall m :: m in names <==> m in keys)
    && forall i, j :: 0 <= i < j < |names| ==> names[i] != names[j]
  }

  lemma {:induction false} KeyOrderStep(names: seq<string>, keys: set<string>, metric: string)
    requires KeyOrder(names, keys)
    ensures if metric in keys then keys + {metric} == keys else KeyOrder(names + [metric], keys + {metric})
  {
  }

  datatype Groups = Groups(names: seq<string>, values: map<string, seq<real>>)

  function AddToGroup(g: Groups, x: Measurement): Groups {
    var known := if x.metric in g.values then g.values[x.metric] else [];
    Groups(if x.metric in g.values then g.names else g.names + [x.metric], g.values[x.metric := known + [x.value]])
  }

  function GroupsOf(ms: seq<Measurement>, n: nat): Groups
    requires n <= |ms|
  {
    if n == 0 then Groups([], map[]) else AddToGroup(GroupsOf(ms, n - 1), ms[n - 1])
  }

  lemma {:induction false} GroupsGrouped(ms: seq<Measurement>, n: nat)
    requires n <= |ms|
    ensures Grouped(ms, n, GroupsOf(ms, n).values)
  {
    if n > 0 {
      GroupsGrouped(ms, n - 1);
      GroupStep(ms, n - 1, GroupsOf(ms, n - 1).values);
    }
  }

  lemma {:induction false} GroupsOrdered(ms: seq<Measurement>, n: nat)
    requires n <= |ms|
    ensures KeyOrder(GroupsOf(ms, n).names, GroupsOf(ms, n).values.Keys)
  {
    if n > 0 {
      var g, x := GroupsOf(ms, n - 1), ms[n - 1];
      GroupsOrdered(ms, n - 1);
      KeyOrderStep(g.names, g.values.Keys, x.metric);
      assert AddToGroup(g, x).values.Keys == g.values.Keys + {x.metric};
    }
  }

  method Group(ms: seq<Measurement>) returns (names: seq<string>, groups: map<string, seq<real>>)
    ensures Grouped(ms, |ms|, groups) && KeyOrder(names, groups.Keys)
  {
    names, groups := [], map[];
    for i := 0 to |ms|
      invariant Groups(names, groups) == GroupsOf(ms, i)
    {
      var metric := ms[i].metric;
      ghost var g := AddToGroup(Groups(names, groups), ms[i]);
      if metric !in groups {
        groups := groups[metric := []];
        names := names + [metric];
      }
      groups := groups[metric := groups[metric] + [ms[i].value]];
      assert groups == g.values;
    }
    GroupsGrouped(ms, |ms|);
    GroupsOrdered(ms, |ms|);
  }

  /** The verdict follows from the checks: PASS without a failed metric, one issue for every failed one. */
  ghost predicate Consistent(v: Validation) {
    && (v.pass <==> forall m :: m in v.validated ==> v.validated[m].All())
    && forall m :: m in v.issues <==> m in v.validated && !v.validated[m].All()
  }

  function AddChecks(v: Validation, metric: string, checks: Checks): Validation {
    Validation(v.pass && checks.All(), v.validated[metric := checks],
      if checks.All() then v.issues else v.issues + [metric])
  }

  lemma {:induction false} AddChecksConsistent(v: Validation, metric: string, checks: Checks)
    requires Consistent(v) && metric !in v.validated
    ensures Consistent(AddChecks(v, metric, checks))
  {
    var v' := AddChecks(v, metric, checks);
    assert forall m :: m in v.validated ==> v'.validated[m] == v.validated[m];
    assert v'.validated[metric] == checks;
  }

  ghost predicate Filled(names: seq<string>, groups: map<string, seq<real>>) {
    forall i :: 0 <= i < |names| ==> names[i] in groups && groups[names[i]] != []
  }

  /** The validation after the first `n` metrics. */
  function Validated(
    p: Percentiles, names: seq<string>, groups: map<string, seq<real>>, targets: map<string, Target>,
    n: nat): Validation
    requires n <= |names| && Filled(names, groups)
  {
    if n == 0 then Validation(true, map[], [])
    else
      var v, metric := Validated(p, names, groups, targets, n - 1), names[n - 1];
      if metric in targets then AddChecks(v, metric, ChecksOf(p, groups[metric], targets[metric])) else v
  }

  lemma {:induction false} ValidatedKeys(
    p: Percentiles, names: seq<string>, groups: map<string, seq<real>>, targets: map<string, Target>, n: nat, m: string)
    requires n <= |names| && Filled(names, groups)
    ensures m in Validated(p, names, groups, targets, n).validated <==> m in targets && m in names[..n]
    ensures m in Validated(p, names, groups, targets, n).validated ==>
              m in groups && groups[m] != []
              && Validated(p, names, groups, targets, n).validated[m] == ChecksOf(p, groups[m], targets[m])
  {
    if n > 0 {
      ValidatedKeys(p, names, groups, targets, n - 1, m);
      assert names[..n] == names[..n - 1] + [names[n - 1]];
    }
  }

  lemma {:induction false} ValidatedConsistent(
    p: Percentiles, names: seq<string>, groups: map<string, seq<real>>, targets: map<string, Target>, n: nat)
    requires n <= |names| && Filled(names, groups)
    requires forall i, j :: 0 <= i < j < |names| ==> names[i] != names[j]
    ensures Consistent(Validated(p, names, groups, targets, n))
  {
    if n > 0 {
      ValidatedConsistent(p, names, groups, targets, n - 1);
      var v, metric := Validated(p, names, groups, targets, n - 1), names[n - 1];
      if metric in targets {
        ValidatedKeys(p, names, groups, targets, n - 1, metric);
        AddChecksConsistent(v, metric, ChecksOf(p, groups[metric], targets[metric]));
      }
    }
  }

  /** Each check compares its own percentile with its own target, and the SLA check every single value. */
  ghost predicate ChecksRight(p: Percentiles, values: seq<real>, t: Target, checks: Checks) {
    && (checks.p50 <==> p.p50(values) <= t.p50)
    && (checks.p95 <==> p.p95(values) <= t.p95)
    && (checks.p99 <==> p.p99(values) <= t.p99)
    && (checks.sla <==> forall x :: x in values ==> x <= t.sla)
  }

  ghost predicate Meets(p: Percentiles, values: seq<real>, t: Target) {
    && p.p50(values) <= t.p50 && p.p95(values) <= t.p95 && p.p99(values) <= t.p99
    && forall x :: x in values ==> x <= t.sla
  }

  lemma {:induction false} VerdictsRight(
    p: Percentiles, ms: seq<Measurement>, targets: map<string, Target>, v: Validation)
    requires Consistent(v)
    requires forall m :: m in v.validated <==> m in targets && Values(ms, m, |ms|) != []
    requires forall m :: m in v.validated ==> v.validated[m] == ChecksOf(p, Values(ms, m, |ms|), targets[m])
    ensures forall m :: m in v.validated ==> ChecksRight(p, Values(ms, m, |ms|), targets[m], v.validated[m])
    ensures v.pass <==> forall m :: m in targets && Values(ms, m, |ms|) != [] ==>
              Meets(p, Values(ms, m, |ms|), targets[m])
    ensures forall m :: m in v.issues <==>
              m in targets && Values(ms, m, |ms|) != [] && !Meets(p, Values(ms, m, |ms|), targets[m])
  {
    forall m | m in v.validated
      ensures ChecksRight(p, Values(ms, m, |ms|), targets[m], v.validated[m])
      ensures v.validated[m].All() <==> Meets(p, Values(ms, m, |ms|), targets[m])
    {
      assert v.validated[m] == ChecksOf(p, Values(ms, m, |ms|), targets[m]);
    }
  }

  method ValidateAgainstBaseline(
    p: Percentiles, ms: seq<Measurement>, targets: map<string, Target>) returns (v: Validation)
    ensures forall m :: m in v.validated <==> m in targets && Values(ms, m, |ms|) != []
    ensures forall m :: m in v.validated ==> ChecksRight(p, Values(ms, m, |ms|), targets[m], v.validated[m])
    ensures v.pass <==> forall m :: m in targets && Values(ms, m, |ms|) != [] ==>
              Meets(p, Values(ms, m, |ms|), targets[m])
    ensures forall m :: m in v.issues <==>
              m in targets && Values(ms, m, |ms|) != [] && !Meets(p, Values(ms, m, |ms|), targets[m])
  {
    var names, groups := Group(ms);
    assert Filled(names, groups) by {
      forall i | 0 <= i < |names| ensures names[i] in groups && groups[names[i]] != [] {
        assert names[i] in names;
      }
    }
    v := Validation(true, map[], []);
    for i := 0 to |names|
      invariant v == Validated(p, names, groups, targets, i)
    {
      var metric := names[i];
      if metric in targets {
        var checks := ChecksOf(p, groups[metric], targets[metric]);
        v := v.(validated := v.validated[metric := checks]);
        if !checks.All() {
          v := v.(pass := false, issues := v.issues + [metric]);
        }
      }
    }
    ValidatedConsistent(p, names, groups, targets, |names|);
    forall m
      ensures m in v.validated <==> m in targets && Values(ms, m, |ms|) != []
      ensures m in v.validated ==> v.validated[m] == ChecksOf(p, Values(ms, m, |ms|), targets[m])
    {
      ValidatedKeys(p, names, groups, targets, |names|, m);
      assert names[..|names|] == names;
    }
    VerdictsRight(p, ms, targets, v);
  }

  // ---- The scanning loop ----

  predicate Violates(m: Measurement, targets: map<string, Target>) {
    m.metric in targets && m.value > targets[m.metric].sla
  }

  function Violations(ms: seq<Measurement>, targets: map<string, Target>, n: nat): (r: seq<Measurement>)
    requires n <= |ms|
    ensures |r| <= n
    ensures r == [] <==> forall i :: 0 <= i < n ==> !Violates(ms[i], targets)
  {
    if n == 0 then []
    else Violations(ms, targets, n - 1) + if Violates(ms[n - 1], targets) then [ms[n - 1]] else []
  }

  /** The violations are the measurements above the threshold of their metric, none missing, none added. */
  lemma {:induction false} ViolationsExactly(ms: seq<Measurement>, targets: map<string, Target>, n: nat)
    requires n <= |ms|
    ensures forall x :: x in Violations(ms, targets, n) <==>
              x in ms[..n] && x.metric in targets && x.value > targets[x.metric].sla
  {
    if n > 0 {
      ViolationsExactly(ms, targets, n - 1);
      assert ms[..n] == ms[..n - 1] + [ms[n - 1]];
    }
  }

  method CheckSlaCompliance(ms: seq<Measurement>, targets: map<string, Target>) returns (c: Compliance)
    ensures c.violations == Violations(ms, targets, |ms|)
    ensures c.compliant <==> forall i :: 0 <= i < |ms| ==> !Violates(ms[i], targets)
    ensures 0.0 <= c.percentage <= 100.0
    ensures c.compliant <==> c.percentage == 100.0
    ensures c.percentage * |ms| as real == if ms == [] then 0.0 else (|ms| - |c.violations|) as real * 100.0
  {
    c := Compliance(true, [], 100.0);
    var violations := 0;
    for i := 0 to |ms|
      invariant c.compliant && c.percentage == 100.0
      invariant c.violations == Violations(ms, targets, i) && violations == |c.violations|
    {
      if ms[i].metric in targets && ms[i].value > targets[ms[i].metric].sla {
        violations := violations + 1;
        c := c.(violations := c.violations + [ms[i]]);
      }
    }
    if violations > 0 {
      ShareBounds(|ms|, violations);
      c := c.(compliant := false, percentage := (|ms| - violations) as real / |ms| as real * 100.0);
    }
  }

  lemma {:induction false} ShareBounds(total: nat, violations: nat)
    requires 0 < violations <= total
    ensures
      var share := (total - violations) as real / total as real;
      0.0 <= share < 1.0 && share * total as real == (total - violations) as real
  {
    var t, k := total as real, (total - violations) as real;
    assert k / t * t == k;
  }

  // ---- They agree ----

  /**
   Grouping and scanning find the same SLA failures: some metric's maximum is over its threshold exactly
   when some single measurement is.
   */
  lemma {:induction false} SlaVerdictsAgree(ms: seq<Measurement>, targets: map<string, Target>)
    ensures (exists m :: m in targets && Values(ms, m, |ms|) != [] && Max(Values(ms, m, |ms|)) > targets[m].sla)
       <==> (exists i :: 0 <= i < |ms| && Violates(ms[i], targets))
  {
    if m :| m in targets && Values(ms, m, |ms|) != [] && Max(Values(ms, m, |ms|)) > targets[m].sla {
      ValuesIn(ms, m, |ms|);
      var v := Max(Values(ms, m, |ms|));
      var i :| 0 <= i < |ms| && ms[i] == Measurement(m, v);
      assert Violates(ms[i], targets);
    }
    if i :| 0 <= i < |ms| && Violates(ms[i], targets) {
      var m := ms[i].metric;
      ValuesIn(ms, m, |ms|);
      assert ms[i] == Measurement(m, ms[i].value);
      assert ms[i].value in Values(ms, m, |ms|);
      assert Max(Values(ms, m, |ms|)) > targets[m].sla;
    }
  }

  /**
   Both loops over the same measurements: a PASS is compliant, and non-compliance is always an SLA failure of some
   metric.
   */
  method Establish(
    p: Percentiles, ms: seq<Measurement>, targets: map<string, Target>) returns (v: Validation, c: Compliance)
    ensures v.pass ==> c.compliant
    ensures c.compliant <==> forall m :: m in v.validated ==> v.validated[m].sla
  {
    v := ValidateAgainstBaseline(p, ms, targets);
    c := CheckSlaCompliance(ms, targets);
    SlaVerdictsAgree(ms, targets);
    forall m | m in v.validated ensures v.validated[m].sla <==> Max(Values(ms, m, |ms|)) <= targets[m].sla {
    }
    forall m | m in targets && Values(ms, m, |ms|) != [] ensures m in v.validated {
      ValuesIn(ms, m, |ms|);
      var x := Max(Values(ms, m, |ms|));
      assert x in Values(ms, m, |ms|);
    }
  }
}
