/** llm_module/target_checks.py: a benchmark record is graded against the tiered targets of its
    sweep point, in the form report_module/acceptance_criteria.py reads back. */
module TargetChecks {
  import opened Wrappers
  import opened PyStrings
  import opened Grading
  import opened Acceptance

  datatype Metric = Metric(field: string, attr: string, lowerIsBetter: bool)

  const METRICS := [
    Metric("ttft", "ttft_ms", true),
    Metric("tput_user", "tput_user", false),
    Metric("tput", "tput", false),
    Metric("tpot", "tpot_ms", true),
    Metric("e2el", "e2el_ms", true),
    Metric("tput_total", "tput_total", false),
    Metric("tput_input", "tput_input", false),
    Metric("goodput", "goodput", false)
  ]

  type Record = map<string, Value>

  /** `_as_float(record.get(name))` */
  function AsFloat(record: Record, name: string): Option<real> {
    if name in record && record[name].Number? then Some(record[name].r) else None
  }

  /** `_measured(record)[field]` */
  function Measured(record: Record, field: string): Option<real> {
    if field == "ttft" then AsFloat(record, "mean_ttft_ms")
    else if field == "tput_user" then
      var own, tpot := AsFloat(record, "tput_user"), AsFloat(record, "mean_tpot_ms");
      if own.Some? then own
      else if tpot.Some? && tpot.value != 0.0 then Some(1000.0 / tpot.value)
      else None
    else if field == "tput" then
      var output := AsFloat(record, "tps_output_throughput");
      if output.Some? then output else AsFloat(record, "tps_decode_throughput")
    else if field == "tpot" then AsFloat(record, "mean_tpot_ms")
    else if field == "e2el" then AsFloat(record, "mean_e2el_ms")
    else if field == "tput_total" then AsFloat(record, "tps_total_throughput")
    else if field == "tput_input" then AsFloat(record, "tps_input_throughput")
    else if field == "goodput" then AsFloat(record, "goodput_pct")
    else None
  }

  /** One tier's targets by attribute; an absent attribute is None in the source. */
  datatype Target = Target(tolerance: real, values: map<string, real>)

  datatype Config = Config(
    targets: map<string, Target>, priority: Option<Value>, metricPriorities: seq<(string, Value)>,
    completeMetrics: bool)

  const NA := Number(1.0)
  const PASS := Number(2.0)
  const FAIL := Number(3.0)

  predicate WithinTolerance(ratio: real, tolerance: real, lowerIsBetter: bool) {
    if lowerIsBetter then ratio <= 1.0 + tolerance else ratio >= 1.0 - tolerance
  }

  predicate Declared(target: Target, m: Metric) {
    m.attr in target.values && target.values[m.attr] > 0.0
  }

  /** The measurement that counts: with complete metrics it must be positive. */
  function Usable(record: Record, m: Metric, complete: bool): Option<real> {
    var actual := Measured(record, m.field);
    if complete && (actual.None? || actual.value <= 0.0) then None else actual
  }

  predicate Met(target: Target, record: Record, m: Metric, complete: bool)
    requires Declared(target, m)
  {
    var actual := Usable(record, m, complete);
    actual.Some? && WithinTolerance(actual.value / target.values[m.attr], target.tolerance, m.lowerIsBetter)
  }

  function CheckName(m: Metric): string {
    m.field + CHECK_SUFFIX
  }

  function RatioName(m: Metric): string {
    m.field + "_ratio"
  }

  /** The entries one metric adds to its tier. */
  function Entries(target: Target, record: Record, m: Metric, complete: bool): Level {
    if !Declared(target, m) then
      map[CheckName(m) := NA]
    else
      var goal, actual := target.values[m.attr], Measured(record, m.field);
      if complete && (actual.None? || actual.value <= 0.0) then
        map[m.field := Number(goal), RatioName(m) := Number(0.0), CheckName(m) := FAIL]
      else if actual.None? then
        map[m.field := Number(goal), RatioName(m) := Number(0.0), CheckName(m) := NA]
      else
        var ratio := actual.value / goal;
        map[m.field := Number(goal), RatioName(m) := Number(ratio),
            CheckName(m) := if WithinTolerance(ratio, target.tolerance, m.lowerIsBetter) then PASS else FAIL]
  }

  /** A tier after its first `n` metrics. */
  function TierUpTo(target: Target, record: Record, complete: bool, n: nat): Level
    requires n <= |METRICS|
  {
    if n == 0 then map[]
    else TierUpTo(target, record, complete, n - 1) + Entries(target, record, METRICS[n - 1], complete)
  }

  function Tier(target: Target, record: Record, complete: bool): Level {
    TierUpTo(target, record, complete, |METRICS|)
  }

  function TierChecksOf(targets: map<string, Target>, record: Record, complete: bool, tiers: seq<string>)
    : map<string, Level>
  {
    map tier | tier in targets && tier in tiers :: Tier(targets[tier], record, complete)
  }

  function TierChecks(targets: map<string, Target>, record: Record, complete: bool): map<string, Level> {
    TierChecksOf(targets, record, complete, TARGET_LEVELS)
  }

  /** The one-line verdict, of the `target` tier alone. */
  function Verdict(checks: map<string, Level>): Value {
    if "target" !in checks then NA
    else
      var tier := checks["target"];
      if forall name | name in tier && IsCheck(name) :: tier[name] == NA then NA
      else if exists name | name in tier && IsCheck(name) :: tier[name] == FAIL then FAIL
      else PASS
  }

  method BuildTier(target: Target, record: Record, complete: bool) returns (level: Level)
    ensures level == Tier(target, record, complete)
  {
    hide Entries;
    level := map[];
    for k := 0 to |METRICS|
      invariant level == TierUpTo(target, record, complete, k)
    {
      level := level + Entries(target, record, METRICS[k], complete);
    }
  }

  lemma TierChecksStep(targets: map<string, Target>, record: Record, complete: bool, tiers: seq<string>, t: nat)
    requires t < |tiers|
    ensures TierChecksOf(targets, record, complete, tiers[..t + 1])
         == if tiers[t] in targets
            then
              var tier := Tier(targets[tiers[t]], record, complete);
              TierChecksOf(targets, record, complete, tiers[..t])[tiers[t] := tier]
            else TierChecksOf(targets, record, complete, tiers[..t])
  {
    hide Tier;
    assert tiers[..t + 1] == tiers[..t] + [tiers[t]];
  }

  method BuildTargetChecks(targets: map<string, Target>, record: Record, complete: bool)
    returns (checks: map<string, Level>, verdict: Value)
    ensures checks == TierChecks(targets, record, complete) && verdict == Verdict(checks)
  {
    checks := map[];
    for t := 0 to |TARGET_LEVELS|
      invariant checks == TierChecksOf(targets, record, complete, TARGET_LEVELS[..t])
    {
      hide Tier, TierChecksOf;
      TierChecksStep(targets, record, complete, TARGET_LEVELS, t);
      if TARGET_LEVELS[t] in targets {
        var level := BuildTier(targets[TARGET_LEVELS[t]], record, complete);
        checks := checks[TARGET_LEVELS[t] := level];
      }
    }
    assert TARGET_LEVELS[..|TARGET_LEVELS|] == TARGET_LEVELS;
    verdict := Verdict(checks);
  }

  function FieldOf(attr: string): string {
    FieldFrom(attr, |METRICS|)
  }

  /** The last metric of that attribute names the field, as in a dict built in order. */
  function FieldFrom(attr: string, n: nat): string
    requires n <= |METRICS|
  {
    if n == 0 then attr
    else if METRICS[n - 1].attr == attr then METRICS[n - 1].field
    else FieldFrom(attr, n - 1)
  }

  function MetricPriorities(items: seq<(string, Value)>): map<string, Value> {
    if items == [] then map[]
    else MetricPriorities(items[..|items| - 1])[FieldOf(items[|items| - 1].0) := items[|items| - 1].1]
  }

  /** The graded benchmark data. */
  function ApplyTargetChecks(b: BenchmarkData, record: Record, config: Config): BenchmarkData {
    var graded := b.(
      priority := if config.priority.Some? then config.priority.value else b.priority,
      metricPriorities :=
        if config.metricPriorities != [] then MetricPriorities(config.metricPriorities) else b.metricPriorities);
    if config.targets == map[] then graded.(status := Text("na"))
    else
      var checks := TierChecks(config.targets, record, config.completeMetrics);
      graded.(status := if Verdict(checks) == NA then Text("na") else b.status, targetChecks := Some(checks))
  }

  // ----- Names ----------------------------------------------------------------------------------

  /** Metric fields cannot be confused with the ratio and check entries beside them. */
  predicate WellNamed(field: string) {
    field != "" && field[|field| - 1] != 'k' && field[|field| - 1] != 'o'
  }

  lemma MetricsWellNamed(k: nat)
    requires k < |METRICS|
    ensures WellNamed(METRICS[k].field)
  {
  }

  lemma MetricsDistinct(j: nat, k: nat)
    requires j < k < |METRICS|
    ensures METRICS[j].field != METRICS[k].field
  {
    var fields := ["ttft", "tput_user", "tput", "tpot", "e2el", "tput_total", "tput_input", "goodput"];
    assert METRICS[j].field == fields[j] && METRICS[k].field == fields[k];
    assert |fields[1]| == 9 && |fields[5]| == 10 && |fields[6]| == 10 && |fields[7]| == 7;
    assert fields[5][5] == 't' && fields[6][5] == 'i';
    assert fields[0][1] == 't' && fields[2][1] == 'p' && fields[3][1] == 'p' && fields[4][1] == '2';
    assert fields[2][2] == 'u' && fields[3][2] == 'o';
  }

  lemma CheckNameShape(m: Metric)
    ensures IsCheck(CheckName(m)) && MetricOf(CheckName(m)) == m.field
    ensures CheckName(m)[|CheckName(m)| - 1] == 'k' && RatioName(m)[|RatioName(m)| - 1] == 'o'
  {
    assert CheckName(m)[|CheckName(m)| - |CHECK_SUFFIX|..] == CHECK_SUFFIX;
    assert CheckName(m)[..|m.field|] == m.field;
  }

  lemma ChecksEndInK(name: string)
    requires IsCheck(name)
    ensures name != "" && name[|name| - 1] == 'k'
  {
    assert name[|name| - |CHECK_SUFFIX|..][|CHECK_SUFFIX| - 1] == 'k';
  }

  lemma CheckNamesDistinct(m: Metric, m': Metric)
    requires m.field != m'.field
    ensures CheckName(m) != CheckName(m') && RatioName(m) != RatioName(m')
  {
    CheckNameShape(m);
    CheckNameShape(m');
    if |m.field| == |m'.field| {
      var i :| 0 <= i < |m.field| && m.field[i] != m'.field[i];
      assert RatioName(m)[i] != RatioName(m')[i];
    }
  }

  // ----- What a graded tier holds -----------------------------------------------------------------

  lemma EntriesShape(target: Target, record: Record, m: Metric, complete: bool)
    requires WellNamed(m.field)
    ensures var e := Entries(target, record, m, complete);
            && (forall name :: name in e ==> name == m.field || name == RatioName(m) || name == CheckName(m))
            && CheckName(m) in e
            && (m.field in e <==> Declared(target, m))
            && (Declared(target, m) ==> e[m.field] == Number(target.values[m.attr]))
            && (!Declared(target, m) ==> e[CheckName(m)] == NA)
            && (Declared(target, m) ==> (e[CheckName(m)] == PASS <==> Met(target, record, m, complete)))
            && e[CheckName(m)] in {NA, PASS, FAIL}
  {
    CheckNameShape(m);
    assert m.field != CheckName(m) && m.field != RatioName(m) && RatioName(m) != CheckName(m);
    hide CheckName, RatioName, WithinTolerance, Measured;
  }

  /** Entries of different metrics do not collide. */
  lemma EntriesApart(j: nat, k: nat)
    requires j < |METRICS| && k < |METRICS| && j != k
    ensures var names := {METRICS[j].field, RatioName(METRICS[j]), CheckName(METRICS[j])};
            METRICS[k].field !in names && CheckName(METRICS[k]) !in names && RatioName(METRICS[k]) !in names
  {
    if j < k { MetricsDistinct(j, k); } else { MetricsDistinct(k, j); }
    MetricsWellNamed(j);
    MetricsWellNamed(k);
    CheckNameShape(METRICS[j]);
    CheckNameShape(METRICS[k]);
    CheckNamesDistinct(METRICS[j], METRICS[k]);
    hide METRICS, CheckName, RatioName, IsCheck, MetricOf;
  }

  lemma {:induction false} TierNames(target: Target, record: Record, complete: bool, n: nat, name: string)
    requires n <= |METRICS| && name in TierUpTo(target, record, complete, n)
    ensures exists j :: 0 <= j < n && name in Entries(target, record, METRICS[j], complete)
  {
    hide Entries, METRICS;
    if name !in Entries(target, record, METRICS[n - 1], complete) {
      TierNames(target, record, complete, n - 1, name);
    }
  }

  lemma ForeignName(target: Target, record: Record, complete: bool, j: nat, k: nat)
    requires j < |METRICS| && k < |METRICS| && j != k
    ensures METRICS[k].field !in Entries(target, record, METRICS[j], complete)
    ensures CheckName(METRICS[k]) !in Entries(target, record, METRICS[j], complete)
    ensures RatioName(METRICS[k]) !in Entries(target, record, METRICS[j], complete)
  {
    MetricsWellNamed(j);
    EntriesShape(target, record, METRICS[j], complete);
    EntriesApart(j, k);
    hide METRICS, Entries, CheckName, RatioName;
  }

  lemma FieldNotEarlier(target: Target, record: Record, complete: bool, k: nat)
    requires k < |METRICS|
    ensures METRICS[k].field !in TierUpTo(target, record, complete, k)
  {
    hide METRICS, Entries;
    if METRICS[k].field in TierUpTo(target, record, complete, k) {
      TierNames(target, record, complete, k, METRICS[k].field);
      var j :| 0 <= j < k && METRICS[k].field in Entries(target, record, METRICS[j], complete);
      ForeignName(target, record, complete, j, k);
    }
  }

  /** Each metric's target, ratio and check are found in the tier as they were entered. */
  lemma {:induction false} TierAt(target: Target, record: Record, complete: bool, n: nat, k: nat)
    requires k < n <= |METRICS| && CheckName(METRICS[k]) in Entries(target, record, METRICS[k], complete)
    ensures var level, e := TierUpTo(target, record, complete, n), Entries(target, record, METRICS[k], complete);
            && CheckName(METRICS[k]) in level && level[CheckName(METRICS[k])] == e[CheckName(METRICS[k])]
            && (METRICS[k].field in level <==> METRICS[k].field in e)
            && (METRICS[k].field in level ==> level[METRICS[k].field] == e[METRICS[k].field])
            && (RatioName(METRICS[k]) in e ==>
                  RatioName(METRICS[k]) in level && level[RatioName(METRICS[k])] == e[RatioName(METRICS[k])])
  {
    hide METRICS, Entries, CheckName, RatioName;
    if k < n - 1 {
      TierAt(target, record, complete, n - 1, k);
      ForeignName(target, record, complete, n - 1, k);
    } else {
      FieldNotEarlier(target, record, complete, k);
    }
  }

  lemma CheckOfSomeMetric(target: Target, record: Record, complete: bool, name: string)
    requires name in Tier(target, record, complete) && IsCheck(name)
    ensures exists k :: 0 <= k < |METRICS| && name == CheckName(METRICS[k])
  {
    TierNames(target, record, complete, |METRICS|, name);
    var j :| 0 <= j < |METRICS| && name in Entries(target, record, METRICS[j], complete);
    MetricsWellNamed(j);
    EntriesShape(target, record, METRICS[j], complete);
    ChecksEndInK(name);
    CheckNameShape(METRICS[j]);
  }

  lemma NaText()
    ensures StatusFromValue(Text("na")) == Some(Na)
  {
    assert Strip("na", IsSpace) == "na";
    assert Lower("na") == "na";
  }
}
