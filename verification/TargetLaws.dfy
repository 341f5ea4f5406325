/** llm_module/target_checks.py: what the checks of a sweep point say, metric by metric, in the words of
    the record and of the targets, and which of them acceptance lets block. */
module TargetLaws {
  import opened Wrappers
  import opened PyStrings
  import opened Grading
  import opened ReportData
  import opened TargetChecks

  // ----- The words ----------------------------------------------------------------------------------

  /** The metrics that are graded, with the attribute of their target. */
  predicate IsMetric(field: string, attr: string) {
    || (field == "ttft" && attr == "ttft_ms") || (field == "tpot" && attr == "tpot_ms")
    || (field == "e2el" && attr == "e2el_ms")
    || (field == attr && (|| field == "tput_user" || field == "tput" || field == "tput_total" || field == "tput_input"
                          || field == "goodput"))
  }

  predicate IsLatency(field: string) {
    field == "ttft" || field == "tpot" || field == "e2el"
  }

  predicate Reports(record: Record, name: string, x: real) {
    name in record && record[name] == Number(x)
  }

  predicate ReportsNone(record: Record, name: string) {
    name in record ==> !record[name].Number?
  }

  /** The record measures the metric: throughput for one user is derived where it is not reported. */
  predicate Measures(record: Record, field: string, x: real) {
    || (field == "ttft" && Reports(record, "mean_ttft_ms", x))
    || (field == "tpot" && Reports(record, "mean_tpot_ms", x))
    || (field == "e2el" && Reports(record, "mean_e2el_ms", x))
    || (field == "tput_user" && Reports(record, "tput_user", x))
    || (field == "tput_user" && ReportsNone(record, "tput_user") && "mean_tpot_ms" in record
        && record["mean_tpot_ms"].Number? && record["mean_tpot_ms"].r * x == 1000.0)
    || (field == "tput" && Reports(record, "tps_output_throughput", x))
    || (field == "tput" && ReportsNone(record, "tps_output_throughput") && Reports(record, "tps_decode_throughput", x))
    || (field == "tput_total" && Reports(record, "tps_total_throughput", x))
    || (field == "tput_input" && Reports(record, "tps_input_throughput", x))
    || (field == "goodput" && Reports(record, "goodput_pct", x))
  }

  /** A latency may exceed its goal by the tolerance, a throughput may stay below it by as much. */
  predicate Reaches(field: string, x: real, goal: real, tolerance: real) {
    if IsLatency(field) then x <= goal * (1.0 + tolerance) else x >= goal * (1.0 - tolerance)
  }

  predicate HasGoal(target: Target, attr: string) {
    attr in target.values && target.values[attr] > 0.0
  }

  /** The goal is met by what was measured; with complete metrics only a positive measurement counts. */
  ghost predicate Achieved(target: Target, record: Record, complete: bool, field: string, attr: string)
    requires HasGoal(target, attr)
  {
    exists x :: Measures(record, field, x) && (complete ==> x > 0.0)
                && Reaches(field, x, target.values[attr], target.tolerance)
  }

  ghost predicate IsMeasured(record: Record, field: string) {
    exists x :: Measures(record, field, x)
  }

  // ----- One check ----------------------------------------------------------------------------------

  /** The position of a metric in the table the code walks. */
  function RowOf(field: string): nat {
    if field == "ttft" then 0
    else if field == "tput_user" then 1
    else if field == "tput" then 2
    else if field == "tpot" then 3
    else if field == "e2el" then 4
    else if field == "tput_total" then 5
    else if field == "tput_input" then 6
    else 7
  }

  lemma MetricRow(field: string, attr: string)
    requires IsMetric(field, attr)
    ensures RowOf(field) < |METRICS|
    ensures METRICS[RowOf(field)] == Metric(field, attr, IsLatency(field))
  {
  }

  lemma RowIsMetric(k: nat)
    requires k < |METRICS|
    ensures IsMetric(METRICS[k].field, METRICS[k].attr) && METRICS[k].lowerIsBetter == IsLatency(METRICS[k].field)
  {
  }

  lemma QuotientIs(t: real, x: real)
    ensures t * x == 1000.0 <==> t != 0.0 && x == 1000.0 / t
  {
    if t != 0.0 {
      var q := 1000.0 / t;
      assert t * q == 1000.0;
      if x != q {
        assert t * (x - q) != 0.0;
      }
    }
  }

  lemma AsFloatIs(record: Record, name: string, x: real)
    ensures AsFloat(record, name) == Some(x) <==> Reports(record, name, x)
    ensures AsFloat(record, name).None? <==> ReportsNone(record, name)
    ensures AsFloat(record, name).Some? ==> name in record && record[name] == Number(AsFloat(record, name).value)
  {
  }

  lemma MeasuresUser(record: Record, x: real)
    ensures Measures(record, "tput_user", x) <==> Measured(record, "tput_user") == Some(x)
  {
    AsFloatIs(record, "tput_user", x);
    AsFloatIs(record, "mean_tpot_ms", x);
    var tpot := AsFloat(record, "mean_tpot_ms");
    if tpot.Some? {
      QuotientIs(tpot.value, x);
    }
    hide AsFloat, Reports, ReportsNone;
  }

  lemma MeasuresTput(record: Record, x: real)
    ensures Measures(record, "tput", x) <==> Measured(record, "tput") == Some(x)
  {
    AsFloatIs(record, "tps_output_throughput", x);
    AsFloatIs(record, "tps_decode_throughput", x);
    hide AsFloat, Reports, ReportsNone;
  }

  lemma MeasuresLatency(record: Record, field: string, x: real)
    requires IsLatency(field)
    ensures Measures(record, field, x) <==> Measured(record, field) == Some(x)
  {
    AsFloatIs(record, "mean_ttft_ms", x);
    AsFloatIs(record, "mean_tpot_ms", x);
    AsFloatIs(record, "mean_e2el_ms", x);
    hide AsFloat, Reports, ReportsNone;
  }

  lemma MeasuresTotal(record: Record, field: string, x: real)
    requires field == "tput_total" || field == "tput_input" || field == "goodput"
    ensures Measures(record, field, x) <==> Measured(record, field) == Some(x)
  {
    AsFloatIs(record, "tps_total_throughput", x);
    AsFloatIs(record, "tps_input_throughput", x);
    AsFloatIs(record, "goodput_pct", x);
    hide AsFloat, Reports, ReportsNone;
  }

  /** The record is read as the words say. */
  lemma MeasuresIff(record: Record, field: string, attr: string, x: real)
    requires IsMetric(field, attr)
    ensures Measures(record, field, x) <==> Measured(record, field) == Some(x)
  {
    hide Measures, Measured;
    if IsLatency(field) {
      MeasuresLatency(record, field, x);
    } else if field == "tput_user" {
      MeasuresUser(record, x);
    } else if field == "tput" {
      MeasuresTput(record, x);
    } else {
      MeasuresTotal(record, field, x);
    }
  }

  lemma RatioReaches(field: string, x: real, goal: real, tolerance: real)
    requires goal > 0.0
    ensures WithinTolerance(x / goal, tolerance, IsLatency(field)) <==> Reaches(field, x, goal, tolerance)
  {
    var ratio := x / goal;
    assert ratio * goal == x;
    ScaledBy(ratio, 1.0 + tolerance, goal);
    ScaledBy(ratio, 1.0 - tolerance, goal);
  }

  lemma ScaledBy(a: real, b: real, goal: real)
    requires goal > 0.0
    ensures a <= b <==> a * goal <= goal * b
    ensures a >= b <==> a * goal >= goal * b
  {
    if a < b {
      assert (b - a) * goal > 0.0;
    } else if a > b {
      assert (a - b) * goal > 0.0;
    }
  }

  lemma AchievedIff(target: Target, record: Record, complete: bool, field: string, attr: string)
    requires IsMetric(field, attr)
    ensures var m := Metric(field, attr, IsLatency(field));
            && (HasGoal(target, attr) <==> Declared(target, m))
            && (Declared(target, m) ==>
                  (Achieved(target, record, complete, field, attr) <==> Met(target, record, m, complete)))
  {
    var m := Metric(field, attr, IsLatency(field));
    if Declared(target, m) {
      forall x ensures Measures(record, field, x) <==> Measured(record, field) == Some(x) {
        MeasuresIff(record, field, attr, x);
      }
      forall x
        ensures WithinTolerance(x / target.values[attr], target.tolerance, IsLatency(field))
           <==> Reaches(field, x, target.values[attr], target.tolerance)
      {
        RatioReaches(field, x, target.values[attr], target.tolerance);
      }
      hide Measures, Measured, WithinTolerance, Reaches, IsLatency;
    }
  }

  /** What a tier says of one metric: its target, what was measured in units of it, and the verdict. */
  lemma CheckByData(target: Target, record: Record, complete: bool, field: string, attr: string)
    requires IsMetric(field, attr)
    ensures var level := Tier(target, record, complete);
            && field + "_check" in level
            && (!HasGoal(target, attr) ==> level[field + "_check"] == NA && !TargetIn(level, field))
            && (HasGoal(target, attr) ==>
                  && field in level && level[field] == Number(target.values[attr])
                  && (level[field + "_check"] == PASS <==> Achieved(target, record, complete, field, attr))
                  && (level[field + "_check"] == NA <==> !complete && !IsMeasured(record, field))
                  && (level[field + "_check"] == FAIL <==>
                        !Achieved(target, record, complete, field, attr) && (complete || IsMeasured(record, field))))
  {
    var m, k := Metric(field, attr, IsLatency(field)), RowOf(field);
    MetricRow(field, attr);
    MetricsWellNamed(k);
    AchievedIff(target, record, complete, field, attr);
    EntriesShape(target, record, m, complete);
    TierAt(target, record, complete, |METRICS|, k);
    if Declared(target, m) {
      NaEntry(target, record, m, complete);
    }
    assert CheckName(m) == field + "_check";
    if Measured(record, field).Some? {
      MeasuresIff(record, field, attr, Measured(record, field).value);
    }
    if x :| Measures(record, field, x) {
      MeasuresIff(record, field, attr, x);
    }
    hide METRICS, Entries, TierUpTo, Measures, Measured, Met, Achieved, IsLatency, CheckName;
  }

  lemma NaEntry(target: Target, record: Record, m: Metric, complete: bool)
    requires WellNamed(m.field) && Declared(target, m)
    ensures CheckName(m) in Entries(target, record, m, complete)
    ensures Entries(target, record, m, complete)[CheckName(m)] == NA <==> !complete && Measured(record, m.field).None?
  {
    CheckNameShape(m);
    assert m.field != CheckName(m) && m.field != RatioName(m) && RatioName(m) != CheckName(m);
    hide CheckName, RatioName, WithinTolerance, Measured;
  }

  lemma RatioEntry(target: Target, record: Record, m: Metric, complete: bool)
    requires WellNamed(m.field) && Declared(target, m)
    ensures RatioName(m) in Entries(target, record, m, complete)
    ensures Entries(target, record, m, complete)[RatioName(m)] == Number(RatioOf(target, record, m, complete))
  {
    CheckNameShape(m);
    assert m.field != CheckName(m) && m.field != RatioName(m) && RatioName(m) != CheckName(m);
    hide CheckName, RatioName, WithinTolerance, Measured;
  }

  function RatioOf(target: Target, record: Record, m: Metric, complete: bool): real
    requires Declared(target, m)
  {
    var actual := Usable(record, m, complete);
    if actual.None? then 0.0 else actual.value / target.values[m.attr]
  }

  lemma RatioInTier(target: Target, record: Record, complete: bool, field: string, attr: string)
    requires IsMetric(field, attr) && HasGoal(target, attr)
    ensures Declared(target, Metric(field, attr, IsLatency(field)))
    ensures var level, m := Tier(target, record, complete), Metric(field, attr, IsLatency(field));
            field + "_ratio" in level && level[field + "_ratio"] == Number(RatioOf(target, record, m, complete))
  {
    var m, k := Metric(field, attr, IsLatency(field)), RowOf(field);
    MetricRow(field, attr);
    MetricsWellNamed(k);
    EntriesShape(target, record, m, complete);
    RatioEntry(target, record, m, complete);
    TierAt(target, record, complete, |METRICS|, k);
    assert RatioName(m) == field + "_ratio";
    hide METRICS, Entries, TierUpTo, IsLatency, CheckName, RatioName, RatioOf;
  }

  /** The ratio beside a check is the measurement in units of its goal, and zero where none counts. */
  lemma RatioByData(target: Target, record: Record, complete: bool, field: string, attr: string)
    requires IsMetric(field, attr) && HasGoal(target, attr)
    ensures var level := Tier(target, record, complete);
            && field + "_ratio" in level && level[field + "_ratio"].Number?
            && (forall x :: Measures(record, field, x) ==>
                  level[field + "_ratio"].r * target.values[attr] == if complete && x <= 0.0 then 0.0 else x)
            && (!IsMeasured(record, field) ==> level[field + "_ratio"].r == 0.0)
  {
    RatioInTier(target, record, complete, field, attr);
    forall x ensures Measures(record, field, x) <==> Measured(record, field) == Some(x) {
      MeasuresIff(record, field, attr, x);
    }
    hide Tier, Measures, Measured, IsMetric, IsLatency;
    var actual := Measured(record, field);
    assert actual.Some? ==> Measures(record, field, actual.value);
  }

  /** Meeting a goal exactly passes, at tolerance zero too. */
  lemma ExactMatchPasses(target: Target, record: Record, complete: bool, field: string, attr: string)
    requires IsMetric(field, attr) && HasGoal(target, attr) && target.tolerance >= 0.0
    requires Measures(record, field, target.values[attr])
    ensures field + "_check" in Tier(target, record, complete)
    ensures Tier(target, record, complete)[field + "_check"] == PASS
  {
    var goal := target.values[attr];
    CheckByData(target, record, complete, field, attr);
    hide Tier, Measures;
    assert goal * target.tolerance >= 0.0;
    assert Reaches(field, goal, goal, target.tolerance);
  }

  lemma CheckMissedIff(target: Target, record: Record, complete: bool, field: string, attr: string)
    requires IsMetric(field, attr)
    ensures CheckMissed(Tier(target, record, complete), field)
       <==> HasGoal(target, attr) && !Achieved(target, record, complete, field, attr)
    ensures TargetIn(Tier(target, record, complete), field) <==> HasGoal(target, attr)
  {
    CheckByData(target, record, complete, field, attr);
    hide Tier, Achieved, IsMeasured, IsMetric;
  }

  /** A tier holds the checks of the metrics, and no other. */
  lemma ChecksAreOfMetrics(target: Target, record: Record, complete: bool, name: string)
    ensures HasCheck(Tier(target, record, complete), name) <==> exists attr :: IsMetric(name, attr)
  {
    hide IsMetric, Tier;
    if HasCheck(Tier(target, record, complete), name) {
      MetricNames(name);
      CheckOfSomeMetric(target, record, complete, name + "_check");
      var k :| 0 <= k < |METRICS| && name + "_check" == CheckName(METRICS[k]);
      assert (name + "_check")[..|name|] == name && CheckName(METRICS[k])[..|METRICS[k].field|] == METRICS[k].field;
      RowIsMetric(k);
    }
    if attr :| IsMetric(name, attr) {
      CheckByData(target, record, complete, name, attr);
    }
  }

  // ----- The verdict --------------------------------------------------------------------------------

  ghost predicate Graded(target: Target, record: Record, complete: bool, field: string, attr: string) {
    IsMetric(field, attr) && HasGoal(target, attr) && (complete || IsMeasured(record, field))
  }

  ghost predicate Failed(target: Target, record: Record, complete: bool, field: string, attr: string) {
    Graded(target, record, complete, field, attr) && !Achieved(target, record, complete, field, attr)
  }

  /** The one-line verdict is that of the `target` tier: NA where it grades nothing, FAIL where a graded
      goal is missed, and PASS otherwise. */
  lemma VerdictByData(targets: map<string, Target>, record: Record, complete: bool)
    ensures var v := Verdict(TierChecks(targets, record, complete));
            if "target" !in targets || forall field, attr :: !Graded(targets["target"], record, complete, field, attr)
            then v == NA
            else if exists field, attr :: Failed(targets["target"], record, complete, field, attr) then v == FAIL
            else v == PASS
  {
    var checks := TierChecks(targets, record, complete);
    assert TARGET_LEVELS[2] == "target";
    assert "target" in checks <==> "target" in targets;
    if "target" in targets {
      var target := targets["target"];
      assert checks["target"] == Tier(target, record, complete);
      hide Tier, TierChecks, IsMetric, HasGoal, IsMeasured, Achieved;
      VerdictOfTier(target, record, complete);
    }
  }

  lemma VerdictOfTier(target: Target, record: Record, complete: bool)
    ensures var tier := Tier(target, record, complete);
            && ((forall name | name in tier && IsCheck(name) :: tier[name] == NA)
                <==> forall field, attr :: !Graded(target, record, complete, field, attr))
            && ((exists name | name in tier && IsCheck(name) :: tier[name] == FAIL)
                <==> exists field, attr :: Failed(target, record, complete, field, attr))
  {
    var tier := Tier(target, record, complete);
    hide Tier, HasGoal, IsMeasured, Achieved, METRICS, IsMetric;
    forall name | name in tier && IsCheck(name)
      ensures exists field, attr :: IsMetric(field, attr) && name == field + "_check"
    {
      ReportData.ChecksAreNamed(name);
      hide IsCheck;
      assert HasCheck(tier, MetricOf(name));
      ChecksAreOfMetrics(target, record, complete, MetricOf(name));
      var attr :| IsMetric(MetricOf(name), attr);
    }
    forall field, attr | IsMetric(field, attr)
      ensures field + "_check" in tier && IsCheck(field + "_check")
      ensures tier[field + "_check"] != NA <==> Graded(target, record, complete, field, attr)
      ensures tier[field + "_check"] == FAIL <==> Failed(target, record, complete, field, attr)
    {
      MetricNames(field);
      CheckByData(target, record, complete, field, attr);
    }
    hide IsCheck, Graded, Failed;
  }

  // ----- Improving a measurement --------------------------------------------------------------------

  /** `better` measures what `record` does, each latency no higher and each throughput no lower; a
      positive measurement stays positive. */
  ghost predicate Improves(better: Record, record: Record) {
    forall field, attr :: IsMetric(field, attr) ==>
      IsMeasured(better, field) == IsMeasured(record, field) &&
      forall x, y :: Measures(record, field, x) && Measures(better, field, y) ==> IsBetter(field, y, x)
  }

  predicate IsBetter(field: string, y: real, x: real) {
    (x > 0.0 ==> y > 0.0) && if IsLatency(field) then y <= x else y >= x
  }

  lemma BetterAchieves(target: Target, record: Record, better: Record, complete: bool, field: string, attr: string)
    requires IsMetric(field, attr) && HasGoal(target, attr) && Improves(better, record)
    requires Achieved(target, record, complete, field, attr)
    ensures Achieved(target, better, complete, field, attr)
  {
    hide Measures, IsMetric, IsLatency;
    var x :| Measures(record, field, x) && (complete ==> x > 0.0)
             && Reaches(field, x, target.values[attr], target.tolerance);
    assert IsMeasured(record, field);
    var y :| Measures(better, field, y);
    assert IsBetter(field, y, x);
  }

  lemma SameGrades(target: Target, record: Record, better: Record, complete: bool, field: string, attr: string)
    requires Improves(better, record)
    ensures Graded(target, record, complete, field, attr) == Graded(target, better, complete, field, attr)
  {
    hide IsMetric, IsMeasured, HasGoal;
  }

  lemma SameNaVerdict(targets: map<string, Target>, record: Record, better: Record, complete: bool)
    requires Improves(better, record)
    ensures Verdict(TierChecks(targets, record, complete)) == NA
       <==> Verdict(TierChecks(targets, better, complete)) == NA
  {
    VerdictByData(targets, record, complete);
    VerdictByData(targets, better, complete);
    hide Verdict, TierChecks, Graded, Failed, Improves;
    if "target" in targets {
      forall field, attr
        ensures Graded(targets["target"], record, complete, field, attr)
             == Graded(targets["target"], better, complete, field, attr)
      {
        SameGrades(targets["target"], record, better, complete, field, attr);
      }
    }
  }

  /** What the two graded blocks have in common. */
  lemma SameBlock(b: BenchmarkData, record: Record, better: Record, config: Config)
    requires Improves(better, record)
    ensures var g, h := ApplyTargetChecks(b, record, config), ApplyTargetChecks(b, better, config);
            && h.status == g.status && h.priority == g.priority && h.metricPriorities == g.metricPriorities
            && h.numRequests == g.numRequests && h.errorRequests == g.errorRequests
            && (config.targets == map[] ==> h == g)
            && (config.targets != map[] ==>
                  && g.targetChecks == Some(TierChecks(config.targets, record, config.completeMetrics))
                  && h.targetChecks == Some(TierChecks(config.targets, better, config.completeMetrics)))
  {
    SameNaVerdict(config.targets, record, better, config.completeMetrics);
    hide Verdict, TierChecks, Improves, MetricPriorities;
  }

  /** Each tier promises and checks the same, and misses no more. */
  ghost predicate MissesNoMore(better: map<string, Level>, worse: map<string, Level>) {
    && better.Keys == worse.Keys
    && forall tier :: tier in worse ==> forall metric ::
         && HasCheck(better[tier], metric) == HasCheck(worse[tier], metric)
         && (HasCheck(worse[tier], metric) ==>
               && TargetIn(better[tier], metric) == TargetIn(worse[tier], metric)
               && (CheckMissed(better[tier], metric) ==> CheckMissed(worse[tier], metric)))
  }

  lemma ImprovedChecks(targets: map<string, Target>, record: Record, better: Record, complete: bool)
    requires Improves(better, record)
    ensures MissesNoMore(TierChecks(targets, better, complete), TierChecks(targets, record, complete))
  {
    var worse, improved := TierChecks(targets, record, complete), TierChecks(targets, better, complete);
    assert improved.Keys == worse.Keys;
    hide Tier, CheckMissed, TargetIn, HasCheck, Improves, IsMetric, HasGoal, Achieved;
    forall tier, metric | tier in worse
      ensures HasCheck(improved[tier], metric) == HasCheck(worse[tier], metric)
      ensures HasCheck(worse[tier], metric) ==>
                && TargetIn(improved[tier], metric) == TargetIn(worse[tier], metric)
                && (CheckMissed(improved[tier], metric) ==> CheckMissed(worse[tier], metric))
    {
      ImprovedCheck(targets[tier], record, better, complete, metric);
    }
  }

  lemma ImprovedCheck(target: Target, record: Record, better: Record, complete: bool, metric: string)
    requires Improves(better, record)
    ensures var worse, improved := Tier(target, record, complete), Tier(target, better, complete);
            && HasCheck(improved, metric) == HasCheck(worse, metric)
            && (HasCheck(worse, metric) ==>
                  && TargetIn(improved, metric) == TargetIn(worse, metric)
                  && (CheckMissed(improved, metric) ==> CheckMissed(worse, metric)))
  {
    ChecksAreOfMetrics(target, record, complete, metric);
    ChecksAreOfMetrics(target, better, complete, metric);
    hide Tier, CheckMissed, TargetIn, HasCheck, Improves, IsMetric, HasGoal, Achieved;
    if attr :| IsMetric(metric, attr) {
      CheckMissedIff(target, record, complete, metric, attr);
      CheckMissedIff(target, better, complete, metric, attr);
      if HasGoal(target, attr) && Achieved(target, record, complete, metric, attr) {
        BetterAchieves(target, record, better, complete, metric, attr);
      }
    }
  }

  lemma MissesNoMoreHolds(g: BenchmarkData, h: BenchmarkData, key: string, tiers: set<string>, k: string)
    requires h == g.(targetChecks := h.targetChecks) && g.targetChecks.Some? && h.targetChecks.Some?
    requires MissesNoMore(h.targetChecks.value, g.targetChecks.value)
    requires HeldUnder(h, key, tiers, k)
    ensures HeldUnder(g, key, tiers, k)
  {
    hide CheckMissed, TargetIn, HasCheck, Says, SaysFailed, Unstated, IsTier;
    SamePromises(g, h);
    hide TargetDeclared, HasChecks;
    assert RequestsFailed(h) == RequestsFailed(g) && StatusSettles(h) == StatusSettles(g);
    if GradedUnder(h, key, tiers, false, k) {
      GradedNoMore(g, h, key, tiers, k);
    }
    hide GradedUnder, RequestsFailed, StatusSettles;
  }

  lemma SamePromises(g: BenchmarkData, h: BenchmarkData)
    requires g.targetChecks.Some? && h.targetChecks.Some?
    requires MissesNoMore(h.targetChecks.value, g.targetChecks.value)
    ensures TargetDeclared(g) == TargetDeclared(h) && HasChecks(g) == HasChecks(h)
  {
    hide CheckMissed, TargetIn, HasCheck, IsTier;
  }

  lemma GradedNoMore(g: BenchmarkData, h: BenchmarkData, key: string, tiers: set<string>, k: string)
    requires h == g.(targetChecks := h.targetChecks) && g.targetChecks.Some? && h.targetChecks.Some?
    requires MissesNoMore(h.targetChecks.value, g.targetChecks.value) && HasChecks(g) == HasChecks(h)
    requires GradedUnder(h, key, tiers, false, k)
    ensures GradedUnder(g, key, tiers, false, k)
  {
    hide TargetIn, Says, IsTier, HasChecks;
    if tier, metric :| MissAt(h, tiers, false, tier, metric) && k == key + "." + tier + "." + (metric + "_check") {
      assert HasCheck(h.targetChecks.value[tier], metric);
      hide CheckMissed;
      assert MissAt(g, tiers, false, tier, metric);
    }
  }

  /** Improving what was measured never adds a blocker, whatever the block, its priorities and the tiers
      enforced. */
  lemma ImprovingNeverBlocks(
      b: BenchmarkData, record: Record, better: Record, config: Config, key: string, tiers: set<string>)
    requires Improves(better, record)
    ensures BenchmarkOutcome(ApplyTargetChecks(b, better, config), key, tiers).blockers
         <= BenchmarkOutcome(ApplyTargetChecks(b, record, config), key, tiers).blockers
  {
    var g, h := ApplyTargetChecks(b, record, config), ApplyTargetChecks(b, better, config);
    SameBlock(b, record, better, config);
    BenchmarkByData(g, key, tiers);
    BenchmarkByData(h, key, tiers);
    hide ApplyTargetChecks, BenchmarkOutcome, HeldUnder, Improves, Says, BenchmarkFails, TierChecks;
    if config.targets != map[] {
      ImprovedChecks(config.targets, record, better, config.completeMetrics);
      forall k | HeldUnder(h, key, tiers, k) ensures HeldUnder(g, key, tiers, k) {
        MissesNoMoreHolds(g, h, key, tiers, k);
      }
    }
  }

  // ----- Writer and reader agree ----------------------------------------------------------------------

  /** The sweep point declares a positive target for the metric in that tier. */
  ghost predicate Promised(config: Config, tier: string, field: string, attr: string) {
    IsTier(tier) && tier in config.targets && IsMetric(field, attr) && HasGoal(config.targets[tier], attr)
  }

  /** A declared target that was not measured, or missed beyond its tolerance. */
  ghost predicate MissedPromise(config: Config, record: Record, tier: string, field: string, attr: string) {
    && Promised(config, tier, field, attr)
    && !Achieved(config.targets[tier], record, config.completeMetrics, field, attr)
  }

  ghost predicate PromisesAny(config: Config) {
    exists tier, field, attr :: Promised(config, tier, field, attr)
  }

  /** The `target` tier has something to say of the record. */
  ghost predicate GradesAny(config: Config, record: Record) {
    "target" in config.targets &&
    exists field, attr :: Graded(config.targets["target"], record, config.completeMetrics, field, attr)
  }

  predicate BlockIsOptional(b: BenchmarkData, config: Config) {
    Says(if config.priority.Some? then config.priority.value else b.priority, "should")
  }

  /** A configured priority names its metric by the attribute of the target, or by the field itself. */
  predicate Names(name: string, field: string, attr: string) {
    name == attr || name == field
  }

  ghost predicate LastIsOptional(items: seq<(string, Value)>, field: string, attr: string) {
    exists i :: 0 <= i < |items| && Names(items[i].0, field, attr) && Says(items[i].1, "should")
                && forall j :: i < j < |items| ==> !Names(items[j].0, field, attr)
  }

  /** The last configured priority of the metric decides; with none configured at all, the block's own. */
  ghost predicate MetricIsOptional(b: BenchmarkData, config: Config, field: string, attr: string) {
    if config.metricPriorities == [] then field in b.metricPriorities && Says(b.metricPriorities[field], "should")
    else LastIsOptional(config.metricPriorities, field, attr)
  }

  /** A miss in an enforced tier, of a metric that is not optional. */
  ghost predicate BlockingMiss(
      b: BenchmarkData, record: Record, config: Config, tiers: set<string>, tier: string, field: string, attr: string)
  {
    MissedPromise(config, record, tier, field, attr) && tier in tiers && !MetricIsOptional(b, config, field, attr)
  }

  ghost predicate MissedUnder(
      b: BenchmarkData, record: Record, config: Config, key: string, tiers: set<string>, k: string)
  {
    exists tier, field, attr ::
      BlockingMiss(b, record, config, tiers, tier, field, attr) && k == key + "." + tier + "." + (field + "_check")
  }

  /** The block's own status stands only where the `target` tier grades, and NA does not stand there. */
  ghost predicate StatusStands(b: BenchmarkData, record: Record, config: Config) {
    GradesAny(config, record) && !Unstated(b.status) && !Says(b.status, "na")
  }

  /** What a graded sweep point is blocked under unless the whole block is optional. */
  ghost predicate PointHeld(
      b: BenchmarkData, record: Record, config: Config, key: string, tiers: set<string>, k: string)
  {
    if StatusStands(b, record, config) && Says(b.status, "skip") then false
    else if RequestsFailed(b) then k == key + ".requests"
    else if StatusStands(b, record, config) then SaysFailed(b.status) && k == key
    else MissedUnder(b, record, config, key, tiers, k)
  }

  lemma MetricsApart(field: string, other: string, attr: string)
    requires IsMetric(field, attr) && IsMetric(other, attr)
    ensures field == other
  {
  }

  lemma AttributesApart(field: string, attr: string, other: string)
    requires IsMetric(field, attr) && IsMetric(other, field)
    ensures field == attr
  {
  }

  /** A name that is no attribute of the first `n` metrics stands for itself. */
  lemma {:induction false} FieldFromIs(name: string, n: nat)
    requires n <= |METRICS|
    ensures || IsMetric(FieldFrom(name, n), name)
            || (FieldFrom(name, n) == name && forall k :: 0 <= k < n ==> METRICS[k].attr != name)
  {
    hide METRICS, IsMetric;
    if n > 0 {
      RowIsMetric(n - 1);
      FieldFromIs(name, n - 1);
    }
  }

  lemma FieldOfIff(name: string, field: string, attr: string)
    requires IsMetric(field, attr)
    ensures FieldOf(name) == field <==> Names(name, field, attr)
  {
    FieldFromIs(name, |METRICS|);
    MetricRow(field, attr);
    hide METRICS, IsMetric, FieldFrom, RowOf;
    if IsMetric(FieldOf(name), name) {
      if name == attr {
        MetricsApart(FieldOf(name), field, attr);
      }
      if name == field {
        AttributesApart(field, attr, FieldOf(name));
      }
    }
  }

  /** The configured priorities are carried to the fields that the checks are read by. */
  lemma {:induction false} PrioritiesAre(items: seq<(string, Value)>, field: string, attr: string)
    requires IsMetric(field, attr)
    ensures field in MetricPriorities(items) && Says(MetricPriorities(items)[field], "should")
       <==> LastIsOptional(items, field, attr)
  {
    hide FieldOf, Says, Names, IsMetric;
    if items != [] {
      var n := |items| - 1;
      FieldOfIff(items[n].0, field, attr);
      PrioritiesAre(items[..n], field, attr);
    }
  }

  lemma PointShape(b: BenchmarkData, record: Record, config: Config)
    requires b.targetChecks.None? || config.targets != map[]
    ensures var g := ApplyTargetChecks(b, record, config);
            var checks := TierChecks(config.targets, record, config.completeMetrics);
            && g.numRequests == b.numRequests && g.errorRequests == b.errorRequests
            && (Says(g.priority, "should") <==> BlockIsOptional(b, config))
            && g.metricPriorities == (if config.metricPriorities == [] then b.metricPriorities
                                      else MetricPriorities(config.metricPriorities))
            && (config.targets != map[] ==> g.targetChecks == Some(checks))
            && (config.targets == map[] ==> g.targetChecks.None?)
            && g.status == if GradesAny(config, record) then b.status else Text("na")
  {
    VerdictByData(config.targets, record, config.completeMetrics);
    hide TierChecks, Verdict, MetricPriorities, Graded, Failed, Says;
  }

  lemma TiersAre(config: Config, record: Record, tier: string)
    ensures var checks := TierChecks(config.targets, record, config.completeMetrics);
            && (tier in checks <==> tier in config.targets && IsTier(tier))
            && (tier in checks ==> checks[tier] == Tier(config.targets[tier], record, config.completeMetrics))
  {
    assert TARGET_LEVELS == ["functional", "complete", "target"];
    hide Tier;
  }

  /** Acceptance finds the misses and the targets that the sweep point has. */
  lemma ReadAsPromised(config: Config, record: Record, tier: string, metric: string)
    requires tier in config.targets && IsTier(tier)
    ensures var level := Tier(config.targets[tier], record, config.completeMetrics);
            && (CheckMissed(level, metric) <==> exists attr :: MissedPromise(config, record, tier, metric, attr))
            && (HasCheck(level, metric) && TargetIn(level, metric)
                <==> exists attr :: Promised(config, tier, metric, attr))
  {
    var target := config.targets[tier];
    var level := Tier(target, record, config.completeMetrics);
    assert CheckMissed(level, metric) ==> HasCheck(level, metric);
    ChecksAreOfMetrics(target, record, config.completeMetrics, metric);
    forall attr | IsMetric(metric, attr)
      ensures CheckMissed(level, metric)
         <==> HasGoal(target, attr) && !Achieved(target, record, config.completeMetrics, metric, attr)
      ensures TargetIn(level, metric) <==> HasGoal(target, attr)
    {
      CheckMissedIff(target, record, config.completeMetrics, metric, attr);
    }
    hide Tier, HasCheck, CheckMissed, TargetIn, IsMetric, IsTier, HasGoal, Achieved;
    if HasCheck(level, metric) {
      var attr :| IsMetric(metric, attr);
      if CheckMissed(level, metric) {
        assert MissedPromise(config, record, tier, metric, attr);
      }
      if TargetIn(level, metric) {
        assert Promised(config, tier, metric, attr);
      }
    }
  }

  /** Acceptance finds a declared target iff the sweep point declares one, and then has checks to read. */
  lemma DeclaredIffPromised(b: BenchmarkData, record: Record, config: Config)
    requires b.targetChecks.None? || config.targets != map[]
    ensures TargetDeclared(ApplyTargetChecks(b, record, config)) <==> PromisesAny(config)
    ensures PromisesAny(config) ==> HasChecks(ApplyTargetChecks(b, record, config))
    ensures GradesAny(config, record) ==> PromisesAny(config)
  {
    var g := ApplyTargetChecks(b, record, config);
    PointShape(b, record, config);
    hide ApplyTargetChecks, TierChecks, HasCheck, TargetIn, IsTier, IsMetric, HasGoal;
    forall tier ensures
      var checks := TierChecks(config.targets, record, config.completeMetrics);
      && (tier in checks <==> tier in config.targets && IsTier(tier))
      && (tier in checks ==> checks[tier] == Tier(config.targets[tier], record, config.completeMetrics))
    {
      TiersAre(config, record, tier);
    }
    hide Tier;
    if TargetDeclared(g) {
      var tier, metric :| tier in g.targetChecks.value && HasCheck(g.targetChecks.value[tier], metric)
                          && TargetIn(g.targetChecks.value[tier], metric);
      ReadAsPromised(config, record, tier, metric);
    }
    if tier, field, attr :| Promised(config, tier, field, attr) {
      ReadAsPromised(config, record, tier, field);
      assert HasCheck(g.targetChecks.value[tier], field) && TargetIn(g.targetChecks.value[tier], field);
    }
    if GradesAny(config, record) {
      var field, attr :| Graded(config.targets["target"], record, config.completeMetrics, field, attr);
      assert IsTier("target");
      assert Promised(config, "target", field, attr);
    }
  }

  lemma InformsIff(b: BenchmarkData, record: Record, config: Config, tiers: set<string>, tier: string,
      field: string, attr: string)
    requires (b.targetChecks.None? || config.targets != map[]) && IsMetric(field, attr)
    ensures InformsOnly(ApplyTargetChecks(b, record, config), tiers, tier, field)
       <==> tier !in tiers || MetricIsOptional(b, config, field, attr)
  {
    PointShape(b, record, config);
    PrioritiesAre(config.metricPriorities, field, attr);
    hide ApplyTargetChecks, TierChecks, MetricPriorities, LastIsOptional, Says, IsMetric;
  }

  lemma MissesArePromised(b: BenchmarkData, record: Record, config: Config, tiers: set<string>, tier: string,
      metric: string)
    requires config.targets != map[] && ApplyTargetChecks(b, record, config).targetChecks.Some?
    ensures MissAt(ApplyTargetChecks(b, record, config), tiers, false, tier, metric)
       <==> exists attr :: BlockingMiss(b, record, config, tiers, tier, metric, attr)
  {
    var g := ApplyTargetChecks(b, record, config);
    PointShape(b, record, config);
    TiersAre(config, record, tier);
    hide ApplyTargetChecks, TierChecks, Tier, CheckMissed, IsTier, InformsOnly, MetricIsOptional, IsMetric, Achieved,
         HasGoal;
    if tier in config.targets && IsTier(tier) {
      ReadAsPromised(config, record, tier, metric);
      forall attr | IsMetric(metric, attr)
        ensures InformsOnly(g, tiers, tier, metric) <==> tier !in tiers || MetricIsOptional(b, config, metric, attr)
      {
        InformsIff(b, record, config, tiers, tier, metric, attr);
      }
      if MissAt(g, tiers, false, tier, metric) {
        var attr :| MissedPromise(config, record, tier, metric, attr);
        assert BlockingMiss(b, record, config, tiers, tier, metric, attr);
      }
      if attr :| BlockingMiss(b, record, config, tiers, tier, metric, attr) {
        assert MissedPromise(config, record, tier, metric, attr);
      }
    }
  }

  lemma MissesAreKept(b: BenchmarkData, record: Record, config: Config, key: string, tiers: set<string>, k: string)
    requires config.targets != map[] && ApplyTargetChecks(b, record, config).targetChecks.Some?
    requires HasChecks(ApplyTargetChecks(b, record, config))
    ensures GradedUnder(ApplyTargetChecks(b, record, config), key, tiers, false, k)
       <==> MissedUnder(b, record, config, key, tiers, k)
  {
    hide ApplyTargetChecks, HasChecks, MissAt, BlockingMiss;
    var g := ApplyTargetChecks(b, record, config);
    if GradedUnder(g, key, tiers, false, k) {
      var tier, metric :| MissAt(g, tiers, false, tier, metric) && k == key + "." + tier + "." + (metric + "_check");
      MissesArePromised(b, record, config, tiers, tier, metric);
    }
    if tier, field, attr :| BlockingMiss(b, record, config, tiers, tier, field, attr)
                            && k == key + "." + tier + "." + (field + "_check") {
      MissesArePromised(b, record, config, tiers, tier, field);
    }
  }

  lemma NothingMissed(
      b: BenchmarkData, record: Record, config: Config, key: string, tiers: set<string>, k: string)
    requires !PromisesAny(config)
    ensures !MissedUnder(b, record, config, key, tiers, k)
  {
    hide Promised, MetricIsOptional, Achieved;
    forall tier, field, attr ensures !BlockingMiss(b, record, config, tiers, tier, field, attr) {
      assert !Promised(config, tier, field, attr);
    }
  }

  /** Which status the graded point carries, and whether it is decisive. */
  lemma PointStatus(b: BenchmarkData, record: Record, config: Config)
    requires b.targetChecks.None? || config.targets != map[]
    ensures var g := ApplyTargetChecks(b, record, config);
            && (StatusSettles(g) <==> StatusStands(b, record, config) || !PromisesAny(config))
            && (StatusSettles(g) && Says(g.status, "na") <==> !PromisesAny(config))
            && (StatusStands(b, record, config) ==> g.status == b.status && PromisesAny(config))
            && (!StatusStands(b, record, config) ==> !Says(g.status, "skip") && !SaysFailed(g.status))
  {
    PointShape(b, record, config);
    DeclaredIffPromised(b, record, config);
    NaText();
    StatusIff(Text("na"));
    StatusExcludes(Text("na"));
    StatusExcludes(b.status);
    hide ApplyTargetChecks, TierChecks, HasChecks, TargetDeclared, GradesAny, Says, Unstated, SaysFailed,
         StatusFromValue, PromisesAny, BlockIsOptional, MetricPriorities;
  }

  lemma PointHolds(b: BenchmarkData, record: Record, config: Config, key: string, tiers: set<string>, k: string)
    requires b.targetChecks.None? || config.targets != map[]
    ensures HeldUnder(ApplyTargetChecks(b, record, config), key, tiers, k)
       <==> PointHeld(b, record, config, key, tiers, k)
  {
    hide ApplyTargetChecks, HasChecks, GradedUnder, MissedUnder, Says, SaysFailed, PromisesAny, StatusStands,
         StatusSettles, BlockIsOptional, MetricPriorities, TierChecks, GradesAny;
    PointStatus(b, record, config);
    PointShape(b, record, config);
    DeclaredIffPromised(b, record, config);
    if PromisesAny(config) {
      PromisesNeedTargets(config);
      MissesAreKept(b, record, config, key, tiers, k);
    } else {
      NothingMissed(b, record, config, key, tiers, k);
    }
  }

  lemma PromisesNeedTargets(config: Config)
    requires PromisesAny(config)
    ensures config.targets != map[]
  {
  }

  /** What acceptance makes of a graded sweep point, in the words of the targets, the record and the
      priorities: the writer and the reader of target checks agree, whatever the tiers enforced. */
  lemma PromisesAreGraded(b: BenchmarkData, record: Record, config: Config, key: string, tiers: set<string>)
    requires b.targetChecks.None? || config.targets != map[]
    ensures var o := BenchmarkOutcome(ApplyTargetChecks(b, record, config), key, tiers);
            && (forall k :: k in o.blockers <==>
                  !BlockIsOptional(b, config) && PointHeld(b, record, config, key, tiers, k))
            && (o.na <==> !RequestsFailed(b) && !PromisesAny(config))
            && o.total == 1 && o.failed == if o.blockers != {} then 1 else 0
  {
    hide ApplyTargetChecks, TierChecks, BenchmarkOutcome, HeldUnder, PointHeld, StatusSettles, Says, PromisesAny,
         BenchmarkFails, GradesAny, MetricPriorities, Misses, StatusStands, BlockIsOptional;
    BenchmarkByData(ApplyTargetChecks(b, record, config), key, tiers);
    PointShape(b, record, config);
    PointStatus(b, record, config);
    forall k
      ensures HeldUnder(ApplyTargetChecks(b, record, config), key, tiers, k)
         <==> PointHeld(b, record, config, key, tiers, k)
    {
      PointHolds(b, record, config, key, tiers, k);
    }
  }

  /** A FAIL verdict is a missed promise of the `target` tier, and blocks under it where that tier is
      enforced and neither the block nor the metric is optional. */
  lemma FailVerdictBlocks(b: BenchmarkData, record: Record, config: Config, key: string, tiers: set<string>)
    requires Verdict(TierChecks(config.targets, record, config.completeMetrics)) == FAIL
    requires Unstated(b.status) && !RequestsFailed(b) && !BlockIsOptional(b, config) && "target" in tiers
    ensures exists field, attr ::
              && MissedPromise(config, record, "target", field, attr)
              && (!MetricIsOptional(b, config, field, attr) ==>
                    key + "." + "target" + "." + (field + "_check")
                    in BenchmarkOutcome(ApplyTargetChecks(b, record, config), key, tiers).blockers)
  {
    hide TierChecks, ApplyTargetChecks, BenchmarkOutcome, MetricIsOptional, RequestsFailed, Says, BlockIsOptional,
         Verdict, Achieved, IsMetric, HasGoal, Unstated, IsMeasured;
    FailVerdictMisses(config, record);
    var field, attr :| MissedPromise(config, record, "target", field, attr);
    hide MissedPromise;
    if !MetricIsOptional(b, config, field, attr) {
      assert BlockingMiss(b, record, config, tiers, "target", field, attr);
      var k := key + "." + "target" + "." + (field + "_check");
      assert MissedUnder(b, record, config, key, tiers, k);
      hide MissedUnder, GradesAny;
      PromisesAreGraded(b, record, config, key, tiers);
      assert PointHeld(b, record, config, key, tiers, k);
    }
  }

  lemma FailVerdictMisses(config: Config, record: Record)
    requires Verdict(TierChecks(config.targets, record, config.completeMetrics)) == FAIL
    ensures config.targets != map[]
    ensures exists field, attr :: MissedPromise(config, record, "target", field, attr)
  {
    hide TierChecks, Verdict, Achieved, IsMetric, HasGoal, IsMeasured;
    VerdictByData(config.targets, record, config.completeMetrics);
    var field, attr :| Failed(config.targets["target"], record, config.completeMetrics, field, attr);
    assert MissedPromise(config, record, "target", field, attr);
  }
}
