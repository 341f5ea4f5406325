/** What the data of a report block say, in the words of the report, and that this is what the checks
    of report_module/acceptance_criteria.py and report_module/status.py make of them. */
module ReportData {
  import opened Wrappers
  import opened PyStrings
  import opened Grading

  // ----- Words ------------------------------------------------------------------------------------

  /** The text is this lower-case word, in any letter case and between any white space. */
  predicate Says(v: Value, word: string) {
    v.Text? && Lower(Strip(v.s, IsSpace)) == word
  }

  predicate Shouts(v: Value, word: string) {
    v.Text? && Upper(Strip(v.s, IsSpace)) == word
  }

  predicate Unstated(v: Value) {
    !Says(v, "pass") && !Says(v, "fail") && !Says(v, "error") && !Says(v, "skip") && !Says(v, "na")
    && !Says(v, "partial")
  }

  predicate SaysFailed(v: Value) {
    Says(v, "fail") || Says(v, "error")
  }

  lemma StatusIff(v: Value)
    ensures StatusFromValue(v).None? <==> Unstated(v)
    ensures StatusFromValue(v) == Some(Pass) <==> Says(v, "pass")
    ensures StatusFromValue(v) == Some(Fail) <==> Says(v, "fail")
    ensures StatusFromValue(v) == Some(Error) <==> Says(v, "error")
    ensures StatusFromValue(v) == Some(Skip) <==> Says(v, "skip")
    ensures StatusFromValue(v) == Some(Na) <==> Says(v, "na")
    ensures StatusFromValue(v) == Some(Partial) <==> Says(v, "partial")
    ensures StatusFromValue(v).Some? && StatusFromValue(v).value.IsBlocking() <==> SaysFailed(v)
  {
    WordsDiffer();
    hide Lower, Strip;
  }

  lemma WordsDiffer()
    ensures "pass" != "fail" && "pass" != "skip" && "fail" != "skip" && "error" != "pass" && "partial" != "pass"
  {
    assert "pass"[0] == 'p' && "fail"[0] == 'f' && "skip"[0] == 's' && |"error"| == 5 && |"partial"| == 7;
  }

  lemma ShouldIff(v: Value)
    ensures IsShould(v) <==> Says(v, "should")
  {
  }

  // ----- Checks -----------------------------------------------------------------------------------

  /** A check that is absent, false, 3, or spells failure. */
  predicate SaysFail(v: Value) {
    match v
    case Missing => true
    case Flag(b) => !b
    case Number(r) => 3.0 <= r < 4.0
    case Digits(n) => n == 3
    case Text(_) => Shouts(v, "FAIL") || Shouts(v, "FAILED")
  }

  /** A check that is 1 or spells that there is nothing to grade against. */
  predicate SaysNa(v: Value) {
    match v
    case Number(r) => 1.0 <= r < 2.0
    case Digits(n) => n == 1
    case Text(_) => Shouts(v, "NA") || Shouts(v, "N/A")
    case _ => false
  }

  lemma NaIsNotFail(v: Value)
    ensures !(SaysNa(v) && SaysFail(v))
  {
    hide Upper, Strip;
    assert "FAIL" != "NA" && "FAIL" != "N/A" && "FAILED" != "NA" && "FAILED" != "N/A";
  }

  lemma TruncatesTo(r: real, n: nat)
    requires n > 0
    ensures Truncate(r) == n <==> n as real <= r < (n + 1) as real
  {
    if r < 0.0 {
      assert (-r).Floor >= 0;
    }
  }

  /** An eval without a status that its own test does not fail is graded by its accuracy check. */
  lemma EvalGradeIff(e: EvalData)
    ensures EvalGrade(e) in {Pass, Na, Fail}
    ensures EvalGrade(e) == Fail <==> e.success == Flag(false) || SaysFail(e.accuracyCheck)
    ensures EvalGrade(e) == Na <==> e.success != Flag(false) && SaysNa(e.accuracyCheck)
  {
    if e.accuracyCheck.Number? {
      TruncatesTo(e.accuracyCheck.r, 3);
      TruncatesTo(e.accuracyCheck.r, 1);
    }
    hide Upper, Strip, Truncate;
    assert "FAIL" != "NA" && "FAIL" != "N/A" && "FAILED" != "NA" && "FAILED" != "N/A";
  }

  /** The metric has a check in the tier, which failed, or grades a target that was never measured. */
  predicate CheckMissed(level: Level, metric: string) {
    metric + "_check" in level &&
    var v := level[metric + "_check"];
    SaysFail(v) || Shouts(v, "NA") || (SaysNa(v) && TargetIn(level, metric))
  }

  predicate TargetIn(level: Level, metric: string) {
    metric in level && level[metric].Number? && level[metric].r > 0.0
  }

  lemma MetricNames(metric: string)
    ensures IsCheck(metric + "_check") && MetricOf(metric + "_check") == metric
  {
    var name := metric + "_check";
    assert name[|name| - |CHECK_SUFFIX|..] == CHECK_SUFFIX;
  }

  lemma ChecksAreNamed(name: string)
    requires IsCheck(name)
    ensures name == MetricOf(name) + "_check"
  {
  }

  lemma CheckMissedIff(level: Level, metric: string)
    ensures IsCheck(metric + "_check") && MetricOf(metric + "_check") == metric
    ensures metric + "_check" in level ==> (HasTarget(level, metric + "_check") <==> TargetIn(level, metric))
    ensures metric + "_check" in level ==> (Missed(level, metric + "_check") <==> CheckMissed(level, metric))
  {
    MetricNames(metric);
    hide IsCheck, MetricOf;
    if metric + "_check" in level {
      PassesIff(level[metric + "_check"]);
      NaStateIff(level[metric + "_check"]);
    }
    hide SaysFail, SaysNa, Shouts, PassesCheck, StateOf;
  }

  lemma PassesIff(v: Value)
    ensures PassesCheck(v) <==> !SaysFail(v) && !Shouts(v, "NA")
  {
    if v.Number? {
      TruncatesTo(v.r, 3);
    }
    hide Upper, Strip, Truncate;
  }

  lemma NaStateIff(v: Value)
    ensures StateOf(v).StateNa? <==> v.Missing? || SaysNa(v)
  {
    if v.Number? {
      TruncatesTo(v.r, 3);
      TruncatesTo(v.r, 1);
    }
    hide Upper, Strip, Truncate;
    assert "FAIL" != "NA" && "FAIL" != "N/A" && "FAILED" != "NA" && "FAILED" != "N/A";
  }

  // ----- Known issues -----------------------------------------------------------------------------

  /** The text names the workflow, in any letter case, possibly as a member of an enumeration. */
  predicate NamesWorkflow(text: string, workflow: string) {
    Upper(text) == workflow || EndsWith(Upper(text), "." + workflow)
  }

  /** Some known issue excuses the task, or the whole workflow. */
  predicate Waives(issues: seq<Issue>, workflow: string, task: Option<string>) {
    exists i :: 0 <= i < |issues| && NamesWorkflow(issues[i].workflow, workflow)
                && (issues[i].task.None? || issues[i].task == task)
  }

  lemma NamesWorkflowIff(issue: Issue, workflow: string)
    requires '.' !in workflow
    ensures WorkflowName(issue) == workflow <==> NamesWorkflow(issue.workflow, workflow)
  {
    var text := issue.workflow;
    SplitAtLastShape(text, '.');
    match SplitAtLast(text, '.')
    case None => NoPrefix(text, workflow);
    case Some((left, name)) =>
      UpperDistributes(left + ['.'], name);
      UpperDistributes(left, ['.']);
      hide SplitAtLast;
      assert Upper(text) == Upper(left) + ['.'] + Upper(name);
      UpperKeepsDots(name);
      SuffixAfterDot(Upper(left), Upper(name), workflow);
  }

  lemma UpperDistributes(a: string, b: string)
    ensures Upper(a + b) == Upper(a) + Upper(b)
    ensures Upper(['.']) == ['.']
  {
  }

  lemma UpperKeepsDots(s: string)
    requires '.' !in s
    ensures '.' !in Upper(s)
  {
    forall i | 0 <= i < |s| ensures Upper(s)[i] != '.' {
      assert s[i] in s;
    }
  }

  lemma NoPrefix(text: string, workflow: string)
    requires '.' !in text
    ensures !EndsWith(Upper(text), "." + workflow)
  {
    UpperKeepsDots(text);
    var w := "." + workflow;
    if |w| <= |text| {
      assert Upper(text)[|text| - |w|..][0] == Upper(text)[|text| - |w|] && w[0] == '.';
    }
  }

  lemma SuffixAfterDot(left: string, name: string, workflow: string)
    requires '.' !in name && '.' !in workflow
    ensures left + ['.'] + name != workflow
    ensures EndsWith(left + ['.'] + name, "." + workflow) <==> name == workflow
  {
    var s, w := left + ['.'] + name, "." + workflow;
    assert s[|left|] == '.' && '.' in s;
    if |w| <= |s| {
      var at := |s| - |w|;
      assert w[0] == '.' && s[at..][0] == s[at];
      if at < |left| {
        assert s[at..][|left| - at] == '.' && w[|left| - at] == workflow[|left| - at - 1];
      } else if at == |left| {
        assert s[at..] == ['.'] + name && (['.'] + name)[1..] == name && w[1..] == workflow;
      } else {
        assert s[at] == name[at - |left| - 1];
      }
    }
  }

  lemma WaivesIff(issues: seq<Issue>, workflow: string, task: Option<string>)
    requires '.' !in workflow
    ensures FindWaiver(issues, workflow, task) <==> Waives(issues, workflow, task)
  {
    forall i | 0 <= i < |issues|
      ensures WorkflowName(issues[i]) == workflow <==> NamesWorkflow(issues[i].workflow, workflow)
    {
      NamesWorkflowIff(issues[i], workflow);
    }
    hide WorkflowName, NamesWorkflow;
  }

  // ----- Spec tests -------------------------------------------------------------------------------

  predicate FailsAs(row: CaseRow, testCase: string) {
    row.CaseRow? && row.failing && row.testCase == testCase
  }

  /** A known issue names the failing case, or every parametrization of it that failed. */
  ghost predicate CaseExcused(s: SpecData, testCase: string, issues: seq<Issue>) {
    || Waives(issues, "SPEC_TESTS", Some(testCase))
    || (&& Malformed !in s.details
        && (exists j :: 0 <= j < |s.details| && FailsAs(s.details[j], testCase))
        && forall j :: 0 <= j < |s.details| && FailsAs(s.details[j], testCase) ==>
             s.details[j].parametrization.Some? && Waives(issues, "SPEC_TESTS", s.details[j].parametrization))
  }

  ghost predicate SpecExcused(s: SpecData, issues: seq<Issue>) {
    || s.nonBlocking
    || Waives(issues, "SPEC_TESTS", None)
    || (&& Malformed !in s.cases
        && (exists i :: 0 <= i < |s.cases| && s.cases[i].CaseRow? && s.cases[i].failing)
        && forall i :: 0 <= i < |s.cases| && s.cases[i].CaseRow? && s.cases[i].failing ==>
             CaseExcused(s, s.cases[i].testCase, issues))
  }

  predicate SpecSaysFail(s: SpecData) {
    Says(s.status, "fail") || (Unstated(s.status) && !s.skipped && s.success != Flag(true))
  }

  lemma SpecStatusIff(s: SpecData)
    ensures SpecStatus(s) == Fail <==> SpecSaysFail(s)
    ensures SpecStatus(s) == Error <==> Says(s.status, "error")
    ensures SpecStatus(s) == Skip <==> Says(s.status, "skip") || (Unstated(s.status) && s.skipped)
    ensures SpecStatus(s) == Na <==> Says(s.status, "na")
  {
    StatusIff(s.status);
    hide StatusFromValue, Says;
  }

  lemma {:induction false} FailingNamesAre(rows: seq<CaseRow>, name: string)
    requires Malformed !in rows
    ensures name in FailingNames(rows)
       <==> exists i :: 0 <= i < |rows| && rows[i].CaseRow? && rows[i].failing && rows[i].testCase == name
  {
    if rows != [] {
      FailingNamesAre(rows[1..], name);
      assert rows[0] in rows;
      if i :| 0 <= i < |rows| && rows[i].CaseRow? && rows[i].failing && rows[i].testCase == name {
        assert i > 0 ==> rows[1..][i - 1] == rows[i];
      }
      if i :| 0 <= i < |rows[1..]| && rows[1..][i].CaseRow? && rows[1..][i].failing && rows[1..][i].testCase == name {
        assert rows[i + 1] == rows[1..][i];
      }
    }
  }

  lemma {:induction false} FailingRowsAre(rows: seq<CaseRow>, testCase: string, parametrization: Option<string>)
    requires Malformed !in rows
    ensures parametrization in FailingRows(rows, testCase)
       <==> exists i :: 0 <= i < |rows| && FailsAs(rows[i], testCase) && rows[i].parametrization == parametrization
  {
    if rows != [] {
      FailingRowsAre(rows[1..], testCase, parametrization);
      assert rows[0] in rows;
      if i :| 0 <= i < |rows| && FailsAs(rows[i], testCase) && rows[i].parametrization == parametrization {
        assert i > 0 ==> rows[1..][i - 1] == rows[i];
      }
      if i :| 0 <= i < |rows[1..]| && FailsAs(rows[1..][i], testCase)
              && rows[1..][i].parametrization == parametrization {
        assert rows[i + 1] == rows[1..][i];
      }
    }
  }

  /** All failing parametrizations are known, and named by a known issue. */
  ghost predicate AllNamed(failing: seq<Option<string>>, issues: seq<Issue>) {
    failing != [] && forall p :: p in failing ==> p.Some? && FindWaiver(issues, "SPEC_TESTS", p)
  }

  lemma ParametersNamed(rows: seq<CaseRow>, testCase: string, issues: seq<Issue>)
    requires Malformed !in rows
    ensures var parameters := FailingParametrizations(rows, testCase);
            (&& parameters.Some?
             && forall i :: 0 <= i < |parameters.value| ==> FindWaiver(issues, "SPEC_TESTS", Some(parameters.value[i])))
            <==> AllNamed(FailingRows(rows, testCase), issues)
  {
    hide FindWaiver, FailingRows;
    var failing := FailingRows(rows, testCase);
    if AllNamed(failing, issues) {
      assert forall i :: 0 <= i < |failing| ==> failing[i] in failing;
    }
    var parameters := FailingParametrizations(rows, testCase);
    if parameters.Some? && forall i :: 0 <= i < |parameters.value| ==>
         FindWaiver(issues, "SPEC_TESTS", Some(parameters.value[i])) {
      forall p | p in failing ensures p.Some? && FindWaiver(issues, "SPEC_TESTS", p) {
        var i :| 0 <= i < |failing| && failing[i] == p;
        assert Some(parameters.value[i]) == p;
      }
    }
  }

  lemma AllNamedIff(rows: seq<CaseRow>, testCase: string, issues: seq<Issue>)
    requires Malformed !in rows
    ensures AllNamed(FailingRows(rows, testCase), issues)
       <==> && (exists j :: 0 <= j < |rows| && FailsAs(rows[j], testCase))
            && forall j :: 0 <= j < |rows| && FailsAs(rows[j], testCase) ==>
                 rows[j].parametrization.Some? && Waives(issues, "SPEC_TESTS", rows[j].parametrization)
  {
    hide FindWaiver, Waives, FailingRows;
    var failing := FailingRows(rows, testCase);
    forall task ensures FindWaiver(issues, "SPEC_TESTS", task) <==> Waives(issues, "SPEC_TESTS", task) {
      WaivesIff(issues, "SPEC_TESTS", task);
    }
    forall p
      ensures p in failing
         <==> exists j :: 0 <= j < |rows| && FailsAs(rows[j], testCase) && rows[j].parametrization == p
    {
      FailingRowsAre(rows, testCase, p);
    }
    forall j | 0 <= j < |rows| && FailsAs(rows[j], testCase) ensures rows[j].parametrization in failing {}
    assert failing != [] ==> failing[0] in failing;
  }

  lemma CaseWaivedIff(s: SpecData, testCase: string, issues: seq<Issue>)
    ensures CaseWaived(s, testCase, issues) <==> CaseExcused(s, testCase, issues)
  {
    WaivesIff(issues, "SPEC_TESTS", Some(testCase));
    if Malformed !in s.details {
      ParametersNamed(s.details, testCase, issues);
      AllNamedIff(s.details, testCase, issues);
    }
    hide FindWaiver, Waives, FailingRows, AllNamed, FailsAs;
  }

  /** A failed spec test is waived iff its data and the known issues excuse it. */
  lemma SpecWaivedIff(s: SpecData, issues: seq<Issue>)
    ensures SpecWaived(s, issues) <==> SpecExcused(s, issues)
  {
    WaivesIff(issues, "SPEC_TESTS", None);
    hide FindWaiver, Waives;
    forall testCase ensures CaseWaived(s, testCase, issues) <==> CaseExcused(s, testCase, issues) {
      CaseWaivedIff(s, testCase, issues);
    }
    hide CaseWaived, CaseExcused;
    if Malformed !in s.cases {
      var failing := FailingNames(s.cases);
      forall name
        ensures name in failing
           <==> exists i ::
             0 <= i < |s.cases| && s.cases[i].CaseRow? && s.cases[i].failing && s.cases[i].testCase == name
      {
        FailingNamesAre(s.cases, name);
      }
      CasesByName(s, failing, issues);
    }
  }

  lemma CasesByName(s: SpecData, failing: seq<string>, issues: seq<Issue>)
    requires forall name :: name in failing <==> exists i ::
               0 <= i < |s.cases| && s.cases[i].CaseRow? && s.cases[i].failing && s.cases[i].testCase == name
    ensures failing != [] <==> exists i :: 0 <= i < |s.cases| && s.cases[i].CaseRow? && s.cases[i].failing
    ensures (forall k :: 0 <= k < |failing| ==> CaseExcused(s, failing[k], issues))
       <==> forall i :: 0 <= i < |s.cases| && s.cases[i].CaseRow? && s.cases[i].failing ==>
              CaseExcused(s, s.cases[i].testCase, issues)
  {
    hide CaseExcused;
    assert failing != [] ==> failing[0] in failing;
    forall i | 0 <= i < |s.cases| && s.cases[i].CaseRow? && s.cases[i].failing
      ensures s.cases[i].testCase in failing {}
    forall k | 0 <= k < |failing|
      ensures exists i ::
        0 <= i < |s.cases| && s.cases[i].CaseRow? && s.cases[i].failing && s.cases[i].testCase == failing[k]
    {
      assert failing[k] in failing;
    }
  }

  // ----- Evals ------------------------------------------------------------------------------------

  /** The eval, or the check beside it, says that it failed. */
  predicate EvalFails(e: EvalData) {
    SaysFailed(e.status) || (Unstated(e.status) && (e.success == Flag(false) || SaysFail(e.accuracyCheck)))
  }

  /** There was nothing to grade against. */
  predicate EvalIsNa(e: EvalData) {
    Says(e.status, "na") || (Unstated(e.status) && e.success != Flag(false) && SaysNa(e.accuracyCheck))
  }

  /** The eval was measured in full and passed, whatever the policy. */
  predicate EvalPasses(e: EvalData) {
    && !e.incomplete
    && (|| Says(e.status, "pass")
        || (Unstated(e.status) && e.success != Flag(false) && !SaysFail(e.accuracyCheck) && !SaysNa(e.accuracyCheck)))
  }

  /** Model status, priority or a known issue excuses a failure; an issue does not excuse a status. */
  predicate EvalExcused(e: EvalData, policy: Policy) {
    || !policy.evalsEnforced || Says(e.priority, "should")
    || (Unstated(e.status) && Waives(policy.issues, "EVALS", e.taskName))
  }

  /** What an eval contributes, read off its data and the policy. */
  lemma EvalByData(e: EvalData, key: string, policy: Policy)
    ensures var o := EvalOutcome(e, key, policy);
            var must, fails := !Says(e.priority, "should"), !e.incomplete && EvalFails(e);
            && o.blockers == (if e.incomplete || (fails && !EvalExcused(e, policy)) then {key}
                              else if Says(e.status, "partial") then {"partial:" + key} else {})
            && (o.waived <==> fails && EvalExcused(e, policy)) && (o.waivedMust <==> o.waived && must)
            && (o.na <==> !e.incomplete && EvalIsNa(e)) && (o.skipped <==> !e.incomplete && Says(e.status, "skip"))
            && (o.partial <==> !e.incomplete && Says(e.status, "partial"))
            && (o.ungradedMust <==> (o.na || o.skipped) && must)
            && o.total == 1 && o.failed == if e.incomplete || (fails && !EvalExcused(e, policy)) then 1 else 0
  {
    StatusIff(e.status);
    EvalGradeIff(e);
    ShouldIff(e.priority);
    WaivesIff(policy.issues, "EVALS", e.taskName);
    hide StatusFromValue, EvalGrade, IsShould, FindWaiver, SaysFail, SaysNa, Waives, Unstated, SaysFailed, Says;
    StatusExcludes(e.status);
  }

  /** A status says one thing. */
  lemma StatusExcludes(v: Value)
    ensures Unstated(v) ==> !SaysFailed(v) && !Says(v, "na") && !Says(v, "skip")
    ensures Unstated(v) ==> !Says(v, "partial") && !Says(v, "pass")
    ensures SaysFailed(v) ==> !Says(v, "na") && !Says(v, "skip") && !Says(v, "partial") && !Says(v, "pass")
    ensures Says(v, "na") ==> !Says(v, "skip") && !Says(v, "partial") && !Says(v, "pass")
    ensures Says(v, "skip") ==> !Says(v, "partial") && !Says(v, "pass")
    ensures Says(v, "partial") ==> !Says(v, "pass")
    ensures Says(v, "error") ==> !Says(v, "fail")
    ensures !Unstated(v) ==> SaysFailed(v) || Says(v, "na") || Says(v, "skip") || Says(v, "partial") || Says(v, "pass")
  {
    StatusIff(v);
    hide Says, StatusFromValue;
  }

  // ----- Benchmarks -------------------------------------------------------------------------------

  predicate IsTier(tier: string) {
    tier == "functional" || tier == "complete" || tier == "target"
  }

  predicate HasCheck(level: Level, metric: string) {
    metric + "_check" in level
  }

  ghost predicate TargetDeclared(b: BenchmarkData) {
    b.targetChecks.Some? && exists tier, metric ::
      tier in b.targetChecks.value && HasCheck(b.targetChecks.value[tier], metric)
      && TargetIn(b.targetChecks.value[tier], metric)
  }

  predicate RequestsFailed(b: BenchmarkData) {
    (b.numRequests.Number? && !(b.numRequests.r > 0.0)) || (b.errorRequests.Number? && b.errorRequests.r > 0.0)
  }

  /** The status is decisive; NA is not while a target is declared. */
  ghost predicate StatusSettles(b: BenchmarkData) {
    !Unstated(b.status) && !(Says(b.status, "na") && TargetDeclared(b))
  }

  ghost predicate HasChecks(b: BenchmarkData) {
    b.targetChecks.Some? && exists tier, metric ::
      IsTier(tier) && tier in b.targetChecks.value && HasCheck(b.targetChecks.value[tier], metric)
  }

  /** A miss of this metric does not block: its tier is not enforced, or the metric is optional. */
  predicate InformsOnly(b: BenchmarkData, tiers: set<string>, tier: string, metric: string) {
    tier !in tiers || (metric in b.metricPriorities && Says(b.metricPriorities[metric], "should"))
  }

  ghost predicate MissAt(b: BenchmarkData, tiers: set<string>, informational: bool, tier: string, metric: string)
    requires b.targetChecks.Some?
  {
    && IsTier(tier) && tier in b.targetChecks.value && CheckMissed(b.targetChecks.value[tier], metric)
    && InformsOnly(b, tiers, tier, metric) == informational
  }

  /** Some check missed its target, and the miss blocks (or only informs). */
  ghost predicate Misses(b: BenchmarkData, tiers: set<string>, informational: bool) {
    b.targetChecks.Some? && exists tier, metric :: MissAt(b, tiers, informational, tier, metric)
  }

  lemma MissedKeysAre(b: BenchmarkData, key: string, tiers: set<string>, tier: string, informational: bool, k: string)
    requires b.targetChecks.Some?
    ensures k in MissedKeys(b, key, tiers, tier, informational)
       <==> && tier in b.targetChecks.value
            && exists metric ::
              CheckMissed(b.targetChecks.value[tier], metric) && InformsOnly(b, tiers, tier, metric) == informational
              && k == key + "." + tier + "." + (metric + "_check")
  {
    if tier in b.targetChecks.value {
      var level := b.targetChecks.value[tier];
      forall metric
        ensures IsCheck(metric + "_check") && MetricOf(metric + "_check") == metric
        ensures metric + "_check" in level ==> (Missed(level, metric + "_check") <==> CheckMissed(level, metric))
      {
        CheckMissedIff(level, metric);
      }
      forall name | IsCheck(name) ensures name == MetricOf(name) + "_check" {
        ChecksAreNamed(name);
      }
      forall v ensures IsShould(v) <==> Says(v, "should") {}
      hide Missed, IsCheck, MetricOf, CheckMissed, IsShould, Says;
      if k in MissedKeys(b, key, tiers, tier, informational) {
        var name :| name in level && IsCheck(name) && Missed(level, name)
                    && Informational(b, tiers, tier, name) == informational && k == CheckKey(key, tier, name);
        assert CheckMissed(level, MetricOf(name));
      }
    }
  }

  lemma TargetDeclaredIff(b: BenchmarkData)
    ensures DeclaresTarget(b) <==> TargetDeclared(b)
  {
    if b.targetChecks.Some? {
      var checks := b.targetChecks.value;
      forall tier, metric | tier in checks
        ensures IsCheck(metric + "_check") && MetricOf(metric + "_check") == metric
        ensures metric + "_check" in checks[tier] ==>
                  (HasTarget(checks[tier], metric + "_check") <==> TargetIn(checks[tier], metric))
      {
        CheckMissedIff(checks[tier], metric);
      }
      forall name | IsCheck(name) ensures name == MetricOf(name) + "_check" {
        ChecksAreNamed(name);
      }
      hide IsCheck, MetricOf, HasTarget, TargetIn;
      if tier :| tier in checks
                 && exists name :: name in checks[tier] && IsCheck(name) && HasTarget(checks[tier], name) {
        var name :| name in checks[tier] && IsCheck(name) && HasTarget(checks[tier], name);
        assert HasCheck(checks[tier], MetricOf(name)) && TargetIn(checks[tier], MetricOf(name));
      }
      if tier, metric :| tier in checks && HasCheck(checks[tier], metric) && TargetIn(checks[tier], metric) {
        assert IsCheck(metric + "_check") && HasTarget(checks[tier], metric + "_check");
      }
    }
  }

  lemma HasChecksIff(b: BenchmarkData)
    requires b.targetChecks.Some?
    ensures AnyCheck(b.targetChecks.value) <==> HasChecks(b)
  {
    var checks := b.targetChecks.value;
    assert TARGET_LEVELS[0] == "functional" && TARGET_LEVELS[1] == "complete" && TARGET_LEVELS[2] == "target";
    forall metric ensures IsCheck(metric + "_check") {
      MetricNames(metric);
    }
    forall name | IsCheck(name) ensures name == MetricOf(name) + "_check" {
      ChecksAreNamed(name);
    }
    hide IsCheck, MetricOf;
    if t :| 0 <= t < |TARGET_LEVELS| && TARGET_LEVELS[t] in checks
            && exists name :: name in checks[TARGET_LEVELS[t]] && IsCheck(name) {
      var name :| name in checks[TARGET_LEVELS[t]] && IsCheck(name);
      assert IsTier(TARGET_LEVELS[t]) && HasCheck(checks[TARGET_LEVELS[t]], MetricOf(name));
    }
    if tier, metric :| IsTier(tier) && tier in checks && HasCheck(checks[tier], metric) {
      var t := if tier == "functional" then 0 else if tier == "complete" then 1 else 2;
      assert TARGET_LEVELS[t] == tier && IsCheck(metric + "_check");
    }
  }

  /** The missed checks of a benchmark, by key; without any check that itself is held against it. */
  ghost predicate GradedUnder(b: BenchmarkData, key: string, tiers: set<string>, informational: bool, k: string) {
    || (b.targetChecks.Some? && exists tier, metric ::
          MissAt(b, tiers, informational, tier, metric) && k == key + "." + tier + "." + (metric + "_check"))
    || (!informational && !HasChecks(b) && k == key + ".target_checks")
  }

  lemma GradedKeysAre(b: BenchmarkData, key: string, tiers: set<string>, informational: bool, k: string)
    ensures k in GradedKeys(b, key, tiers, informational) <==> GradedUnder(b, key, tiers, informational, k)
  {
    if b.targetChecks.Some? {
      HasChecksIff(b);
      MissedKeysAre(b, key, tiers, "functional", informational, k);
      MissedKeysAre(b, key, tiers, "complete", informational, k);
      MissedKeysAre(b, key, tiers, "target", informational, k);
      hide MissedKeys, AnyCheck, HasChecks, CheckMissed, InformsOnly;
      MissesByTier(b, key, tiers, informational, k);
    }
  }

  lemma MissesByTier(b: BenchmarkData, key: string, tiers: set<string>, informational: bool, k: string)
    requires b.targetChecks.Some?
    ensures (exists tier, metric ::
               MissAt(b, tiers, informational, tier, metric) && k == key + "." + tier + "." + (metric + "_check"))
       <==> || MissesIn(b, key, tiers, informational, "functional", k)
            || MissesIn(b, key, tiers, informational, "complete", k)
            || MissesIn(b, key, tiers, informational, "target", k)
  {
    hide CheckMissed, InformsOnly;
  }

  ghost predicate MissesIn(
      b: BenchmarkData, key: string, tiers: set<string>, informational: bool, tier: string, k: string)
    requires b.targetChecks.Some?
  {
    tier in b.targetChecks.value && exists metric ::
      CheckMissed(b.targetChecks.value[tier], metric) && InformsOnly(b, tiers, tier, metric) == informational
      && k == key + "." + tier + "." + (metric + "_check")
  }

  lemma GradedKeysIff(b: BenchmarkData, key: string, tiers: set<string>)
    ensures GradedKeys(b, key, tiers, true) != {} <==> Misses(b, tiers, true)
    ensures GradedKeys(b, key, tiers, false) != {} <==> !HasChecks(b) || Misses(b, tiers, false)
  {
    forall k, informational
      ensures k in GradedKeys(b, key, tiers, informational) <==> GradedUnder(b, key, tiers, informational, k)
    {
      GradedKeysAre(b, key, tiers, informational, k);
    }
    hide GradedKeys, HasChecks, MissAt;
    GradedSomewhere(b, key, tiers, true);
    GradedSomewhere(b, key, tiers, false);
    hide GradedUnder, Misses;
  }

  lemma GradedSomewhere(b: BenchmarkData, key: string, tiers: set<string>, informational: bool)
    ensures (exists k :: GradedUnder(b, key, tiers, informational, k))
       <==> Misses(b, tiers, informational) || (!informational && !HasChecks(b))
  {
    hide HasChecks, MissAt;
    if Misses(b, tiers, informational) {
      var tier, metric :| MissAt(b, tiers, informational, tier, metric);
      assert GradedUnder(b, key, tiers, informational, key + "." + tier + "." + (metric + "_check"));
    }
    if !informational && !HasChecks(b) {
      assert GradedUnder(b, key, tiers, informational, key + ".target_checks");
    }
  }

  /** No status and no failed request settles the benchmark before its checks are read. */
  ghost predicate GradedByChecks(b: BenchmarkData) {
    !Says(b.status, "skip") && !RequestsFailed(b) && !StatusSettles(b)
  }

  /** Something is held against the benchmark that its priority alone may excuse. */
  ghost predicate BenchmarkFails(b: BenchmarkData, tiers: set<string>) {
    !Says(b.status, "skip") &&
    (|| RequestsFailed(b)
     || (if StatusSettles(b) then SaysFailed(b.status) else !HasChecks(b) || Misses(b, tiers, false)))
  }

  /** What is held against the benchmark, by key. */
  ghost predicate HeldUnder(b: BenchmarkData, key: string, tiers: set<string>, k: string) {
    !Says(b.status, "skip") &&
    if RequestsFailed(b) then k == key + ".requests"
    else if StatusSettles(b) then SaysFailed(b.status) && k == key
    else GradedUnder(b, key, tiers, false, k)
  }

  function Held(b: BenchmarkData, key: string, tiers: set<string>): set<string> {
    if StatusFromValue(b.status) == Some(Skip) then {}
    else if RequestFailure(b) then {key + ".requests"}
    else
      match DecidingStatus(b)
      case Some(status) => if status.IsBlocking() then {key} else {}
      case None => GradedKeys(b, key, tiers, false)
  }

  lemma HeldAre(b: BenchmarkData, key: string, tiers: set<string>, k: string)
    ensures k in Held(b, key, tiers) <==> HeldUnder(b, key, tiers, k)
  {
    StatusIff(b.status);
    StatusExcludes(b.status);
    TargetDeclaredIff(b);
    GradedKeysAre(b, key, tiers, false, k);
    hide GradedKeys, GradedUnder, DeclaresTarget, TargetDeclared, StatusFromValue, Says, Unstated, SaysFailed;
  }

  lemma OutcomeHolds(b: BenchmarkData, key: string, tiers: set<string>)
    ensures var o, held := BenchmarkOutcome(b, key, tiers), Held(b, key, tiers);
            var byChecks := StatusFromValue(b.status) != Some(Skip) && !RequestFailure(b) && DecidingStatus(b).None?;
            && o.blockers == (if IsShould(b.priority) then {} else held)
            && (o.waived <==>
                  (IsShould(b.priority) && held != {}) || (byChecks && GradedKeys(b, key, tiers, true) != {}))
            && (o.skipped <==> StatusFromValue(b.status) == Some(Skip))
            && (o.na <==>
                  StatusFromValue(b.status) != Some(Skip) && !RequestFailure(b) && DecidingStatus(b) == Some(Na))
            && !o.waivedMust && !o.ungradedMust && !o.partial
            && o.total == 1 && o.failed == if o.blockers != {} then 1 else 0
  {
    hide GradedKeys, StatusFromValue, IsShould, RequestFailure, DecidingStatus;
  }

  lemma SettledIff(b: BenchmarkData)
    ensures DecidingStatus(b).None? <==> !StatusSettles(b)
    ensures DecidingStatus(b) == Some(Na) <==> StatusSettles(b) && Says(b.status, "na")
    ensures RequestFailure(b) <==> RequestsFailed(b)
  {
    StatusIff(b.status);
    StatusExcludes(b.status);
    TargetDeclaredIff(b);
    hide DeclaresTarget, TargetDeclared, StatusFromValue, Says, Unstated;
  }

  /** What a benchmark contributes, read off its data and the enforced tiers. */
  lemma BenchmarkByData(b: BenchmarkData, key: string, tiers: set<string>)
    ensures var o := BenchmarkOutcome(b, key, tiers);
            var should := Says(b.priority, "should");
            && (forall k :: k in o.blockers <==> !should && HeldUnder(b, key, tiers, k))
            && (o.waived <==> (should && BenchmarkFails(b, tiers)) || (GradedByChecks(b) && Misses(b, tiers, true)))
            && (o.blockers != {} <==> !should && BenchmarkFails(b, tiers))
            && (o.skipped <==> Says(b.status, "skip"))
            && (o.na <==> !RequestsFailed(b) && StatusSettles(b) && Says(b.status, "na"))
            && !o.waivedMust && !o.ungradedMust && !o.partial
            && o.total == 1 && o.failed == if o.blockers != {} then 1 else 0
  {
    StatusIff(b.status);
    StatusExcludes(b.status);
    ShouldIff(b.priority);
    SettledIff(b);
    GradedKeysIff(b, key, tiers);
    OutcomeHolds(b, key, tiers);
    forall k ensures k in Held(b, key, tiers) <==> HeldUnder(b, key, tiers, k) {
      HeldAre(b, key, tiers, k);
    }
    hide BenchmarkOutcome, Held, HeldUnder, GradedKeys, StatusFromValue, IsShould, Says, Unstated, SaysFailed, Misses,
         RequestFailure, RequestsFailed, DecidingStatus, StatusSettles;
    SomeHeld(b, key, tiers);
  }

  lemma SomeHeld(b: BenchmarkData, key: string, tiers: set<string>)
    requires forall k :: k in Held(b, key, tiers) <==> HeldUnder(b, key, tiers, k)
    ensures Held(b, key, tiers) != {} <==> BenchmarkFails(b, tiers)
  {
    GradedSomewhere(b, key, tiers, false);
    hide Held, GradedUnder, Misses, HasChecks, StatusSettles, RequestsFailed, Says, SaysFailed;
    if BenchmarkFails(b, tiers) {
      if RequestsFailed(b) {
        assert HeldUnder(b, key, tiers, key + ".requests");
      } else if StatusSettles(b) {
        assert HeldUnder(b, key, tiers, key);
      } else {
        var k :| GradedUnder(b, key, tiers, false, k);
        assert HeldUnder(b, key, tiers, k);
      }
    } else {
      forall k ensures !HeldUnder(b, key, tiers, k) {}
    }
  }

  // ----- Spec tests and agentic points ------------------------------------------------------------

  /** What a spec test contributes, read off its data and the known issues. */
  lemma SpecByData(s: SpecData, key: string, issues: seq<Issue>)
    ensures var o := SpecOutcome(s, key, issues);
            var blocks := Says(s.status, "error") || (SpecSaysFail(s) && !SpecExcused(s, issues));
            && o.blockers == (if blocks then {"spec." + key} else {})
            && (o.waived <==> SpecSaysFail(s) && SpecExcused(s, issues))
            && (o.skipped <==> Says(s.status, "skip") || (Unstated(s.status) && s.skipped))
            && (o.na <==> Says(s.status, "na"))
            && !o.waivedMust && !o.ungradedMust && !o.partial && o.total == 1 && o.failed == if blocks then 1 else 0
  {
    SpecStatusIff(s);
    SpecWaivedIff(s, issues);
    StatusExcludes(s.status);
    hide SpecStatus, SpecWaived, SpecExcused, Says, Unstated, SpecSaysFail;
  }

  /** The points with that verdict. */
  function PointsWith(points: seq<SweepPoint>, passed: Option<bool>): set<int> {
    set i | 0 <= i < |points| && points[i].passed == passed
  }

  lemma {:induction false} PointsCounted(points: seq<SweepPoint>, passed: Option<bool>)
    ensures CountPoints(points, passed) == |PointsWith(points, passed)|
  {
    if points == [] {
      assert PointsWith(points, passed) == {};
    } else {
      var n := |points| - 1;
      PointsCounted(points[..n], passed);
      var before, after := PointsWith(points[..n], passed), PointsWith(points, passed);
      assert forall i :: i in after <==> i in before || (i == n && points[n].passed == passed);
      hide PointsWith;
      assert n !in before;
      assert after == before + if points[n].passed == passed then {n} else {};
    }
  }

  /** What an agentic block contributes: its measured points count, and each failed or missing one blocks. */
  lemma AgenticByData(a: AgenticData, key: string)
    ensures var o := AgenticOutcome(a, key);
            && (forall k :: k in o.blockers <==>
                  || (a.missing && k == key + ".missing")
                  || exists i ::
                    && 0 <= i < |a.points| && a.points[i].passed == Some(false)
                    && k == key + ".c" + a.points[i].concurrency)
            && (o.blockers != {} <==>
                  a.missing || exists i :: 0 <= i < |a.points| && a.points[i].passed == Some(false))
            && o.failed == |PointsWith(a.points, Some(false))|
            && o.total == o.failed + |PointsWith(a.points, Some(true))|
            && !o.waived && !o.waivedMust && !o.ungradedMust && !o.na && !o.skipped && !o.partial
  {
    PointsCounted(a.points, Some(false));
    PointsCounted(a.points, Some(true));
    hide CountPoints;
    if i :| 0 <= i < |a.points| && a.points[i].passed == Some(false) {
      assert key + ".c" + a.points[i].concurrency in AgenticKeys(a, key);
    }
    assert a.missing ==> key + ".missing" in AgenticKeys(a, key);
  }
}
