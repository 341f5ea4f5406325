/** The scalar checks and the per-block verdicts of report_module/acceptance_criteria.py and
    report_module/status.py. Messages are left out: a blocker or waiver is its key. */
module Grading {
  import opened Wrappers
  import opened PyStrings

  datatype TestStatus = Pass | Fail | Error | Skip | Na | Partial {
    predicate IsBlocking() {
      this == Fail || this == Error
    }
  }

  /** A scalar of a report. `Digits` is a text that Python's `int` reads as that number. */
  datatype Value = Missing | Flag(b: bool) | Number(r: real) | Digits(n: int) | Text(s: string)

  /** `TestStatus.from_value` */
  function StatusFromValue(v: Value): Option<TestStatus> {
    if !v.Text? then None
    else
      var name := Lower(Strip(v.s, IsSpace));
      if name == "pass" then Some(Pass)
      else if name == "fail" then Some(Fail)
      else if name == "error" then Some(Error)
      else if name == "skip" then Some(Skip)
      else if name == "na" then Some(Na)
      else if name == "partial" then Some(Partial)
      else None
  }

  function Truncate(r: real): int {
    if r >= 0.0 then r.Floor else -((-r).Floor)
  }

  /** `int(v)`, None where it raises; booleans are handled before. */
  function AsInt(v: Value): Option<int> {
    match v
    case Number(r) => Some(Truncate(r))
    case Digits(n) => Some(n)
    case _ => None
  }

  const NA_CHECK := 1
  const FAIL_CHECK := 3

  datatype CheckState = StatePass | StateFail | StateNa

  function StateOf(v: Value): CheckState {
    match v
    case Missing => StateNa
    case Flag(b) => if b then StatePass else StateFail
    case Text(s) =>
      var text := Upper(Strip(s, IsSpace));
      if text == "FAIL" || text == "FAILED" then StateFail
      else if text == "NA" || text == "N/A" then StateNa
      else StatePass
    case _ =>
      var n := AsInt(v).value;
      if n == FAIL_CHECK then StateFail else if n == NA_CHECK then StateNa else StatePass
  }

  predicate PassesCheck(v: Value) {
    match v
    case Missing => false
    case Flag(b) => b
    case Text(s) => Upper(Strip(s, IsSpace)) !in {"FAIL", "FAILED", "NA"}
    case _ => AsInt(v).value != FAIL_CHECK
  }

  const CHECK_SUFFIX := "_check"

  type Level = map<string, Value>

  predicate IsCheck(name: string) {
    EndsWith(name, CHECK_SUFFIX)
  }

  function MetricOf(name: string): string
    requires IsCheck(name)
  {
    name[..|name| - |CHECK_SUFFIX|]
  }

  predicate HasTarget(level: Level, name: string)
    requires IsCheck(name)
  {
    MetricOf(name) in level && level[MetricOf(name)].Number? && level[MetricOf(name)].r > 0.0
  }

  /** The check failed, or grades a target that was never measured. */
  predicate Missed(level: Level, name: string)
    requires IsCheck(name) && name in level
  {
    (HasTarget(level, name) && StateOf(level[name]).StateNa?) || !PassesCheck(level[name])
  }

  const SHOULD := "should"

  predicate IsShould(v: Value) {
    v.Text? && Lower(Strip(v.s, IsSpace)) == SHOULD
  }

  // ----- Blocks ---------------------------------------------------------------------------------

  /** What grading reads of a benchmark block's data; nested members are already resolved. Entries
      of `targetChecks` that are not mappings are absent, as grading skips them. */
  datatype BenchmarkData = BenchmarkData(
    status: Value, priority: Value, numRequests: Value, errorRequests: Value,
    targetChecks: Option<map<string, Level>>, metricPriorities: map<string, Value>, dimensions: string)

  datatype EvalData = EvalData(
    status: Value, priority: Value, incomplete: bool, success: Value, accuracyCheck: Value, taskName: Option<string>)

  /** A row of a spec test's case table; `Malformed` is not a mapping or names no case. */
  datatype CaseRow = Malformed | CaseRow(testCase: string, failing: bool, parametrization: Option<string>)

  datatype SpecData = SpecData(
    status: Value, success: Value, skipped: bool, nonBlocking: bool, cases: seq<CaseRow>, details: seq<CaseRow>)

  /** One measured concurrency; `passed` is None where nothing was declared. */
  datatype SweepPoint = SweepPoint(concurrency: string, passed: Option<bool>)

  datatype AgenticData = AgenticData(points: seq<SweepPoint>, missing: bool)

  datatype Content =
    | Benchmark(benchmark: BenchmarkData)
    | Eval(eval: EvalData)
    | Spec(taskType: string, spec: Option<SpecData>)   // None: data is not a mapping
    | Agentic(agentic: Option<AgenticData>)
    | Other(kind: string)

  /** The delivery stage a block is tagged with; a name that is missing is empty. */
  datatype Stage = Stage(key: string, name: string, position: int)

  datatype Block = Block(title: string, stage: Option<Stage>, content: Content) {
    function Kind(): string {
      match content
      case Benchmark(_) => "benchmarks"
      case Eval(_) => "evals"
      case Spec(_, _) => "spec_tests"
      case Agentic(_) => "agentic_traces_targets"
      case Other(kind) => kind
    }

    function Key(): string {
      if title == "" then Kind() else Kind() + ":" + title
    }
  }

  // ----- Policy ---------------------------------------------------------------------------------

  datatype Issue = Issue(workflow: string, task: Option<string>)

  datatype Policy = Policy(issues: seq<Issue>, tiers: set<string>, evalsEnforced: bool)

  const TARGET_LEVELS := ["functional", "complete", "target"]

  /** The policy a model status stands for; a missing or unknown status enforces everything. */
  function PolicyOf(issues: seq<Issue>, status: string): Policy {
    if status == "EXPERIMENTAL" then Policy(issues, {}, false)
    else if status == "FUNCTIONAL" then Policy(issues, {"functional"}, true)
    else if status == "COMPLETE" then Policy(issues, {"functional", "complete"}, true)
    else Policy(issues, {"functional", "complete", "target"}, true)
  }

  function WorkflowName(issue: Issue): string {
    match SplitAtLast(issue.workflow, '.')
    case None => Upper(issue.workflow)
    case Some((_, name)) => Upper(name)
  }

  /** Whether some issue waives the task; an issue without a task waives the whole workflow. */
  predicate FindWaiver(issues: seq<Issue>, workflow: string, task: Option<string>) {
    exists i :: 0 <= i < |issues| && WorkflowName(issues[i]) == workflow
                && (issues[i].task.None? || issues[i].task == task)
  }

  // ----- Verdicts -------------------------------------------------------------------------------

  /** What one block contributes to its category. */
  datatype Outcome = Outcome(
    blockers: set<string>, waived: bool, waivedMust: bool, ungradedMust: bool,
    total: nat, failed: nat, na: bool, skipped: bool, partial: bool)

  const PASSED := Outcome({}, false, false, false, 1, 0, false, false, false)

  predicate RequestFailure(b: BenchmarkData) {
    (b.numRequests.Number? && b.numRequests.r <= 0.0) || (b.errorRequests.Number? && b.errorRequests.r > 0.0)
  }

  predicate DeclaresTarget(b: BenchmarkData) {
    b.targetChecks.Some? &&
    exists tier :: tier in b.targetChecks.value &&
      exists name :: name in b.targetChecks.value[tier] && IsCheck(name) && HasTarget(b.targetChecks.value[tier], name)
  }

  /** The status that short-circuits grading: NA does not while a target is declared. */
  function DecidingStatus(b: BenchmarkData): Option<TestStatus> {
    var explicit := StatusFromValue(b.status);
    if explicit == Some(Na) && DeclaresTarget(b) then None else explicit
  }

  function CheckKey(key: string, tier: string, name: string): string {
    key + "." + tier + "." + name
  }

  /** A missed check of this tier is informational only. */
  predicate Informational(b: BenchmarkData, tiers: set<string>, tier: string, name: string)
    requires IsCheck(name)
  {
    tier !in tiers || (MetricOf(name) in b.metricPriorities && IsShould(b.metricPriorities[MetricOf(name)]))
  }

  /** Keys of the missed checks of one tier, split by whether they block. */
  function MissedKeys(b: BenchmarkData, key: string, tiers: set<string>, tier: string, informational: bool): set<string>
    requires b.targetChecks.Some?
  {
    var checks := b.targetChecks.value;
    if tier !in checks then {} else
      set name | name in checks[tier] && IsCheck(name) && Missed(checks[tier], name)
                 && Informational(b, tiers, tier, name) == informational :: CheckKey(key, tier, name)
  }

  predicate AnyCheck(checks: map<string, Level>) {
    exists t :: 0 <= t < |TARGET_LEVELS| && TARGET_LEVELS[t] in checks
                && exists name :: name in checks[TARGET_LEVELS[t]] && IsCheck(name)
  }

  function GradedKeys(b: BenchmarkData, key: string, tiers: set<string>, informational: bool): set<string> {
    if b.targetChecks.None? then
      if informational then {} else {key + ".target_checks"}
    else
      MissedKeys(b, key, tiers, "functional", informational)
      + MissedKeys(b, key, tiers, "complete", informational)
      + MissedKeys(b, key, tiers, "target", informational)
      + (if !informational && !AnyCheck(b.targetChecks.value) then {key + ".target_checks"} else {})
  }

  function BenchmarkOutcome(b: BenchmarkData, key: string, tiers: set<string>): Outcome {
    var should := IsShould(b.priority);
    if StatusFromValue(b.status) == Some(Skip) then PASSED.(skipped := true)
    else if RequestFailure(b) then
      if should then PASSED.(waived := true) else PASSED.(blockers := {key + ".requests"}, failed := 1)
    else
      match DecidingStatus(b)
      case Some(status) =>
        if status.IsBlocking() && should then PASSED.(waived := true)
        else if status.IsBlocking() then PASSED.(blockers := {key}, failed := 1)
        else if status.Na? then PASSED.(na := true)
        else PASSED
      case None =>
        var blocking, informational := GradedKeys(b, key, tiers, false), GradedKeys(b, key, tiers, true);
        if should then PASSED.(waived := blocking + informational != {})
        else PASSED.(blockers := blocking, failed := if blocking != {} then 1 else 0, waived := informational != {})
  }

  /** A failing eval with no status of its own, or with one, under the policy. */
  function WaivedEval(must: bool): Outcome {
    PASSED.(waived := true, waivedMust := must)
  }

  /** What the eval itself says, before any policy: `Some(Fail)` also for a missing check. */
  function EvalGrade(e: EvalData): TestStatus {
    if e.success == Flag(false) then Fail
    else if e.accuracyCheck.Missing? then Fail
    else
      match StateOf(e.accuracyCheck)
      case StateFail => Fail
      case StateNa => Na
      case StatePass => Pass
  }

  const PARTIAL_PREFIX := "partial:"

  function EvalOutcome(e: EvalData, key: string, policy: Policy): Outcome {
    var must := !IsShould(e.priority);
    if e.incomplete then PASSED.(blockers := {key}, failed := 1)
    else
      match StatusFromValue(e.status)
      case Some(status) =>
        (match status
         case Fail | Error =>
           if !policy.evalsEnforced then WaivedEval(must)
           else if !must then WaivedEval(false)
           else PASSED.(blockers := {key}, failed := 1)
         case Partial => PASSED.(blockers := {PARTIAL_PREFIX + key}, partial := true)
         case Skip => PASSED.(skipped := true, ungradedMust := must)
         case Na => PASSED.(na := true, ungradedMust := must)
         case Pass => PASSED)
      case None =>
        match EvalGrade(e)
        case Pass => PASSED
        case Na => PASSED.(na := true, ungradedMust := must)
        case _ =>
          if FindWaiver(policy.issues, "EVALS", e.taskName) || !policy.evalsEnforced then WaivedEval(must)
          else if !must then WaivedEval(false)
          else PASSED.(blockers := {key}, failed := 1)
  }

  /** `_block_test_status`: an explicit status, else the legacy fields. */
  function SpecStatus(s: SpecData): TestStatus {
    match StatusFromValue(s.status)
    case Some(status) => status
    case None => if s.skipped then Skip else if s.success == Flag(true) then Pass else Fail
  }

  /** The failing cases a spec block reports, None without a usable breakdown. */
  function FailingCases(rows: seq<CaseRow>): Option<seq<string>> {
    if rows == [] || Malformed in rows then None else Some(FailingNames(rows))
  }

  function FailingNames(rows: seq<CaseRow>): seq<string>
    requires Malformed !in rows
  {
    if rows == [] then []
    else (if rows[0].failing then [rows[0].testCase] else []) + FailingNames(rows[1..])
  }

  /** The failing parametrizations of one case, None unless all of them are named. */
  function FailingParametrizations(rows: seq<CaseRow>, testCase: string): Option<seq<string>> {
    if Malformed in rows then None
    else
      var failing := FailingRows(rows, testCase);
      if failing == [] || exists i :: 0 <= i < |failing| && failing[i].None? then None
      else Some(seq(|failing|, i requires 0 <= i < |failing| => failing[i].value))
  }

  function FailingRows(rows: seq<CaseRow>, testCase: string): seq<Option<string>>
    requires Malformed !in rows
  {
    if rows == [] then []
    else
      (if rows[0].testCase == testCase && rows[0].failing then [rows[0].parametrization] else [])
      + FailingRows(rows[1..], testCase)
  }

  predicate CaseWaived(s: SpecData, testCase: string, issues: seq<Issue>) {
    || FindWaiver(issues, "SPEC_TESTS", Some(testCase))
    || (var parameters := FailingParametrizations(s.details, testCase);
        parameters.Some? &&
        forall i :: 0 <= i < |parameters.value| ==> FindWaiver(issues, "SPEC_TESTS", Some(parameters.value[i])))
  }

  predicate SpecWaived(s: SpecData, issues: seq<Issue>) {
    || s.nonBlocking
    || FindWaiver(issues, "SPEC_TESTS", None)
    || (var failing := FailingCases(s.cases);
        failing.Some? && failing.value != [] &&
        forall i :: 0 <= i < |failing.value| ==> CaseWaived(s, failing.value[i], issues))
  }

  function SpecOutcome(s: SpecData, key: string, issues: seq<Issue>): Outcome {
    match SpecStatus(s)
    case Fail =>
      if SpecWaived(s, issues) then PASSED.(waived := true)
      else PASSED.(blockers := {"spec." + key}, failed := 1)
    case Error => PASSED.(blockers := {"spec." + key}, failed := 1)
    case Skip => PASSED.(skipped := true)
    case Na => PASSED.(na := true)
    case _ => PASSED
  }

  function AgenticKeys(a: AgenticData, key: string): set<string> {
    (set i | 0 <= i < |a.points| && a.points[i].passed == Some(false) :: key + ".c" + a.points[i].concurrency)
    + (if a.missing then {key + ".missing"} else {})
  }

  function CountPoints(points: seq<SweepPoint>, passed: Option<bool>): nat {
    if points == [] then 0
    else CountPoints(points[..|points| - 1], passed) + if points[|points| - 1].passed == passed then 1 else 0
  }

  /** An agentic block counts by point: points without targets stay out of the count. */
  function AgenticOutcome(a: AgenticData, key: string): Outcome {
    var failed := CountPoints(a.points, Some(false));
    PASSED.(blockers := AgenticKeys(a, key), total := failed + CountPoints(a.points, Some(true)), failed := failed)
  }
}
