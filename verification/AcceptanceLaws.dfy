/** report_module/acceptance_criteria.py: what holds of every report under every policy. */
module AcceptanceLaws {
  import opened Wrappers
  import opened PyStrings
  import opened Grading
  import opened Acceptance
  import opened ReportData

  // ----- The strict verdict ---------------------------------------------------------------------

  predicate MustEval(block: Block) {
    block.content.Eval? && !Says(block.content.eval.priority, "should")
  }

  ghost predicate MustEvalsPass(sections: seq<Block>) {
    forall i :: 0 <= i < |sections| && MustEval(sections[i]) ==> EvalPasses(sections[i].content.eval)
  }

  /** A must-eval that did not pass blocks, or is waived, or is left ungraded; it never silently passes. */
  lemma EvalAccounted(e: EvalData, key: string, policy: Policy)
    ensures var o := EvalOutcome(e, key, policy);
            && (!Says(e.priority, "should") ==>
                  (EvalPasses(e) <==> o.blockers == {} && !o.waivedMust && !o.ungradedMust))
            && (Says(e.priority, "should") ==> !o.waivedMust && !o.ungradedMust)
  {
    EvalByData(e, key, policy);
    StatusExcludes(e.status);
    NaIsNotFail(e.accuracyCheck);
    hide EvalOutcome, Says, SaysFailed, Unstated, SaysFail, SaysNa, Waives;
  }

  lemma {:induction false} TallyMustFlags(sections: seq<Block>, n: nat, policy: Policy)
    requires n <= |sections|
    ensures Tally(sections, n, Evals, policy).waivedMust == {} && Tally(sections, n, Evals, policy).ungradedMust == {}
       <==> forall i :: 0 <= i < n && sections[i].content.Eval? ==>
              !OutcomeAt(sections, i, policy).waivedMust && !OutcomeAt(sections, i, policy).ungradedMust
  {
    hide OutcomeAt;
    if n > 0 {
      TallyMustFlags(sections, n - 1, policy);
    }
  }

  lemma MustEvalAt(sections: seq<Block>, i: nat, policy: Policy)
    requires i < |sections| && sections[i].content.Eval?
    ensures var o := OutcomeAt(sections, i, policy);
            && (MustEval(sections[i]) ==>
                  (EvalPasses(sections[i].content.eval) <==> o.blockers == {} && !o.waivedMust && !o.ungradedMust))
            && (!MustEval(sections[i]) ==> !o.waivedMust && !o.ungradedMust)
  {
    EvalAccounted(sections[i].content.eval, sections[i].Key(), policy);
    hide EvalOutcome, EvalPasses;
  }

  lemma NoBlockers(sections: seq<Block>, policy: Policy)
    ensures Accepted(sections, policy) <==> forall i :: 0 <= i < |sections| ==>
              OutcomeAt(sections, i, policy).blockers == {}
  {
    hide OutcomeAt, Blockers;
    if Accepted(sections, policy) {
      forall i, key | 0 <= i < |sections| && key in OutcomeAt(sections, i, policy).blockers ensures false {
        BlockersByBlock(sections, policy, key);
      }
    } else {
      var key :| key in Blockers(sections, policy);
      BlockersByBlock(sections, policy, key);
    }
  }

  /** The strict verdict is exact: acceptance with every must-eval graded PASS. */
  lemma StrictPassIff(sections: seq<Block>, policy: Policy)
    ensures StrictPass(sections, policy) <==> Accepted(sections, policy) && MustEvalsPass(sections)
  {
    hide OutcomeAt, Tally, Blockers, EvalPasses;
    TallyMustFlags(sections, |sections|, policy);
    NoBlockers(sections, policy);
    forall i | 0 <= i < |sections| && sections[i].content.Eval?
      ensures var o := OutcomeAt(sections, i, policy);
              && (MustEval(sections[i]) ==>
                    (EvalPasses(sections[i].content.eval) <==> o.blockers == {} && !o.waivedMust && !o.ungradedMust))
              && (!MustEval(sections[i]) ==> !o.waivedMust && !o.ungradedMust)
    {
      MustEvalAt(sections, i, policy);
    }
  }

  /** A report with a must-eval that failed, or was not measured in full, and that nothing excuses is
      refused under that eval's key. */
  lemma FailedEvalRefuses(sections: seq<Block>, i: nat, policy: Policy)
    requires i < |sections| && sections[i].content.Eval?
    requires var e := sections[i].content.eval; e.incomplete || (EvalFails(e) && !EvalExcused(e, policy))
    ensures sections[i].Key() in Blockers(sections, policy) && !Accepted(sections, policy)
  {
    EvalByData(sections[i].content.eval, sections[i].Key(), policy);
    hide EvalOutcome, EvalFails, EvalExcused, Blockers, Says;
    assert sections[i].Key() in OutcomeAt(sections, i, policy).blockers;
    hide OutcomeAt;
    BlockersByBlock(sections, policy, sections[i].Key());
  }

  /** The policies differ at most in how they treat evals. */
  ghost predicate AgreeOutsideEvals(p: Policy, q: Policy) {
    && p.tiers == q.tiers
    && forall task :: Waives(p.issues, "SPEC_TESTS", task) == Waives(q.issues, "SPEC_TESTS", task)
  }

  lemma SameCaseExcuse(s: SpecData, testCase: string, p: Policy, q: Policy)
    requires AgreeOutsideEvals(p, q) && CaseExcused(s, testCase, p.issues)
    ensures CaseExcused(s, testCase, q.issues)
  {
    assert Waives(p.issues, "SPEC_TESTS", Some(testCase)) == Waives(q.issues, "SPEC_TESTS", Some(testCase));
    forall j | 0 <= j < |s.details| && FailsAs(s.details[j], testCase)
      ensures Waives(p.issues, "SPEC_TESTS", s.details[j].parametrization)
           == Waives(q.issues, "SPEC_TESTS", s.details[j].parametrization) {
      hide Waives;
    }
    hide Waives, FailsAs;
  }

  lemma SameSpecExcuse(s: SpecData, p: Policy, q: Policy)
    requires AgreeOutsideEvals(p, q) && SpecExcused(s, p.issues)
    ensures SpecExcused(s, q.issues)
  {
    hide Waives, CaseExcused;
    forall testCase | CaseExcused(s, testCase, p.issues) ensures CaseExcused(s, testCase, q.issues) {
      SameCaseExcuse(s, testCase, p, q);
    }
  }

  lemma SameSpecWaivers(s: SpecData, key: string, p: Policy, q: Policy)
    requires AgreeOutsideEvals(p, q)
    ensures SpecOutcome(s, key, p.issues).blockers == SpecOutcome(s, key, q.issues).blockers
  {
    SpecByData(s, key, p.issues);
    SpecByData(s, key, q.issues);
    hide Waives, SpecOutcome, Says, SpecSaysFail, SpecExcused;
    if SpecExcused(s, p.issues) {
      SameSpecExcuse(s, p, q);
    }
    if SpecExcused(s, q.issues) {
      SameSpecExcuse(s, q, p);
    }
  }

  /** An eval that is no must-eval, or passed, blocks alike under all policies. */
  lemma SettledEval(e: EvalData, key: string, p: Policy, q: Policy)
    requires Says(e.priority, "should") || EvalPasses(e)
    ensures EvalOutcome(e, key, p).blockers == EvalOutcome(e, key, q).blockers
  {
    EvalByData(e, key, p);
    EvalByData(e, key, q);
    StatusExcludes(e.status);
    NaIsNotFail(e.accuracyCheck);
    hide EvalOutcome, Says, SaysFailed, Unstated, SaysFail, SaysNa, Waives;
  }

  lemma SameBlockersAt(sections: seq<Block>, i: nat, p: Policy, q: Policy)
    requires AgreeOutsideEvals(p, q) && i < |sections|
    requires MustEval(sections[i]) ==> EvalPasses(sections[i].content.eval)
    ensures OutcomeAt(sections, i, p).blockers == OutcomeAt(sections, i, q).blockers
  {
    hide BenchmarkOutcome, EvalOutcome, SpecOutcome, AgenticOutcome, EvalPasses, Waives, BenchmarkKey;
    match sections[i].content
    case Eval(e) => SettledEval(e, sections[i].Key(), p, q);
    case Spec(_, data) =>
      if data.Some? {
        SameSpecWaivers(data.value, sections[i].Key(), p, q);
      }
    case _ =>
  }

  /** Known eval issues and the enforcement of evals never change the strict verdict. */
  lemma StrictPassIgnoresEvalPolicy(sections: seq<Block>, p: Policy, q: Policy)
    requires AgreeOutsideEvals(p, q)
    ensures StrictPass(sections, p) == StrictPass(sections, q)
  {
    hide OutcomeAt, StrictPass, Accepted, AgreeOutsideEvals;
    StrictPassIff(sections, p);
    StrictPassIff(sections, q);
    if MustEvalsPass(sections) {
      forall i | 0 <= i < |sections| ensures OutcomeAt(sections, i, p).blockers == OutcomeAt(sections, i, q).blockers {
        SameBlockersAt(sections, i, p, q);
      }
      NoBlockers(sections, p);
      NoBlockers(sections, q);
    }
  }

  /** Adding issues of another workflow, or switching eval enforcement, is such a change. */
  lemma EvalIssuesAgree(policy: Policy, issue: Issue, enforced: bool)
    requires !NamesWorkflow(issue.workflow, "SPEC_TESTS")
    ensures AgreeOutsideEvals(policy, Policy(policy.issues + [issue], policy.tiers, enforced))
  {
    hide NamesWorkflow;
    var issues := policy.issues + [issue];
    forall task ensures Waives(policy.issues, "SPEC_TESTS", task) == Waives(issues, "SPEC_TESTS", task) {
      assert forall i :: 0 <= i < |policy.issues| ==> issues[i] == policy.issues[i];
    }
  }

  // ----- Loosening a policy ---------------------------------------------------------------------

  /** `q` knows more issues, enforces fewer tiers and enforces evals no more than `p`. */
  ghost predicate Looser(q: Policy, p: Policy) {
    && (forall issue :: issue in p.issues ==> issue in q.issues)
    && q.tiers <= p.tiers && (q.evalsEnforced ==> p.evalsEnforced)
  }

  lemma MoreWaivers(q: Policy, p: Policy, workflow: string, task: Option<string>)
    requires Looser(q, p) && FindWaiver(p.issues, workflow, task)
    ensures FindWaiver(q.issues, workflow, task)
  {
    hide WorkflowName;
    var i :| 0 <= i < |p.issues| && WorkflowName(p.issues[i]) == workflow
             && (p.issues[i].task.None? || p.issues[i].task == task);
    assert p.issues[i] in q.issues;
    var j :| 0 <= j < |q.issues| && q.issues[j] == p.issues[i];
  }

  lemma MoreSpecWaivers(s: SpecData, q: Policy, p: Policy)
    requires Looser(q, p) && SpecWaived(s, p.issues)
    ensures SpecWaived(s, q.issues)
  {
    hide FindWaiver, FailingCases, FailingParametrizations, Looser;
    forall task | FindWaiver(p.issues, "SPEC_TESTS", task) ensures FindWaiver(q.issues, "SPEC_TESTS", task) {
      MoreWaivers(q, p, "SPEC_TESTS", task);
    }
    forall testCase | CaseWaived(s, testCase, p.issues) ensures CaseWaived(s, testCase, q.issues) {}
  }

  lemma FewerMissedKeys(b: BenchmarkData, key: string, less: set<string>, more: set<string>, tier: string)
    requires b.targetChecks.Some? && less <= more
    ensures MissedKeys(b, key, less, tier, false) <= MissedKeys(b, key, more, tier, false)
  {
    hide Missed, CheckKey, IsShould, IsCheck;
  }

  lemma FewerBenchmarkBlockers(b: BenchmarkData, key: string, less: set<string>, more: set<string>)
    requires less <= more
    ensures BenchmarkOutcome(b, key, less).blockers <= BenchmarkOutcome(b, key, more).blockers
  {
    hide MissedKeys, AnyCheck, StatusFromValue, IsShould, RequestFailure, DecidingStatus;
    if b.targetChecks.Some? {
      FewerMissedKeys(b, key, less, more, "functional");
      FewerMissedKeys(b, key, less, more, "complete");
      FewerMissedKeys(b, key, less, more, "target");
    }
  }

  lemma FewerEvalBlockers(e: EvalData, key: string, q: Policy, p: Policy)
    requires Looser(q, p)
    ensures EvalOutcome(e, key, q).blockers <= EvalOutcome(e, key, p).blockers
  {
    hide StatusFromValue, FindWaiver, IsShould, EvalGrade;
    if FindWaiver(p.issues, "EVALS", e.taskName) {
      MoreWaivers(q, p, "EVALS", e.taskName);
    }
  }

  lemma FewerBlockersAt(sections: seq<Block>, i: nat, q: Policy, p: Policy)
    requires Looser(q, p) && i < |sections|
    ensures OutcomeAt(sections, i, q).blockers <= OutcomeAt(sections, i, p).blockers
  {
    hide BenchmarkOutcome, EvalOutcome, SpecWaived, AgenticOutcome, BenchmarkKey, SpecStatus;
    match sections[i].content
    case Benchmark(b) => FewerBenchmarkBlockers(b, BenchmarkKey(sections, i), q.tiers, p.tiers);
    case Eval(e) => FewerEvalBlockers(e, sections[i].Key(), q, p);
    case Spec(_, data) =>
      if data.Some? && SpecWaived(data.value, p.issues) {
        MoreSpecWaivers(data.value, q, p);
      }
    case _ =>
  }

  /** Loosening a policy never adds a blocker. */
  lemma LooseningIsAntitone(sections: seq<Block>, q: Policy, p: Policy)
    requires Looser(q, p)
    ensures Blockers(sections, q) <= Blockers(sections, p)
    ensures Accepted(sections, p) ==> Accepted(sections, q)
  {
    hide OutcomeAt, Blockers, Looser;
    forall key | key in Blockers(sections, q) ensures key in Blockers(sections, p) {
      BlockersByBlock(sections, q, key);
      BlockersByBlock(sections, p, key);
      var i :| 0 <= i < |sections| && key in OutcomeAt(sections, i, q).blockers;
      FewerBlockersAt(sections, i, q, p);
    }
  }

  /** Each model status enforces at most what the next one does. */
  lemma StatusesTighten(issues: seq<Issue>)
    ensures Looser(PolicyOf(issues, "EXPERIMENTAL"), PolicyOf(issues, "FUNCTIONAL"))
    ensures Looser(PolicyOf(issues, "FUNCTIONAL"), PolicyOf(issues, "COMPLETE"))
    ensures forall status :: Looser(PolicyOf(issues, "COMPLETE"), PolicyOf(issues, status))
              || Looser(PolicyOf(issues, status), PolicyOf(issues, "COMPLETE"))
    ensures forall status :: Looser(PolicyOf(issues, status), PolicyOf(issues, ""))
  {
  }

  /** What a model status enforces: a tier unless the status is one of those below it, and evals exactly
      when some tier is; any other status, or none, enforces all. */
  lemma PolicyByStatus(issues: seq<Issue>, status: string, tier: string)
    ensures var p := PolicyOf(issues, status);
            && p.issues == issues && (p.evalsEnforced <==> p.tiers != {})
            && (tier in p.tiers <==>
                  || (tier == "functional" && status != "EXPERIMENTAL")
                  || (tier == "complete" && status != "EXPERIMENTAL" && status != "FUNCTIONAL")
                  || (tier == "target" && status != "EXPERIMENTAL" && status != "FUNCTIONAL" && status != "COMPLETE"))
  {
    assert "EXPERIMENTAL"[0] == 'E' && "FUNCTIONAL"[0] == 'F' && "COMPLETE"[0] == 'C';
    var p := PolicyOf(issues, status);
    assert status != "EXPERIMENTAL" ==> "functional" in p.tiers;
  }

  // ----- The floor ------------------------------------------------------------------------------

  /** What no policy lets pass. */
  ghost predicate Unwaivable(block: Block) {
    match block.content
    case Benchmark(b) => !Says(b.priority, "should") && BenchmarkFails(b, {})
    case Eval(e) => e.incomplete || Says(e.status, "partial")
    case Spec(taskType, data) => IsSpecTest(taskType, data) && Says(data.value.status, "error")
    case Agentic(data) =>
      data.Some? && (data.value.missing || exists i :: 0 <= i < |data.value.points|
                                                       && data.value.points[i].passed == Some(false))
    case Other(_) => false
  }

  /** Spec tests are graded unless they test the infrastructure, or have no data. */
  predicate IsSpecTest(taskType: string, data: Option<SpecData>) {
    && taskType != "health" && taskType != "infra" && taskType != "unit" && taskType != "stability"
    && taskType != "integration" && data.Some?
  }

  const LOOSEST := Policy([Issue("EVALS", None), Issue("SPEC_TESTS", None)], {}, false)

  lemma LoosestWaivesAll(task: Option<string>)
    ensures Waives(LOOSEST.issues, "SPEC_TESTS", task)
  {
    assert Upper("SPEC_TESTS") == "SPEC_TESTS";
    assert LOOSEST.issues[1] == Issue("SPEC_TESTS", None);
  }

  /** With no tier enforced no miss blocks. */
  lemma NoTierEnforced(b: BenchmarkData, tiers: set<string>)
    ensures !Misses(b, {}, false)
    ensures BenchmarkFails(b, {}) ==> BenchmarkFails(b, tiers)
  {
    hide CheckMissed, Says, StatusSettles, HasChecks, RequestsFailed, SaysFailed;
  }

  lemma FloorUnderLoosest(sections: seq<Block>, i: nat)
    requires i < |sections|
    ensures OutcomeAt(sections, i, LOOSEST).blockers != {} <==> Unwaivable(sections[i])
  {
    LoosestWaivesAll(None);
    hide Says, SaysFail, SaysNa, Waives, BenchmarkFails, BenchmarkKey, BenchmarkOutcome, EvalOutcome, SpecOutcome,
         AgenticOutcome, Unstated, SaysFailed, StatusSettles, Misses, HasChecks, RequestsFailed, GradedByChecks,
         HeldUnder;
    match sections[i].content
    case Benchmark(b) => BenchmarkByData(b, BenchmarkKey(sections, i), {});
    case Eval(e) => EvalByData(e, sections[i].Key(), LOOSEST);
    case Spec(_, data) => if data.Some? { SpecByData(data.value, sections[i].Key(), LOOSEST.issues); }
    case Agentic(data) => if data.Some? { AgenticByData(data.value, AgenticKey(sections[i])); }
    case Other(_) =>
  }

  lemma FloorUnderAny(sections: seq<Block>, i: nat, policy: Policy)
    requires i < |sections| && Unwaivable(sections[i])
    ensures OutcomeAt(sections, i, policy).blockers != {}
  {
    hide Says, SaysFail, SaysNa, Waives, BenchmarkFails, BenchmarkKey, BenchmarkOutcome, EvalOutcome, SpecOutcome,
         AgenticOutcome, Unstated, SaysFailed, StatusSettles, Misses, HasChecks, RequestsFailed, GradedByChecks,
         HeldUnder;
    match sections[i].content
    case Benchmark(b) =>
      NoTierEnforced(b, policy.tiers);
      BenchmarkByData(b, BenchmarkKey(sections, i), policy.tiers);
    case Eval(e) => EvalByData(e, sections[i].Key(), policy);
    case Spec(_, data) => if data.Some? { SpecByData(data.value, sections[i].Key(), policy.issues); }
    case Agentic(data) => if data.Some? { AgenticByData(data.value, AgenticKey(sections[i])); }
    case Other(_) =>
  }

  /** A block blocks under every issue list and model status iff it is unwaivable; in particular
      incomplete and partial evals, spec tests in ERROR and must-benchmarks with failed requests. */
  lemma FloorIff(sections: seq<Block>, i: nat)
    requires i < |sections|
    ensures (forall policy :: OutcomeAt(sections, i, policy).blockers != {}) <==> Unwaivable(sections[i])
  {
    hide OutcomeAt, Unwaivable;
    FloorUnderLoosest(sections, i);
    if Unwaivable(sections[i]) {
      forall policy ensures OutcomeAt(sections, i, policy).blockers != {} {
        FloorUnderAny(sections, i, policy);
      }
    }
  }

  /** A report with an unwaivable block is never accepted. */
  lemma UnwaivableNeverAccepted(sections: seq<Block>, i: nat, policy: Policy)
    requires i < |sections| && Unwaivable(sections[i])
    ensures !Accepted(sections, policy)
  {
    hide OutcomeAt, Unwaivable, Accepted;
    FloorUnderAny(sections, i, policy);
    NoBlockers(sections, policy);
  }

  // ----- The `passed` count ---------------------------------------------------------------------

  /** The block was graded and nothing is held against it. */
  predicate CleanPass(o: Outcome) {
    o.failed == 0 && !o.na && !o.skipped && !o.partial && !o.waived
  }

  predicate FailedAndWaived(o: Outcome) {
    o.failed > 0 && o.waived
  }

  /** The categories in which a block counts once. Agentic blocks count by measured point. */
  predicate CountsBlocks(category: Category) {
    category != AgenticTargets
  }

  predicate InCategory(sections: seq<Block>, i: nat, category: Category) {
    i < |sections| && CategoryOf(sections[i]) == Some(category)
  }

  /** A must-benchmark that misses an enforced check and an informational one. */
  ghost predicate MixedBenchmark(b: BenchmarkData, tiers: set<string>) {
    GradedByChecks(b) && !Says(b.priority, "should") && Misses(b, tiers, false) && Misses(b, tiers, true)
  }

  /** A should-benchmark with anything against it, or one with an informational miss. */
  ghost predicate WaivedBenchmark(b: BenchmarkData, tiers: set<string>) {
    (Says(b.priority, "should") && BenchmarkFails(b, tiers)) || (GradedByChecks(b) && Misses(b, tiers, true))
  }

  /** A fully measured eval that failed and is excused. */
  predicate ExcusedEval(e: EvalData, policy: Policy) {
    !e.incomplete && EvalFails(e) && EvalExcused(e, policy)
  }

  ghost predicate MixedAt(sections: seq<Block>, i: nat, policy: Policy)
    requires i < |sections|
  {
    sections[i].content.Benchmark? && MixedBenchmark(sections[i].content.benchmark, policy.tiers)
  }

  ghost predicate WaivedAt(sections: seq<Block>, i: nat, policy: Policy)
    requires i < |sections|
  {
    match sections[i].content
    case Benchmark(b) => WaivedBenchmark(b, policy.tiers)
    case Eval(e) => ExcusedEval(e, policy)
    case Spec(taskType, data) =>
      IsSpecTest(taskType, data) && SpecSaysFail(data.value) && SpecExcused(data.value, policy.issues)
    case _ => false
  }

  /** Some waived block of the category, among the first `n` sections, has the key. */
  ghost predicate WaivedUnder(sections: seq<Block>, n: nat, category: Category, policy: Policy, key: string)
    requires n <= |sections|
  {
    exists j :: 0 <= j < n && InCategory(sections, j, category) && WaivedAt(sections, j, policy)
                && WaiverKey(sections, j) == key
  }

  /** A waived block under a key that an earlier waived block of the category has. */
  ghost predicate RepeatsWaiver(sections: seq<Block>, i: nat, category: Category, policy: Policy)
    requires i < |sections|
  {
    WaivedAt(sections, i, policy) && WaivedUnder(sections, i, category, policy, WaiverKey(sections, i))
  }

  /** A benchmark both fails and is waived iff it is mixed, and its waiver is read off its data. */
  lemma BenchmarkVerdictIff(b: BenchmarkData, key: string, tiers: set<string>)
    ensures var o := BenchmarkOutcome(b, key, tiers);
            && (FailedAndWaived(o) <==> MixedBenchmark(b, tiers)) && (o.waived <==> WaivedBenchmark(b, tiers))
  {
    BenchmarkByData(b, key, tiers);
    MissedCheckIsThere(b, tiers);
    hide BenchmarkOutcome, Misses, HasChecks, Says, SaysFailed, RequestsFailed, StatusSettles, HeldUnder;
  }

  lemma MissedCheckIsThere(b: BenchmarkData, tiers: set<string>)
    ensures Misses(b, tiers, true) ==> HasChecks(b)
  {
    hide SaysFail, SaysNa, InformsOnly, Shouts, TargetIn;
    if Misses(b, tiers, true) {
      var tier, metric :| MissAt(b, tiers, true, tier, metric);
      assert HasCheck(b.targetChecks.value[tier], metric);
    }
  }

  lemma EvalVerdictIff(e: EvalData, key: string, policy: Policy)
    ensures var o := EvalOutcome(e, key, policy); !FailedAndWaived(o) && (o.waived <==> ExcusedEval(e, policy))
  {
    EvalByData(e, key, policy);
    hide EvalOutcome, EvalFails, EvalExcused, Says;
  }

  lemma SpecVerdictIff(s: SpecData, key: string, issues: seq<Issue>)
    ensures var o := SpecOutcome(s, key, issues);
            !FailedAndWaived(o) && (o.waived <==> SpecSaysFail(s) && SpecExcused(s, issues))
  {
    SpecByData(s, key, issues);
    StatusExcludes(s.status);
    hide SpecOutcome, SpecExcused, Says, Unstated;
  }

  /** One block counts once, as at most one of the things `passed` leaves out, but a mixed benchmark. */
  predicate CountedOnce(o: Outcome) {
    && o.total == 1
    && o.failed + One(o.na) + One(o.skipped) + One(o.partial) <= 1
    && (o.waived ==> !o.na && !o.skipped && !o.partial)
  }

  lemma OutcomesCountOnce(sections: seq<Block>, i: nat, category: Category, policy: Policy)
    requires InCategory(sections, i, category) && CountsBlocks(category)
    ensures CountedOnce(OutcomeAt(sections, i, policy))
  {
    match sections[i].content
    case Benchmark(b) =>
      BenchmarkCountsOnce(b, BenchmarkKey(sections, i), policy.tiers);
      hide BenchmarkOutcome;
    case Eval(e) =>
      EvalCountsOnce(e, sections[i].Key(), policy);
      hide EvalOutcome;
    case Spec(_, data) =>
      hide SpecStatus, SpecWaived;
    case _ =>
  }

  lemma BenchmarkCountsOnce(b: BenchmarkData, key: string, tiers: set<string>)
    ensures CountedOnce(BenchmarkOutcome(b, key, tiers))
  {
    hide GradedKeys, StatusFromValue, DecidingStatus, IsShould, RequestFailure;
  }

  lemma EvalCountsOnce(e: EvalData, key: string, policy: Policy)
    ensures CountedOnce(EvalOutcome(e, key, policy))
  {
    hide StatusFromValue, IsShould, FindWaiver, EvalGrade;
  }

  /** What a block's verdict says of waivers is what its data say. */
  lemma VerdictsIff(sections: seq<Block>, i: nat, category: Category, policy: Policy)
    requires InCategory(sections, i, category) && CountsBlocks(category)
    ensures FailedAndWaived(OutcomeAt(sections, i, policy)) <==> MixedAt(sections, i, policy)
    ensures OutcomeAt(sections, i, policy).waived <==> WaivedAt(sections, i, policy)
  {
    hide MixedBenchmark, WaivedBenchmark, ExcusedEval, BenchmarkOutcome, EvalOutcome, SpecOutcome, SpecStatus,
         SpecWaived, FailedAndWaived;
    match sections[i].content
    case Benchmark(b) => BenchmarkVerdictIff(b, BenchmarkKey(sections, i), policy.tiers);
    case Eval(e) => EvalVerdictIff(e, sections[i].Key(), policy);
    case Spec(_, data) => SpecVerdictIff(data.value, sections[i].Key(), policy.issues);
    case _ =>
  }

  // Counting.

  function CleanCount(sections: seq<Block>, n: nat, category: Category, policy: Policy): nat
    requires n <= |sections|
  {
    if n == 0 then 0
    else CleanCount(sections, n - 1, category, policy)
         + One(InCategory(sections, n - 1, category) && CleanPass(OutcomeAt(sections, n - 1, policy)))
  }

  ghost function MixedCount(sections: seq<Block>, n: nat, category: Category, policy: Policy): nat
    requires n <= |sections|
  {
    if n == 0 then 0
    else MixedCount(sections, n - 1, category, policy)
         + One(InCategory(sections, n - 1, category) && MixedAt(sections, n - 1, policy))
  }

  ghost function RepeatCount(sections: seq<Block>, n: nat, category: Category, policy: Policy): nat
    requires n <= |sections|
  {
    if n == 0 then 0
    else RepeatCount(sections, n - 1, category, policy)
         + One(InCategory(sections, n - 1, category) && RepeatsWaiver(sections, n - 1, category, policy))
  }

  lemma WaivedUnderStep(sections: seq<Block>, n: nat, category: Category, policy: Policy, key: string)
    requires n < |sections|
    ensures WaivedUnder(sections, n + 1, category, policy, key)
       <==> WaivedUnder(sections, n, category, policy, key)
            || (InCategory(sections, n, category) && WaivedAt(sections, n, policy) && WaiverKey(sections, n) == key)
  {
    hide WaivedAt, WaiverKey, CategoryOf;
  }

  lemma TallyWaivedStep(sections: seq<Block>, n: nat, category: Category, policy: Policy)
    requires n < |sections| && CountsBlocks(category)
    ensures Tally(sections, n + 1, category, policy).waived
         == if InCategory(sections, n, category) && WaivedAt(sections, n, policy)
            then Tally(sections, n, category, policy).waived + {WaiverKey(sections, n)}
            else Tally(sections, n, category, policy).waived
  {
    hide OutcomeAt, WaiverKey, WaivedAt, CategoryOf, MixedAt;
    if InCategory(sections, n, category) {
      VerdictsIff(sections, n, category, policy);
    }
  }

  /** The waiver keys of a category are those of its waived blocks. */
  lemma {:induction false} WaivedKeysAre(sections: seq<Block>, n: nat, category: Category, policy: Policy, key: string)
    requires n <= |sections| && CountsBlocks(category)
    ensures key in Tally(sections, n, category, policy).waived <==> WaivedUnder(sections, n, category, policy, key)
  {
    hide OutcomeAt, Record, WaiverKey, WaivedAt, CategoryOf, InCategory, CountsBlocks;
    if n > 0 {
      hide Tally, WaivedUnder;
      WaivedKeysAre(sections, n - 1, category, policy, key);
      TallyWaivedStep(sections, n - 1, category, policy);
      WaivedUnderStep(sections, n - 1, category, policy, key);
    }
  }

  lemma RecordPassed(r: CategoryResult, o: Outcome, key: string)
    requires CountedOnce(o)
    ensures Record(r, o, key).Passed()
         == r.Passed() + One(CleanPass(o)) - One(FailedAndWaived(o)) + One(o.waived && key in r.waived)
  {
    assert |r.waived + Only(o.waived, key)| == |r.waived| + One(o.waived && key !in r.waived);
  }

  lemma PassedStep(sections: seq<Block>, i: nat, category: Category, policy: Policy)
    requires InCategory(sections, i, category) && CountsBlocks(category)
    ensures Tally(sections, i + 1, category, policy).Passed()
         == Tally(sections, i, category, policy).Passed()
            + One(CleanPass(OutcomeAt(sections, i, policy))) - One(MixedAt(sections, i, policy))
            + One(RepeatsWaiver(sections, i, category, policy))
  {
    OutcomesCountOnce(sections, i, category, policy);
    VerdictsIff(sections, i, category, policy);
    WaivedKeysAre(sections, i, category, policy, WaiverKey(sections, i));
    hide OutcomeAt, WaiverKey, Record, CleanPass, FailedAndWaived, MixedAt, WaivedAt, CountedOnce,
         CategoryResult.Passed;
    RecordPassed(Tally(sections, i, category, policy), OutcomeAt(sections, i, policy), WaiverKey(sections, i));
  }

  lemma NothingCounted(sections: seq<Block>, category: Category, policy: Policy)
    ensures CleanCount(sections, 0, category, policy) == 0 && MixedCount(sections, 0, category, policy) == 0
    ensures RepeatCount(sections, 0, category, policy) == 0
    ensures Tally(sections, 0, category, policy).Passed() == 0
  {
  }

  lemma CountsStep(sections: seq<Block>, i: nat, category: Category, policy: Policy)
    requires i < |sections|
    ensures CleanCount(sections, i + 1, category, policy)
         == CleanCount(sections, i, category, policy)
            + One(InCategory(sections, i, category) && CleanPass(OutcomeAt(sections, i, policy)))
    ensures MixedCount(sections, i + 1, category, policy)
         == MixedCount(sections, i, category, policy)
            + One(InCategory(sections, i, category) && MixedAt(sections, i, policy))
    ensures RepeatCount(sections, i + 1, category, policy)
         == RepeatCount(sections, i, category, policy)
            + One(InCategory(sections, i, category) && RepeatsWaiver(sections, i, category, policy))
    ensures !InCategory(sections, i, category) ==>
              Tally(sections, i + 1, category, policy) == Tally(sections, i, category, policy)
  {
    hide OutcomeAt, CleanPass, MixedAt, RepeatsWaiver, CategoryOf;
  }

  lemma {:induction false} PassedSoFar(sections: seq<Block>, n: nat, category: Category, policy: Policy)
    requires n <= |sections| && CountsBlocks(category)
    ensures Tally(sections, n, category, policy).Passed()
         == CleanCount(sections, n, category, policy) - MixedCount(sections, n, category, policy)
            + RepeatCount(sections, n, category, policy)
  {
    NothingCounted(sections, category, policy);
    hide Tally, CleanCount, MixedCount, RepeatCount, OutcomeAt, CleanPass, MixedAt, RepeatsWaiver, InCategory,
         CountsBlocks, CategoryResult.Passed;
    if n > 0 {
      PassedSoFar(sections, n - 1, category, policy);
      CountsStep(sections, n - 1, category, policy);
      if InCategory(sections, n - 1, category) {
        PassedStep(sections, n - 1, category, policy);
      }
    }
  }

  /** The general law, for every report and every category that counts blocks: `passed` is the
      number of clean passes, short by one for each mixed benchmark and too high by one for each
      waived block whose waiver key an earlier one has. */
  lemma PassedCount(sections: seq<Block>, category: Category, policy: Policy)
    requires CountsBlocks(category)
    ensures var n := |sections|;
            CategoryOver(sections, category, policy).Passed()
            == CleanCount(sections, n, category, policy) - MixedCount(sections, n, category, policy)
               + RepeatCount(sections, n, category, policy)
  {
    PassedSoFar(sections, |sections|, category, policy);
  }

  /** So it is the number of clean passes iff as many benchmarks are mixed as waiver keys repeat. */
  lemma PassedIsCleanCountIff(sections: seq<Block>, category: Category, policy: Policy)
    requires CountsBlocks(category)
    ensures var n := |sections|;
            CategoryOver(sections, category, policy).Passed() == CleanCount(sections, n, category, policy)
            <==> MixedCount(sections, n, category, policy) == RepeatCount(sections, n, category, policy)
  {
    PassedCount(sections, category, policy);
  }

  lemma {:induction false} CountsVanishIff(sections: seq<Block>, n: nat, category: Category, policy: Policy)
    requires n <= |sections|
    ensures MixedCount(sections, n, category, policy) == 0
       <==> forall i :: 0 <= i < n && InCategory(sections, i, category) ==> !MixedAt(sections, i, policy)
    ensures RepeatCount(sections, n, category, policy) == 0
       <==> forall i :: 0 <= i < n && InCategory(sections, i, category) ==>
           !RepeatsWaiver(sections, i, category, policy)
  {
    hide MixedAt, RepeatsWaiver, CategoryOf;
    if n > 0 {
      CountsVanishIff(sections, n - 1, category, policy);
    }
  }

  /** Where waiver keys are distinct `passed` is never too high, and exact iff no block is mixed;
      where no block is mixed it is never too low, and exact iff the waiver keys are distinct. */
  lemma PassedHasTwoFaults(sections: seq<Block>, category: Category, policy: Policy)
    requires CountsBlocks(category)
    ensures var n, passed := |sections|, CategoryOver(sections, category, policy).Passed();
            var clean := CleanCount(sections, n, category, policy);
            var mixed := exists i :: 0 <= i < n && InCategory(sections, i, category) && MixedAt(sections, i, policy);
            var repeats :=
              exists i ::
                0 <= i < n && InCategory(sections, i, category) && RepeatsWaiver(sections, i, category, policy);
            && (!repeats ==> passed <= clean && (passed == clean <==> !mixed))
            && (!mixed ==> passed >= clean && (passed == clean <==> !repeats))
  {
    PassedCount(sections, category, policy);
    CountsVanishIff(sections, |sections|, category, policy);
    hide MixedAt, RepeatsWaiver, CategoryOf, CategoryOver;
  }

  function PassedPoints(sections: seq<Block>, n: nat): nat
    requires n <= |sections|
  {
    if n == 0 then 0
    else PassedPoints(sections, n - 1) + PointsAt(sections[n - 1])
  }

  function PointsAt(block: Block): nat {
    if block.content.Agentic? && block.content.agentic.Some?
    then CountPoints(block.content.agentic.value.points, Some(true))
    else 0
  }

  lemma AgenticStep(r: CategoryResult, sections: seq<Block>, i: nat, policy: Policy)
    requires InCategory(sections, i, AgenticTargets) && r.waived == {}
    ensures var after := Record(r, OutcomeAt(sections, i, policy), WaiverKey(sections, i));
            after.waived == {} && after.Passed() == r.Passed() + PointsAt(sections[i])
  {
    hide CountPoints, AgenticKeys, AgenticKey, WaiverKey, BenchmarkKey;
  }

  /** Agentic targets count measured points, and `passed` is exactly the points that passed. */
  lemma {:induction false} AgenticPassedExact(sections: seq<Block>, n: nat, policy: Policy)
    requires n <= |sections|
    ensures Tally(sections, n, AgenticTargets, policy).Passed() == PassedPoints(sections, n)
    ensures Tally(sections, n, AgenticTargets, policy).waived == {}
  {
    assert EMPTY.Passed() == 0 && EMPTY.waived == {};
    hide OutcomeAt, WaiverKey, Record, CategoryOf, PointsAt, CategoryResult.Passed;
    if n > 0 {
      AgenticPassedExact(sections, n - 1, policy);
      OnlyAgenticHasPoints(sections[n - 1]);
      if InCategory(sections, n - 1, AgenticTargets) {
        AgenticStep(Tally(sections, n - 1, AgenticTargets, policy), sections, n - 1, policy);
      }
    }
  }

  lemma OnlyAgenticHasPoints(block: Block)
    ensures CategoryOf(block) != Some(AgenticTargets) ==> PointsAt(block) == 0
  {
  }

  // Both faults occur.

  const FAILED_CHECK: Level := map["ttft_check" := Number(3.0)]

  /** A benchmark that misses an enforced and an informational tier. */
  const MIXED := BenchmarkData(
    Missing, Missing, Missing, Missing, Some(map["functional" := FAILED_CHECK, "target" := FAILED_CHECK]), map[], "")

  lemma MixedIsMixed()
    ensures MixedBenchmark(MIXED, {"functional"})
  {
    assert "ttft" + "_check" == "ttft_check";
    assert CheckMissed(FAILED_CHECK, "ttft");
    hide CheckMissed, FAILED_CHECK;
    assert MissAt(MIXED, {"functional"}, false, "functional", "ttft");
    assert MissAt(MIXED, {"functional"}, true, "target", "ttft");
  }

  /** A report of one mixed benchmark counts minus one benchmark as passed. */
  lemma MixedAloneIsNegative(block: Block, policy: Policy)
    requires block.content.Benchmark? && MixedBenchmark(block.content.benchmark, policy.tiers)
    ensures CategoryOver([block], Benchmarks, policy).Passed() == -1
  {
    var sections := [block];
    BenchmarkVerdictIff(block.content.benchmark, BenchmarkKey(sections, 0), policy.tiers);
    hide BenchmarkOutcome, MixedBenchmark, WaivedBenchmark, BenchmarkKey;
    assert InCategory(sections, 0, Benchmarks) && MixedAt(sections, 0, policy);
    assert !CleanPass(OutcomeAt(sections, 0, policy)) && !RepeatsWaiver(sections, 0, Benchmarks, policy);
    NothingCounted(sections, Benchmarks, policy);
    hide InCategory, MixedAt, RepeatsWaiver, CleanPass, OutcomeAt, CategoryResult.Passed, Tally;
    PassedSoFar(sections, 1, Benchmarks, policy);
  }

  lemma PassedCanBeNegative(title: string, stage: Option<Stage>)
    ensures CategoryOver([Block(title, stage, Benchmark(MIXED))], Benchmarks, PolicyOf([], "FUNCTIONAL")).Passed() == -1
  {
    MixedIsMixed();
    hide MixedBenchmark, MIXED, CategoryOver;
    MixedAloneIsNegative(Block(title, stage, Benchmark(MIXED)), PolicyOf([], "FUNCTIONAL"));
  }

  /** An eval that failed and must pass. */
  const FAILED_EVAL := EvalData(Missing, Missing, false, Flag(false), Missing, None)

  lemma FailedEvalExcused()
    ensures ExcusedEval(FAILED_EVAL, PolicyOf([], "EXPERIMENTAL")) && !IsShould(FAILED_EVAL.priority)
  {
  }

  /** Two failed must-evals of one title, not enforced, count as one passed. */
  lemma PassedCanOvercount(title: string, stage: Option<Stage>)
    ensures var eval_ := Block(title, stage, Eval(FAILED_EVAL));
            && CategoryOver([eval_, eval_], Evals, PolicyOf([], "EXPERIMENTAL")).Passed() == 1
            && CleanCount([eval_, eval_], 2, Evals, PolicyOf([], "EXPERIMENTAL")) == 0
  {
    var eval_ := Block(title, stage, Eval(FAILED_EVAL));
    var sections, policy := [eval_, eval_], PolicyOf([], "EXPERIMENTAL");
    FailedEvalExcused();
    EvalVerdictIff(FAILED_EVAL, eval_.Key(), policy);
    hide EvalOutcome, FAILED_EVAL, ExcusedEval;
    PassedSoFar(sections, 2, Evals, policy);
    assert InCategory(sections, 0, Evals) && InCategory(sections, 1, Evals);
    assert WaivedAt(sections, 0, policy) && WaivedAt(sections, 1, policy);
    assert RepeatsWaiver(sections, 1, Evals, policy) && !RepeatsWaiver(sections, 0, Evals, policy);
    assert RepeatCount(sections, 0, Evals, policy) == 0 && CleanCount(sections, 0, Evals, policy) == 0;
    assert RepeatCount(sections, 1, Evals, policy) == 0 && CleanCount(sections, 1, Evals, policy) == 0;
    assert MixedCount(sections, 0, Evals, policy) == 0 && MixedCount(sections, 1, Evals, policy) == 0;
  }
}
