/** report_module/acceptance_criteria.py: the four categories, the acceptance verdict, the
    stage verdicts and the strict verdict. */
module Acceptance {
  import opened Wrappers
  import opened PyStrings
  import opened Orders
  import opened Grading

  // ----- Keys -----------------------------------------------------------------------------------

  /** How many of the benchmark blocks have this key. */
  function KeyCount(sections: seq<Block>, key: string): nat {
    if sections == [] then 0
    else KeyCount(sections[..|sections| - 1], key)
         + if sections[|sections| - 1].content.Benchmark? && sections[|sections| - 1].Key() == key then 1 else 0
  }

  function BenchmarkCount(sections: seq<Block>): nat {
    if sections == [] then 0
    else BenchmarkCount(sections[..|sections| - 1]) + if sections[|sections| - 1].content.Benchmark? then 1 else 0
  }

  /** A benchmark title that repeats is told apart by position and dimensions. */
  function BenchmarkKey(sections: seq<Block>, i: nat): string
    requires i < |sections| && sections[i].content.Benchmark?
  {
    var key := sections[i].Key();
    if KeyCount(sections, key) > 1 then
      key + "[point=" + Decimal(BenchmarkCount(sections[..i + 1])) + sections[i].content.benchmark.dimensions + "]"
    else key
  }

  const INFRA_TASK_TYPES := {"health", "infra", "unit", "stability", "integration"}

  function AgenticKey(block: Block): string {
    block.Key() + if block.stage.Some? then "[" + block.stage.value.key + "]" else ""
  }

  // ----- What each block contributes ------------------------------------------------------------

  datatype Category = Benchmarks | Evals | SpecTests | AgenticTargets

  /** The category that grades the block, if any. */
  function CategoryOf(block: Block): Option<Category> {
    match block.content
    case Benchmark(_) => Some(Benchmarks)
    case Eval(_) => Some(Evals)
    case Spec(taskType, data) => if taskType !in INFRA_TASK_TYPES && data.Some? then Some(SpecTests) else None
    case Agentic(data) => if data.Some? then Some(AgenticTargets) else None
    case Other(_) => None
  }

  function OutcomeAt(sections: seq<Block>, i: nat, policy: Policy): Outcome
    requires i < |sections|
  {
    var block := sections[i];
    match block.content
    case Benchmark(b) => BenchmarkOutcome(b, BenchmarkKey(sections, i), policy.tiers)
    case Eval(e) => EvalOutcome(e, block.Key(), policy)
    case Spec(_, data) =>
      if CategoryOf(block).Some? then SpecOutcome(data.value, block.Key(), policy.issues) else PASSED
    case Agentic(data) =>
      if data.Some? then AgenticOutcome(data.value, AgenticKey(block)) else PASSED
    case Other(_) => PASSED
  }

  // ----- Categories -----------------------------------------------------------------------------

  datatype CategoryResult = CategoryResult(
    total: nat, failed: nat, na: nat, skipped: nat, partial: nat,
    blockers: set<string>, waived: set<string>, waivedMust: set<string>, ungradedMust: set<string>) {

    /** `CategoryResult.passed`; it can be negative. */
    function Passed(): int {
      total - (failed + partial) - na - skipped - |waived|
    }
  }

  const EMPTY := CategoryResult(0, 0, 0, 0, 0, {}, {}, {}, {})

  function One(b: bool): nat {
    if b then 1 else 0
  }

  function Only(b: bool, key: string): set<string> {
    if b then {key} else {}
  }

  /** The key a block is waived under. */
  function WaiverKey(sections: seq<Block>, i: nat): string
    requires i < |sections|
  {
    match sections[i].content
    case Benchmark(_) => BenchmarkKey(sections, i)
    case Spec(_, _) => "spec." + sections[i].Key()
    case _ => sections[i].Key()
  }

  /** The counters and dictionaries after one more block. */
  function Record(r: CategoryResult, o: Outcome, key: string): CategoryResult {
    CategoryResult(
      r.total + o.total, r.failed + o.failed, r.na + One(o.na), r.skipped + One(o.skipped), r.partial + One(o.partial),
      r.blockers + o.blockers, r.waived + Only(o.waived, key),
      r.waivedMust + Only(o.waivedMust, key), r.ungradedMust + Only(o.ungradedMust, key))
  }

  /** A category after its blocks among the first `n` sections. */
  function Tally(sections: seq<Block>, n: nat, category: Category, policy: Policy): CategoryResult
    requires n <= |sections|
  {
    if n == 0 then EMPTY
    else
      var before := Tally(sections, n - 1, category, policy);
      if CategoryOf(sections[n - 1]) != Some(category) then before
      else Record(before, OutcomeAt(sections, n - 1, policy), WaiverKey(sections, n - 1))
  }

  function CategoryOver(sections: seq<Block>, category: Category, policy: Policy): CategoryResult {
    Tally(sections, |sections|, category, policy)
  }

  method CheckCategory(sections: seq<Block>, category: Category, policy: Policy) returns (r: CategoryResult)
    ensures r == CategoryOver(sections, category, policy)
  {
    hide OutcomeAt, Record, CategoryOf, WaiverKey;
    r := EMPTY;
    for i := 0 to |sections|
      invariant r == Tally(sections, i, category, policy)
    {
      if CategoryOf(sections[i]) == Some(category) {
        r := Record(r, OutcomeAt(sections, i, policy), WaiverKey(sections, i));
      }
    }
  }

  const CATEGORIES := [Benchmarks, Evals, SpecTests, AgenticTargets]

  function Categories(sections: seq<Block>, policy: Policy): seq<CategoryResult> {
    seq(4, k requires 0 <= k < 4 => CategoryOver(sections, CATEGORIES[k], policy))
  }

  /** The union of the categories' blocker keys. */
  function Blockers(sections: seq<Block>, policy: Policy): set<string> {
    CategoryOver(sections, Benchmarks, policy).blockers
    + CategoryOver(sections, Evals, policy).blockers
    + CategoryOver(sections, SpecTests, policy).blockers
    + CategoryOver(sections, AgenticTargets, policy).blockers
  }

  predicate Accepted(sections: seq<Block>, policy: Policy) {
    Blockers(sections, policy) == {}
  }

  /** `strict_pass` */
  predicate StrictPass(sections: seq<Block>, policy: Policy) {
    var evals := CategoryOver(sections, Evals, policy);
    Accepted(sections, policy) && evals.waivedMust == {} && evals.ungradedMust == {}
  }

  method AcceptanceCriteriaCheck(sections: seq<Block>, policy: Policy)
    returns (accepted: bool, blockers: set<string>, categories: seq<CategoryResult>)
    ensures accepted == Accepted(sections, policy) && blockers == Blockers(sections, policy)
    ensures categories == Categories(sections, policy)
  {
    var benchmarks := CheckCategory(sections, Benchmarks, policy);
    var evals := CheckCategory(sections, Evals, policy);
    var specTests := CheckCategory(sections, SpecTests, policy);
    var agentic := CheckCategory(sections, AgenticTargets, policy);
    categories := [benchmarks, evals, specTests, agentic];
    blockers := {};
    for k := 0 to |categories|
      invariant blockers == set j, b | 0 <= j < k && b in categories[j].blockers :: b
    {
      blockers := blockers + categories[k].blockers;
    }
    assert blockers == benchmarks.blockers + evals.blockers + specTests.blockers + agentic.blockers by {
      hide CategoryOver;
      forall b ensures b in blockers <==>
        || b in categories[0].blockers || b in categories[1].blockers
        || b in categories[2].blockers || b in categories[3].blockers {}
    }
    accepted := blockers == {};
  }

  // ----- Blockers, block by block ---------------------------------------------------------------

  /** A category's blockers are exactly its blocks' blockers. */
  lemma {:induction false} TallyBlockers(sections: seq<Block>, n: nat, category: Category, policy: Policy, key: string)
    requires n <= |sections|
    ensures key in Tally(sections, n, category, policy).blockers
       <==> exists i :: 0 <= i < n && CategoryOf(sections[i]) == Some(category)
                        && key in OutcomeAt(sections, i, policy).blockers
  {
    hide OutcomeAt;
    if n > 0 {
      TallyBlockers(sections, n - 1, category, policy, key);
    }
  }

  lemma UngradedDoesNotBlock(sections: seq<Block>, i: nat, policy: Policy)
    requires i < |sections| && CategoryOf(sections[i]).None?
    ensures OutcomeAt(sections, i, policy).blockers == {}
  {
  }

  /** The report's blockers are exactly its blocks' blockers. */
  lemma BlockersByBlock(sections: seq<Block>, policy: Policy, key: string)
    ensures key in Blockers(sections, policy)
       <==> exists i :: 0 <= i < |sections| && key in OutcomeAt(sections, i, policy).blockers
  {
    hide OutcomeAt, Tally;
    TallyBlockers(sections, |sections|, Benchmarks, policy, key);
    TallyBlockers(sections, |sections|, Evals, policy, key);
    TallyBlockers(sections, |sections|, SpecTests, policy, key);
    TallyBlockers(sections, |sections|, AgenticTargets, policy, key);
    if i :| 0 <= i < |sections| && key in OutcomeAt(sections, i, policy).blockers {
      if CategoryOf(sections[i]).None? {
        UngradedDoesNotBlock(sections, i, policy);
      }
    }
  }

  // ----- Locality -------------------------------------------------------------------------------

  /** No two benchmark blocks share a key. */
  ghost predicate DistinctBenchmarkKeys(sections: seq<Block>) {
    forall i, j :: 0 <= i < j < |sections| && sections[i].content.Benchmark? && sections[j].content.Benchmark?
      ==> sections[i].Key() != sections[j].Key()
  }

  lemma {:induction false} KeyCountBound(sections: seq<Block>, key: string)
    requires DistinctBenchmarkKeys(sections)
    ensures KeyCount(sections, key) <= 1
    ensures KeyCount(sections, key) == 1 ==>
      exists i :: 0 <= i < |sections| && sections[i].content.Benchmark? && sections[i].Key() == key
  {
    if sections != [] {
      var n := |sections| - 1;
      KeyCountBound(sections[..n], key);
      if KeyCount(sections[..n], key) == 1 {
        var i :| 0 <= i < n && sections[..n][i].content.Benchmark? && sections[..n][i].Key() == key;
        assert sections[i].Key() == key;
      }
    }
  }

  lemma OwnKeyCount(block: Block)
    requires block.content.Benchmark?
    ensures KeyCount([block], block.Key()) == 1
  {
    assert [block][..0] == [];
  }

  /** What a block contributes does not depend on the rest of the report. */
  lemma OutcomeIsLocal(sections: seq<Block>, i: nat, policy: Policy)
    requires i < |sections| && DistinctBenchmarkKeys(sections)
    ensures OutcomeAt(sections, i, policy) == OutcomeAt([sections[i]], 0, policy)
  {
    if sections[i].content.Benchmark? {
      hide BenchmarkOutcome;
      KeyCountBound(sections, sections[i].Key());
      OwnKeyCount(sections[i]);
    }
  }

  /** A block blocks on its own. */
  predicate Blocks(block: Block, policy: Policy) {
    Blockers([block], policy) != {}
  }

  lemma SingleBlockers(block: Block, policy: Policy)
    ensures Blockers([block], policy) == OutcomeAt([block], 0, policy).blockers
  {
    hide OutcomeAt, Blockers;
    forall key ensures key in Blockers([block], policy) <==> key in OutcomeAt([block], 0, policy).blockers {
      BlockersByBlock([block], policy, key);
    }
  }

  /** Acceptance is local: the blockers of a report are the union of those of its single blocks. */
  lemma AcceptanceIsLocal(sections: seq<Block>, policy: Policy, key: string)
    requires DistinctBenchmarkKeys(sections)
    ensures key in Blockers(sections, policy)
       <==> exists i :: 0 <= i < |sections| && key in Blockers([sections[i]], policy)
  {
    hide OutcomeAt, Blockers;
    BlockersByBlock(sections, policy, key);
    forall i | 0 <= i < |sections|
      ensures OutcomeAt(sections, i, policy).blockers == Blockers([sections[i]], policy)
    {
      OutcomeIsLocal(sections, i, policy);
      SingleBlockers(sections[i], policy);
    }
  }

  // ----- Stages ---------------------------------------------------------------------------------

  /** The block is tagged with the stage of this key. */
  predicate Tagged(block: Block, key: string) {
    block.stage.Some? && block.stage.value.key == key
  }

  /** The blocks tagged with the stage, in report order. */
  function StageBlocks(sections: seq<Block>, key: string): seq<Block> {
    if sections == [] then []
    else
      var last := sections[|sections| - 1];
      StageBlocks(sections[..|sections| - 1], key) + if Tagged(last, key) then [last] else []
  }

  /** A stage keeps those of its own blockers that the overall verdict still has. */
  function StageBlockers(sections: seq<Block>, overall: set<string>, key: string, policy: Policy): set<string> {
    Blockers(StageBlocks(sections, key), policy) * overall
  }

  predicate HasKey(stages: seq<Stage>, key: string) {
    exists i :: 0 <= i < |stages| && stages[i].key == key
  }

  /** The stages the report names, each by its first tag. */
  function StageTags(sections: seq<Block>): seq<Stage> {
    if sections == [] then []
    else
      var before, tag := StageTags(sections[..|sections| - 1]), sections[|sections| - 1].stage;
      if tag.Some? && !HasKey(before, tag.value.key) then before + [tag.value] else before
  }

  function StagePosition(stage: Stage): real {
    stage.position as real
  }

  function StagesInOrder(sections: seq<Block>): seq<Stage> {
    SortBy(StageTags(sections), StagePosition)
  }

  datatype StageResult = StageResult(
    key: string, name: string, position: int, accepted: bool, blockers: set<string>, categories: seq<CategoryResult>)

  function WithBlocks(categories: seq<CategoryResult>): seq<CategoryResult> {
    if categories == [] then []
    else
      var last := categories[|categories| - 1];
      WithBlocks(categories[..|categories| - 1]) + if last.total > 0 then [last] else []
  }

  /** The verdict of one stage. */
  function ResultOf(stage: Stage, sections: seq<Block>, overall: set<string>, policy: Policy): StageResult {
    var kept := StageBlockers(sections, overall, stage.key, policy);
    StageResult(
      stage.key, if stage.name == "" then stage.key else stage.name, stage.position, kept == {}, kept,
      WithBlocks(Categories(StageBlocks(sections, stage.key), policy)))
  }

  function ResultsOf(stages: seq<Stage>, sections: seq<Block>, overall: set<string>, policy: Policy): seq<StageResult> {
    seq(|stages|, i requires 0 <= i < |stages| => ResultOf(stages[i], sections, overall, policy))
  }

  lemma NextTag(sections: seq<Block>, n: nat)
    requires n < |sections|
    ensures StageTags(sections[..n + 1])
         == var before, tag := StageTags(sections[..n]), sections[n].stage;
            if tag.Some? && !HasKey(before, tag.value.key) then before + [tag.value] else before
  {
    assert sections[..n + 1][..n] == sections[..n];
  }

  /** One verdict for each stage that a block names, in their order. */
  method StageResults(sections: seq<Block>, overall: set<string>, policy: Policy) returns (results: seq<StageResult>)
    ensures results == ResultsOf(StagesInOrder(sections), sections, overall, policy)
  {
    var stages := [];
    for n := 0 to |sections|
      invariant stages == StageTags(sections[..n])
    {
      NextTag(sections, n);
      var tag := sections[n].stage;
      if tag.Some? && !HasKey(stages, tag.value.key) {
        stages := stages + [tag.value];
      }
    }
    assert sections[..|sections|] == sections;
    stages := SortBy(stages, StagePosition);
    results := [];
    for i := 0 to |stages|
      invariant results == ResultsOf(stages[..i], sections, overall, policy)
    {
      hide Blockers, CategoryOver, Categories;
      var stage := stages[i];
      var _, blockers, categories := AcceptanceCriteriaCheck(StageBlocks(sections, stage.key), policy);
      var kept := blockers * overall;
      var name := if stage.name == "" then stage.key else stage.name;
      results := results
          + [StageResult(stage.key, name, stage.position, kept == {}, kept, WithBlocks(categories))];
      assert stages[..i + 1] == stages[..i] + [stage];
    }
    assert stages[..|stages|] == stages;
  }

  /** The position of the first block tagged with the stage, or the end of the report. */
  function FirstNamed(sections: seq<Block>, key: string): (n: nat)
    ensures n <= |sections| && forall k :: 0 <= k < n ==> !Tagged(sections[k], key)
    ensures n < |sections| ==> Tagged(sections[n], key)
  {
    if sections == [] then 0
    else
      var n := |sections| - 1;
      var before := FirstNamed(sections[..n], key);
      assert forall k :: 0 <= k < n ==> sections[k] == sections[..n][k];
      if before < n || Tagged(sections[n], key) then before else n + 1
  }

  ghost predicate FirstTags(tags: seq<Stage>, sections: seq<Block>) {
    forall i :: 0 <= i < |tags| ==> IsFirstTag(tags[i], sections)
  }

  ghost predicate InReportOrder(tags: seq<Stage>, sections: seq<Block>) {
    forall i, j :: 0 <= i < j < |tags| ==> FirstNamed(sections, tags[i].key) < FirstNamed(sections, tags[j].key)
  }

  /** By position, and by first naming where the positions are equal. */
  ghost predicate InStageOrder(stages: seq<Stage>, sections: seq<Block>) {
    forall i, j :: 0 <= i < j < |stages| ==>
      stages[i].position < stages[j].position
      || (stages[i].position == stages[j].position
          && FirstNamed(sections, stages[i].key) < FirstNamed(sections, stages[j].key))
  }

  ghost predicate NamesAll(stages: seq<Stage>, sections: seq<Block>) {
    forall k :: 0 <= k < |sections| && sections[k].stage.Some? ==> HasKey(stages, sections[k].stage.value.key)
  }

  /** The tag of the first block that names its stage. */
  predicate IsFirstTag(tag: Stage, sections: seq<Block>) {
    var n := FirstNamed(sections, tag.key);
    n < |sections| && sections[n].stage == Some(tag)
  }

  lemma FirstNamedIs(sections: seq<Block>, key: string, n: nat)
    requires n < |sections| && Tagged(sections[n], key) && forall k :: 0 <= k < n ==> !Tagged(sections[k], key)
    ensures FirstNamed(sections, key) == n
  {
  }

  lemma FirstTagStays(sections: seq<Block>, tag: Stage)
    requires sections != [] && IsFirstTag(tag, sections[..|sections| - 1])
    ensures FirstNamed(sections, tag.key) == FirstNamed(sections[..|sections| - 1], tag.key)
    ensures IsFirstTag(tag, sections)
  {
  }

  lemma NewTagIsFirst(sections: seq<Block>, tag: Stage)
    requires sections != [] && sections[|sections| - 1].stage == Some(tag)
    requires forall k :: 0 <= k < |sections| - 1 ==> !Tagged(sections[k], tag.key)
    ensures FirstNamed(sections, tag.key) == |sections| - 1 && IsFirstTag(tag, sections)
  {
    FirstNamedIs(sections, tag.key, |sections| - 1);
  }

  lemma {:induction false} TagsCover(sections: seq<Block>, k: nat)
    requires k < |sections| && sections[k].stage.Some?
    ensures HasKey(StageTags(sections), sections[k].stage.value.key)
  {
    var n, tags := |sections| - 1, StageTags(sections);
    var before := StageTags(sections[..n]);
    if k < n {
      TagsCover(sections[..n], k);
      var i :| 0 <= i < |before| && before[i].key == sections[k].stage.value.key;
      assert tags[i] == before[i];
    } else if tags != before {
      assert tags[|before|] == sections[n].stage.value;
    }
  }

  lemma {:induction false} TagsAreFirst(sections: seq<Block>)
    ensures FirstTags(StageTags(sections), sections) && InReportOrder(StageTags(sections), sections)
  {
    hide FirstNamed, IsFirstTag, HasKey;
    if sections != [] {
      var n := |sections| - 1;
      var init, before, tags := sections[..n], StageTags(sections[..n]), StageTags(sections);
      TagsAreFirst(init);
      forall i | 0 <= i < |before|
        ensures FirstNamed(sections, before[i].key) == FirstNamed(init, before[i].key) < n
        ensures IsFirstTag(before[i], sections)
      {
        FirstIsInside(before[i], init);
        FirstTagStays(sections, before[i]);
      }
      if tags != before {
        forall k | 0 <= k < n ensures !Tagged(sections[k], sections[n].stage.value.key) {
          assert init[k] == sections[k];
          if sections[k].stage.Some? {
            TagsCover(init, k);
          }
        }
        NewTagIsFirst(sections, sections[n].stage.value);
      }
    }
  }

  lemma FirstIsInside(tag: Stage, sections: seq<Block>)
    requires IsFirstTag(tag, sections)
    ensures FirstNamed(sections, tag.key) < |sections|
  {
  }

  lemma StagesAreNamed(sections: seq<Block>)
    ensures NamesAll(StagesInOrder(sections), sections)
  {
    var tags, stages := StageTags(sections), StagesInOrder(sections);
    hide StageTags, SortBy;
    forall k | 0 <= k < |sections| && sections[k].stage.Some? ensures HasKey(stages, sections[k].stage.value.key) {
      TagsCover(sections, k);
      var i :| 0 <= i < |tags| && tags[i].key == sections[k].stage.value.key;
      SortKeeps(tags, StagePosition, tags[i]);
      assert tags[i] in tags;
      var j :| 0 <= j < |stages| && stages[j] == tags[i];
    }
  }

  lemma StagesAreFirst(sections: seq<Block>)
    ensures FirstTags(StagesInOrder(sections), sections)
  {
    var tags, stages := StageTags(sections), StagesInOrder(sections);
    TagsAreFirst(sections);
    hide StageTags, SortBy, IsFirstTag;
    forall i | 0 <= i < |stages| ensures IsFirstTag(stages[i], sections) {
      SortKeeps(tags, StagePosition, stages[i]);
      assert stages[i] in stages;
      var k :| 0 <= k < |tags| && tags[k] == stages[i];
    }
  }

  /** Every stage that a block names has one verdict, under the name and position of its first tag;
      verdicts ascend by position, and those of one position in the order the report names them. */
  lemma StagesAreOrdered(sections: seq<Block>)
    ensures NamesAll(StagesInOrder(sections), sections) && FirstTags(StagesInOrder(sections), sections)
    ensures InStageOrder(StagesInOrder(sections), sections)
  {
    var tags, stages := StageTags(sections), StagesInOrder(sections);
    var rank := (stage: Stage) => FirstNamed(sections, stage.key);
    StagesAreNamed(sections);
    StagesAreFirst(sections);
    TagsAreFirst(sections);
    hide StageTags, SortBy, NamesAll, FirstTags;
    SortIsStable(tags, StagePosition, rank);
    SortSorts(tags, StagePosition);
    forall i, j | 0 <= i < j < |stages|
      ensures stages[i].position < stages[j].position
              || (stages[i].position == stages[j].position && rank(stages[i]) < rank(stages[j]))
    {
      assert StagePosition(stages[i]) <= StagePosition(stages[j]);
    }
  }

  lemma {:induction false} StageBlocksAre(sections: seq<Block>, stage: string)
    ensures forall b :: b in StageBlocks(sections, stage) <==> b in sections && Tagged(b, stage)
    ensures DistinctBenchmarkKeys(sections) ==> DistinctBenchmarkKeys(StageBlocks(sections, stage))
  {
    if sections != [] {
      var n := |sections| - 1;
      var before, all := StageBlocks(sections[..n], stage), StageBlocks(sections, stage);
      StageBlocksAre(sections[..n], stage);
      assert sections == sections[..n] + [sections[n]];
      if DistinctBenchmarkKeys(sections) {
        assert DistinctBenchmarkKeys(sections[..n]);
        forall i, j | 0 <= i < j < |all| && all[i].content.Benchmark? && all[j].content.Benchmark?
          ensures all[i].Key() != all[j].Key()
        {
          if j == |before| {
            assert before[i] in before;
            assert before[i] in sections[..n];
            var k :| 0 <= k < n && sections[k] == before[i];
          }
        }
      }
    }
  }

  /** With the report's own blockers, a stage is accepted iff none of its blocks blocks. */
  lemma StageAcceptedIff(sections: seq<Block>, stage: string, policy: Policy)
    requires DistinctBenchmarkKeys(sections)
    ensures StageBlockers(sections, Blockers(sections, policy), stage, policy) == {}
       <==> forall b :: b in sections && Tagged(b, stage) ==> !Blocks(b, policy)
  {
    hide Blockers;
    var own := StageBlocks(sections, stage);
    StageBlocksAre(sections, stage);
    forall key | key in Blockers(own, policy) ensures key in Blockers(sections, policy) {
      AcceptanceIsLocal(own, policy, key);
      AcceptanceIsLocal(sections, policy, key);
      var i :| 0 <= i < |own| && key in Blockers([own[i]], policy);
      assert own[i] in own;
      var k :| 0 <= k < |sections| && sections[k] == own[i];
    }
    if b :| b in sections && Tagged(b, stage) && Blocks(b, policy) {
      var key :| key in Blockers([b], policy);
      var i :| 0 <= i < |own| && own[i] == b;
      AcceptanceIsLocal(own, policy, key);
    }
    if Blockers(own, policy) != {} {
      var key :| key in Blockers(own, policy);
      AcceptanceIsLocal(own, policy, key);
      var i :| 0 <= i < |own| && key in Blockers([own[i]], policy);
      assert own[i] in own && Blocks(own[i], policy);
    }
  }

  /** Whatever the keys, an accepted report has only accepted stages. */
  lemma AcceptedReportAcceptsStages(sections: seq<Block>, stage: string, policy: Policy)
    requires Accepted(sections, policy)
    ensures StageBlockers(sections, Blockers(sections, policy), stage, policy) == {}
  {
    hide Blockers;
    assert Blockers(sections, policy) == {};
  }
}
