/** report_module/acceptance_criteria.py: the verdict on a whole report, read off the data of its blocks. */
module AcceptanceData {
  import opened Wrappers
  import opened PyStrings
  import opened EvalShards
  import opened Orders
  import opened Grading
  import opened ReportData
  import opened Acceptance
  import opened AcceptanceLaws

  // ----- Keys ---------------------------------------------------------------------------------------

  /** `kind:title`, or the kind of a block without a title. */
  function Named(kind: string, title: string): string {
    kind + if title == "" then "" else ":" + title
  }

  /** Another benchmark of the report has this title. */
  predicate TitleRepeats(sections: seq<Block>, i: nat)
    requires i < |sections|
  {
    exists j ::
      0 <= j < |sections| && j != i && sections[j].content.Benchmark? && sections[j].title == sections[i].title
  }

  /** The benchmarks among the first `n` blocks, of one title or of any. */
  function BenchmarksAmong(sections: seq<Block>, n: nat, title: Option<string>): set<int>
    requires n <= |sections|
  {
    set j | 0 <= j < n && sections[j].content.Benchmark? && (title.None? || sections[j].title == title.value)
  }

  lemma {:induction false} BenchmarksCounted(sections: seq<Block>, n: nat)
    requires n <= |sections|
    ensures BenchmarkCount(sections[..n]) == |BenchmarksAmong(sections, n, None)|
  {
    if n > 0 {
      BenchmarksCounted(sections, n - 1);
      assert sections[..n][..n - 1] == sections[..n - 1];
      assert BenchmarksAmong(sections, n, None)
          == BenchmarksAmong(sections, n - 1, None) + if sections[n - 1].content.Benchmark? then {n - 1} else {};
    }
  }

  lemma {:induction false} TitlesCounted(sections: seq<Block>, n: nat, b: Block)
    requires n <= |sections| && b.content.Benchmark?
    ensures KeyCount(sections[..n], b.Key()) == |BenchmarksAmong(sections, n, Some(b.title))|
  {
    if n == 0 {
      assert BenchmarksAmong(sections, 0, Some(b.title)) == {};
    } else {
      TitlesCounted(sections, n - 1, b);
      assert sections[..n][..n - 1] == sections[..n - 1];
      var last := sections[n - 1];
      if last.content.Benchmark? {
        SameTitleSameKey(last, b);
      }
      var before, after := BenchmarksAmong(sections, n - 1, Some(b.title)), BenchmarksAmong(sections, n, Some(b.title));
      var counts := last.content.Benchmark? && last.title == b.title;
      assert forall i :: i in after <==> i in before || (i == n - 1 && counts);
      hide Block.Key, BenchmarksAmong;
      assert n - 1 !in before;
      assert after == before + if counts then {n - 1} else {};
    }
  }

  lemma SameTitleSameKey(a: Block, b: Block)
    requires a.content.Benchmark? && b.content.Benchmark?
    ensures a.Key() == b.Key() <==> a.title == b.title
    ensures a.Key() == Named("benchmarks", a.title)
  {
    if a.title != "" && b.title != "" {
      var start := "benchmarks" + ":";
      assert a.Key()[|start|..] == a.title && b.Key()[|start|..] == b.title;
    }
    assert "benchmarks" + "" == "benchmarks";
    assert a.title != "" ==> |a.Key()| > |"benchmarks"|;
  }

  /** A benchmark is known by its title; titles that repeat are told apart by position, from one, among
      the benchmarks and by dimensions. */
  lemma BenchmarkKeyIs(sections: seq<Block>, i: nat)
    requires i < |sections| && sections[i].content.Benchmark?
    ensures BenchmarkKey(sections, i)
         == Named("benchmarks", sections[i].title)
            + if TitleRepeats(sections, i) then
                "[point=" + Decimal(|BenchmarksAmong(sections, i + 1, None)|)
                + sections[i].content.benchmark.dimensions + "]"
              else ""
  {
    var b := sections[i];
    TitlesCounted(sections, |sections|, b);
    assert sections[..|sections|] == sections;
    BenchmarksCounted(sections, i + 1);
    SameTitleSameKey(b, b);
    var all := BenchmarksAmong(sections, |sections|, Some(b.title));
    assert forall j ::
        j in all <==> 0 <= j < |sections| && sections[j].content.Benchmark? && sections[j].title == b.title;
    MoreThanOne(all, i);
    hide Block.Key, KeyCount, BenchmarkCount, Decimal, BenchmarksAmong;
    assert b.Key() + "" == b.Key();
  }

  lemma MoreThanOne(s: set<int>, x: int)
    requires x in s
    ensures |s| > 1 <==> exists y :: y in s && y != x
  {
    var rest := s - {x};
    assert s == rest + {x};
    if y :| y in s && y != x {
      assert y in rest;
    }
    if rest != {} {
      var y := Pick(rest);
      assert y in s && y != x;
    }
  }

  lemma CommaAfterDigits(m: nat, n: nat, x: string, y: string)
    requires Decimal(m) + x + "]" == Decimal(n) + y + "]"
    requires (x == "" || x[0] == ',') && (y == "" || y[0] == ',')
    ensures m == n
  {
    DecimalReads(m);
    DecimalReads(n);
    var a, b := Decimal(m), Decimal(n);
    var s, t := a + x + "]", b + y + "]";
    hide Decimal, NatOf;
    assert s[|a|] == (x + "]")[0] && t[|b|] == (y + "]")[0];
    assert forall k :: 0 <= k < |a| ==> s[k] == a[k] && a[k] in a;
    assert forall k :: 0 <= k < |b| ==> t[k] == b[k] && b[k] in b;
    assert !IsDigit(',') && !IsDigit(']');
    assert |a| == |b|;
    assert a == s[..|a|] && b == t[..|b|];
  }

  /** Benchmarks of one title are told apart, as dimensions start with a comma. */
  lemma RepeatsToldApart(sections: seq<Block>, i: nat, j: nat)
    requires i < j < |sections| && sections[i].content.Benchmark? && sections[j].content.Benchmark?
    requires sections[i].title == sections[j].title
    requires var x := sections[i].content.benchmark.dimensions; x == "" || x[0] == ','
    requires var y := sections[j].content.benchmark.dimensions; y == "" || y[0] == ','
    ensures BenchmarkKey(sections, i) != BenchmarkKey(sections, j)
  {
    BenchmarkKeyIs(sections, i);
    BenchmarkKeyIs(sections, j);
    var m, n := |BenchmarksAmong(sections, i + 1, None)|, |BenchmarksAmong(sections, j + 1, None)|;
    LaterPoint(sections, i, j);
    assert TitleRepeats(sections, i) && TitleRepeats(sections, j);
    hide BenchmarkKey, BenchmarksAmong, Decimal, TitleRepeats;
    var x, y := sections[i].content.benchmark.dimensions, sections[j].content.benchmark.dimensions;
    var key := Named("benchmarks", sections[i].title);
    Regroup(key, Decimal(m), x);
    Regroup(key, Decimal(n), y);
    if BenchmarkKey(sections, i) == BenchmarkKey(sections, j) {
      SameStart(key + "[point=", Decimal(m) + x + "]", Decimal(n) + y + "]");
      CommaAfterDigits(m, n, x, y);
    }
  }

  lemma Regroup(key: string, point: string, dimensions: string)
    ensures key + ("[point=" + point + dimensions + "]") == key + "[point=" + (point + dimensions + "]")
  {
  }

  lemma SameStart(start: string, a: string, b: string)
    ensures start + a == start + b ==> a == b
  {
    assert (start + a)[|start|..] == a && (start + b)[|start|..] == b;
  }

  lemma LaterPoint(sections: seq<Block>, i: nat, j: nat)
    requires i < j < |sections| && sections[j].content.Benchmark?
    ensures |BenchmarksAmong(sections, i + 1, None)| < |BenchmarksAmong(sections, j + 1, None)|
  {
    var a, b := BenchmarksAmong(sections, i + 1, None), BenchmarksAmong(sections, j + 1, None);
    assert a <= b - {j} && j in b;
    assert b - {j} == a + (b - {j} - a);
  }

  // ----- The verdict --------------------------------------------------------------------------------

  function AgenticName(block: Block): string {
    Named("agentic_traces_targets", block.title)
    + match block.stage
      case None => ""
      case Some(stage) => "[" + stage.key + "]"
  }

  /** Block `i` puts a blocker under this key. */
  ghost predicate BlocksUnder(sections: seq<Block>, i: nat, policy: Policy, key: string)
    requires i < |sections|
  {
    match sections[i].content
    case Benchmark(b) =>
      !Says(b.priority, "should") && HeldUnder(b, BenchmarkKey(sections, i), policy.tiers, key)
    case Eval(e) =>
      var own := Named("evals", sections[i].title);
      || (key == own && (e.incomplete || (EvalFails(e) && !EvalExcused(e, policy))))
      || (key == "partial:" + own && !e.incomplete && Says(e.status, "partial"))
    case Spec(taskType, data) =>
      && IsSpecTest(taskType, data) && key == "spec." + Named("spec_tests", sections[i].title)
      && (|| Says(data.value.status, "error")
          || (SpecSaysFail(data.value) && !SpecExcused(data.value, policy.issues)))
    case Agentic(data) =>
      data.Some? &&
      (|| (data.value.missing && key == AgenticName(sections[i]) + ".missing")
       || exists p ::
         && 0 <= p < |data.value.points| && data.value.points[p].passed == Some(false)
         && key == AgenticName(sections[i]) + ".c" + data.value.points[p].concurrency)
    case Other(_) => false
  }

  lemma KeyIsNamed(block: Block)
    ensures block.content.Eval? ==> block.Key() == Named("evals", block.title)
    ensures block.content.Spec? ==> block.Key() == Named("spec_tests", block.title)
    ensures block.content.Agentic? ==> AgenticKey(block) == AgenticName(block)
  {
    assert "evals" + "" == "evals" && "spec_tests" + "" == "spec_tests";
    assert "agentic_traces_targets" + "" == "agentic_traces_targets";
    if block.title != "" {
      assert "evals" + (":" + block.title) == "evals" + ":" + block.title;
      assert "spec_tests" + (":" + block.title) == "spec_tests" + ":" + block.title;
      assert "agentic_traces_targets" + (":" + block.title) == "agentic_traces_targets" + ":" + block.title;
    }
  }

  lemma OutcomeByData(sections: seq<Block>, i: nat, policy: Policy, key: string)
    requires i < |sections|
    ensures key in OutcomeAt(sections, i, policy).blockers <==> BlocksUnder(sections, i, policy, key)
  {
    KeyIsNamed(sections[i]);
    StatusExcludes(if sections[i].content.Eval? then sections[i].content.eval.status else Missing);
    hide BenchmarkKey, BenchmarkOutcome, EvalOutcome, SpecOutcome, AgenticOutcome, HeldUnder, EvalExcused, SpecExcused,
         Says, SpecSaysFail, Block.Key, Named, AgenticKey, AgenticName, SaysFail, Unstated;
    match sections[i].content
    case Benchmark(b) => BenchmarkByData(b, BenchmarkKey(sections, i), policy.tiers);
    case Eval(e) => EvalByData(e, sections[i].Key(), policy);
    case Spec(_, data) => if data.Some? { SpecByData(data.value, sections[i].Key(), policy.issues); }
    case Agentic(data) => if data.Some? { AgenticByData(data.value, AgenticKey(sections[i])); }
    case Other(_) =>
  }

  /** The blockers of a report are those its blocks' data call for, and it is accepted iff there are none. */
  lemma BlockersByData(sections: seq<Block>, policy: Policy, key: string)
    ensures key in Blockers(sections, policy)
       <==> exists i :: 0 <= i < |sections| && BlocksUnder(sections, i, policy, key)
  {
    hide OutcomeAt, Blockers, BlocksUnder;
    BlockersByBlock(sections, policy, key);
    forall i | 0 <= i < |sections|
      ensures key in OutcomeAt(sections, i, policy).blockers <==> BlocksUnder(sections, i, policy, key)
    {
      OutcomeByData(sections, i, policy, key);
    }
  }

  lemma AcceptedByData(sections: seq<Block>, policy: Policy)
    ensures Accepted(sections, policy)
       <==> forall i, key :: 0 <= i < |sections| ==> !BlocksUnder(sections, i, policy, key)
  {
    hide Blockers, BlocksUnder;
    forall key
      ensures key in Blockers(sections, policy)
         <==> exists i :: 0 <= i < |sections| && BlocksUnder(sections, i, policy, key)
    {
      BlockersByData(sections, policy, key);
    }
    if Blockers(sections, policy) != {} {
      var key :| key in Blockers(sections, policy);
      var i :| 0 <= i < |sections| && BlocksUnder(sections, i, policy, key);
    }
    if i, key :| 0 <= i < |sections| && BlocksUnder(sections, i, policy, key) {
      assert key in Blockers(sections, policy);
    }
  }

  // ----- The categories -----------------------------------------------------------------------------

  predicate GradedIn(block: Block, category: Category) {
    match block.content
    case Benchmark(_) => category.Benchmarks?
    case Eval(_) => category.Evals?
    case Spec(taskType, data) => category.SpecTests? && IsSpecTest(taskType, data)
    case Agentic(data) => category.AgenticTargets? && data.Some?
    case Other(_) => false
  }

  /** What a category counts, and which keys it lists. */
  datatype Counter = Total | Failed | NotApplicable | Skipped | Partial
  datatype Listing = Waived | WaivedMust | UngradedMust

  function CounterOf(r: CategoryResult, counter: Counter): nat {
    match counter
    case Total => r.total
    case Failed => r.failed
    case NotApplicable => r.na
    case Skipped => r.skipped
    case Partial => r.partial
  }

  function ListingOf(r: CategoryResult, listing: Listing): set<string> {
    match listing
    case Waived => r.waived
    case WaivedMust => r.waivedMust
    case UngradedMust => r.ungradedMust
  }

  ghost predicate BenchmarkCounts(b: BenchmarkData, tiers: set<string>, counter: Counter) {
    match counter
    case Total => true
    case Failed => !Says(b.priority, "should") && BenchmarkFails(b, tiers)
    case NotApplicable => !RequestsFailed(b) && StatusSettles(b) && Says(b.status, "na")
    case Skipped => Says(b.status, "skip")
    case Partial => false
  }

  predicate EvalCounts(e: EvalData, policy: Policy, counter: Counter) {
    match counter
    case Total => true
    case Failed => e.incomplete || (EvalFails(e) && !EvalExcused(e, policy))
    case NotApplicable => !e.incomplete && EvalIsNa(e)
    case Skipped => !e.incomplete && Says(e.status, "skip")
    case Partial => !e.incomplete && Says(e.status, "partial")
  }

  ghost predicate SpecCounts(s: SpecData, issues: seq<Issue>, counter: Counter) {
    match counter
    case Total => true
    case Failed => Says(s.status, "error") || (SpecSaysFail(s) && !SpecExcused(s, issues))
    case NotApplicable => Says(s.status, "na")
    case Skipped => Says(s.status, "skip") || (Unstated(s.status) && s.skipped)
    case Partial => false
  }

  /** The block is one of those the counter counts. */
  ghost predicate Counts(block: Block, policy: Policy, counter: Counter) {
    match block.content
    case Benchmark(b) => BenchmarkCounts(b, policy.tiers, counter)
    case Eval(e) => EvalCounts(e, policy, counter)
    case Spec(taskType, data) => data.Some? && SpecCounts(data.value, policy.issues, counter)
    case _ => false
  }

  /** The block is one of those the listing names; must-priority is a matter of evals. */
  ghost predicate Lists(block: Block, policy: Policy, listing: Listing) {
    match block.content
    case Benchmark(b) => listing.Waived? && WaivedBenchmark(b, policy.tiers)
    case Eval(e) =>
      if listing.UngradedMust? then
        !Says(e.priority, "should") && !e.incomplete && (EvalIsNa(e) || Says(e.status, "skip"))
      else ExcusedEval(e, policy) && (listing.WaivedMust? ==> !Says(e.priority, "should"))
    case Spec(taskType, data) =>
      listing.Waived? && data.Some? && SpecSaysFail(data.value) && SpecExcused(data.value, policy.issues)
    case _ => false
  }

  /** Benchmarks by their own key, evals by their title, spec tests by theirs behind `spec.`. */
  function ListedAs(sections: seq<Block>, i: nat): string
    requires i < |sections|
  {
    match sections[i].content
    case Benchmark(_) => BenchmarkKey(sections, i)
    case Eval(_) => Named("evals", sections[i].title)
    case _ => "spec." + Named("spec_tests", sections[i].title)
  }

  lemma GradedInIff(block: Block, category: Category)
    ensures CategoryOf(block) == Some(category) <==> GradedIn(block, category)
  {
  }

  ghost predicate Told(o: Outcome, block: Block, policy: Policy) {
    && o.total == 1 && o.failed == One(Counts(block, policy, Failed)) && o.na == Counts(block, policy, NotApplicable)
    && o.skipped == Counts(block, policy, Skipped) && o.partial == Counts(block, policy, Counter.Partial)
    && o.waived == Lists(block, policy, Waived) && o.waivedMust == Lists(block, policy, WaivedMust)
    && o.ungradedMust == Lists(block, policy, UngradedMust)
  }

  lemma OutcomeTold(sections: seq<Block>, i: nat, category: Category, policy: Policy)
    requires i < |sections| && GradedIn(sections[i], category) && CountsBlocks(category)
    ensures Told(OutcomeAt(sections, i, policy), sections[i], policy)
    ensures WaiverKey(sections, i) == ListedAs(sections, i)
  {
    KeyIsNamed(sections[i]);
    GradedInIff(sections[i], category);
    hide BenchmarkKey, BenchmarkOutcome, EvalOutcome, SpecOutcome, EvalExcused, SpecExcused, Says, SpecSaysFail,
         Block.Key, Named, Unstated, EvalFails, EvalIsNa, BenchmarkFails, StatusSettles, Misses, GradedByChecks,
         RequestsFailed;
    match sections[i].content
    case Benchmark(b) => BenchmarkByData(b, BenchmarkKey(sections, i), policy.tiers);
    case Eval(e) => EvalByData(e, sections[i].Key(), policy);
    case Spec(_, data) => SpecByData(data.value, sections[i].Key(), policy.issues);
    case _ =>
  }

  ghost function Counted(sections: seq<Block>, n: nat, category: Category, policy: Policy, counter: Counter): set<int>
    requires n <= |sections|
  {
    set i | 0 <= i < n && GradedIn(sections[i], category) && Counts(sections[i], policy, counter)
  }

  lemma CountedStep(sections: seq<Block>, n: nat, category: Category, policy: Policy, counter: Counter)
    requires n < |sections|
    ensures |Counted(sections, n + 1, category, policy, counter)|
         == |Counted(sections, n, category, policy, counter)|
            + One(GradedIn(sections[n], category) && Counts(sections[n], policy, counter))
  {
    hide GradedIn, Counts;
    var before, after :=
      Counted(sections, n, category, policy, counter), Counted(sections, n + 1, category, policy, counter);
    var counts := GradedIn(sections[n], category) && Counts(sections[n], policy, counter);
    assert forall i :: i in after <==> i in before || (i == n && counts);
    hide Counted;
    assert n !in before;
    assert after == before + if counts then {n} else {};
  }

  lemma TallyStep(sections: seq<Block>, n: nat, category: Category, policy: Policy, counter: Counter)
    requires n < |sections| && CountsBlocks(category)
    ensures CounterOf(Tally(sections, n + 1, category, policy), counter)
         == CounterOf(Tally(sections, n, category, policy), counter)
            + One(GradedIn(sections[n], category) && Counts(sections[n], policy, counter))
  {
    hide OutcomeAt, WaiverKey, GradedIn, Counts, CategoryOf, Lists;
    GradedInIff(sections[n], category);
    if GradedIn(sections[n], category) {
      OutcomeTold(sections, n, category, policy);
      AllCount(sections[n], category, policy);
    }
  }

  lemma NoneCounted(sections: seq<Block>, category: Category, policy: Policy, counter: Counter)
    ensures CounterOf(Tally(sections, 0, category, policy), counter) == 0
    ensures Counted(sections, 0, category, policy, counter) == {}
  {
  }

  lemma {:induction false} TallyCounts(
      sections: seq<Block>, n: nat, category: Category, policy: Policy, counter: Counter)
    requires n <= |sections| && CountsBlocks(category)
    ensures CounterOf(Tally(sections, n, category, policy), counter)
         == |Counted(sections, n, category, policy, counter)|
  {
    hide Tally, Counted, CounterOf, GradedIn, Counts, CountsBlocks, One;
    if n == 0 {
      NoneCounted(sections, category, policy, counter);
    } else {
      TallyCounts(sections, n - 1, category, policy, counter);
      TallyStep(sections, n - 1, category, policy, counter);
      CountedStep(sections, n - 1, category, policy, counter);
    }
  }

  lemma AllCount(block: Block, category: Category, policy: Policy)
    requires GradedIn(block, category) && CountsBlocks(category)
    ensures Counts(block, policy, Total)
  {
  }

  ghost predicate ListedUnder(
      sections: seq<Block>, n: nat, category: Category, policy: Policy, listing: Listing, key: string)
    requires n <= |sections|
  {
    exists i :: 0 <= i < n && GradedIn(sections[i], category) && Lists(sections[i], policy, listing)
                && ListedAs(sections, i) == key
  }

  lemma {:induction false} TallyLists(
      sections: seq<Block>, n: nat, category: Category, policy: Policy, listing: Listing, key: string)
    requires n <= |sections| && CountsBlocks(category)
    ensures key in ListingOf(Tally(sections, n, category, policy), listing)
       <==> ListedUnder(sections, n, category, policy, listing, key)
  {
    hide OutcomeAt, WaiverKey, GradedIn, Counts, Lists, ListedAs, CategoryOf;
    if n > 0 {
      TallyLists(sections, n - 1, category, policy, listing, key);
      var last := sections[n - 1];
      GradedInIff(last, category);
      assert ListedUnder(sections, n, category, policy, listing, key)
        <==> || ListedUnder(sections, n - 1, category, policy, listing, key)
             || (GradedIn(last, category) && Lists(last, policy, listing) && ListedAs(sections, n - 1) == key);
      if GradedIn(last, category) {
        OutcomeTold(sections, n - 1, category, policy);
      }
    }
  }

  /** Every counter of a category is the number of its blocks whose data call for it, and every listing
      holds the keys of those blocks; agentic targets count points instead of blocks. */
  lemma CategoryByData(sections: seq<Block>, category: Category, policy: Policy)
    requires CountsBlocks(category)
    ensures var r := CategoryOver(sections, category, policy);
            && (forall c :: CounterOf(r, c) == |Counted(sections, |sections|, category, policy, c)|)
            && forall l, key ::
                 key in ListingOf(r, l) <==> ListedUnder(sections, |sections|, category, policy, l, key)
  {
    hide Tally, CounterOf, ListingOf, Counted, ListedUnder;
    forall c
      ensures CounterOf(CategoryOver(sections, category, policy), c)
           == |Counted(sections, |sections|, category, policy, c)|
    {
      TallyCounts(sections, |sections|, category, policy, c);
    }
    forall l, key
      ensures key in ListingOf(CategoryOver(sections, category, policy), l)
         <==> ListedUnder(sections, |sections|, category, policy, l, key)
    {
      TallyLists(sections, |sections|, category, policy, l, key);
    }
  }

  // ----- The stages ---------------------------------------------------------------------------------

  /** The positions of the blocks tagged with the stage, in report order. */
  function TaggedAt(sections: seq<Block>, key: string): (at: seq<nat>)
    ensures forall i :: 0 <= i < |at| ==> at[i] < |sections|
    ensures forall i, j :: 0 <= i < j < |at| ==> at[i] < at[j]
    ensures forall k :: k in at <==> 0 <= k < |sections| && Tagged(sections[k], key)
  {
    if sections == [] then []
    else
      var n := |sections| - 1;
      assert forall k :: 0 <= k < n ==> sections[k] == sections[..n][k];
      TaggedAt(sections[..n], key) + if Tagged(sections[n], key) then [n] else []
  }

  lemma {:induction false} StageBlocksInOrder(sections: seq<Block>, key: string)
    ensures var own, at := StageBlocks(sections, key), TaggedAt(sections, key);
            |own| == |at| && forall i :: 0 <= i < |at| ==> at[i] in at && own[i] == sections[at[i]]
  {
    if sections != [] {
      StageBlocksInOrder(sections[..|sections| - 1], key);
    }
  }

  function Present(r: CategoryResult): seq<CategoryResult> {
    if r.total == 0 then [] else [r]
  }

  /** The verdict of a stage: its name falls back to its key, it keeps the blockers that its own blocks'
      data call for and the overall verdict has, and shows the categories that have blocks. */
  lemma StageByData(stage: Stage, sections: seq<Block>, overall: set<string>, policy: Policy)
    ensures var r, own := ResultOf(stage, sections, overall, policy), StageBlocks(sections, stage.key);
            && r.key == stage.key && r.position == stage.position
            && r.name == (if stage.name != "" then stage.name else stage.key)
            && (r.accepted <==> forall key :: key !in r.blockers)
            && (forall key :: key in r.blockers <==>
                  key in overall && exists i :: 0 <= i < |own| && BlocksUnder(own, i, policy, key))
            && r.categories
               == Present(CategoryOver(own, Benchmarks, policy)) + Present(CategoryOver(own, Evals, policy))
                  + Present(CategoryOver(own, SpecTests, policy)) + Present(CategoryOver(own, AgenticTargets, policy))
  {
    hide BlocksUnder, StageBlocks, CategoryOver;
    var own := StageBlocks(sections, stage.key);
    forall key
      ensures key in Blockers(own, policy) <==> exists i :: 0 <= i < |own| && BlocksUnder(own, i, policy, key)
    {
      BlockersByData(own, policy, key);
    }
    ShownCategories(Categories(own, policy));
    assert CATEGORIES == [Benchmarks, Evals, SpecTests, AgenticTargets];
  }

  lemma ShownCategories(c: seq<CategoryResult>)
    requires |c| == 4
    ensures WithBlocks(c) == Present(c[0]) + Present(c[1]) + Present(c[2]) + Present(c[3])
  {
    assert c[..4] == c && c[..3] == c[..4][..3] && c[..2] == c[..3][..2] && c[..1] == c[..2][..1] && c[..1][..0] == [];
    assert WithBlocks(c[..1]) == Present(c[0]);
    assert WithBlocks(c[..2]) == WithBlocks(c[..1]) + Present(c[1]);
    assert WithBlocks(c[..3]) == WithBlocks(c[..2]) + Present(c[2]);
    assert WithBlocks(c[..4]) == WithBlocks(c[..3]) + Present(c[3]);
  }
}
