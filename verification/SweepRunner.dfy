/** llm_module/runner.py: one driver over a sweep of configurations. Health replies and driver
    outcomes come from the environment; a block is known by its sweep point and repetition. */
module SweepRunner {
  import opened Wrappers

  datatype Config = Config(repetitions: int, fullWarmup: bool)

  datatype Phase = Warmup | Rep(n: nat)

  datatype Outcome = Outcome(returnCode: int, raw: bool) {
    predicate Good() {
      returnCode == 0 && raw
    }
  }

  /** A reply without a status counts as 200. */
  datatype Health = Status(code: int) | NoStatus | Raised {
    predicate Healthy() {
      this == Status(200) || this == NoStatus
    }
  }

  datatype Controller = Controller(startsHealthy: bool, health: nat -> Health)

  datatype Environment = Environment(controller: Option<Controller>, outcome: (nat, Phase) -> Outcome) {
    predicate HealthyAt(point: nat) {
      controller.Some? ==> controller.value.health(point).Healthy()
    }
  }

  datatype Block = Block(point: nat, repetition: nat)

  datatype RunnerResult = RunnerResult(blocks: seq<Block>, returnCodes: seq<int>, parseFailures: seq<nat>) {
    predicate Clean() {
      (forall k :: 0 <= k < |returnCodes| ==> returnCodes[k] == 0) && parseFailures == []
    }

    predicate Ok() {
      returnCodes != [] && Clean()
    }

    function Then(next: RunnerResult): RunnerResult {
      RunnerResult(blocks + next.blocks, returnCodes + next.returnCodes, parseFailures + next.parseFailures)
    }
  }

  const EMPTY := RunnerResult([], [], [])
  const ABORTED := RunnerResult([], [1], [])

  // ----- What a sweep yields ------------------------------------------------------------------------

  function Reps(n: int): seq<Phase> {
    if n <= 0 then [] else Reps(n - 1) + [Rep(n)]
  }

  function Phases(cfg: Config): seq<Phase> {
    (if cfg.fullWarmup then [Warmup] else []) + Reps(cfg.repetitions)
  }

  /** The phases driven: a failed warmup is the last. */
  function Driven(env: Environment, point: nat, cfg: Config): seq<Phase> {
    if cfg.fullWarmup && !env.outcome(point, Warmup).Good() then [Warmup] else Phases(cfg)
  }

  function PhaseResult(env: Environment, point: nat, phase: Phase): RunnerResult {
    var o := env.outcome(point, phase);
    RunnerResult(
      if o.Good() && phase.Rep? then [Block(point, phase.n)] else [],
      [o.returnCode],
      if o.returnCode == 0 && !o.raw then [point] else [])
  }

  function PhaseResults(env: Environment, point: nat, phases: seq<Phase>): RunnerResult {
    if phases == [] then EMPTY
    else PhaseResults(env, point, phases[..|phases| - 1]).Then(PhaseResult(env, point, phases[|phases| - 1]))
  }

  function PointResult(env: Environment, point: nat, cfg: Config): RunnerResult {
    PhaseResults(env, point, Driven(env, point, cfg))
  }

  /** The sweep from its `i`-th configuration on; None where a repetition count is not positive. */
  function SweepFrom(env: Environment, configs: seq<Config>, i: nat): Option<RunnerResult>
    requires i <= |configs|
    decreases |configs| - i
  {
    if i == |configs| then Some(EMPTY)
    else if !env.HealthyAt(i + 1) then Some(ABORTED)
    else if configs[i].repetitions < 1 then None
    else
      match SweepFrom(env, configs, i + 1)
      case None => None
      case Some(rest) => Some(PointResult(env, i + 1, configs[i]).Then(rest))
  }

  function Sweep(env: Environment, configs: seq<Config>): Option<RunnerResult> {
    if configs == [] then Some(EMPTY)
    else if env.controller.Some? && !env.controller.value.startsHealthy then Some(ABORTED)
    else SweepFrom(env, configs, 0)
  }

  // ----- The runner -----------------------------------------------------------------------------------

  function Prepend(a: RunnerResult, b: Option<RunnerResult>): Option<RunnerResult> {
    if b.None? then None else Some(a.Then(b.value))
  }

  lemma PrependMeets(a: RunnerResult, b: RunnerResult, c: Option<RunnerResult>)
    ensures Prepend(a.Then(b), c) == Prepend(a, Prepend(b, c))
    ensures Prepend(EMPTY, c) == c
  {
    if c.Some? {
      assert a.Then(b).Then(c.value) == a.Then(b.Then(c.value));
      assert EMPTY.Then(c.value) == c.value;
    }
  }

  lemma PhaseStep(env: Environment, point: nat, phases: seq<Phase>, k: nat)
    requires k < |phases|
    ensures var r, o := PhaseResults(env, point, phases[..k]), env.outcome(point, phases[k]);
            PhaseResults(env, point, phases[..k + 1])
            == RunnerResult(
              if o.Good() && phases[k].Rep? then r.blocks + [Block(point, phases[k].n)] else r.blocks,
              r.returnCodes + [o.returnCode],
              if o.returnCode == 0 && !o.raw then r.parseFailures + [point] else r.parseFailures)
  {
    assert phases[..k + 1][..k] == phases[..k];
  }

  lemma WarmupFirst(cfg: Config, k: nat)
    requires k < |Phases(cfg)|
    ensures Phases(cfg)[k] == Warmup <==> k == 0 && cfg.fullWarmup
    ensures Phases(cfg)[k] == Warmup ==> Phases(cfg)[..k + 1] == [Warmup]
  {
    RepsAt(cfg.repetitions);
  }

  lemma {:induction false} RepsAt(n: int)
    ensures |Reps(n)| == (if n < 0 then 0 else n) && forall k :: 0 <= k < |Reps(n)| ==> Reps(n)[k] == Rep(k + 1)
  {
    if n > 0 {
      RepsAt(n - 1);
    }
  }

  lemma DrivenPhases(env: Environment, point: nat, cfg: Config)
    requires cfg.repetitions >= 1
    ensures Phases(cfg) != []
    ensures cfg.fullWarmup && !env.outcome(point, Warmup).Good() ==>
              PointResult(env, point, cfg) == PhaseResults(env, point, [Warmup])
    ensures (cfg.fullWarmup ==> env.outcome(point, Warmup).Good()) ==>
              PointResult(env, point, cfg) == PhaseResults(env, point, Phases(cfg))
  {
    hide PhaseResults;
    RepsAt(cfg.repetitions);
  }

  lemma NoPhases(env: Environment, point: nat, phases: seq<Phase>)
    ensures PhaseResults(env, point, phases[..0]) == EMPTY
  {
  }

  method RunPoint(env: Environment, point: nat, cfg: Config) returns (result: RunnerResult)
    requires cfg.repetitions >= 1
    ensures result == PointResult(env, point, cfg)
  {
    hide PhaseResults, PhaseResult, Phases, Driven, PointResult, RunnerResult.Then, RunnerResult.Clean, Reps;
    result := EMPTY;
    var phases := Phases(cfg);
    DrivenPhases(env, point, cfg);
    NoPhases(env, point, phases);
    for k := 0 to |phases|
      invariant result == PhaseResults(env, point, phases[..k])
      invariant k > 0 && cfg.fullWarmup ==> env.outcome(point, Warmup).Good()
    {
      var phase := phases[k];
      PhaseStep(env, point, phases, k);
      WarmupFirst(cfg, k);
      var outcome := env.outcome(point, phase);
      result := result.(returnCodes := result.returnCodes + [outcome.returnCode]);
      if outcome.returnCode != 0 || !outcome.raw {
        if outcome.returnCode == 0 {
          result := result.(parseFailures := result.parseFailures + [point]);
        }
        assert result == PhaseResults(env, point, phases[..k + 1]);
        if phase == Warmup {
          return;
        }
        continue;
      }
      if phase == Warmup {
        continue;
      }
      result := result.(blocks := result.blocks + [Block(point, phase.n)]);
    }
    assert phases[..|phases|] == phases;
  }

  /** A sweep, one configuration further. */
  lemma SweepStep(env: Environment, configs: seq<Config>, i: nat, sofar: RunnerResult)
    requires i <= |configs|
    ensures i == |configs| ==> Prepend(sofar, SweepFrom(env, configs, i)) == Some(sofar)
    ensures i < |configs| && !env.HealthyAt(i + 1) ==>
              Prepend(sofar, SweepFrom(env, configs, i)) == Some(sofar.(returnCodes := sofar.returnCodes + [1]))
    ensures i < |configs| && env.HealthyAt(i + 1) && configs[i].repetitions < 1 ==>
              Prepend(sofar, SweepFrom(env, configs, i)).None?
    ensures i < |configs| && env.HealthyAt(i + 1) && configs[i].repetitions >= 1 ==>
              Prepend(sofar, SweepFrom(env, configs, i))
              == Prepend(sofar.Then(PointResult(env, i + 1, configs[i])), SweepFrom(env, configs, i + 1))
  {
    hide PointResult;
    assert sofar.Then(EMPTY) == sofar;
    assert sofar.Then(ABORTED) == sofar.(returnCodes := sofar.returnCodes + [1]);
    if i < |configs| {
      PrependMeets(sofar, PointResult(env, i + 1, configs[i]), SweepFrom(env, configs, i + 1));
    }
  }

  method Run(env: Environment, configs: seq<Config>) returns (result: Option<RunnerResult>)
    ensures result == Sweep(env, configs)
  {
    if configs == [] {
      return Some(EMPTY);
    }
    if env.controller.Some? && !env.controller.value.startsHealthy {
      return Some(ABORTED);
    }
    var sofar := EMPTY;
    PrependMeets(sofar, sofar, SweepFrom(env, configs, 0));
    hide PointResult, SweepFrom, RunnerResult.Then, Prepend;
    for i := 0 to |configs|
      invariant SweepFrom(env, configs, 0) == Prepend(sofar, SweepFrom(env, configs, i))
    {
      SweepStep(env, configs, i, sofar);
      if env.controller.Some? && !env.controller.value.health(i + 1).Healthy() {
        return Some(sofar.(returnCodes := sofar.returnCodes + [1]));
      }
      if configs[i].repetitions < 1 {
        return None;
      }
      var point := RunPoint(env, i + 1, configs[i]);
      sofar := sofar.Then(point);
    }
    SweepStep(env, configs, |configs|, sofar);
    return Some(sofar);
  }

  // ----- In the words of the sweep -------------------------------------------------------------------------

  /** Before this point the server answered 200, or a reply that carries no status, or nobody asks. */
  predicate ServerUp(env: Environment, point: nat) {
    match env.controller
    case None => true
    case Some(c) => c.health(point) == Status(200) || c.health(point) == NoStatus
  }

  predicate Succeeds(env: Environment, point: nat, phase: Phase) {
    env.outcome(point, phase).returnCode == 0 && env.outcome(point, phase).raw
  }

  // ----- Completeness -----------------------------------------------------------------------------------

  predicate AllPositive(configs: seq<Config>, i: nat) {
    forall j :: i <= j < |configs| ==> configs[j].repetitions >= 1
  }

  /** The planned blocks of a point, and of the sweep from its `i`-th configuration on, in order. */
  function PointPlan(point: nat, n: int): seq<Block> {
    if n <= 0 then [] else PointPlan(point, n - 1) + [Block(point, n)]
  }

  function Plan(configs: seq<Config>, i: nat): seq<Block>
    requires i <= |configs|
    decreases |configs| - i
  {
    if i == |configs| then [] else PointPlan(i + 1, configs[i].repetitions) + Plan(configs, i + 1)
  }

  function TotalRepetitions(configs: seq<Config>, i: nat): int
    requires i <= |configs|
    decreases |configs| - i
  {
    if i == |configs| then 0 else configs[i].repetitions + TotalRepetitions(configs, i + 1)
  }

  lemma {:induction false} PointPlanSize(point: nat, n: nat)
    ensures |PointPlan(point, n)| == n
  {
    if n > 0 { PointPlanSize(point, n - 1); }
  }

  lemma {:induction false} PlanSize(configs: seq<Config>, i: nat)
    requires i <= |configs| && AllPositive(configs, i)
    ensures |Plan(configs, i)| == TotalRepetitions(configs, i) >= |configs| - i
    decreases |configs| - i
  {
    if i < |configs| {
      PointPlanSize(i + 1, configs[i].repetitions);
      PlanSize(configs, i + 1);
    }
  }

  lemma CleanThen(a: RunnerResult, b: RunnerResult)
    ensures a.Then(b).Clean() <==> a.Clean() && b.Clean()
  {
    var ab := a.Then(b);
    if ab.Clean() {
      assert forall k :: 0 <= k < |a.returnCodes| ==> a.returnCodes[k] == ab.returnCodes[k];
      assert forall k :: 0 <= k < |b.returnCodes| ==> b.returnCodes[k] == ab.returnCodes[|a.returnCodes| + k];
    }
  }

  lemma ThenAssociates(a: RunnerResult, b: RunnerResult, c: RunnerResult)
    ensures a.Then(b).Then(c) == a.Then(b.Then(c))
  {
  }

  lemma {:induction false} PhasesAppend(env: Environment, point: nat, a: seq<Phase>, b: seq<Phase>)
    ensures PhaseResults(env, point, a + b) == PhaseResults(env, point, a).Then(PhaseResults(env, point, b))
  {
    if b == [] {
      assert a + b == a;
    } else {
      var n := |b| - 1;
      assert (a + b)[..|a + b| - 1] == a + b[..n];
      PhasesAppend(env, point, a, b[..n]);
      ThenAssociates(PhaseResults(env, point, a), PhaseResults(env, point, b[..n]), PhaseResult(env, point, b[n]));
    }
  }

  /** Repetitions yield at most their plan, and the whole of it iff they are clean. */
  lemma {:induction false} RepsYield(env: Environment, point: nat, n: nat)
    ensures var r := PhaseResults(env, point, Reps(n));
            && |r.blocks| <= n && (r.Clean() <==> |r.blocks| == n) && (r.Clean() ==> r.blocks == PointPlan(point, n))
  {
    hide RunnerResult.Clean, PhaseResult, PhaseResults, Reps;
    if n > 0 {
      RepsYield(env, point, n - 1);
      RepsStep(env, point, n);
      RepPhase(env, point, n);
      CleanThen(PhaseResults(env, point, Reps(n - 1)), PhaseResult(env, point, Rep(n)));
    } else {
      NoReps(env, point);
    }
  }

  lemma NoReps(env: Environment, point: nat)
    ensures PhaseResults(env, point, Reps(0)) == EMPTY && EMPTY.Clean()
  {
  }

  lemma RepsStep(env: Environment, point: nat, n: nat)
    requires n > 0
    ensures PhaseResults(env, point, Reps(n))
         == PhaseResults(env, point, Reps(n - 1)).Then(PhaseResult(env, point, Rep(n)))
  {
    hide PhaseResult;
    assert Reps(n)[..|Reps(n)| - 1] == Reps(n - 1);
  }

  lemma RepPhase(env: Environment, point: nat, n: nat)
    ensures var r := PhaseResult(env, point, Rep(n));
            r.blocks == if r.Clean() then [Block(point, n)] else []
  {
    SinglePhase(env, point, Rep(n));
  }

  lemma SinglePhase(env: Environment, point: nat, phase: Phase)
    ensures PhaseResults(env, point, [phase]) == PhaseResult(env, point, phase)
    ensures PhaseResult(env, point, phase).Clean() <==> env.outcome(point, phase).Good()
  {
    assert [phase][..0] == [];
    assert EMPTY.Then(PhaseResult(env, point, phase)) == PhaseResult(env, point, phase);
    assert PhaseResult(env, point, phase).returnCodes[0] == env.outcome(point, phase).returnCode;
  }

  /** A point yields its plan iff it is clean, and nothing after a failed warmup. */
  lemma PointYields(env: Environment, point: nat, cfg: Config)
    requires cfg.repetitions >= 1
    ensures var r := PointResult(env, point, cfg);
            && r.returnCodes != [] && |r.blocks| <= cfg.repetitions
            && (r.Clean() <==> |r.blocks| == cfg.repetitions)
            && (r.Clean() ==> r.blocks == PointPlan(point, cfg.repetitions))
            && (cfg.fullWarmup && !env.outcome(point, Warmup).Good() ==> r.blocks == [])
  {
    var n := cfg.repetitions;
    RepsYield(env, point, n);
    SinglePhase(env, point, Warmup);
    RepsAt(n);
    if cfg.fullWarmup {
      PhasesAppend(env, point, [Warmup], Reps(n));
      CleanThen(PhaseResult(env, point, Warmup), PhaseResults(env, point, Reps(n)));
    } else {
      assert Phases(cfg) == Reps(n);
      assert Reps(n)[..n - 1] == Reps(n - 1);
    }
  }

  /** From its `i`-th configuration on, a sweep that returns is clean iff it emitted as many blocks
      as all repetitions together, none of them fewer than one; these are then the plan. */
  lemma {:induction false} SweepYields(env: Environment, configs: seq<Config>, i: nat)
    requires i <= |configs| && SweepFrom(env, configs, i).Some?
    ensures var r := SweepFrom(env, configs, i).value;
            && (r.Clean() <==> AllPositive(configs, i) && |r.blocks| == TotalRepetitions(configs, i))
            && (AllPositive(configs, i) ==> |r.blocks| <= TotalRepetitions(configs, i))
            && (r.Clean() ==> r.blocks == Plan(configs, i))
            && (i < |configs| ==> r.returnCodes != [])
    decreases |configs| - i
  {
    hide PointResult;
    if i < |configs| {
      if !env.HealthyAt(i + 1) {
        if AllPositive(configs, i) {
          PlanSize(configs, i);
        }
        assert ABORTED.returnCodes[0] == 1;
      } else {
        SweepYields(env, configs, i + 1);
        var point, rest := PointResult(env, i + 1, configs[i]), SweepFrom(env, configs, i + 1).value;
        PointYields(env, i + 1, configs[i]);
        CleanThen(point, rest);
        assert AllPositive(configs, i) <==> AllPositive(configs, i + 1);
      }
    }
  }

  /** A sweep that returns is ok iff every repetition of every point was emitted as a block. */
  lemma SweepOkIff(env: Environment, configs: seq<Config>)
    requires configs != [] && Sweep(env, configs).Some?
    ensures var r := Sweep(env, configs).value;
            && (r.Ok() <==> AllPositive(configs, 0) && |r.blocks| == TotalRepetitions(configs, 0))
            && (r.Ok() ==> r.blocks == Plan(configs, 0))
  {
    hide SweepFrom;
    if env.controller.Some? && !env.controller.value.startsHealthy {
      if AllPositive(configs, 0) {
        PlanSize(configs, 0);
      }
      assert ABORTED.returnCodes[0] == 1;
    } else {
      SweepYields(env, configs, 0);
    }
  }

  /** Every run succeeds, but the server is lost after the first point. */
  const LOST_SERVER := Environment(
    Some(Controller(true, point => if point == 1 then Status(200) else Raised)), (point, phase) => Outcome(0, true))

  const SECOND_PLANS_NOTHING := [Config(1, false), Config(0, false)]

  lemma FirstPointResult()
    ensures PointResult(LOST_SERVER, 1, SECOND_PLANS_NOTHING[0]) == RunnerResult([Block(1, 1)], [0], [])
  {
    var cfg := SECOND_PLANS_NOTHING[0];
    assert Reps(0) == [];
    assert Driven(LOST_SERVER, 1, cfg) == [Rep(1)];
    SinglePhase(LOST_SERVER, 1, Rep(1));
  }

  /** The count alone does not decide: a point after the server became unhealthy may plan no block. */
  lemma CountAloneMisses()
    ensures Sweep(LOST_SERVER, SECOND_PLANS_NOTHING).Some?
    ensures var r := Sweep(LOST_SERVER, SECOND_PLANS_NOTHING).value;
            |r.blocks| == TotalRepetitions(SECOND_PLANS_NOTHING, 0) && !r.Ok()
  {
    hide PointResult;
    FirstPointResult();
    var r := RunnerResult([Block(1, 1)], [0], []).Then(ABORTED);
    assert SweepFrom(LOST_SERVER, SECOND_PLANS_NOTHING, 1) == Some(ABORTED);
    assert Sweep(LOST_SERVER, SECOND_PLANS_NOTHING) == Some(r);
    assert r.returnCodes[1] == 1;
    assert TotalRepetitions(SECOND_PLANS_NOTHING, 2) == 0 && TotalRepetitions(SECOND_PLANS_NOTHING, 1) == 0;
  }

  // ----- Which blocks ------------------------------------------------------------------------------------

  lemma RepBlock(env: Environment, point: nat, n: nat, b: Block)
    ensures b in PhaseResult(env, point, Rep(n)).blocks <==> b == Block(point, n) && env.outcome(point, Rep(n)).Good()
  {
  }

  lemma {:induction false} RepsBlocks(env: Environment, point: nat, n: nat, b: Block)
    ensures b in PhaseResults(env, point, Reps(n)).blocks
       <==> b.point == point && 1 <= b.repetition <= n && env.outcome(point, Rep(b.repetition)).Good()
  {
    assert Reps(0) == [] && PhaseResults(env, point, []) == EMPTY;
    hide PhaseResults, PhaseResult, Reps;
    if n > 0 {
      RepsBlocks(env, point, n - 1, b);
      RepsStep(env, point, n);
      RepBlock(env, point, n, b);
    }
  }

  /** A point's blocks are its good repetitions, unless its warmup failed. */
  lemma PointBlocks(env: Environment, point: nat, cfg: Config, b: Block)
    requires cfg.repetitions >= 1
    ensures b in PointResult(env, point, cfg).blocks
       <==> b.point == point && 1 <= b.repetition <= cfg.repetitions && env.outcome(point, Rep(b.repetition)).Good()
            && (cfg.fullWarmup ==> env.outcome(point, Warmup).Good())
  {
    RepsBlocks(env, point, cfg.repetitions, b);
    SinglePhase(env, point, Warmup);
    if cfg.fullWarmup {
      PhasesAppend(env, point, [Warmup], Reps(cfg.repetitions));
    } else {
      assert Phases(cfg) == Reps(cfg.repetitions);
    }
  }

  lemma {:induction false} SweepBlocksFrom(env: Environment, configs: seq<Config>, i: nat, b: Block)
    requires i <= |configs| && SweepFrom(env, configs, i).Some?
    ensures b in SweepFrom(env, configs, i).value.blocks
       <==> i < b.point <= |configs| && (forall p :: i < p <= b.point ==> env.HealthyAt(p))
            && b in PointResult(env, b.point, configs[b.point - 1]).blocks
    decreases |configs| - i
  {
    hide PointResult;
    if i < |configs| && env.HealthyAt(i + 1) {
      SweepBlocksFrom(env, configs, i + 1, b);
      PointBlocks(env, i + 1, configs[i], b);
    }
  }

  /** Exactly the blocks of a sweep that returns: good repetitions of points reached while the
      server stayed healthy, none of a point whose warmup failed. */
  lemma SweepBlocks(env: Environment, configs: seq<Config>, b: Block)
    requires Sweep(env, configs).Some? && (env.controller.Some? ==> env.controller.value.startsHealthy)
    ensures b in Sweep(env, configs).value.blocks
       <==> 1 <= b.point <= |configs| && (forall p :: 1 <= p <= b.point ==> ServerUp(env, p))
            && 1 <= b.repetition <= configs[b.point - 1].repetitions && Succeeds(env, b.point, Rep(b.repetition))
            && (configs[b.point - 1].fullWarmup ==> Succeeds(env, b.point, Warmup))
  {
    hide PointResult, SweepFrom;
    assert forall p: nat :: ServerUp(env, p) <==> env.HealthyAt(p);
    if configs != [] {
      SweepBlocksFrom(env, configs, 0, b);
      if 1 <= b.point <= |configs| && forall p :: 1 <= p <= b.point ==> env.HealthyAt(p) {
        ReachedPositive(env, configs, 0, b.point);
        PointBlocks(env, b.point, configs[b.point - 1], b);
      }
    }
  }

  lemma {:induction false} ReachedPositive(env: Environment, configs: seq<Config>, i: nat, point: nat)
    requires i < point <= |configs| && SweepFrom(env, configs, i).Some?
    requires forall p :: i < p <= point ==> env.HealthyAt(p)
    ensures configs[point - 1].repetitions >= 1
    decreases |configs| - i
  {
    hide PointResult;
    if i + 1 < point {
      ReachedPositive(env, configs, i + 1, point);
    }
  }
}
