/** scripts/build_docker_images.py: the resource-gated build queue. Resource readings, the order in
    which builds complete and their results come from the environment. */
module BuildQueues {
  import opened Orders
  import opened Wrappers

  // ----- Limits -----------------------------------------------------------------------------------

  datatype Needs = Needs(memoryPerBuild: real, memoryReserve: real, diskPerBuild: real, diskReserve: real)

  const CPU_CORES_PER_BUILD := 4

  function MinOf(a: int, b: int): int {
    if a <= b then a else b
  }

  function MaxOf(a: int, b: int): int {
    if a >= b then a else b
  }

  /** How many builds fit into what is available beside the reserve. */
  function Fitting(available: real, reserve: real, perBuild: real): int
    requires perBuild > 0.0
  {
    ((available - reserve) / perBuild).Floor
  }

  /** `n` builds at a time leave every reserve and limit in place. */
  predicate RoomFor(n: int, memory: real, disk: real, cpus: nat, needs: Needs, maxWorkers: Option<int>) {
    && n as real * needs.memoryPerBuild <= memory - needs.memoryReserve
    && n as real * needs.diskPerBuild <= disk - needs.diskReserve
    && n * 4 <= cpus
    && (maxWorkers.Some? ==> n <= maxWorkers.value)
  }

  /** The largest number of builds there is room for, and one where there is room for none. */
  function GetMaxConcurrentBuilds(
      memory: real, disk: real, cpus: nat, needs: Needs, maxWorkers: Option<int>): (limit: nat)
    requires needs.memoryPerBuild > 0.0 && needs.diskPerBuild > 0.0
    ensures limit >= 1
    ensures limit > 1 ==> RoomFor(limit, memory, disk, cpus, needs, maxWorkers)
    ensures !RoomFor(limit + 1, memory, disk, cpus, needs, maxWorkers)
  {
    var byMemory := Fitting(memory, needs.memoryReserve, needs.memoryPerBuild);
    var byDisk := Fitting(disk, needs.diskReserve, needs.diskPerBuild);
    var byCpu := cpus / CPU_CORES_PER_BUILD;
    var byResources := MaxOf(1, MinOf(byMemory, MinOf(byDisk, byCpu)));
    var limit := MaxOf(1, if maxWorkers.Some? then MinOf(byResources, maxWorkers.value) else byResources);
    RoomBelow(limit, memory, disk, cpus, needs, maxWorkers);
    RoomBelow(limit + 1, memory, disk, cpus, needs, maxWorkers);
    limit
  }

  /** `n` builds fit iff there is room for them. */
  lemma FitsBelow(available: real, reserve: real, perBuild: real, n: int)
    requires perBuild > 0.0
    ensures n <= Fitting(available, reserve, perBuild) <==> n as real * perBuild <= available - reserve
  {
    var room := available - reserve;
    var quotient := room / perBuild;
    assert quotient * perBuild == room;
    if n as real <= quotient {
      assert (quotient - n as real) * perBuild >= 0.0;
    } else {
      assert (n as real - quotient) * perBuild > 0.0;
    }
  }

  lemma RoomBelow(n: int, memory: real, disk: real, cpus: nat, needs: Needs, maxWorkers: Option<int>)
    requires needs.memoryPerBuild > 0.0 && needs.diskPerBuild > 0.0
    ensures RoomFor(n, memory, disk, cpus, needs, maxWorkers) <==>
              && n <= Fitting(memory, needs.memoryReserve, needs.memoryPerBuild)
              && n <= Fitting(disk, needs.diskReserve, needs.diskPerBuild)
              && n <= cpus / CPU_CORES_PER_BUILD
              && (maxWorkers.Some? ==> n <= maxWorkers.value)
  {
    FitsBelow(memory, needs.memoryReserve, needs.memoryPerBuild, n);
    FitsBelow(disk, needs.diskReserve, needs.diskPerBuild, n);
    hide Fitting;
  }

  predicate CheckResources(memory: real, disk: real, needs: Needs) {
    memory - needs.memoryReserve >= needs.memoryPerBuild && disk - needs.diskReserve >= needs.diskPerBuild
  }

  /** The check before each build asks what the initial limit computed: whether one build fits. */
  lemma CheckAgreesWithLimit(memory: real, disk: real, needs: Needs)
    requires needs.memoryPerBuild > 0.0 && needs.diskPerBuild > 0.0
    ensures CheckResources(memory, disk, needs) <==>
              && Fitting(memory, needs.memoryReserve, needs.memoryPerBuild) >= 1
              && Fitting(disk, needs.diskReserve, needs.diskPerBuild) >= 1
  {
    FitsBelow(memory, needs.memoryReserve, needs.memoryPerBuild, 1);
    FitsBelow(disk, needs.diskReserve, needs.diskPerBuild, 1);
  }

  // ----- Runs -------------------------------------------------------------------------------------

  /** What the queue did; builds are numbered in the order of their submission. */
  datatype Event<T> = Check(ok: bool) | Submit(item: T) | Complete(id: nat)

  function Submitted<T>(log: seq<Event<T>>): seq<T> {
    if log == [] then []
    else
      var e := log[|log| - 1];
      Submitted(log[..|log| - 1]) + if e.Submit? then [e.item] else []
  }

  function Completed<T>(log: seq<Event<T>>): seq<nat> {
    if log == [] then []
    else
      var e := log[|log| - 1];
      Completed(log[..|log| - 1]) + if e.Complete? then [e.id] else []
  }

  function Checks<T>(log: seq<Event<T>>): seq<bool> {
    if log == [] then []
    else
      var e := log[|log| - 1];
      Checks(log[..|log| - 1]) + if e.Check? then [e.ok] else []
  }

  function Running<T>(log: seq<Event<T>>): int {
    |Submitted(log)| - |Completed(log)|
  }

  /** The builds submitted before the first completion. */
  function Initial<T>(log: seq<Event<T>>): nat {
    if log == [] then 0
    else if Completed(log) != [] then Initial(log[..|log| - 1])
    else |Submitted(log)|
  }

  /** Every submission directly follows a passing check. */
  predicate Gated<T(==)>(log: seq<Event<T>>) {
    forall k :: 0 <= k < |log| && log[k].Submit? ==> k > 0 && log[k - 1] == Check(true)
  }

  predicate Capped<T>(log: seq<Event<T>>, most: int) {
    forall k :: 0 <= k <= |log| ==> 0 <= Running(log[..k]) <= most
  }

  /** While work is pending, every build completes among as many as were first started. */
  predicate Steady<T>(log: seq<Event<T>>, total: nat) {
    forall k :: 0 <= k < |log| && log[k].Complete? && |Submitted(log[..k])| < total ==>
        Running(log[..k]) == Initial(log)
  }

  /** Every build completes while it runs: after its submission, and once. */
  predicate Orderly<T>(log: seq<Event<T>>) {
    forall k :: 0 <= k < |log| && log[k].Complete? ==>
      log[k].id < |Submitted(log[..k])| && log[k].id !in Completed(log[..k])
  }

  /** A run the queue may have made: first in first out, every completed build was running, gated,
      capped and steady. */
  ghost predicate Safe<T>(items: seq<T>, most: int, log: seq<Event<T>>) {
    && Submitted(log) <= items
    && Orderly(log) && Distinct(Completed(log)) && (forall id :: id in Completed(log) ==> id < |Submitted(log)|)
    && Gated(log) && Capped(log, most) && Steady(log, |items|)
  }

  lemma Grows<T>(log: seq<Event<T>>, e: Event<T>)
    ensures (log + [e])[..|log|] == log
    ensures Submitted(log + [e]) == if e.Submit? then Submitted(log) + [e.item] else Submitted(log)
    ensures Completed(log + [e]) == if e.Complete? then Completed(log) + [e.id] else Completed(log)
    ensures Checks(log + [e]) == if e.Check? then Checks(log) + [e.ok] else Checks(log)
    ensures Initial(log + [e])
         == if Completed(log) == [] && !e.Complete? then |Submitted(log + [e])| else Initial(log)
  {
    assert (log + [e])[..|log|] == log;
  }

  lemma PrefixesStay<T>(log: seq<Event<T>>, e: Event<T>)
    ensures forall k :: 0 <= k <= |log| ==> (log + [e])[..k] == log[..k]
    ensures log[..|log|] == log && (log + [e])[..|log| + 1] == log + [e]
  {
  }

  lemma {:induction false} NothingCompleted<T>(log: seq<Event<T>>)
    requires Completed(log) == []
    ensures Initial(log) == |Submitted(log)| && forall k :: 0 <= k < |log| ==> !log[k].Complete?
  {
    if log != [] {
      NothingCompleted(log[..|log| - 1]);
    }
  }

  lemma CappedGrows<T>(log: seq<Event<T>>, e: Event<T>, most: int)
    requires Capped(log, most)
    requires e.Submit? ==> Running(log) < most
    requires e.Complete? ==> Running(log) > 0
    ensures Capped(log + [e], most)
  {
    PrefixesStay(log, e);
    Grows(log, e);
    hide Submitted, Completed;
    assert 0 <= Running(log[..|log|]) <= most;
    forall k | 0 <= k <= |log| + 1 ensures 0 <= Running((log + [e])[..k]) <= most {
      if k <= |log| {
        assert (log + [e])[..k] == log[..k];
      }
    }
  }

  lemma SteadyGrows<T>(log: seq<Event<T>>, e: Event<T>, total: nat)
    requires Steady(log, total)
    requires e.Complete? && |Submitted(log)| < total ==> Running(log) == Initial(log)
    ensures Steady(log + [e], total)
  {
    PrefixesStay(log, e);
    Grows(log, e);
    if Completed(log) == [] {
      NothingCompleted(log);
    }
    hide Submitted, Completed, Initial, Running;
  }

  lemma GatedGrows<T>(log: seq<Event<T>>, e: Event<T>)
    requires Gated(log) && (e.Submit? ==> log != [] && log[|log| - 1] == Check(true))
    ensures Gated(log + [e])
  {
  }

  lemma OrderlyGrows<T>(log: seq<Event<T>>, e: Event<T>)
    requires Orderly(log) && (e.Complete? ==> e.id < |Submitted(log)| && e.id !in Completed(log))
    ensures Orderly(log + [e])
  {
    PrefixesStay(log, e);
    hide Submitted, Completed;
  }

  /** A step the queue may take next. */
  ghost predicate Allowed<T>(items: seq<T>, most: int, log: seq<Event<T>>, e: Event<T>) {
    match e
    case Check(_) => true
    case Submit(item) =>
      && Running(log) < most && log != [] && log[|log| - 1] == Check(true)
      && |Submitted(log)| < |items| && item == items[|Submitted(log)|]
    case Complete(id) =>
      && Running(log) > 0 && id < |Submitted(log)| && id !in Completed(log)
      && (|Submitted(log)| < |items| ==> Running(log) == Initial(log))
  }

  lemma DistinctGrows(ids: seq<nat>, id: nat)
    requires Distinct(ids) && id !in ids
    ensures Distinct(ids + [id])
  {
  }

  /** Every allowed step keeps the run safe. */
  lemma AllowedIsSafe<T>(items: seq<T>, most: int, log: seq<Event<T>>, e: Event<T>)
    requires Safe(items, most, log) && Allowed(items, most, log, e)
    ensures Safe(items, most, log + [e])
  {
    hide Submitted, Completed, Initial, Gated, Capped, Steady, Orderly, Distinct;
    GatedGrows(log, e);
    OrderlyGrows(log, e);
    CappedGrows(log, e, most);
    SteadyGrows(log, e, |items|);
    Grows(log, e);
    if e.Complete? {
      DistinctGrows(Completed(log), e.id);
    }
  }

  // ----- Every moment of a run ----------------------------------------------------------------------

  lemma PrefixOfPrefix<T>(log: seq<Event<T>>, j: nat, k: nat)
    requires j <= k <= |log|
    ensures log[..k][..j] == log[..j]
  {
  }

  lemma {:induction false} PrefixSubmits<T>(log: seq<Event<T>>, k: nat)
    requires k <= |log|
    ensures Submitted(log[..k]) <= Submitted(log)
  {
    if k == |log| {
      assert log[..k] == log;
    } else {
      PrefixOfPrefix(log, k, |log| - 1);
      PrefixSubmits(log[..|log| - 1], k);
    }
  }

  lemma {:induction false} InitialFixed<T>(log: seq<Event<T>>, k: nat)
    requires k <= |log| && Completed(log[..k]) != []
    ensures Completed(log) != [] && Initial(log[..k]) == Initial(log)
  {
    if k == |log| {
      assert log[..k] == log;
    } else {
      PrefixOfPrefix(log, k, |log| - 1);
      InitialFixed(log[..|log| - 1], k);
    }
  }

  /** In an orderly run the builds completed so far are distinct and were submitted. */
  lemma {:induction false} OrderlyCompletes<T>(log: seq<Event<T>>)
    requires Orderly(log)
    ensures Distinct(Completed(log)) && forall id :: id in Completed(log) ==> id < |Submitted(log)|
  {
    if log != [] {
      var n := |log| - 1;
      OrderlyPrefix(log, n);
      OrderlyCompletes(log[..n]);
      assert log == log[..n] + [log[n]];
      Grows(log[..n], log[n]);
      if log[n].Complete? {
        DistinctGrows(Completed(log[..n]), log[n].id);
      }
    }
  }

  lemma OrderlyPrefix<T>(log: seq<Event<T>>, k: nat)
    requires Orderly(log) && k <= |log|
    ensures Orderly(log[..k])
  {
    hide Submitted, Completed;
    forall j | 0 <= j < k && log[..k][j].Complete?
      ensures log[j].id < |Submitted(log[..k][..j])| && log[j].id !in Completed(log[..k][..j])
    {
      PrefixOfPrefix(log, j, k);
    }
  }

  lemma CappedPrefix<T>(log: seq<Event<T>>, most: int, k: nat)
    requires Capped(log, most) && k <= |log|
    ensures Capped(log[..k], most)
  {
    hide Running;
    forall j | 0 <= j <= k ensures 0 <= Running(log[..k][..j]) <= most {
      PrefixOfPrefix(log, j, k);
    }
  }

  lemma SteadyPrefix<T>(log: seq<Event<T>>, total: nat, k: nat)
    requires Steady(log, total) && k <= |log|
    ensures Steady(log[..k], total)
  {
    hide Running, Initial, Submitted, Completed;
    forall j | 0 <= j < k && log[..k][j].Complete? && |Submitted(log[..k][..j])| < total
      ensures Running(log[..k][..j]) == Initial(log[..k])
    {
      PrefixOfPrefix(log, j, k);
      if Completed(log[..k]) == [] {
        NothingCompleted(log[..k]);
      }
      InitialFixed(log, k);
    }
  }

  /** A safe run was safe at every moment. */
  lemma SafePrefix<T>(items: seq<T>, most: int, log: seq<Event<T>>, k: nat)
    requires Safe(items, most, log) && k <= |log|
    ensures Safe(items, most, log[..k])
  {
    PrefixSubmits(log, k);
    OrderlyPrefix(log, k);
    OrderlyCompletes(log[..k]);
    CappedPrefix(log, most, k);
    SteadyPrefix(log, |items|, k);
    hide Submitted, Completed, Orderly, Capped, Steady, Distinct;
  }

  /** Safe at every moment. */
  ghost predicate SafeThroughout<T>(items: seq<T>, most: int, log: seq<Event<T>>) {
    forall k :: 0 <= k <= |log| ==> Safe(items, most, log[..k])
  }

  lemma SafeRunsWereSafe<T>(items: seq<T>, most: int, log: seq<Event<T>>)
    requires Safe(items, most, log)
    ensures SafeThroughout(items, most, log)
  {
    hide Safe;
    forall k | 0 <= k <= |log| ensures Safe(items, most, log[..k]) {
      SafePrefix(items, most, log, k);
    }
  }

  /** Waiting, running and finished builds at one moment of a run. */
  datatype Parts<T> = Parts(pending: seq<T>, running: set<nat>, finished: set<nat>)

  ghost function PartsOf<T>(items: seq<T>, log: seq<Event<T>>): Parts<T>
    requires |Submitted(log)| <= |items|
  {
    Parts(
      items[|Submitted(log)|..],
      set id: nat | id < |Submitted(log)| && id !in Completed(log),
      set id | id in Completed(log))
  }

  /** At every moment of a safe run pending, running and finished builds partition the input, and
      as many run as the counters say, never more than the limit. */
  lemma MomentPartitions<T>(items: seq<T>, most: int, log: seq<Event<T>>, k: nat)
    requires Safe(items, most, log) && k <= |log|
    ensures |Submitted(log[..k])| <= |items|
    ensures var p := PartsOf(items, log[..k]);
            && p.running !! p.finished
            && (forall id: nat :: id in p.running + p.finished <==> id < |Submitted(log[..k])|)
            && Submitted(log[..k]) + p.pending == items
            && |p.running| == Running(log[..k]) <= most && |p.finished| == |Completed(log[..k])|
  {
    SafePrefix(items, most, log, k);
    var l := log[..k];
    assert l[..|l|] == l;
    hide Submitted, Orderly, Gated, Steady;
    DistinctSize(Completed(l));
    hide Completed;
    var n, done := |Submitted(l)|, set id | id in Completed(l);
    CountBelow(n);
    var all := Below(n);
    assert done <= all;
    assert PartsOf(items, l).running == all - done;
  }

  function Below(n: nat): set<nat> {
    if n == 0 then {} else Below(n - 1) + {n - 1}
  }

  lemma {:induction false} CountBelow(n: nat)
    ensures |Below(n)| == n && forall id: nat :: id in Below(n) <==> id < n
  {
    if n > 0 {
      CountBelow(n - 1);
    }
  }

  // ----- The queue --------------------------------------------------------------------------------

  function Passes(checks: seq<bool>): nat {
    if checks == [] then 0
    else Passes(checks[..|checks| - 1]) + if checks[|checks| - 1] then 1 else 0
  }

  function Outcomes<R>(ids: seq<nat>, outcome: nat -> R): seq<R> {
    seq(|ids|, i requires 0 <= i < |ids| => outcome(ids[i]))
  }

  /** Some of the running builds, in some order. */
  ghost predicate IsBatch(batch: seq<nat>, active: set<nat>) {
    batch != [] && Distinct(batch) && forall i :: 0 <= i < |batch| ==> batch[i] in active
  }

  ghost predicate Pending<T>(items: seq<T>, log: seq<Event<T>>, pending: seq<T>) {
    |Submitted(log)| <= |items| && pending == items[|Submitted(log)|..]
  }

  ghost predicate ActiveIs<T>(items: seq<T>, n: nat, done: seq<nat>, active: map<nat, T>) {
    && |active| == n - |done| && n <= |items|
    && (forall id: nat :: id in active <==> id < n && id !in done)
    && (forall id: nat :: id in active ==> active[id] == items[id])
  }

  /** The running builds are those submitted and not completed. */
  ghost predicate Active<T>(items: seq<T>, log: seq<Event<T>>, active: map<nat, T>) {
    ActiveIs(items, |Submitted(log)|, Completed(log), active)
  }

  lemma SubmittedIsActive<T>(items: seq<T>, n: nat, done: seq<nat>, active: map<nat, T>)
    requires ActiveIs(items, n, done, active) && n < |items| && n !in done
    ensures ActiveIs(items, n + 1, done, active[n := items[n]])
  {
    assert n !in active;
  }

  lemma CompletedIsNot<T>(items: seq<T>, n: nat, done: seq<nat>, active: map<nat, T>, id: nat)
    requires ActiveIs(items, n, done, active) && id in active
    ensures ActiveIs(items, n, done + [id], active - {id})
  {
    assert active.Keys == (active - {id}).Keys + {id};
    assert |active| == |active.Keys| && |active - {id}| == |(active - {id}).Keys|;
    assert forall other :: other in done + [id] <==> other in done || other == id;
  }

  lemma ActiveAfterSubmit<T>(items: seq<T>, log: seq<Event<T>>, active: map<nat, T>)
    requires Active(items, log, active) && |Submitted(log)| < |items|
    requires forall id :: id in Completed(log) ==> id < |Submitted(log)|
    ensures Active(items, log + [Submit(items[|Submitted(log)|])], active[|Submitted(log)| := items[|Submitted(log)|]])
  {
    hide Submitted, Completed;
    assert |Submitted(log)| !in Completed(log);
    SubmittedIsActive(items, |Submitted(log)|, Completed(log), active);
    hide ActiveIs;
    Grows(log, Submit(items[|Submitted(log)|]));
  }

  lemma ActiveAfterComplete<T>(items: seq<T>, log: seq<Event<T>>, active: map<nat, T>, id: nat)
    requires Active(items, log, active) && id in active
    ensures Active(items, log + [Complete(id)], active - {id})
  {
    hide Submitted, Completed;
    CompletedIsNot(items, |Submitted(log)|, Completed(log), active, id);
    hide ActiveIs;
    Grows(log, Complete(id));
  }

  lemma CompletionAllowed<T>(
      items: seq<T>, most: int, log: seq<Event<T>>, pending: seq<T>, active: map<nat, T>, id: nat)
    requires Pending(items, log, pending) && Active(items, log, active) && id in active
    requires pending != [] ==> |active| == Initial(log)
    ensures Allowed(items, most, log, Complete(id))
  {
    hide Submitted, Completed, Initial;
    assert active != map[];
  }

  lemma SafeInOrder<T>(items: seq<T>, most: int, log: seq<Event<T>>)
    requires Safe(items, most, log)
    ensures Submitted(log) <= items && forall id :: id in Completed(log) ==> id < |Submitted(log)|
  {
  }

  lemma NoneCompletedYet<T>(items: seq<T>, log: seq<Event<T>>, active: map<nat, T>)
    requires Active(items, log, active) && Completed(log) == []
    ensures Initial(log) == |active|
  {
    NothingCompleted(log);
  }

  /** Every passing check has led to a submission. */
  ghost predicate Balanced<T>(log: seq<Event<T>>) {
    Passes(Checks(log)) == |Submitted(log)|
  }

  lemma FailureBalances<T>(log: seq<Event<T>>)
    requires Balanced(log)
    ensures Balanced(log + [Check(false)]) && Completed(log + [Check(false)]) == Completed(log)
    ensures Initial(log + [Check(false)]) == Initial(log) && Submitted(log + [Check(false)]) == Submitted(log)
  {
    Grows(log, Check(false));
    if Completed(log) == [] { NothingCompleted(log); }
    assert (Checks(log) + [false])[..|Checks(log)|] == Checks(log);
  }

  lemma SubmissionBalances<T>(log: seq<Event<T>>, item: T)
    requires Balanced(log)
    ensures var after := log + [Check(true)] + [Submit(item)];
            && Balanced(after) && Completed(after) == Completed(log)
            && Initial(after) == (if Completed(log) == [] then |Submitted(log)| + 1 else Initial(log))
            && Submitted(after) == Submitted(log) + [item]
  {
    Grows(log, Check(true));
    Grows(log + [Check(true)], Submit(item));
    hide Submitted, Completed, Initial, Checks;
    assert (Checks(log) + [true])[..|Checks(log)|] == Checks(log);
    assert Checks(log + [Check(true)] + [Submit(item)]) == Checks(log) + [true];
  }

  lemma CompletionBalances<T>(log: seq<Event<T>>, id: nat)
    requires Balanced(log)
    ensures Balanced(log + [Complete(id)]) && Initial(log + [Complete(id)]) == Initial(log)
    ensures Completed(log + [Complete(id)]) == Completed(log) + [id]
    ensures Submitted(log + [Complete(id)]) == Submitted(log)
  {
    Grows(log, Complete(id));
    assert Checks(log + [Complete(id)]) == Checks(log);
  }

  lemma {:induction false} FirstCompletionFollows<T>(log: seq<Event<T>>, most: int)
    requires Capped(log, most) && Completed(log) != []
    ensures Initial(log) >= 1
  {
    var before := log[..|log| - 1];
    assert forall k :: 0 <= k <= |before| ==> before[..k] == log[..k];
    if Completed(before) == [] {
      NothingCompleted(before);
      assert log[..|log|] == log;
      assert Running(log) >= 0;
    } else {
      FirstCompletionFollows(before, most);
    }
  }

  /** When nothing runs, and work that is pending would have kept the initial number running,
      everything submitted at all means everything is done. */
  lemma NothingLeft<T>(items: seq<T>, most: int, log: seq<Event<T>>, pending: seq<T>, active: map<nat, T>)
    requires Safe(items, most, log) && Pending(items, log, pending) && Active(items, log, active)
    requires active == map[] && (pending != [] ==> Initial(log) == 0)
    ensures |Completed(log)| == |Submitted(log)|
    ensures Submitted(log) != [] ==>
              pending == [] && Submitted(log) == items && forall id :: 0 <= id < |items| ==> id in Completed(log)
  {
    if Completed(log) == [] {
      NothingCompleted(log);
    } else {
      FirstCompletionFollows(log, most);
    }
    hide Initial, Capped, Gated, Steady;
  }

  lemma Unfinished<T>(log: seq<Event<T>>, items: seq<T>, pending: seq<T>, readings: seq<bool>)
    requires Balanced(log) && Checks(log) == readings && Pending(items, log, pending) && pending != []
    ensures Passes(readings) < |items|
  {
    hide Submitted, Checks, Passes;
  }

  /** Resource readings are given up to some moment: `readings` are all there have been. */
  class BuildQueue<T(==), R> {
    const items: seq<T>
    const maxConcurrent: nat
    const readings: seq<bool>
    const outcome: nat -> R
    var pending: seq<T>
    var active: map<nat, T>
    var submitted: nat
    var results: seq<R>
    var used: nat
    ghost var log: seq<Event<T>>

    ghost predicate Valid()
      reads this
    {
      && Safe(items, maxConcurrent, log)
      && Pending(items, log, pending) && Active(items, log, active) && submitted == |Submitted(log)|
      && results == Outcomes(Completed(log), outcome)
      && used <= |readings| && Checks(log) == readings[..used]
    }

    constructor (items: seq<T>, maxConcurrent: nat, readings: seq<bool>, outcome: nat -> R)
      requires maxConcurrent >= 1
      ensures Valid() && log == [] && this.items == items && this.maxConcurrent == maxConcurrent
      ensures this.readings == readings && this.outcome == outcome
    {
      this.items, this.maxConcurrent, this.readings, this.outcome := items, maxConcurrent, readings, outcome;
      pending, active, submitted, results, used, log := items, map[], 0, [], 0, [];
    }

    method CheckResourcesForNewBuild() returns (ok: bool)
      requires Valid() && used < |readings|
      modifies `used, `log
      ensures Valid() && used == old(used) + 1 && ok == readings[old(used)]
      ensures log == old(log) + [Check(ok)]
    {
      hide Safe, Submitted, Completed, Checks, Initial, Capped, Gated, Steady, ActiveIs, Outcomes;
      ok := readings[used];
      Grows(log, Check(ok));
      AllowedIsSafe(items, maxConcurrent, log, Check(ok));
      assert readings[..used + 1] == readings[..used] + [ok];
      used := used + 1;
      log := log + [Check(ok)];
    }

    method SubmitNext()
      requires Valid() && log != [] && log[|log| - 1] == Check(true) && |active| < maxConcurrent
      modifies `pending, `active, `submitted, `log
      ensures Valid()
      ensures old(pending) == [] ==> log == old(log) && pending == []
      ensures old(pending) != [] ==>
                && log == old(log) + [Submit(old(pending)[0])] && pending == old(pending)[1..]
                && active == old(active)[old(submitted) := old(pending)[0]] && |active| == old(|active|) + 1
    {
      hide Submitted, Completed, Checks, Initial;
      if pending == [] {
        return;
      }
      var item := pending[0];
      SafeInOrder(items, maxConcurrent, log);
      hide Safe;
      Grows(log, Submit(item));
      AllowedIsSafe(items, maxConcurrent, log, Submit(item));
      ActiveAfterSubmit(items, log, active);
      pending := pending[1..];
      active := active[submitted := item];
      submitted := submitted + 1;
      log := log + [Submit(item)];
    }

    method CompleteBuild(id: nat)
      requires Valid() && id in active
      requires pending != [] ==> |active| == Initial(log)
      modifies `active, `results, `log
      ensures Valid() && log == old(log) + [Complete(id)] && active == old(active) - {id}
    {
      hide Safe, Submitted, Completed, Checks, Initial, Active, Allowed;
      Grows(log, Complete(id));
      CompletionAllowed(items, maxConcurrent, log, pending, active, id);
      AllowedIsSafe(items, maxConcurrent, log, Complete(id));
      ActiveAfterComplete(items, log, active, id);
      active := active - {id};
      results := results + [outcome(id)];
      log := log + [Complete(id)];
    }

    /** Waits for a passing check; false when the readings end first. */
    method WaitForResourcesAndSubmit() returns (done: bool)
      requires Valid() && Balanced(log) && pending != [] && |active| < maxConcurrent && Completed(log) != []
      modifies `used, `pending, `active, `submitted, `log
      ensures Valid() && Balanced(log)
      ensures Completed(log) == old(Completed(log)) && Initial(log) == old(Initial(log))
      ensures done ==> |active| == old(|active|) + 1
      ensures done ==> forall id :: id in old(active) ==> id in active
      ensures !done ==> used == |readings| && pending != []
    {
      hide Balanced, Submitted, Completed, Checks, Initial, Safe, Pending, Active;
      while used < |readings|
        invariant Valid() && Balanced(log) && pending == old(pending) && active == old(active)
        invariant Completed(log) == old(Completed(log)) && Initial(log) == old(Initial(log))
        decreases |readings| - used
      {
        ghost var before := log;
        var ok := CheckResourcesForNewBuild();
        if ok {
          SubmissionBalances(before, pending[0]);
          SubmitNext();
          return true;
        }
        FailureBalances(before);
      }
      return false;
    }

    /** The initial submissions, until a check fails; false when the readings end first. */
    method SubmitInitial() returns (done: bool)
      requires Valid() && log == [] && maxConcurrent >= 1
      modifies `used, `pending, `active, `submitted, `log
      ensures Valid() && Balanced(log) && Completed(log) == [] && |active| <= maxConcurrent
      ensures done && Submitted(log) == [] ==> items == [] || log == [Check(false)]
      ensures !done ==> used == |readings| && pending != []
    {
      assert Submitted(log) == [];
      assert Balanced(log) && Completed(log) == [];
      assert pending == items;
      hide Balanced, Submitted, Completed, Checks, Initial, Safe, Active;
      while pending != [] && |active| < maxConcurrent
        invariant Valid() && Balanced(log) && Completed(log) == [] && |active| <= maxConcurrent
        invariant Submitted(log) == [] ==> log == [] && pending == items
        invariant Submitted(log) == [] ==> |active| == 0
        decreases |readings| - used
      {
        if used == |readings| {
          return false;
        }
        ghost var before := log;
        var ok := CheckResourcesForNewBuild();
        if !ok {
          FailureBalances(before);
          return true;
        }
        SubmissionBalances(before, pending[0]);
        SubmitNext();
      }
      return true;
    }

    /** The builds of one wait, each followed by a submission while work is pending. */
    method CompleteBatch(batch: seq<nat>) returns (done: bool)
      requires Valid() && Balanced(log) && IsBatch(batch, active.Keys)
      requires Initial(log) <= maxConcurrent && (pending != [] ==> |active| == Initial(log))
      modifies this
      ensures Valid() && Balanced(log) && Initial(log) == old(Initial(log))
      ensures |Completed(log)| <= |items|
      ensures done ==> Submitted(log) != [] && |Completed(log)| > old(|Completed(log)|)
      ensures done && pending != [] ==> |active| == Initial(log)
      ensures !done ==> used == |readings| && pending != []
    {
      hide Balanced, Checks, Initial, Safe, Submitted, Completed, Pending, Active;
      for j := 0 to |batch|
        invariant Valid() && Balanced(log) && Initial(log) == old(Initial(log))
        invariant pending != [] ==> |active| == Initial(log)
        invariant forall i :: j <= i < |batch| ==> batch[i] in active
        invariant |Completed(log)| == old(|Completed(log)|) + j
      {
        ghost var before := log;
        CompleteBuild(batch[j]);
        CompletionBalances(before, batch[j]);
        if pending != [] {
          done := WaitForResourcesAndSubmit();
          if !done {
            CompletionsCounted();
            return;
          }
        }
      }
      CompletionsCounted();
      return true;
    }

    /** Runs the queue to its end, or to the last reading. `order` picks and orders the builds seen
        to be complete at each wait. */
    method Run(order: (nat, set<nat>) -> seq<nat>) returns (finished: bool)
      requires Valid() && log == [] && maxConcurrent >= 1
      requires forall n, ids :: ids != {} ==> IsBatch(order(n, ids), ids)
      modifies this
      ensures Valid()
      ensures finished && Submitted(log) != [] ==>
                && pending == [] && active == map[] && Submitted(log) == items && |results| == |items|
                && forall id :: 0 <= id < |items| ==> id in Completed(log)
      ensures finished && Submitted(log) == [] ==> results == [] && (items == [] || log == [Check(false)])
      ensures !finished ==> used == |readings| && Passes(readings) < |items|
      ensures SafeThroughout(items, maxConcurrent, log)
    {
      hide Balanced, Checks, Initial, Safe, Submitted, Completed, Pending, Active, SafeThroughout;
      finished := SubmitInitial();
      ghost var m := |active|;
      if !finished {
        SafeRunsWereSafe(items, maxConcurrent, log);
        Unfinished(log, items, pending, readings);
        return;
      }
      NoneCompletedYet(items, log, active);
      var waits := 0;
      while active != map[]
        invariant Valid() && Balanced(log) && Initial(log) == m && m <= maxConcurrent && |Completed(log)| <= |items|
        invariant pending != [] ==> |active| == m
        invariant Submitted(log) == [] ==> items == [] || log == [Check(false)]
        decreases |items| - |Completed(log)|
      {
        var batch := order(waits, active.Keys);
        waits := waits + 1;
        finished := CompleteBatch(batch);
        if !finished {
          SafeRunsWereSafe(items, maxConcurrent, log);
          Unfinished(log, items, pending, readings);
          return;
        }
      }
      SafeRunsWereSafe(items, maxConcurrent, log);
      NothingLeft(items, maxConcurrent, log, pending, active);
      return true;
    }

    lemma CompletionsCounted()
      requires Valid()
      ensures |Completed(log)| <= |Submitted(log)| <= |items| && |results| == |Completed(log)|
    {
      hide Submitted, Completed, Initial, Gated, Steady, Pending, Checks;
      assert log[..|log|] == log;
      assert 0 <= Running(log);
    }
  }
}
