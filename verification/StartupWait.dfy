/** utils/prompt_client.py: waiting for the server to become healthy. */
module StartupWait {
  import opened Wrappers
  import opened CacheMonitors
  import opened Reals

  datatype Health = Status(code: int) | Raised

  /** What the environment does during one poll: the delays before each reading of the clock and
      after the sleep are at least zero, as the clock never runs back. */
  datatype PollInput = PollInput(
    files: Markers, snapshot: Snapshot, health: Health, written: bool,
    beforeGuard: real, beforeRequest: real, beforeSnapshot: real, beforeSleep: real, oversleep: real)
  {
    predicate Monotone() {
      beforeGuard >= 0.0 && beforeRequest >= 0.0 && beforeSnapshot >= 0.0 && beforeSleep >= 0.0 && oversleep >= 0.0
    }
  }

  /** What one poll did, and how long after the start it began. */
  datatype PollRecord = PollRecord(at: real, status: GenerationStatus, probe: Option<Health>, marked: bool)

  function CodeOf(reply: Health): Option<int> {
    if reply.Raised? then None else Some(reply.code)
  }

  function Max(a: real, b: real): real {
    if a >= b then a else b
  }

  /** The number of polls that fit before `limit`. */
  function MostPolls(limit: real): nat {
    if limit <= 0.0 then 0 else Ceil(limit)
  }

  lemma PollFits(k: nat, limit: real)
    requires k as real < limit
    ensures k + 1 <= MostPolls(limit)
  {
    assert -limit < -(k as real);
    assert (-limit).Floor < -(k as int);
  }

  predicate Healthy(r: PollRecord) {
    r.probe == Some(Status(200))
  }

  /** A poll that leads to another one. */
  predicate Continues(r: PollRecord) {
    !r.status.progress.isStalled && r.probe.Some? && !Healthy(r) && !r.marked
  }

  /** A poll probes unless it is stalled, and marks the cache complete iff it reported generation
      and was answered 200. */
  predicate WellProbed(r: PollRecord) {
    && (r.status.progress.isStalled <==> r.probe.None?)
    && (r.marked <==> Healthy(r) && r.status.isGenerating)
  }

  /** Only a last poll stalls or succeeds. */
  predicate HonestTrace(trace: seq<PollRecord>) {
    && (forall i :: 0 <= i < |trace| - 1 ==> Continues(trace[i]))
    && (forall i :: 0 <= i < |trace| ==> WellProbed(trace[i]))
  }

  /** Each poll's status is the one the monitor's history, as it then was, calls for. */
  ghost predicate ReportsOf(disabled: bool, trace: seq<PollRecord>, h: seq<Event>, start: nat) {
    if disabled then forall i :: 0 <= i < |trace| ==> trace[i].status == DISABLED_STATUS
    else
      && start + |trace| <= |h|
      && forall i :: 0 <= i < |trace| ==> IsStatus(h[..start + i + 1], trace[i].status)
  }

  lemma ReportsExtend(disabled: bool, trace: seq<PollRecord>, h: seq<Event>, start: nat, e: Event)
    requires ReportsOf(disabled, trace, h, start)
    ensures ReportsOf(disabled, trace, h + [e], start)
  {
    hide IsStatus;
    if !disabled {
      forall i | 0 <= i < |trace| ensures IsStatus((h + [e])[..start + i + 1], trace[i].status) {
        assert (h + [e])[..start + i + 1] == h[..start + i + 1];
      }
    }
  }

  lemma ReportsGrow(trace: seq<PollRecord>, h: seq<Event>, start: nat, e: Event, r: PollRecord)
    requires ReportsOf(false, trace, h, start) && start + |trace| == |h| && IsStatus(h + [e], r.status)
    ensures ReportsOf(false, trace + [r], h + [e], start)
  {
    hide IsStatus;
    ReportsExtend(false, trace, h, start, e);
    assert (h + [e])[..start + |trace| + 1] == h + [e];
  }

  /** Whether marking the cache complete takes effect. */
  predicate Marks(target: Target, written: bool) {
    target.DockerVolume? || (target.LocalDirectory? && written)
  }

  /** The event of a poll that began `at` after the start. */
  function PollEvent(target: Target, h: seq<Event>, input: PollInput, start: real, at: real): Event {
    Poll(if target.LocalDirectory? then input.files else MarkersKept(h), input.snapshot,
         start + at + input.beforeRequest + input.beforeSnapshot)
  }

  /** The monitor's history after these polls, and no mark. */
  function HistoryAfter(target: Target, h: seq<Event>, trace: seq<PollRecord>, env: nat -> PollInput,
      start: real): seq<Event>
  {
    if trace == [] || target.Disabled? then h
    else
      var n := |trace| - 1;
      var earlier := HistoryAfter(target, h, trace[..n], env, start);
      earlier + [PollEvent(target, earlier, env(n), start, trace[n].at)]
  }

  /** What the last poll adds beyond its own event. */
  function Completion(target: Target, trace: seq<PollRecord>, env: nat -> PollInput): seq<Event> {
    if trace != [] && trace[|trace| - 1].marked && Marks(target, env(|trace| - 1).written)
    then [CompletedMarked]
    else []
  }

  /** The replies these polls were given. */
  function ProbesOf(trace: seq<PollRecord>): seq<Health> {
    if trace == [] then []
    else
      var r := trace[|trace| - 1];
      if r.probe.Some? then ProbesOf(trace[..|trace| - 1]) + [r.probe.value] else ProbesOf(trace[..|trace| - 1])
  }

  /** Every probe was answered with the reply of its own poll. */
  predicate Answered(trace: seq<PollRecord>, env: nat -> PollInput) {
    forall i :: 0 <= i < |trace| && trace[i].probe.Some? ==> trace[i].probe == Some(env(i).health)
  }

  lemma {:induction false} HistoryAfterShape(
      target: Target, h: seq<Event>, trace: seq<PollRecord>, env: nat -> PollInput, start: real)
    ensures var after := HistoryAfter(target, h, trace, env, start);
            && h <= after && |after| == |h| + (if target.Disabled? then 0 else |trace|)
            && forall k :: |h| <= k < |after| ==> after[k].Poll?
  {
    if trace != [] {
      HistoryAfterShape(target, h, trace[..|trace| - 1], env, start);
    }
  }

  /** Beyond the polls a history holds a completion mark only right after the last of them. */
  lemma CompletionsAreLast(
      target: Target, h: seq<Event>, trace: seq<PollRecord>, env: nat -> PollInput, start: real, tail: seq<Event>)
    requires forall i :: 0 <= i < |tail| ==> tail[i].Poll?
    ensures var polls := HistoryAfter(target, h, trace, env, start);
            var after := polls + Completion(target, trace, env) + tail;
            forall k :: |h| <= k < |after| && after[k].CompletedMarked? ==>
              k == |polls| && trace != [] && trace[|trace| - 1].marked
  {
    HistoryAfterShape(target, h, trace, env, start);
    hide HistoryAfter;
    var polls, mark := HistoryAfter(target, h, trace, env, start), Completion(target, trace, env);
    var after := polls + mark + tail;
    assert forall k :: |polls| + |mark| <= k < |after| ==> after[k] == tail[k - |polls| - |mark|];
    assert forall k :: 0 <= k < |polls| ==> after[k] == polls[k];
  }

  /** What one poll adds to the monitor's history. */
  ghost predicate Polled(
      target: Target, h: seq<Event>, h': seq<Event>, input: PollInput, start: real, r: PollRecord)
  {
    if target.Disabled? then r.status == DISABLED_STATUS && h' == h
    else
      var polled := h + [PollEvent(target, h, input, start, r.at)];
      && IsStatus(polled, r.status)
      && h' == polled + if r.marked && Marks(target, input.written) then [CompletedMarked] else []
  }

  lemma HistoryAfterPoll(
      target: Target, trace: seq<PollRecord>, env: nat -> PollInput, h0: seq<Event>, start: real, r: PollRecord)
    ensures HistoryAfter(target, h0, trace + [r], env, start)
         == var h := HistoryAfter(target, h0, trace, env, start);
            if target.Disabled? then h0 else h + [PollEvent(target, h, env(|trace|), start, r.at)]
  {
    hide PollEvent;
    assert (trace + [r])[..|trace|] == trace;
  }

  lemma ReportsAfterPoll(
      target: Target, trace: seq<PollRecord>, h0: seq<Event>, h: seq<Event>, h': seq<Event>, input: PollInput,
      start: real, r: PollRecord)
    requires ReportsOf(target.Disabled?, trace, h, |h0|) && Polled(target, h, h', input, start, r)
    requires target.Disabled? || |h| == |h0| + |trace|
    ensures ReportsOf(target.Disabled?, trace + [r], h', |h0|)
  {
    hide IsStatus, PollEvent;
    if !target.Disabled? {
      var e := PollEvent(target, h, input, start, r.at);
      ReportsGrow(trace, h, |h0|, e, r);
      hide ReportsOf;
      ReportsExtend(false, trace + [r], h + [e], |h0|, CompletedMarked);
      assert h' == h + [e] || h' == h + [e] + [CompletedMarked];
    }
  }

  lemma ProbesGrow(trace: seq<PollRecord>, r: PollRecord)
    ensures ProbesOf(trace + [r]) == if r.probe.Some? then ProbesOf(trace) + [r.probe.value] else ProbesOf(trace)
  {
    assert (trace + [r])[..|trace|] == trace;
  }

  lemma AnswersGrow(trace: seq<PollRecord>, env: nat -> PollInput, r: PollRecord)
    requires Answered(trace, env) && (r.probe.Some? ==> r.probe == Some(env(|trace|).health))
    ensures Answered(trace + [r], env)
  {
  }

  /** The monitor and the server saw exactly what the trace tells: one poll event a record, the
      statuses they call for, the probes made and no other, and a completion mark only if the last
      poll made one. */
  ghost predicate Recorded(
      target: Target, before: seq<Event>, asked: seq<Health>, trace: seq<PollRecord>, env: nat -> PollInput,
      start: real,
      history: seq<Event>, probes: seq<Health>)
  {
    && ReportsOf(target.Disabled?, trace, history, |before|)
    && history == HistoryAfter(target, before, trace, env, start) + Completion(target, trace, env)
    && Answered(trace, env) && probes == asked + ProbesOf(trace)
  }

  lemma RecordedGrows(
      target: Target, before: seq<Event>, asked: seq<Health>, trace: seq<PollRecord>, env: nat -> PollInput,
      start: real,
      h: seq<Event>, probes: seq<Health>, h': seq<Event>, probes': seq<Health>, r: PollRecord)
    requires Recorded(target, before, asked, trace, env, start, h, probes)
    requires trace != [] ==> !trace[|trace| - 1].marked
    requires Polled(target, h, h', env(|trace|), start, r) && (target.Disabled? ==> !r.marked)
    requires r.probe.Some? ==> r.probe == Some(env(|trace|).health)
    requires probes' == if r.probe.Some? then probes + [r.probe.value] else probes
    ensures Recorded(target, before, asked, trace + [r], env, start, h', probes')
  {
    NoCompletionYet(target, trace, env, h, HistoryAfter(target, before, trace, env, start));
    HistoryAfterShape(target, before, trace, env, start);
    hide HistoryAfter, ReportsOf, Polled, Answered, ProbesOf, Completion;
    ReportsAfterPoll(target, trace, before, h, h', env(|trace|), start, r);
    ProbesFollow(asked, trace, r, probes, probes');
    AnswersGrow(trace, env, r);
    HistoryGrowsBy(target, before, trace, env, start, h', r);
  }

  lemma NoCompletionYet(
      target: Target, trace: seq<PollRecord>, env: nat -> PollInput, h: seq<Event>, polls: seq<Event>)
    requires h == polls + Completion(target, trace, env) && (trace != [] ==> !trace[|trace| - 1].marked)
    ensures h == polls
  {
  }

  lemma ProbesFollow(asked: seq<Health>, trace: seq<PollRecord>, r: PollRecord, probes: seq<Health>,
      probes': seq<Health>)
    requires probes == asked + ProbesOf(trace)
    requires probes' == if r.probe.Some? then probes + [r.probe.value] else probes
    ensures probes' == asked + ProbesOf(trace + [r])
  {
    ProbesGrow(trace, r);
    hide ProbesOf;
  }

  lemma HistoryGrowsBy(
      target: Target, before: seq<Event>, trace: seq<PollRecord>, env: nat -> PollInput, start: real, h': seq<Event>,
      r: PollRecord)
    requires Polled(target, HistoryAfter(target, before, trace, env, start), h', env(|trace|), start, r)
    requires target.Disabled? ==> !r.marked
    ensures h' == HistoryAfter(target, before, trace + [r], env, start) + Completion(target, trace + [r], env)
  {
    hide HistoryAfter, IsStatus, PollEvent;
    HistoryAfterPoll(target, trace, env, before, start, r);
    assert (trace + [r])[|trace|] == r;
    if target.Disabled? {
      DisabledHistory(target, before, trace, env, start);
      DisabledHistory(target, before, trace + [r], env, start);
    }
  }

  lemma DisabledHistory(target: Target, h: seq<Event>, trace: seq<PollRecord>, env: nat -> PollInput, start: real)
    requires target.Disabled?
    ensures HistoryAfter(target, h, trace, env, start) == h
  {
  }

  lemma HonestGrows(trace: seq<PollRecord>, r: PollRecord)
    requires HonestTrace(trace) && forall i :: 0 <= i < |trace| ==> Continues(trace[i])
    requires WellProbed(r)
    ensures HonestTrace(trace + [r])
    ensures Continues(r) ==> forall i :: 0 <= i < |trace + [r]| ==> Continues((trace + [r])[i])
  {
    hide Continues, Healthy;
  }

  /** The timeout in force after these polls. */
  function LimitAfter(trace: seq<PollRecord>, base: real, tensorTimeout: real): real {
    if trace == [] then base
    else
      var s := trace[|trace| - 1].status;
      if s.isGenerating || s.isFirstRun then tensorTimeout else base
  }

  /** Every poll begins before the timeout then in force, at least a second after the one before. */
  predicate Timely(trace: seq<PollRecord>, base: real, tensorTimeout: real) {
    && (forall i :: 0 <= i < |trace| ==> trace[i].at < LimitAfter(trace[..i], base, tensorTimeout))
    && (forall i :: 0 < i < |trace| ==> trace[i].at >= trace[i - 1].at + 1.0)
  }

  /** How long after its beginning a poll hands over: an interval after its request, but never less than
      a second after it is done. */
  function Pause(input: PollInput, interval: real): real {
    var done := input.beforeSnapshot + input.beforeSleep;
    input.beforeRequest + (if interval > done + 1.0 then interval else done + 1.0) + input.oversleep
  }

  /** The times at which the polls begin. */
  predicate Clocked(trace: seq<PollRecord>, env: nat -> PollInput, interval: real) {
    && (trace != [] ==> trace[0].at == env(0).beforeGuard)
    && forall i :: 0 < i < |trace| ==> trace[i].at == trace[i - 1].at + Pause(env(i - 1), interval) + env(i).beforeGuard
  }

  /** Polls are an interval apart, and at least a second. */
  lemma PollsAreSpaced(trace: seq<PollRecord>, env: nat -> PollInput, interval: real, i: nat)
    requires Clocked(trace, env, interval) && (forall k :: env(k).Monotone()) && 0 < i < |trace|
    ensures trace[i].at >= trace[i - 1].at + interval && trace[i].at >= trace[i - 1].at + 1.0
  {
    assert env(i - 1).Monotone() && env(i).Monotone();
  }

  /** The clock at the end of the last poll that gave no verdict. */
  predicate HandedOver(trace: seq<PollRecord>, env: nat -> PollInput, interval: real, elapsed: real) {
    Clocked(trace, env, interval)
    && elapsed == if trace == [] then 0.0 else trace[|trace| - 1].at + Pause(env(|trace| - 1), interval)
  }

  lemma NothingClocked(env: nat -> PollInput, interval: real)
    ensures HandedOver([], env, interval, 0.0)
  {
  }

  lemma ClockedGrows(trace: seq<PollRecord>, env: nat -> PollInput, interval: real, elapsed: real, r: PollRecord)
    requires HandedOver(trace, env, interval, elapsed) && r.at == elapsed + env(|trace|).beforeGuard
    ensures Clocked(trace + [r], env, interval)
    ensures HandedOver(trace + [r], env, interval, r.at + Pause(env(|trace|), interval))
  {
    hide Pause;
    var grown := trace + [r];
    forall i | 0 < i < |grown|
      ensures grown[i].at == grown[i - 1].at + Pause(env(i - 1), interval) + env(i).beforeGuard {}
  }

  lemma TimelyGrows(trace: seq<PollRecord>, r: PollRecord, base: real, tensorTimeout: real)
    requires Timely(trace, base, tensorTimeout) && r.at < LimitAfter(trace, base, tensorTimeout)
    requires trace != [] ==> r.at >= trace[|trace| - 1].at + 1.0
    ensures Timely(trace + [r], base, tensorTimeout)
  {
    hide LimitAfter;
    var grown := trace + [r];
    forall i | 0 <= i < |grown| ensures grown[i].at < LimitAfter(grown[..i], base, tensorTimeout) {
      assert grown[..i] == trace[..i];
      if i == |trace| {
        assert grown[..i] == trace;
      }
    }
  }

  /** A timely trace is short: the timeouts bound the number of polls however they switch. */
  lemma {:induction false} TimelyIsShort(trace: seq<PollRecord>, base: real, tensorTimeout: real)
    requires Timely(trace, base, tensorTimeout) && (trace != [] ==> trace[0].at >= 0.0)
    ensures |trace| <= MostPolls(Max(base, tensorTimeout))
  {
    hide LimitAfter, MostPolls;
    if trace == [] {
      assert 0 <= MostPolls(Max(base, tensorTimeout));
    } else {
      var n := |trace| - 1;
      TimesGrow(trace, base, tensorTimeout, n);
      LimitIsOneOf(trace[..n], base, tensorTimeout);
      PollFits(n, Max(base, tensorTimeout));
    }
  }

  lemma {:induction false} TimesGrow(trace: seq<PollRecord>, base: real, tensorTimeout: real, n: nat)
    requires Timely(trace, base, tensorTimeout) && n < |trace| && trace[0].at >= 0.0
    ensures trace[n].at >= n as real
  {
    hide LimitAfter;
    if n > 0 {
      TimesGrow(trace, base, tensorTimeout, n - 1);
    }
  }

  lemma LimitIsOneOf(trace: seq<PollRecord>, base: real, tensorTimeout: real)
    ensures LimitAfter(trace, base, tensorTimeout) in {base, tensorTimeout}
  {
  }

  /** The loop's state before the next test of the timeout, `elapsed` after the start. */
  predicate Waiting(trace: seq<PollRecord>, elapsed: real, base: real, tensorTimeout: real) {
    && HonestTrace(trace) && Timely(trace, base, tensorTimeout)
    && (forall i :: 0 <= i < |trace| ==> Continues(trace[i]))
    && elapsed >= 0.0 && (trace != [] ==> trace[0].at >= 0.0 && elapsed >= trace[|trace| - 1].at + 1.0)
  }

  lemma WaitingGrows(trace: seq<PollRecord>, elapsed: real, base: real, tensorTimeout: real, r: PollRecord)
    requires Waiting(trace, elapsed, base, tensorTimeout) && WellProbed(r)
    requires elapsed <= r.at < LimitAfter(trace, base, tensorTimeout)
    ensures HonestTrace(trace + [r]) && Timely(trace + [r], base, tensorTimeout)
    ensures |trace| + 1 <= MostPolls(Max(base, tensorTimeout))
  {
    HonestGrows(trace, r);
    TimelyGrows(trace, r, base, tensorTimeout);
    TimelyIsShort(trace + [r], base, tensorTimeout);
    hide HonestTrace, Timely, Healthy, Continues, MostPolls, LimitAfter;
  }

  lemma WaitingContinues(
      trace: seq<PollRecord>, elapsed: real, base: real, tensorTimeout: real, r: PollRecord, later: real)
    requires Waiting(trace, elapsed, base, tensorTimeout) && WellProbed(r) && Continues(r)
    requires elapsed <= r.at < LimitAfter(trace, base, tensorTimeout) && later >= r.at + 1.0
    ensures Waiting(trace + [r], later, base, tensorTimeout)
  {
    WaitingGrows(trace, elapsed, base, tensorTimeout, r);
    HonestGrows(trace, r);
    hide HonestTrace, Timely, Healthy, Continues, MostPolls, LimitAfter, WellProbed;
  }

  lemma WaitingIsShort(trace: seq<PollRecord>, elapsed: real, base: real, tensorTimeout: real)
    requires Waiting(trace, elapsed, base, tensorTimeout)
    ensures |trace| <= MostPolls(Max(base, tensorTimeout)) && HonestTrace(trace) && Timely(trace, base, tensorTimeout)
    ensures trace != [] ==> !Healthy(trace[|trace| - 1])
  {
    TimelyIsShort(trace, base, tensorTimeout);
    hide HonestTrace, Timely, Healthy, MostPolls;
  }

  /** How the polling ended: with a verdict, or without one once the timeout in force had passed. */
  predicate Ended(trace: seq<PollRecord>, verdict: Option<bool>, waited: real, base: real, tensorTimeout: real) {
    && HonestTrace(trace) && Timely(trace, base, tensorTimeout)
    && |trace| <= MostPolls(Max(base, tensorTimeout))
    && (verdict == Some(true) <==> trace != [] && Healthy(trace[|trace| - 1]))
    && (verdict == Some(false) ==> trace != [] && trace[|trace| - 1].status.progress.isStalled)
    && (verdict.None? ==> waited >= LimitAfter(trace, base, tensorTimeout))
  }

  lemma EndsByPoll(trace: seq<PollRecord>, elapsed: real, base: real, tensorTimeout: real, r: PollRecord, verdict: bool)
    requires Waiting(trace, elapsed, base, tensorTimeout) && WellProbed(r)
    requires elapsed <= r.at < LimitAfter(trace, base, tensorTimeout)
    requires verdict == Healthy(r) && (!verdict ==> r.status.progress.isStalled)
    ensures Ended(trace + [r], Some(verdict), r.at, base, tensorTimeout)
  {
    WaitingGrows(trace, elapsed, base, tensorTimeout, r);
    hide HonestTrace, Timely, Healthy, Continues, MostPolls, LimitAfter, WellProbed;
  }

  lemma EndsByTimeout(trace: seq<PollRecord>, elapsed: real, base: real, tensorTimeout: real, waited: real)
    requires Waiting(trace, elapsed, base, tensorTimeout) && waited >= LimitAfter(trace, base, tensorTimeout)
    ensures Ended(trace, None, waited, base, tensorTimeout)
  {
    WaitingIsShort(trace, elapsed, base, tensorTimeout);
    hide HonestTrace, Timely, Healthy, Continues, MostPolls, LimitAfter;
  }

  /** The last poll reported a stall. */
  predicate EndsStalled(trace: seq<PollRecord>) {
    trace != [] && trace[|trace| - 1].status.progress.isStalled
  }

  lemma RecordedNothing(target: Target, before: seq<Event>, asked: seq<Health>, env: nat -> PollInput, start: real)
    ensures Recorded(target, before, asked, [], env, start, before, asked)
  {
  }

  lemma MarksAreLast(
      target: Target, before: seq<Event>, asked: seq<Health>, trace: seq<PollRecord>, env: nat -> PollInput,
      start: real,
      polled: seq<Event>, probes: seq<Health>, tail: seq<Event>)
    requires Recorded(target, before, asked, trace, env, start, polled, probes)
    requires HonestTrace(trace) && forall i :: 0 <= i < |tail| ==> tail[i].Poll?
    ensures forall k :: |before| <= k < |polled + tail| && (polled + tail)[k].CompletedMarked? ==>
              trace != [] && Healthy(trace[|trace| - 1]) && trace[|trace| - 1].marked && k == |before| + |trace|
  {
    hide ReportsOf, IsStatus;
    CompletionsAreLast(target, before, trace, env, start, tail);
    HistoryAfterShape(target, before, trace, env, start);
  }

  lemma NothingAwaited(base: real, tensorTimeout: real)
    ensures HonestTrace([]) && Timely([], base, tensorTimeout)
  {
  }

  lemma NotMarked(r: PollRecord)
    requires Continues(r)
    ensures !r.marked && !r.status.progress.isStalled
  {
  }

  /** What a wait started from. */
  datatype Ledger = Ledger(
    target: Target, history: seq<Event>, probes: seq<Health>, env: nat -> PollInput, start: real)

  /** What the polling loop keeps. */
  ghost predicate Polling(
      l: Ledger, trace: seq<PollRecord>, elapsed: real, base: real, tensorTimeout: real, h: seq<Event>,
      probes: seq<Health>)
  {
    && Waiting(trace, elapsed, base, tensorTimeout)
    && Recorded(l.target, l.history, l.probes, trace, l.env, l.start, h, probes)
    && (trace != [] ==> Continues(trace[|trace| - 1]))
  }

  lemma NothingPolled(l: Ledger, base: real, tensorTimeout: real)
    ensures Polling(l, [], 0.0, base, tensorTimeout, l.history, l.probes) && LimitAfter([], base, tensorTimeout) == base
  {
    RecordedNothing(l.target, l.history, l.probes, l.env, l.start);
    hide Recorded;
  }

  lemma PollingIsShort(
      l: Ledger, trace: seq<PollRecord>, elapsed: real, base: real, tensorTimeout: real, h: seq<Event>,
      probes: seq<Health>)
    requires Polling(l, trace, elapsed, base, tensorTimeout, h, probes)
    ensures |trace| <= MostPolls(Max(base, tensorTimeout)) && elapsed >= 0.0
  {
    WaitingIsShort(trace, elapsed, base, tensorTimeout);
    hide Recorded, HonestTrace, Timely, MostPolls, Continues;
  }

  lemma PollingTimesOut(
      l: Ledger, trace: seq<PollRecord>, elapsed: real, base: real, tensorTimeout: real, h: seq<Event>,
      probes: seq<Health>,
      waited: real)
    requires Polling(l, trace, elapsed, base, tensorTimeout, h, probes)
    requires waited >= LimitAfter(trace, base, tensorTimeout)
    ensures Ended(trace, None, waited, base, tensorTimeout)
    ensures Recorded(l.target, l.history, l.probes, trace, l.env, l.start, h, probes)
    ensures trace != [] ==> Continues(trace[|trace| - 1])
  {
    EndsByTimeout(trace, elapsed, base, tensorTimeout, waited);
    hide Recorded, Waiting, Ended, LimitAfter, Continues;
  }

  lemma PollingAdds(
      l: Ledger, trace: seq<PollRecord>, elapsed: real, base: real, tensorTimeout: real, h: seq<Event>,
      probes: seq<Health>,
      r: PollRecord, h': seq<Event>, probes': seq<Health>)
    requires Polling(l, trace, elapsed, base, tensorTimeout, h, probes)
    requires Polled(l.target, h, h', l.env(|trace|), l.start, r) && (l.target.Disabled? ==> !r.marked)
    requires r.probe.Some? ==> r.probe == Some(l.env(|trace|).health)
    requires probes' == if r.probe.Some? then probes + [r.probe.value] else probes
    ensures Recorded(l.target, l.history, l.probes, trace + [r], l.env, l.start, h', probes')
  {
    if trace != [] {
      NotMarked(trace[|trace| - 1]);
    }
    hide Recorded, Waiting, Polled, Continues;
    RecordedGrows(l.target, l.history, l.probes, trace, l.env, l.start, h, probes, h', probes', r);
  }

  lemma PollingEnds(
      l: Ledger, trace: seq<PollRecord>, elapsed: real, base: real, tensorTimeout: real, h: seq<Event>,
      probes: seq<Health>,
      r: PollRecord, verdict: bool)
    requires Polling(l, trace, elapsed, base, tensorTimeout, h, probes) && WellProbed(r)
    requires elapsed <= r.at < LimitAfter(trace, base, tensorTimeout)
    requires verdict == Healthy(r) && (!verdict ==> r.status.progress.isStalled)
    ensures Ended(trace + [r], Some(verdict), r.at, base, tensorTimeout)
  {
    EndsByPoll(trace, elapsed, base, tensorTimeout, r, verdict);
    hide Ended;
  }

  lemma PollingContinues(
      l: Ledger, trace: seq<PollRecord>, elapsed: real, base: real, tensorTimeout: real, h: seq<Event>,
      probes: seq<Health>,
      r: PollRecord, h': seq<Event>, probes': seq<Health>, later: real)
    requires Polling(l, trace, elapsed, base, tensorTimeout, h, probes) && WellProbed(r) && Continues(r)
    requires elapsed <= r.at < LimitAfter(trace, base, tensorTimeout) && later >= r.at + 1.0
    requires Recorded(l.target, l.history, l.probes, trace + [r], l.env, l.start, h', probes')
    ensures Polling(l, trace + [r], later, base, tensorTimeout, h', probes')
  {
    WaitingContinues(trace, elapsed, base, tensorTimeout, r, later);
    hide Recorded, Waiting, LimitAfter, Continues, WellProbed;
    assert (trace + [r])[|trace|] == r;
  }

  lemma NeverBack(input: PollInput)
    requires input.Monotone()
    ensures input.beforeGuard >= 0.0
  {
  }

  lemma LimitAfterLast(trace: seq<PollRecord>, r: PollRecord, base: real, tensorTimeout: real)
    ensures LimitAfter(trace + [r], base, tensorTimeout)
         == if r.status.isGenerating || r.status.isFirstRun then tensorTimeout else base
  {
  }

  class PromptClient {
    const monitor: CacheMonitor
    var serverReady: bool
    var lastHealthStatusCode: Option<int>
    var lastHealthRaised: bool
    ghost var probes: seq<Health>

    /** The last-health fields tell the last probe ever made. */
    ghost predicate Valid()
      reads this, monitor, monitor.tracker
    {
      && monitor.Valid()
      && lastHealthStatusCode == (if probes == [] then None else CodeOf(probes[|probes| - 1]))
      && lastHealthRaised == (probes != [] && probes[|probes| - 1].Raised?)
    }

    constructor (monitor: CacheMonitor)
      requires monitor.Valid()
      ensures Valid() && this.monitor == monitor && !serverReady && probes == []
    {
      this.monitor := monitor;
      serverReady, lastHealthStatusCode, lastHealthRaised := false, None, false;
      probes := [];
    }

    function Base(timeout: Option<real>): real {
      if timeout.Some? then timeout.value else monitor.tensorCacheTimeout
    }

    method GetHealth(reply: Health) returns (code: Option<int>)
      requires Valid()
      modifies `lastHealthStatusCode, `lastHealthRaised, `probes
      ensures Valid() && probes == old(probes) + [reply]
      ensures code == CodeOf(reply) == lastHealthStatusCode && lastHealthRaised == reply.Raised?
    {
      hide CacheMonitor.Valid;
      probes := probes + [reply];
      if reply.Raised? {
        lastHealthStatusCode, lastHealthRaised := None, true;
        return None;
      }
      lastHealthStatusCode, lastHealthRaised := Some(reply.code), false;
      return Some(reply.code);
    }

    /** One poll that begins at `clock`: its verdict, or None after the pause before the next one. */
    method PollOnce(input: PollInput, start: real, clock: real, interval: real)
      returns (record: PollRecord, verdict: Option<bool>, resumed: real)
      requires Valid() && !serverReady && input.Monotone()
      modifies this, monitor, monitor.tracker
      ensures Valid() && WellProbed(record) && record.at == clock - start
      ensures verdict == if Healthy(record) then Some(true)
                         else if record.status.progress.isStalled then Some(false) else None
      ensures serverReady == (verdict == Some(true))
      ensures serverReady ==> lastHealthStatusCode == Some(200) && !lastHealthRaised
      ensures record.probe.Some? ==> record.probe == Some(input.health)
      ensures probes == if record.probe.Some? then old(probes) + [record.probe.value] else old(probes)
      ensures verdict.None? ==>
                Continues(record) && resumed >= clock + 1.0 && resumed == clock + Pause(input, interval)
      ensures Polled(monitor.target, old(monitor.history), monitor.history, input, start, record)
      ensures monitor.target.Disabled? ==> !record.marked
    {
      hide IsStatus, CacheMonitor.Valid;
      var requested := clock + input.beforeRequest;
      var status := monitor.GetCacheGenerationStatus(input.files, input.snapshot, requested + input.beforeSnapshot);
      if status.progress.isStalled {
        return PollRecord(clock - start, status, None, false), Some(false), clock;
      }
      var code := GetHealth(input.health);
      if code == Some(200) {
        if status.isGenerating {
          var _ := monitor.MarkCacheCompleted(input.written);
        }
        serverReady := true;
        return PollRecord(clock - start, status, Some(input.health), status.isGenerating), Some(true), clock;
      }
      var now := requested + input.beforeSnapshot + input.beforeSleep;
      resumed := now + Max(interval - (now - requested), 1.0) + input.oversleep;
      return PollRecord(clock - start, status, Some(input.health), false), None, resumed;
    }

    /** One turn of the polling loop: a verdict, or the state in which the next turn begins. */
    method PollStep(
        input: PollInput, start: real, clock: real, interval: real, base: real,
        ghost l: Ledger, ghost trace: seq<PollRecord>, ghost elapsed: real)
      returns (record: PollRecord, verdict: Option<bool>, resumed: real, limit: real)
      requires Valid() && !serverReady && input.Monotone()
      requires input == l.env(|trace|) && l.target == monitor.target && l.start == start
      requires Polling(l, trace, elapsed, base, monitor.tensorCacheTimeout, monitor.history, probes)
      requires elapsed <= clock - start < LimitAfter(trace, base, monitor.tensorCacheTimeout)
      modifies this, monitor, monitor.tracker
      ensures Valid() && serverReady == (verdict == Some(true)) && record.at == clock - start
      ensures verdict.None? ==> resumed == clock + Pause(input, interval)
      ensures serverReady ==> lastHealthStatusCode == Some(200) && !lastHealthRaised
      ensures Recorded(l.target, l.history, l.probes, trace + [record], l.env, start, monitor.history, probes)
      ensures verdict.Some? ==> Ended(trace + [record], verdict, clock - start, base, monitor.tensorCacheTimeout)
      ensures verdict.None? ==>
                && Polling(
                     l, trace + [record], resumed - start, base, monitor.tensorCacheTimeout, monitor.history, probes)
                && limit == LimitAfter(trace + [record], base, monitor.tensorCacheTimeout)
    {
      hide IsStatus, CacheMonitor.Valid, Polled, WellProbed, Ended, LimitAfter, Polling, Recorded, Continues,
           PollInput.Monotone, Pause;
      ghost var h, asked, tensor := monitor.history, probes, monitor.tensorCacheTimeout;
      record, verdict, resumed := PollOnce(input, start, clock, interval);
      PollingAdds(l, trace, elapsed, base, tensor, h, asked, record, monitor.history, probes);
      limit := monitor.EffectiveTimeout(base, record.status);
      if verdict.Some? {
        PollingEnds(l, trace, elapsed, base, tensor, h, asked, record, verdict.value);
      } else {
        PollingContinues(l, trace, elapsed, base, tensor, h, asked, record, monitor.history, probes, resumed - start);
        LimitAfterLast(trace, record, base, tensor);
      }
    }

    /** Polls until there is a verdict or the timeout in force has passed; it switches between polls.
        `k` polls have been made when none gave a verdict. */
    method PollUntil(base: real, interval: real, env: nat -> PollInput, start: real)
      returns (verdict: Option<bool>, ghost trace: seq<PollRecord>, ghost waited: real, k: nat, clock: real)
      requires Valid() && !serverReady && forall k :: env(k).Monotone()
      modifies this, monitor, monitor.tracker
      ensures Valid() && serverReady == (verdict == Some(true))
      ensures serverReady ==> lastHealthStatusCode == Some(200) && !lastHealthRaised
      ensures Ended(trace, verdict, waited, base, monitor.tensorCacheTimeout) && Clocked(trace, env, interval)
      ensures Recorded(monitor.target, old(monitor.history), old(probes), trace, env, start, monitor.history, probes)
      ensures verdict.None? ==> k == |trace| && (trace != [] ==> Continues(trace[|trace| - 1]))
    {
      hide Valid, Ended, LimitAfter, Polling, Recorded, Continues, MostPolls, PollInput.Monotone, Pause, Clocked;
      ghost var ledger := Ledger(monitor.target, monitor.history, probes, env, start);
      ghost var tensor := monitor.tensorCacheTimeout;
      var limit := base;
      clock, k, trace, waited := start, 0, [], 0.0;
      NothingPolled(ledger, base, tensor);
      NothingClocked(env, interval);
      while true
        invariant Valid() && !serverReady && k == |trace| && limit == LimitAfter(trace, base, tensor)
        invariant Polling(ledger, trace, clock - start, base, tensor, monitor.history, probes)
        invariant HandedOver(trace, env, interval, clock - start)
        decreases MostPolls(Max(base, tensor)) - k
      {
        PollingIsShort(ledger, trace, clock - start, base, tensor, monitor.history, probes);
        ghost var elapsed := clock - start;
        NeverBack(env(k));
        clock := clock + env(k).beforeGuard;
        waited := clock - start;
        if clock - start >= limit {
          PollingTimesOut(ledger, trace, elapsed, base, tensor, monitor.history, probes, waited);
          return None, trace, waited, k, clock;
        }
        var record;
        record, verdict, clock, limit := PollStep(env(k), start, clock, interval, base, ledger, trace, elapsed);
        ClockedGrows(trace, env, interval, elapsed, record);
        trace := trace + [record];
        if verdict.Some? {
          return;
        }
        PollingIsShort(ledger, trace, clock - start, base, tensor, monitor.history, probes);
        k := k + 1;
      }
    }

    /** Waits until the server is healthy, a stall is reported, or the timeout in force has passed.
        `trace` holds one record a poll, `waited` the time at the last test of the timeout, and
        `polled` and `tail` the monitor's history with the polls and what the last look at it adds. */
    method WaitForHealthy(timeout: Option<real>, interval: real, env: nat -> PollInput, start: real)
      returns (
        ok: bool, ghost trace: seq<PollRecord>, ghost waited: real, ghost polled: seq<Event>, ghost tail: seq<Event>)
      requires Valid() && forall k :: env(k).Monotone()
      modifies this, monitor, monitor.tracker
      ensures Valid() && serverReady == ok
      ensures old(serverReady) ==> ok && trace == [] && tail == []
      ensures |trace| <= MostPolls(Max(Base(timeout), monitor.tensorCacheTimeout))
      ensures HonestTrace(trace) && Timely(trace, Base(timeout), monitor.tensorCacheTimeout)
      ensures Clocked(trace, env, interval)
      ensures Base(timeout) == if timeout == None then monitor.tensorCacheTimeout else timeout.value
      ensures ok <==> old(serverReady) || (trace != [] && Healthy(trace[|trace| - 1]))
      ensures ok && !old(serverReady) ==> lastHealthStatusCode == Some(200) && !lastHealthRaised
      ensures !ok ==> EndsStalled(trace) || waited >= LimitAfter(trace, Base(timeout), monitor.tensorCacheTimeout)
      ensures Recorded(monitor.target, old(monitor.history), old(probes), trace, env, start, polled, probes)
      ensures monitor.history == polled + tail && |tail| <= 1 && (tail != [] ==> tail[0].Poll?)
      ensures tail != [] <==> !ok && !EndsStalled(trace) && !monitor.target.Disabled?
      ensures forall k :: |old(monitor.history)| <= k < |monitor.history| && monitor.history[k].CompletedMarked? ==>
                ok && trace[|trace| - 1].marked && k == |old(monitor.history)| + |trace|
    {
      hide IsStatus, CacheMonitor.Valid, MostPolls, LimitAfter, Continues, Recorded, HonestTrace, Timely, Max, CodeOf,
           PollInput.Monotone, MarkersKept, Pause;
      NothingAwaited(Base(timeout), monitor.tensorCacheTimeout);
      trace, waited, polled, tail := [], 0.0, monitor.history, [];
      RecordedNothing(monitor.target, monitor.history, probes, env, start);
      if serverReady {
        return true, trace, waited, polled, tail;
      }
      var verdict, k, clock;
      verdict, trace, waited, k, clock := PollUntil(Base(timeout), interval, env, start);
      polled := monitor.history;
      if verdict.Some? {
        ok := verdict.value;
      } else {
        if trace != [] {
          NotMarked(trace[|trace| - 1]);
        }
        var _ := monitor.GetCacheGenerationStatus(env(k).files, env(k).snapshot, clock);
        tail := monitor.history[|polled|..];
        ok := false;
      }
      MarksAreLast(monitor.target, old(monitor.history), old(probes), trace, env, start, polled, probes, tail);
    }
  }
}
