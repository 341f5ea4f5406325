/** utils/cache_monitor.py: a few mutable fields stand in for the whole history of polls. Snapshots,
    clock readings, marker files and the success of a marker write come from the environment. */
module CacheMonitors {
  import opened Wrappers

  datatype Snapshot = Snapshot(totalSizeBytes: int, fileCount: int) {
    predicate HasContent() {
      fileCount > 0
    }
  }

  datatype ProgressStatus = ProgressStatus(lastActivity: Option<real>, noProgress: real, isStalled: bool)

  // ----- Progress over a history ------------------------------------------------------------------

  /** What the progress tracker is told. */
  datatype Step = Update(snapshot: Snapshot, generating: bool, now: real) | Reset

  predicate Generates(e: Step) {
    e.Update? && e.generating
  }

  /** The current episode: the generating polls since the last reset or non-generating poll. */
  ghost predicate InEpisode(h: seq<Step>, i: int) {
    0 <= i < |h| && forall j :: i <= j < |h| ==> Generates(h[j])
  }

  ghost predicate ShowsContent(h: seq<Step>) {
    exists i :: InEpisode(h, i) && h[i].snapshot.HasContent()
  }

  /** The poll that brought the snapshot the episode has shown ever since. */
  ghost predicate LastChange(h: seq<Step>, i: int) {
    && InEpisode(h, i)
    && (i > 0 && Generates(h[i - 1]) ==> h[i - 1].snapshot != h[i].snapshot)
    && forall j :: i <= j < |h| ==> h[j].snapshot == h[i].snapshot
  }

  ghost predicate Stalled(h: seq<Step>, timeout: real) {
    ShowsContent(h) && exists i :: LastChange(h, i) && h[|h| - 1].now - h[i].now >= timeout
  }

  /** The status the history calls for. */
  ghost predicate IsProgress(h: seq<Step>, timeout: real, p: ProgressStatus) {
    if ShowsContent(h) then
      exists i :: LastChange(h, i)
                  && p.lastActivity == Some(h[i].now)
                  && p.noProgress == h[|h| - 1].now - h[i].now
                  && p.isStalled == (p.noProgress >= timeout)
    else p == ProgressStatus(None, 0.0, false)
  }

  lemma LastChangeUnique(h: seq<Step>, i: int, j: int)
    requires LastChange(h, i) && LastChange(h, j)
    ensures i == j
  {
  }

  /** A status the history calls for reports a stall iff the history stalls. */
  lemma StallReportExact(h: seq<Step>, timeout: real, p: ProgressStatus)
    requires IsProgress(h, timeout, p)
    ensures p.isStalled <==> Stalled(h, timeout)
  {
    if ShowsContent(h) {
      var i :| LastChange(h, i) && p.lastActivity == Some(h[i].now)
               && p.noProgress == h[|h| - 1].now - h[i].now
               && p.isStalled == (p.noProgress >= timeout);
      if Stalled(h, timeout) {
        var j :| LastChange(h, j) && h[|h| - 1].now - h[j].now >= timeout;
        LastChangeUnique(h, i, j);
      }
    }
  }

  lemma EpisodeGrows(h: seq<Step>, e: Step, i: int)
    ensures InEpisode(h + [e], i) <==> Generates(e) && (i == |h| || InEpisode(h, i))
  {
    var g := h + [e];
    assert g[|h|] == e && forall j :: 0 <= j < |h| ==> g[j] == h[j];
    if Generates(e) && InEpisode(h, i) {
      assert forall j :: i <= j < |g| ==> Generates(g[j]);
    }
    if InEpisode(g, i) && i != |h| {
      assert forall j :: i <= j < |h| ==> Generates(h[j]) by {
        assert forall j :: i <= j < |h| ==> Generates(g[j]);
      }
    }
  }

  lemma ContentGrows(h: seq<Step>, e: Step)
    ensures ShowsContent(h + [e]) <==> Generates(e) && (ShowsContent(h) || e.snapshot.HasContent())
  {
    EpisodeGrows(h, e, |h|);
    if ShowsContent(h + [e]) {
      var i :| InEpisode(h + [e], i) && (h + [e])[i].snapshot.HasContent();
      EpisodeGrows(h, e, i);
    }
    if ShowsContent(h) {
      var i :| InEpisode(h, i) && h[i].snapshot.HasContent();
      EpisodeGrows(h, e, i);
      assert (h + [e])[i] == h[i];
    }
    if Generates(e) && e.snapshot.HasContent() {
      assert (h + [e])[|h|] == e && InEpisode(h + [e], |h|);
    }
  }

  lemma ChangeHere(h: seq<Step>, e: Step)
    requires Generates(e)
    requires h != [] && Generates(h[|h| - 1]) ==> h[|h| - 1].snapshot != e.snapshot
    ensures LastChange(h + [e], |h|)
  {
    EpisodeGrows(h, e, |h|);
  }

  lemma ChangeStays(h: seq<Step>, e: Step, i: int)
    requires LastChange(h, i) && Generates(e) && h[|h| - 1].snapshot == e.snapshot
    ensures LastChange(h + [e], i)
  {
    EpisodeGrows(h, e, i);
  }

  /** With a clock that does not run back, a stall lasts until the snapshot changes. */
  lemma StallPersists(h: seq<Step>, e: Step, timeout: real)
    requires Stalled(h, timeout) && Generates(e) && h[|h| - 1].snapshot == e.snapshot && h[|h| - 1].now <= e.now
    ensures Stalled(h + [e], timeout)
  {
    var i :| LastChange(h, i) && h[|h| - 1].now - h[i].now >= timeout;
    ChangeStays(h, e, i);
    ContentGrows(h, e);
  }

  /** A changed snapshot ends a stall, for any positive timeout. */
  lemma ChangeEndsStall(h: seq<Step>, e: Step, timeout: real)
    requires timeout > 0.0 && Generates(e) && h != [] && h[|h| - 1].Update? && h[|h| - 1].snapshot != e.snapshot
    ensures !Stalled(h + [e], timeout)
  {
    ChangeHere(h, e);
    if Stalled(h + [e], timeout) {
      var i :| LastChange(h + [e], i) && (h + [e])[|h|].now - (h + [e])[i].now >= timeout;
      LastChangeUnique(h + [e], i, |h|);
    }
  }

  lemma LastInEpisode(h: seq<Step>)
    ensures h != [] && Generates(h[|h| - 1]) ==> InEpisode(h, |h| - 1)
  {
  }

  /** The time of activity: that of the last change, once the episode has shown content. */
  ghost predicate ActivityIs(h: seq<Step>, activity: Option<real>) {
    && (activity.Some? <==> ShowsContent(h))
    && (activity.Some? ==> exists i :: LastChange(h, i) && activity == Some(h[i].now))
  }

  function ProgressSince(activity: Option<real>, now: real, timeout: real): ProgressStatus {
    if activity.None? then ProgressStatus(None, 0.0, false)
    else ProgressStatus(activity, now - activity.value, now - activity.value >= timeout)
  }

  lemma ActivityAtLast(h: seq<Step>, timeout: real, activity: Option<real>)
    requires ActivityIs(h, activity) && h != [] && h[|h| - 1].Update?
    ensures IsProgress(h, timeout, ProgressSince(activity, h[|h| - 1].now, timeout))
  {
  }

  lemma NoActivityUnseen(h: seq<Step>, activity: Option<real>)
    requires ActivityIs(h, activity)
    ensures ShowsContent(h) <==> activity.Some?
  {
  }

  lemma ActivityStops(h: seq<Step>, e: Step)
    requires !Generates(e)
    ensures ActivityIs(h + [e], None) && !ShowsContent(h + [e])
  {
    ContentGrows(h, e);
  }

  lemma ActivityChanges(h: seq<Step>, e: Step)
    requires Generates(e) && (h != [] && Generates(h[|h| - 1]) ==> h[|h| - 1].snapshot != e.snapshot)
    ensures ActivityIs(h + [e], if ShowsContent(h) || e.snapshot.HasContent() then Some(e.now) else None)
    ensures ShowsContent(h + [e]) <==> ShowsContent(h) || e.snapshot.HasContent()
  {
    ContentGrows(h, e);
    ChangeHere(h, e);
    hide ShowsContent, LastChange;
    assert (h + [e])[|h|] == e;
  }

  lemma ActivityStays(h: seq<Step>, e: Step, activity: Option<real>)
    requires ActivityIs(h, activity) && Generates(e)
    requires h != [] && Generates(h[|h| - 1]) && h[|h| - 1].snapshot == e.snapshot
    ensures ActivityIs(h + [e], activity) && (ShowsContent(h + [e]) <==> ShowsContent(h))
  {
    ContentGrows(h, e);
    LastInEpisode(h);
    if activity.Some? {
      var i :| LastChange(h, i) && activity == Some(h[i].now);
      ChangeStays(h, e, i);
      assert (h + [e])[i] == h[i];
    }
  }

  // ----- The tracker --------------------------------------------------------------------------------

  class CacheProgressTracker {
    const stallTimeout: real
    var lastSnapshot: Option<Snapshot>
    var lastActivityTime: Option<real>
    var hasSeenContent: bool
    ghost var history: seq<Step>

    ghost predicate Valid()
      reads this
    {
      && stallTimeout > 0.0
      && lastSnapshot == (if history != [] && Generates(history[|history| - 1])
                          then Some(history[|history| - 1].snapshot) else None)
      && hasSeenContent == ShowsContent(history)
      && ActivityIs(history, lastActivityTime)
    }

    constructor (timeout: real)
      requires timeout > 0.0
      ensures Valid() && history == [] && stallTimeout == timeout
    {
      stallTimeout := timeout;
      lastSnapshot, lastActivityTime, hasSeenContent := None, None, false;
      history := [];
    }

    method Reset()
      requires Valid()
      modifies this
      ensures Valid() && history == old(history) + [Step.Reset]
    {
      lastSnapshot, lastActivityTime, hasSeenContent := None, None, false;
      ActivityStops(history, Step.Reset);
      history := history + [Step.Reset];
    }

    /** Every status is the one the whole history of polls calls for. */
    method Update(snapshot: Snapshot, isGenerating: bool, now: real) returns (status: ProgressStatus)
      requires Valid()
      modifies this
      ensures Valid() && history == old(history) + [Step.Update(snapshot, isGenerating, now)]
      ensures IsProgress(history, stallTimeout, status)
      ensures status.isStalled <==> Stalled(history, stallTimeout)
    {
      hide ShowsContent, ActivityIs, IsProgress, Stalled;
      ghost var h, e := history, Step.Update(snapshot, isGenerating, now);
      history := h + [e];
      if !isGenerating {
        ActivityStops(h, e);
        lastSnapshot, lastActivityTime, hasSeenContent := None, None, false;
        status := ProgressStatus(None, 0.0, false);
      } else if lastSnapshot != Some(snapshot) {
        ActivityChanges(h, e);
        NoActivityUnseen(h, lastActivityTime);
        lastSnapshot := Some(snapshot);
        if snapshot.HasContent() || hasSeenContent {
          lastActivityTime := Some(now);
        }
        if snapshot.HasContent() {
          hasSeenContent := true;
        }
        status := ProgressStatus(lastActivityTime, 0.0, false);
      } else {
        ActivityStays(h, e, lastActivityTime);
        NoActivityUnseen(h, lastActivityTime);
        if !hasSeenContent || lastActivityTime.None? {
          status := ProgressStatus(lastActivityTime, 0.0, false);
        } else {
          var duration := now - lastActivityTime.value;
          status := ProgressStatus(lastActivityTime, duration, duration >= stallTimeout);
        }
      }
      ActivityAtLast(history, stallTimeout, lastActivityTime);
      StallReportExact(history, stallTimeout, status);
    }
  }

  // ----- Lifecycle over a history -------------------------------------------------------------------

  /** The marker files or flags, as one poll reads them. */
  datatype Markers = Markers(started: bool, completed: bool)

  /** What happened to the monitor. */
  datatype Event =
    | Poll(markers: Markers, snapshot: Snapshot, now: real)
    | FirstRunMarked   // by a monitor that keeps its markers in memory
    | CompletedMarked

  predicate Unmarked(e: Event) {
    e.Poll? && !e.markers.started && !e.markers.completed
  }

  /** What makes the monitor forget the empty cache it saw. */
  predicate Forgets(e: Event) {
    e.FirstRunMarked? || e.CompletedMarked? || e.markers.completed
  }

  /** An unmarked poll saw an empty cache, and nothing has made the monitor forget since. */
  ghost predicate SawEmpty(h: seq<Event>) {
    exists i :: 0 <= i < |h| && Unmarked(h[i]) && !h[i].snapshot.HasContent()
                && forall j :: i <= j < |h| ==> !Forgets(h[j])
  }

  datatype Lifecycle = FirstRun | Generating | ExistingCache

  /** The lifecycle a poll after history `h` reports. */
  ghost function LifecycleOf(h: seq<Event>, markers: Markers, snapshot: Snapshot): Lifecycle {
    if markers.completed then ExistingCache
    else if markers.started then Generating
    else if !snapshot.HasContent() then FirstRun
    else if SawEmpty(h) then Generating
    else ExistingCache
  }

  ghost function StepOf(h: seq<Event>, e: Event): seq<Step> {
    match e
    case Poll(markers, snapshot, now) => [Step.Update(snapshot, LifecycleOf(h, markers, snapshot).Generating?, now)]
    case FirstRunMarked => []
    case CompletedMarked => [Step.Reset]
  }

  /** What the history of the monitor tells its progress tracker. */
  ghost function Steps(h: seq<Event>): seq<Step> {
    if h == [] then []
    else Steps(h[..|h| - 1]) + StepOf(h[..|h| - 1], h[|h| - 1])
  }

  /** In-memory markers: the last one set. */
  function MarkersKept(h: seq<Event>): Markers {
    if h == [] then Markers(false, false)
    else
      match h[|h| - 1]
      case Poll(_, _, _) => MarkersKept(h[..|h| - 1])
      case FirstRunMarked => Markers(true, false)
      case CompletedMarked => Markers(false, true)
  }

  lemma SawEmptyGrows(h: seq<Event>, e: Event)
    ensures SawEmpty(h + [e]) <==> !Forgets(e) && (SawEmpty(h) || (Unmarked(e) && !e.snapshot.HasContent()))
  {
    var g := h + [e];
    assert forall j :: 0 <= j < |h| ==> g[j] == h[j];
    if SawEmpty(h) && !Forgets(e) {
      var i :| 0 <= i < |h| && Unmarked(h[i]) && !h[i].snapshot.HasContent()
               && forall j :: i <= j < |h| ==> !Forgets(h[j]);
      assert Unmarked(g[i]);
    }
    if Unmarked(e) && !e.snapshot.HasContent() {
      assert Unmarked(g[|h|]);
    }
    if SawEmpty(g) {
      var i :| 0 <= i < |g| && Unmarked(g[i]) && !g[i].snapshot.HasContent()
               && forall j :: i <= j < |g| ==> !Forgets(g[j]);
      assert !Forgets(g[|h|]);
      if i < |h| {
        assert forall j :: i <= j < |h| ==> !Forgets(g[j]);
        assert Unmarked(h[i]);
      }
    }
  }

  lemma {:induction false} NeverBoth(h: seq<Event>)
    ensures !(MarkersKept(h).started && MarkersKept(h).completed)
  {
    if h != [] {
      NeverBoth(h[..|h| - 1]);
    }
  }

  lemma HistoryGrows(h: seq<Event>, e: Event)
    ensures (h + [e])[..|h|] == h
    ensures Steps(h + [e]) == Steps(h) + StepOf(h, e)
    ensures e.FirstRunMarked? ==> Steps(h + [e]) == Steps(h)
    ensures !e.Poll? ==>
              MarkersKept(h + [e]) == if e.FirstRunMarked? then Markers(true, false) else Markers(false, true)
    ensures e.Poll? ==> MarkersKept(h + [e]) == MarkersKept(h)
  {
    assert (h + [e])[..|h|] == h;
  }

  // ----- The monitor ----------------------------------------------------------------------------------

  /** Where the cache is watched. */
  datatype Target = Disabled | LocalDirectory | DockerVolume

  datatype GenerationStatus = GenerationStatus(
    isFirstRun: bool, isGenerating: bool, hasExistingCache: bool, progress: ProgressStatus, snapshot: Snapshot)

  const NO_CHANGE_TIMEOUT := 900.0

  const DISABLED_STATUS := GenerationStatus(false, false, false, ProgressStatus(None, 0.0, false), Snapshot(0, 0))

  /** The status after history `h`, whose last event is the poll that asked for it. */
  ghost predicate IsStatus(h: seq<Event>, s: GenerationStatus) {
    && h != [] && h[|h| - 1].Poll?
    && var e, l := h[|h| - 1], LifecycleOf(h[..|h| - 1], h[|h| - 1].markers, h[|h| - 1].snapshot);
    && s.isFirstRun == l.FirstRun? && s.isGenerating == l.Generating? && s.hasExistingCache == l.ExistingCache?
    && s.snapshot == e.snapshot
    && IsProgress(Steps(h), 900.0, s.progress)
    && (s.progress.isStalled <==> Stalled(Steps(h), 900.0))
  }

  lemma StatusFromParts(h: seq<Event>, e: Event, l: Lifecycle, progress: ProgressStatus)
    requires e.Poll? && l == LifecycleOf(h, e.markers, e.snapshot)
    requires IsProgress(Steps(h + [e]), NO_CHANGE_TIMEOUT, progress)
    ensures IsStatus(h + [e], GenerationStatus(l.FirstRun?, l.Generating?, l.ExistingCache?, progress, e.snapshot))
  {
    HistoryGrows(h, e);
    StallReportExact(Steps(h + [e]), NO_CHANGE_TIMEOUT, progress);
    hide IsProgress, Stalled, LifecycleOf, Steps;
  }

  /** A monitored cache is in exactly one phase, and only generation can stall. */
  lemma PhasesExclude(h: seq<Event>, s: GenerationStatus)
    requires IsStatus(h, s)
    ensures (s.isFirstRun && !s.isGenerating && !s.hasExistingCache)
            || (!s.isFirstRun && s.isGenerating && !s.hasExistingCache)
            || (!s.isFirstRun && !s.isGenerating && s.hasExistingCache)
    ensures s.progress.isStalled ==> s.isGenerating
  {
    var e := h[|h| - 1];
    assert h == h[..|h| - 1] + [e];
    HistoryGrows(h[..|h| - 1], e);
    hide LifecycleOf, IsProgress;
    if s.progress.isStalled {
      assert Generates(Steps(h)[|Steps(h)| - 1]);
    }
  }

  /** A completed marker makes a poll report an existing cache, whatever else it finds; a started marker
      alone makes it report generation. */
  lemma MarkedPolls(h: seq<Event>, s: GenerationStatus)
    requires IsStatus(h, s)
    ensures var markers := h[|h| - 1].markers;
            && (markers.completed ==>
                  s.hasExistingCache && !s.isGenerating && !s.isFirstRun && !s.progress.isStalled)
            && (markers.started && !markers.completed ==> s.isGenerating && !s.hasExistingCache && !s.isFirstRun)
  {
    PhasesExclude(h, s);
    hide IsProgress, Stalled, Steps;
  }

  /** A poll without markers found an empty cache at `i`, and nothing later voids what it saw. */
  ghost predicate EmptyCacheSeen(h: seq<Event>, i: nat)
    requires i < |h|
  {
    && h[i].Poll? && !h[i].markers.started && !h[i].markers.completed && h[i].snapshot.fileCount <= 0
    && forall j :: i < j < |h| ==>
         !h[j].FirstRunMarked? && !h[j].CompletedMarked? && !(h[j].Poll? && h[j].markers.completed)
  }

  /** A poll without markers reports a first run iff the cache is empty; content is generation iff the
      cache was seen empty before, and an existing cache otherwise. */
  lemma UnmarkedPolls(h: seq<Event>, s: GenerationStatus)
    requires IsStatus(h, s) && !h[|h| - 1].markers.started && !h[|h| - 1].markers.completed
    ensures var content, before := h[|h| - 1].snapshot.fileCount > 0, h[..|h| - 1];
            var seen := exists i :: 0 <= i < |before| && EmptyCacheSeen(before, i);
            && (s.isFirstRun <==> !content) && (s.isGenerating <==> content && seen)
            && (s.hasExistingCache <==> content && !seen)
  {
    hide IsProgress, Stalled, Steps;
    var before := h[..|h| - 1];
    if SawEmpty(before) {
      var i :| 0 <= i < |before| && Unmarked(before[i]) && !before[i].snapshot.HasContent()
               && forall j :: i <= j < |before| ==> !Forgets(before[j]);
      assert EmptyCacheSeen(before, i);
    }
    if i :| 0 <= i < |before| && EmptyCacheSeen(before, i) {
      assert !Forgets(before[i]);
    }
  }

  // ----- Marks in memory --------------------------------------------------------------------------------

  ghost predicate CompletedSince(h: seq<Event>) {
    exists k :: 0 <= k < |h| && h[k].CompletedMarked? && forall j :: k < j < |h| ==> !h[j].FirstRunMarked?
  }

  ghost predicate StartedSince(h: seq<Event>) {
    exists k :: 0 <= k < |h| && h[k].FirstRunMarked? && forall j :: k < j < |h| ==> !h[j].CompletedMarked?
  }

  lemma CompletedGrows(h: seq<Event>, e: Event)
    ensures CompletedSince(h + [e]) <==> e.CompletedMarked? || (CompletedSince(h) && !e.FirstRunMarked?)
  {
    var g := h + [e];
    assert g[|h|] == e && forall j :: 0 <= j < |h| ==> g[j] == h[j];
    if CompletedSince(h) && !e.FirstRunMarked? {
      var k :| 0 <= k < |h| && h[k].CompletedMarked? && forall j :: k < j < |h| ==> !h[j].FirstRunMarked?;
      assert g[k].CompletedMarked?;
    }
    if CompletedSince(g) && !e.CompletedMarked? {
      var k :| 0 <= k < |g| && g[k].CompletedMarked? && forall j :: k < j < |g| ==> !g[j].FirstRunMarked?;
      assert h[k].CompletedMarked? && forall j :: k < j < |h| ==> !g[j].FirstRunMarked?;
    }
  }

  lemma StartedGrows(h: seq<Event>, e: Event)
    ensures StartedSince(h + [e]) <==> e.FirstRunMarked? || (StartedSince(h) && !e.CompletedMarked?)
  {
    var g := h + [e];
    assert g[|h|] == e && forall j :: 0 <= j < |h| ==> g[j] == h[j];
    if StartedSince(h) && !e.CompletedMarked? {
      var k :| 0 <= k < |h| && h[k].FirstRunMarked? && forall j :: k < j < |h| ==> !h[j].CompletedMarked?;
      assert g[k].FirstRunMarked?;
    }
    if StartedSince(g) && !e.FirstRunMarked? {
      var k :| 0 <= k < |g| && g[k].FirstRunMarked? && forall j :: k < j < |g| ==> !g[j].CompletedMarked?;
      assert h[k].FirstRunMarked? && forall j :: k < j < |h| ==> !g[j].CompletedMarked?;
    }
  }

  /** A mark holds until the other one is made, over any polls in between. */
  lemma {:induction false} MarksLast(h: seq<Event>)
    ensures MarkersKept(h).completed <==> CompletedSince(h)
    ensures MarkersKept(h).started <==> StartedSince(h)
  {
    if h != [] {
      var n := |h| - 1;
      MarksLast(h[..n]);
      CompletedGrows(h[..n], h[n]);
      StartedGrows(h[..n], h[n]);
      hide CompletedSince, StartedSince;
      assert h == h[..n] + [h[n]];
    }
  }

  /** `_build_marker_status`, None where no marker decides. */
  function MarkerLifecycle(markers: Markers): Option<Lifecycle> {
    if markers.completed then Some(ExistingCache)
    else if markers.started then Some(Generating)
    else None
  }

  class CacheMonitor {
    const target: Target
    const tensorCacheTimeout: real
    const tracker: CacheProgressTracker
    var started: bool
    var completed: bool
    var sawEmptyWithoutMarkers: bool
    var inferredGenerationWithoutMarkers: bool
    ghost var history: seq<Event>

    /** Two flags and three tracker fields carry all that the history says; the second flag never
        holds without the first. */
    ghost predicate Valid()
      reads this, tracker
    {
      && tracker.Valid() && tracker.stallTimeout == NO_CHANGE_TIMEOUT
      && tracker.history == Steps(history)
      && sawEmptyWithoutMarkers == SawEmpty(history)
      && (inferredGenerationWithoutMarkers ==> sawEmptyWithoutMarkers)
      && (target.DockerVolume? ==> Markers(started, completed) == MarkersKept(history))
      && (target.Disabled? ==> history == [])
    }

    constructor (target: Target, tensorCacheTimeout: real)
      ensures Valid() && fresh(tracker) && history == []
      ensures this.target == target && this.tensorCacheTimeout == tensorCacheTimeout
    {
      this.target, this.tensorCacheTimeout := target, tensorCacheTimeout;
      tracker := new CacheProgressTracker(NO_CHANGE_TIMEOUT);
      started, completed := false, false;
      sawEmptyWithoutMarkers, inferredGenerationWithoutMarkers := false, false;
      history := [];
    }

    /** While generating, and on a first run, the tensor-cache timeout applies. */
    function EffectiveTimeout(baseTimeout: real, status: GenerationStatus): real {
      if status.isGenerating || status.isFirstRun then tensorCacheTimeout else baseTimeout
    }

    method ResetObservedFirstRun()
      modifies `sawEmptyWithoutMarkers, `inferredGenerationWithoutMarkers
      ensures !sawEmptyWithoutMarkers && !inferredGenerationWithoutMarkers
    {
      sawEmptyWithoutMarkers, inferredGenerationWithoutMarkers := false, false;
    }

    /** From the two flags alone, the lifecycle the whole history calls for. */
    method InferUnmarkedCacheStatus(snapshot: Snapshot, now: real) returns (l: Lifecycle)
      requires Valid() && !target.Disabled?
      modifies `sawEmptyWithoutMarkers, `inferredGenerationWithoutMarkers
      ensures l == LifecycleOf(history, Markers(false, false), snapshot)
      ensures sawEmptyWithoutMarkers == SawEmpty(history + [Poll(Markers(false, false), snapshot, now)])
      ensures inferredGenerationWithoutMarkers == l.Generating?
      ensures inferredGenerationWithoutMarkers ==> sawEmptyWithoutMarkers
    {
      SawEmptyGrows(history, Poll(Markers(false, false), snapshot, now));
      if snapshot.HasContent() {
        if sawEmptyWithoutMarkers || inferredGenerationWithoutMarkers {
          inferredGenerationWithoutMarkers := true;
          return Generating;
        }
        ResetObservedFirstRun();
        return ExistingCache;
      }
      sawEmptyWithoutMarkers, inferredGenerationWithoutMarkers := true, false;
      return FirstRun;
    }

    method ResolveCacheLifecycle(markers: Markers, snapshot: Snapshot, now: real) returns (l: Lifecycle)
      requires Valid() && !target.Disabled?
      modifies `sawEmptyWithoutMarkers, `inferredGenerationWithoutMarkers
      ensures l == LifecycleOf(history, markers, snapshot)
      ensures sawEmptyWithoutMarkers == SawEmpty(history + [Poll(markers, snapshot, now)])
      ensures inferredGenerationWithoutMarkers ==> sawEmptyWithoutMarkers
    {
      SawEmptyGrows(history, Poll(markers, snapshot, now));
      var marked := MarkerLifecycle(markers);
      if marked == Some(ExistingCache) {
        ResetObservedFirstRun();
        return ExistingCache;
      }
      if marked == Some(Generating) {
        return Generating;
      }
      l := InferUnmarkedCacheStatus(snapshot, now);
    }

    /** One poll; `files` are the marker files, read when the target is a local directory. */
    method GetCacheGenerationStatus(files: Markers, snapshot: Snapshot, now: real) returns (status: GenerationStatus)
      requires Valid()
      modifies this, tracker
      ensures Valid()
      ensures target.Disabled? ==> status == DISABLED_STATUS && history == old(history)
      ensures target.Disabled? ==>
                !status.isFirstRun && !status.isGenerating && !status.hasExistingCache && !status.progress.isStalled
      ensures !target.Disabled? ==>
                && history == old(history)
                   + [Poll(if target.LocalDirectory? then files else MarkersKept(old(history)), snapshot, now)]
                && IsStatus(history, status)
      ensures (target.LocalDirectory? && files.completed) || (target.DockerVolume? && CompletedSince(old(history))) ==>
                status.hasExistingCache && !status.isGenerating && !status.progress.isStalled
      ensures (target.LocalDirectory? && files.started && !files.completed)
              || (target.DockerVolume? && StartedSince(old(history))) ==>
                status.isGenerating && !status.hasExistingCache
    {
      hide CompletedSince, StartedSince;
      MarksLast(history);
      NeverBoth(history);
      hide SawEmpty, Steps, ShowsContent, LastChange, MarkersKept, IsProgress, Stalled, LifecycleOf, IsStatus;
      if target.Disabled? {
        return DISABLED_STATUS;
      }
      var markers := if target.LocalDirectory? then files else Markers(started, completed);
      ghost var e := Poll(markers, snapshot, now);
      HistoryGrows(history, e);
      var l := ResolveCacheLifecycle(markers, snapshot, now);
      var progress := tracker.Update(snapshot, l.Generating?, now);
      StatusFromParts(history, e, l, progress);
      history := history + [e];
      status := GenerationStatus(l.FirstRun?, l.Generating?, l.ExistingCache?, progress, snapshot);
      MarkedPolls(history, status);
    }

    method MarkCacheFirstRunStarted(written: bool) returns (ok: bool)
      requires Valid()
      modifies this
      ensures Valid()
      ensures ok == (target.DockerVolume? || (target.LocalDirectory? && written))
      ensures history == if target.DockerVolume? then old(history) + [FirstRunMarked] else old(history)
      ensures target.DockerVolume? ==> StartedSince(history)
    {
      StartedGrows(history, FirstRunMarked);
      hide SawEmpty, Steps, MarkersKept, ShowsContent, LastChange, ActivityIs;
      if target.LocalDirectory? {
        return written;
      }
      if target.Disabled? {
        return false;
      }
      HistoryGrows(history, FirstRunMarked);
      SawEmptyGrows(history, FirstRunMarked);
      started, completed := true, false;
      ResetObservedFirstRun();
      history := history + [FirstRunMarked];
      return true;
    }

    method MarkCacheCompleted(written: bool) returns (ok: bool)
      requires Valid()
      modifies this, tracker
      ensures Valid()
      ensures ok == (target.DockerVolume? || (target.LocalDirectory? && written))
      ensures history == if ok then old(history) + [CompletedMarked] else old(history)
      ensures ok ==> CompletedSince(history)
    {
      CompletedGrows(history, CompletedMarked);
      hide SawEmpty, Steps, ShowsContent, LastChange, ActivityIs, MarkersKept;
      ok := target.DockerVolume? || (target.LocalDirectory? && written);
      if ok {
        HistoryGrows(history, CompletedMarked);
        SawEmptyGrows(history, CompletedMarked);
        if target.DockerVolume? {
          started, completed := false, true;
        }
        tracker.Reset();
        ResetObservedFirstRun();
        history := history + [CompletedMarked];
      }
    }
  }
}
