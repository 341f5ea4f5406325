/** utils/model_naming.py: no query claims the job of another leaf. */
module CiLeaves {
  import opened Wrappers
  import opened PyStrings
  import opened ModelNaming
  import opened CiNames

  // ----- The spellings of a model -------------------------------------------------------------

  lemma {:induction false} ReplaceAvoids(s: string, old_: string, new_: string, c: char)
    requires old_ != "" && c !in s && c !in new_
    ensures c !in Replace(s, old_, new_)
    decreases |s|
  {
    if |s| >= |old_| {
      if s[..|old_|] == old_ {
        ReplaceAvoids(s[|old_|..], old_, new_, c);
      } else {
        assert s[0] in s;
        ReplaceAvoids(s[1..], old_, new_, c);
      }
    }
  }

  lemma SpellingsAvoid(id: string, c: char)
    requires c !in id && c != '_'
    ensures forall k :: 0 <= k < |ModelNameVariants(id)| ==> c !in ModelNameVariants(id)[k]
  {
    if id != "" {
      hide Replace, SplitAtLast, WithoutRepeats;
      ReplaceAvoids(id, "/", "__", c);
      ReplaceAvoids(Replace(id, "/", "__"), "\\", "__", c);
      ReplaceAvoids(Replace(Replace(id, "/", "__"), "\\", "__"), " ", "_", c);
      ReplaceAvoids(id, "/", "_", c);
      ReplaceAvoids(Replace(id, "/", "_"), "\\", "_", c);
      ReplaceAvoids(Replace(Replace(id, "/", "_"), "\\", "_"), " ", "_", c);
      SplitAtLastShape(id, '/');
      SlugOfNonEmpty(id);
      var xs := [SlugifyModelId(id), id, UnderscoreId(id), Basename(id)];
      WithoutRepeatsKeepsFirst(xs);
      assert forall x :: x in xs ==> c !in x;
      forall k | 0 <= k < |WithoutRepeats(xs)| ensures c !in WithoutRepeats(xs)[k] {
        assert WithoutRepeats(xs)[k] in WithoutRepeats(xs);
      }
    }
  }

  lemma {:induction false} ReplaceCharLength(s: string, c: char, new_: string)
    requires new_ != ""
    ensures |Replace(s, [c], new_)| >= |s|
    ensures |new_| == 1 ==> |Replace(s, [c], new_)| == |s|
  {
    if s != "" {
      ReplaceCharStep(s, c, new_);
      ReplaceCharLength(s[1..], c, new_);
    }
  }

  /** The canonical token is the longest spelling. */
  lemma SpellingsNoLonger(id: string)
    ensures forall k :: 0 <= k < |ModelNameVariants(id)| ==> |ModelNameVariants(id)[k]| <= |SlugifyModelId(id)|
  {
    if id != "" {
      hide Replace, SplitAtLast, WithoutRepeats;
      ReplaceCharLength(id, '/', "__");
      ReplaceCharLength(Replace(id, "/", "__"), '\\', "__");
      ReplaceCharLength(Replace(Replace(id, "/", "__"), "\\", "__"), ' ', "_");
      ReplaceCharLength(id, '/', "_");
      ReplaceCharLength(Replace(id, "/", "_"), '\\', "_");
      ReplaceCharLength(Replace(Replace(id, "/", "_"), "\\", "_"), ' ', "_");
      SplitAtLastShape(id, '/');
      SlugOfNonEmpty(id);
      var xs := [SlugifyModelId(id), id, UnderscoreId(id), Basename(id)];
      WithoutRepeatsKeepsFirst(xs);
      assert forall x :: x in xs ==> |x| <= |SlugifyModelId(id)|;
      forall k | 0 <= k < |WithoutRepeats(xs)| ensures |WithoutRepeats(xs)[k]| <= |SlugifyModelId(id)| {
        assert WithoutRepeats(xs)[k] in WithoutRepeats(xs);
      }
    }
  }

  // ----- Impls ----------------------------------------------------------------------------------

  /** Two texts that hold exactly two separators agree between them where one contains the other. */
  lemma BetweenSeparators(x: string, impl: string, y: string, a: string, impl': string, b: string, i: nat)
    requires IMPL_SEP !in x && IMPL_SEP !in impl && IMPL_SEP !in y && IMPL_SEP !in impl'
    requires OccursAt(x + [IMPL_SEP] + impl + [IMPL_SEP] + y, a + [IMPL_SEP] + impl' + [IMPL_SEP] + b, i)
    ensures impl == impl'
  {
    var s, m := x + [IMPL_SEP] + impl + [IMPL_SEP] + y, a + [IMPL_SEP] + impl' + [IMPL_SEP] + b;
    var p, q := |x|, |x| + 1 + |impl|;
    var u, v := |a|, |a| + 1 + |impl'|;
    assert forall k :: 0 <= k < |m| ==> m[k] == s[i + k] by {
      assert s[i..i + |m|] == m;
    }
    assert m[u] == IMPL_SEP && m[v] == IMPL_SEP;
    SeparatorsOf(x, impl, y);
    assert i + u == p && i + v == q;
    forall k | 0 <= k < |impl| ensures impl[k] == impl'[k] {
      assert impl'[k] == m[u + 1 + k] && s[p + 1 + k] == impl[k];
    }
  }

  lemma SeparatorsOf(x: string, impl: string, y: string)
    requires IMPL_SEP !in x && IMPL_SEP !in impl && IMPL_SEP !in y
    ensures var s := x + [IMPL_SEP] + impl + [IMPL_SEP] + y;
            forall k :: 0 <= k < |s| && s[k] == IMPL_SEP ==> k == |x| || k == |x| + 1 + |impl|
  {
    var s := x + [IMPL_SEP] + impl + [IMPL_SEP] + y;
    forall k | 0 <= k < |s| && k != |x| && k != |x| + 1 + |impl| ensures s[k] != IMPL_SEP {
      if k < |x| {
        assert s[k] == x[k];
      } else if k < |x| + 1 + |impl| {
        assert s[k] == impl[k - |x| - 1];
      } else {
        assert s[k] == y[k - |x| - |impl| - 2];
      }
    }
  }

  lemma MarkerSplits(workflow: string, token: string, impl: string)
    requires impl != ""
    ensures Marker(workflow, token + ImplSuffix(impl))
         == ("run-" + workflow + "-" + token) + [IMPL_SEP] + impl + [IMPL_SEP] + "-"
  {
  }

  /** A job name as the jobs API shows it: behind its caller and before any description. */
  datatype PrintedJob = PrintedJob(caller: string, workflow: string, modelId: string, runnerLabel: string,
                                   runnerType: string, impl: string, trailer: string) {
    function Name(): string {
      caller + CiJobName(workflow, modelId, runnerLabel, runnerType, impl) + trailer
    }

    /** What follows the leaf token. */
    function After(): string {
      "-" + runnerLabel + "-" + runnerType + trailer
    }

    function Before(): string {
      caller + ("run-" + workflow + "-" + SlugifyModelId(modelId))
    }

    predicate Avoids(c: char) {
      && c !in caller && c !in workflow && c !in modelId && c !in runnerLabel
      && c !in runnerType && c !in impl && c !in trailer
    }

    lemma NameSplits()
      requires impl != ""
      ensures Name() == Before() + [IMPL_SEP] + impl + [IMPL_SEP] + After()
    {
      hide SlugifyModelId, Marker;
      MarkerSplits(workflow, SlugifyModelId(modelId), impl);
      var leaf := ("run-" + workflow + "-" + SlugifyModelId(modelId)) + [IMPL_SEP] + impl + [IMPL_SEP];
      assert CiJobName(workflow, modelId, runnerLabel, runnerType, impl) == leaf + "-" + runnerLabel + "-" + runnerType;
      Regroup(caller, leaf, runnerLabel, runnerType, trailer);
    }

    lemma AfterAvoids(c: char)
      requires Avoids(c) && c != '-'
      ensures c !in After()
    {
    }
  }

  lemma Regroup(caller: string, leaf: string, runnerLabel: string, runnerType: string, trailer: string)
    ensures caller + (leaf + "-" + runnerLabel + "-" + runnerType) + trailer
         == caller + leaf + ("-" + runnerLabel + "-" + runnerType + trailer)
  {
  }

  lemma SlugAvoidsSeparator(id: string)
    requires IMPL_SEP !in id
    ensures IMPL_SEP !in SlugifyModelId(id)
  {
    if id != "" {
      SpellingsAvoid(id, IMPL_SEP);
      CanonicalFirst(id, "");
    }
  }

  /** A query for one impl never matches another impl's job, whatever model it names. */
  lemma ImplsStayApart(job: PrintedJob, workflow: string, modelId: string, device: string, others: seq<string>,
      impl: string)
    requires job.impl != "" && impl != "" && job.impl != impl
    requires job.Avoids(IMPL_SEP) && IMPL_SEP !in impl
    ensures !Matches(job.Name(), workflow, modelId, device, others, impl)
  {
    var tokens := LeafVariants(modelId, impl);
    forall k | 0 <= k < |tokens| ensures !Explains(job.Name(), workflow, tokens[k], DeviceSuffix(device)) {
      NoMarkerOfOtherImpl(job, workflow, ModelNameVariants(modelId)[k], impl);
    }
  }

  lemma NoMarkerOfOtherImpl(job: PrintedJob, workflow: string, spelling: string, impl: string)
    requires job.impl != "" && impl != "" && job.impl != impl
    requires job.Avoids(IMPL_SEP) && IMPL_SEP !in impl
    ensures Find(job.Name(), Marker(workflow, spelling + ImplSuffix(impl))).None?
  {
    hide SlugifyModelId, OccursAt, Marker, job.Name, job.After, ImplSuffix;
    var marker := Marker(workflow, spelling + ImplSuffix(impl));
    var a := "run-" + workflow + "-" + spelling;
    job.NameSplits();
    job.AfterAvoids(IMPL_SEP);
    SlugAvoidsSeparator(job.modelId);
    assert IMPL_SEP !in job.Before();
    MarkerSplits(workflow, spelling, impl);
    forall i: nat ensures !OccursAt(job.Name(), marker, i) {
      if OccursAt(job.Name(), marker, i) {
        BetweenSeparators(job.Before(), job.impl, job.After(), a, impl, "-", i);
      }
    }
  }

  /** A query for the default impl never matches an explicit impl's job, provided the text after
      the impl does not itself begin a job name of that workflow. */
  lemma DefaultQueryMissesImplJob(job: PrintedJob, workflow: string, modelId: string, device: string,
      others: seq<string>)
    requires job.impl != "" && IMPL_SEP !in workflow && IMPL_SEP !in modelId
    requires forall i :: !OccursAt(job.After(), "run-" + workflow + "-", i)
    ensures !Matches(job.Name(), workflow, modelId, device, others, "")
  {
    hide ModelNameVariants, LeafVariants, SlugifyModelId, job.Name, job.After, job.Before, Explains, OccursAt,
         DeviceSuffix;
    var tokens := ModelNameVariants(modelId);
    LeavesWithoutImpl(modelId);
    SpellingsAvoid(modelId, IMPL_SEP);
    job.NameSplits();
    forall k | 0 <= k < |tokens| ensures !Explains(job.Name(), workflow, tokens[k], DeviceSuffix(device)) {
      SeparatorInTail(job.Before() + [IMPL_SEP] + job.impl, job.After(), workflow, tokens[k], DeviceSuffix(device));
    }
  }

  /** An occurrence of a marker beyond the last separator starts a job name there. */
  lemma FoundBeyond(before: string, y: string, workflow: string, token: string, at: int)
    ensures at > |before| && OccursAt(before + [IMPL_SEP] + y, Marker(workflow, token), at)
        ==> OccursAt(y, "run-" + workflow + "-", at - |before| - 1)
  {
    var start, marker := "run-" + workflow + "-", Marker(workflow, token);
    var j := at - |before| - 1;
    OccursInside(before + [IMPL_SEP], marker, y, at);
    assert marker == start + (token + "-");
    if OccursAt(y, marker, j) {
      assert y[j..j + |start|] == y[j..j + |marker|][..|start|];
    }
  }

  lemma SeparatorInTail(before: string, y: string, workflow: string, token: string, deviceSuffix: string)
    requires IMPL_SEP !in workflow && IMPL_SEP !in token
    requires forall i :: !OccursAt(y, "run-" + workflow + "-", i)
    ensures !Explains(before + [IMPL_SEP] + y, workflow, token, deviceSuffix)
  {
    hide Strip, RStrip, Lower, EndsWith;
    var job, marker := before + [IMPL_SEP] + y, Marker(workflow, token);
    var at := Find(job, marker);
    if at.Some? {
      var q := |before|;
      var end := at.value + |marker|;
      FoundBeyond(before, y, workflow, token, at.value);
      assert IMPL_SEP !in marker && job[q] == IMPL_SEP;
      assert forall k :: at.value <= k < end ==> job[k] != IMPL_SEP by {
        assert job[at.value..end] == marker;
        assert forall k :: at.value <= k < end ==> job[k] == marker[k - at.value];
      }
      assert at.value <= q;
      assert end <= q;
      assert job[end..][q - end] == IMPL_SEP;
      StripKeeps(job[end..], IsSpace, IMPL_SEP);
      RStripKeeps(Strip(job[end..], IsSpace), Trailing, IMPL_SEP);
    }
  }

  // ----- A leaf's own job -----------------------------------------------------------------------

  lemma {:induction false} LStripBefore(a: string, b: string, drop: char -> bool)
    requires b != "" && !drop(b[0])
    ensures exists n :: 0 <= n <= |a| && LStrip(a + b, drop) == a[n..] + b
  {
    if a == "" {
      assert a + b == b && b == a[0..] + b;
    } else if drop(a[0]) {
      assert (a + b)[1..] == a[1..] + b;
      LStripBefore(a[1..], b, drop);
      var n :| 0 <= n <= |a[1..]| && LStrip(a[1..] + b, drop) == a[1..][n..] + b;
      assert a[1..][n..] == a[n + 1..];
    } else {
      assert a + b == a[0..] + b;
    }
  }

  /** Stripping leaves the end of a printed job name. */
  lemma JobEndKept(runnerLabel: string, runnerType: string)
    requires DeviceName(runnerType)
    ensures exists n :: 0 <= n <= |runnerLabel|
              && RStrip(Strip(runnerLabel + "-" + runnerType, IsSpace), Trailing)
                 == runnerLabel[n..] + ("-" + runnerType)
  {
    var raw := runnerLabel + ("-" + runnerType);
    assert raw == runnerLabel + "-" + runnerType;
    LStripBefore(runnerLabel, "-" + runnerType, IsSpace);
    var n :| 0 <= n <= |runnerLabel| && LStrip(raw, IsSpace) == runnerLabel[n..] + ("-" + runnerType);
    var tail := runnerLabel[n..] + ("-" + runnerType);
    var last := runnerType[|runnerType| - 1];
    assert last in runnerType && tail[|tail| - 1] == last;
    hide LStrip, DeviceName;
    assert RStrip(tail, IsSpace) == tail && RStrip(tail, Trailing) == tail;
  }

  /** A job name is explained by the leaf it was printed for, for its own device in any letter case. */
  lemma OwnJobExplained(caller: string, workflow: string, token: string, runnerLabel: string, runnerType: string,
      device: string)
    requires FoundAfter(caller, Marker(workflow, token), runnerLabel + "-" + runnerType)
    requires IMPL_SEP !in runnerLabel && IMPL_SEP !in runnerType
    requires DeviceName(runnerType) && Lower(device) == Lower(runnerType)
    ensures Explains(
              caller + Marker(workflow, token) + runnerLabel + "-" + runnerType, workflow, token, DeviceSuffix(device))
  {
    hide Marker, Find, OccursAt, DeviceSuffix, DeviceName, Lower, EndsWith, Strip, RStrip;
    var marker := Marker(workflow, token);
    var raw := runnerLabel + "-" + runnerType;
    var job := caller + marker + runnerLabel + "-" + runnerType;
    assert job == caller + marker + raw;
    FindAfter(caller, marker, raw);
    assert job[|caller| + |marker|..] == raw;
    JobEndKept(runnerLabel, runnerType);
    var n :| 0 <= n <= |runnerLabel|
             && RStrip(Strip(raw, IsSpace), Trailing) == runnerLabel[n..] + ("-" + runnerType);
    assert IMPL_SEP !in runnerLabel[n..] + ("-" + runnerType);
    SuffixLowered(runnerLabel[n..], runnerType, device);
  }

  lemma SuffixLowered(before: string, runnerType: string, device: string)
    requires Lower(device) == Lower(runnerType)
    ensures EndsWith(Lower(before + ("-" + runnerType)), DeviceSuffix(device))
  {
    var t, s := Lower(before + ("-" + runnerType)), DeviceSuffix(device);
    assert |Lower(device)| == |Lower(runnerType)|;
    forall i | 0 <= i < |s| ensures t[|before| + i] == s[i] {
      if i > 0 {
        assert Lower(device)[i - 1] == Lower(runnerType)[i - 1];
      }
    }
    assert t[|t| - |s|..] == s;
  }

  lemma NoSiblingRivals(job: string, workflow: string, other: string, suffix: string, length: nat)
    requires |SlugifyModelId(other)| <= length
    ensures NoLongerRival(job, workflow, other, suffix, length)
  {
    SpellingsNoLonger(other);
    LeavesWithoutImpl(other);
    hide Explains, ModelNameVariants, LeafVariants, SlugifyModelId;
  }

  /** A leaf's own job is claimed among any models in scope whose names are no longer than the leaf. */
  lemma OwnJobMatches(caller: string, workflow: string, modelId: string, runnerLabel: string, runnerType: string,
                      impl: string, device: string, others: seq<string>)
    requires forall o :: o in others && o != modelId ==> |SlugifyModelId(o)| <= |LeafToken(modelId, impl)|
    requires modelId != ""
    requires FoundAfter(caller, Marker(workflow, LeafToken(modelId, impl)), runnerLabel + "-" + runnerType)
    requires IMPL_SEP !in runnerLabel && IMPL_SEP !in runnerType
    requires DeviceName(runnerType) && Lower(device) == Lower(runnerType)
    ensures Matches(
              caller + CiJobName(workflow, modelId, runnerLabel, runnerType, impl),
              workflow, modelId, device, others, impl)
  {
    hide Explains, Marker, NoLongerRival, LeafVariants, SlugifyModelId;
    var job := caller + CiJobName(workflow, modelId, runnerLabel, runnerType, impl);
    OwnJobExplained(caller, workflow, LeafToken(modelId, impl), runnerLabel, runnerType, device);
    assert job == caller + Marker(workflow, LeafToken(modelId, impl)) + runnerLabel + "-" + runnerType;
    CanonicalFirst(modelId, impl);
    assert |device| == |Lower(device)|;
    forall o | 0 <= o < |others| && others[o] != modelId
      ensures NoLongerRival(job, workflow, others[o], DeviceSuffix(device), |LeafToken(modelId, impl)|)
    {
      assert others[o] in others;
      NoSiblingRivals(job, workflow, others[o], DeviceSuffix(device), |LeafToken(modelId, impl)|);
    }
    FirstLeafWins(job, workflow, modelId, device, others, impl);
  }

  lemma FirstLeafWins(job: string, workflow: string, modelId: string, device: string, others: seq<string>, impl: string)
    requires job != "" && device != "" && LeafVariants(modelId, impl) != []
    requires Explains(job, workflow, LeafVariants(modelId, impl)[0], DeviceSuffix(device))
    requires forall o :: 0 <= o < |others| && others[o] != modelId ==>
               NoLongerRival(job, workflow, others[o], DeviceSuffix(device), |LeafVariants(modelId, impl)[0]|)
    ensures Matches(job, workflow, modelId, device, others, impl)
  {
    hide Explains, NoLongerRival, LeafVariants, DeviceSuffix;
  }

  /** With a model of longer name in scope, that model's default job is left to it. */
  lemma LongerSiblingWins(caller: string, workflow: string, sibling: string, runnerLabel: string, runnerType: string,
                          modelId: string, device: string, others: seq<string>)
    requires sibling != "" && sibling != modelId && sibling in others
    requires |SlugifyModelId(sibling)| > |SlugifyModelId(modelId)|
    requires FoundAfter(caller, Marker(workflow, LeafToken(sibling, "")), runnerLabel + "-" + runnerType)
    requires IMPL_SEP !in runnerLabel && IMPL_SEP !in runnerType
    requires DeviceName(runnerType) && Lower(device) == Lower(runnerType)
    ensures !Matches(
              caller + CiJobName(workflow, sibling, runnerLabel, runnerType, ""),
              workflow, modelId, device, others, "")
  {
    hide Explains, Marker, ModelNameVariants, SlugifyModelId;
    var job := caller + CiJobName(workflow, sibling, runnerLabel, runnerType, "");
    OwnJobExplained(caller, workflow, LeafToken(sibling, ""), runnerLabel, runnerType, device);
    assert job == caller + Marker(workflow, LeafToken(sibling, "")) + runnerLabel + "-" + runnerType;
    CanonicalFirst(sibling, "");
    SpellingsNoLonger(modelId);
    var o :| 0 <= o < |others| && others[o] == sibling;
    var own := LeafVariants(modelId, "");
    forall k | 0 <= k < |own| ensures !NoLongerRival(job, workflow, others[o], DeviceSuffix(device), |own[k]|) {
      assert Explains(job, workflow, LeafVariants(sibling, "")[0], DeviceSuffix(device));
    }
  }
}
