/** utils/model_naming.py: the artifact and job names of CI, printed by one repository and
    parsed by the other. */
module CiNames {
  import opened Wrappers
  import opened PyStrings
  import opened ModelNaming

  // ----- Printers ---------------------------------------------------------------------------

  function LeafToken(modelId: string, impl: string): string {
    SlugifyModelId(modelId) + ImplSuffix(impl)
  }

  function ImplSuffix(impl: string): string {
    if impl == "" then "" else [IMPL_SEP] + impl + [IMPL_SEP]
  }

  /** `run-<workflow>-<token>-`, the part of a job name before the runner label. */
  function Marker(workflow: string, token: string): string {
    "run-" + workflow + "-" + token + "-"
  }

  function CiJobName(workflow: string, modelId: string, runnerLabel: string, runnerType: string, impl: string): string {
    Marker(workflow, LeafToken(modelId, impl)) + runnerLabel + "-" + runnerType
  }

  function ArtifactPrefix(workflow: string, token: string): string {
    "workflow_logs_" + workflow + "_" + token + "_"
  }

  /** The full bundle name: the documented prefix, the runner and the impl or `default`. */
  function WorkflowLogsArtifactName(workflow: string, modelId: string, runner: string, suffix: string): string {
    ArtifactPrefix(workflow, SlugifyModelId(modelId)) + runner + "_" + suffix
  }

  /** The grammars the two repositories share. */
  lemma PrintedNames(workflow: string, modelId: string, runner: string, device: string, impl: string, suffix: string)
    ensures LeafToken(modelId, impl)
         == SlugifyModelId(modelId) + if impl == "" then "" else "@" + impl + "@"
    ensures CiJobName(workflow, modelId, runner, device, impl)
         == "run-" + workflow + "-" + LeafToken(modelId, impl) + "-" + runner + "-" + device
    ensures WorkflowLogsArtifactName(workflow, modelId, runner, suffix)
         == "workflow_logs_" + workflow + "_" + SlugifyModelId(modelId) + "_" + runner + "_" + suffix
  {
    hide SlugifyModelId;
  }

  // ----- The spellings a reader accepts -----------------------------------------------------

  function Basename(id: string): string {
    match SplitAtLast(id, '/')
    case None => id
    case Some((_, name)) => name
  }

  function UnderscoreId(id: string): string {
    Replace(Replace(Replace(id, "/", "_"), "\\", "_"), " ", "_")
  }

  /** Non-empty entries, each at its first occurrence. */
  function WithoutRepeats(xs: seq<string>): seq<string> {
    if xs == [] then []
    else
      var before, x := WithoutRepeats(xs[..|xs| - 1]), xs[|xs| - 1];
      if x == "" || x in before then before else before + [x]
  }

  function ModelNameVariants(id: string): seq<string> {
    if id == "" then [] else WithoutRepeats([SlugifyModelId(id), id, UnderscoreId(id), Basename(id)])
  }

  function LeafVariants(id: string, impl: string): (tokens: seq<string>)
    ensures |tokens| == |ModelNameVariants(id)|
    ensures forall k :: 0 <= k < |tokens| ==> tokens[k] == ModelNameVariants(id)[k] + ImplSuffix(impl)
  {
    var variants := ModelNameVariants(id);
    seq(|variants|, i requires 0 <= i < |variants| => variants[i] + ImplSuffix(impl))
  }

  lemma LeavesWithoutImpl(id: string)
    ensures LeafVariants(id, "") == ModelNameVariants(id)
  {
    forall k | 0 <= k < |ModelNameVariants(id)| ensures LeafVariants(id, "")[k] == ModelNameVariants(id)[k] {
      assert ModelNameVariants(id)[k] + "" == ModelNameVariants(id)[k];
    }
  }

  lemma SlugOfNonEmpty(id: string)
    requires id != ""
    ensures SlugifyModelId(id) != ""
  {
    SlugStep(id);
  }

  /** The canonical token is tried first. */
  lemma CanonicalFirst(id: string, impl: string)
    requires id != ""
    ensures ModelNameVariants(id) != [] && ModelNameVariants(id)[0] == SlugifyModelId(id)
    ensures LeafVariants(id, impl)[0] == LeafToken(id, impl)
  {
    SlugOfNonEmpty(id);
    var xs := [SlugifyModelId(id), id, UnderscoreId(id), Basename(id)];
    WithoutRepeatsKeepsFirst(xs);
  }

  lemma {:induction false} WithoutRepeatsKeepsFirst(xs: seq<string>)
    requires xs != [] && xs[0] != ""
    ensures WithoutRepeats(xs) != [] && WithoutRepeats(xs)[0] == xs[0]
    ensures forall x :: x in WithoutRepeats(xs) ==> x in xs
  {
    var n := |xs| - 1;
    if n > 0 {
      WithoutRepeatsKeepsFirst(xs[..n]);
    } else {
      assert xs[..n] == [];
    }
  }

  lemma OneMore(xs: seq<string>, x: string)
    ensures WithoutRepeats(xs + [x])
         == if x == "" || x in WithoutRepeats(xs) then WithoutRepeats(xs) else WithoutRepeats(xs) + [x]
  {
    assert (xs + [x])[..|xs|] == xs;
  }

  lemma WithoutRepeatsOfThree(a: string, b: string, c: string)
    requires a != "" && b != ""
    ensures WithoutRepeats([a, b, c])
         == [a] + (if b == a then [] else [b]) + (if c == "" || c == a || c == b then [] else [c])
  {
    OneMore([], a);
    OneMore([a], b);
    OneMore([a, b], c);
    assert [] + [a] == [a] && [a] + [b] == [a, b] && [a, b] + [c] == [a, b, c];
    assert WithoutRepeats([]) == [];
    hide WithoutRepeats;
  }

  lemma WithoutRepeatsOfFour(a: string, b: string, c: string, d: string)
    requires a != "" && b != ""
    ensures WithoutRepeats([a, b, c, d])
         == [a] + (if b == a then [] else [b]) + (if c == "" || c == a || c == b then [] else [c])
            + (if d == "" || d == a || d == b || d == c then [] else [d])
  {
    hide WithoutRepeats;
    WithoutRepeatsOfThree(a, b, c);
    OneMore([a, b, c], d);
    assert [a, b, c] + [d] == [a, b, c, d];
  }

  /** A model is spelled four ways, tried in this order: the canonical token, the id as it is, the id with
      single underscores, and what follows its last separator; each once, and none empty. */
  lemma SpellingsAre(id: string, base: string, owner: string)
    requires id != "" && '/' !in base && (id == base || id == owner + "/" + base)
    ensures var a, c := SlugifyModelId(id), UnderscoreId(id);
            ModelNameVariants(id)
            == [a] + (if id == a then [] else [id]) + (if c == "" || c == a || c == id then [] else [c])
               + (if base == "" || base == a || base == id || base == c then [] else [base])
  {
    BasenameIs(id, base, owner);
    SlugOfNonEmpty(id);
    WithoutRepeatsOfFour(SlugifyModelId(id), id, UnderscoreId(id), base);
    hide SlugifyModelId, UnderscoreId, WithoutRepeats, Basename;
  }

  lemma BasenameIs(id: string, base: string, owner: string)
    requires '/' !in base && (id == base || id == owner + "/" + base)
    ensures Basename(id) == base
  {
    if id == owner + "/" + base {
      SplitAtLastOf(owner, '/', base);
      assert '/' in id;
    } else {
      SplitAtLastShape(id, '/');
    }
  }

  // ----- Artifact names ---------------------------------------------------------------------

  function SplitRest(rest: string): Option<(string, string)> {
    match SplitAtLast(rest, '_')
    case None => None
    case Some((runner, suffix)) => if runner == "" then None else Some((runner, suffix))
  }

  /** The first token that explains the start of the name decides. */
  function SplitArtifact(name: string, workflow: string, tokens: seq<string>): Option<(string, string)> {
    if tokens == [] then None
    else if StartsWith(name, ArtifactPrefix(workflow, tokens[0])) then
      SplitRest(name[|ArtifactPrefix(workflow, tokens[0])|..])
    else SplitArtifact(name, workflow, tokens[1..])
  }

  method SplitWorkflowLogsArtifactName(name: string, workflow: string, modelId: string)
    returns (r: Option<(string, string)>)
    ensures r == if name == "" then None else SplitArtifact(name, workflow, ModelNameVariants(modelId))
  {
    if name == "" {
      return None;
    }
    var tokens := ModelNameVariants(modelId);
    for i := 0 to |tokens|
      invariant SplitArtifact(name, workflow, tokens[i..]) == SplitArtifact(name, workflow, tokens)
    {
      var prefix := ArtifactPrefix(workflow, tokens[i]);
      if StartsWith(name, prefix) {
        var split := SplitAtLast(name[|prefix|..], '_');
        if split.None? || split.value.0 == "" {
          return None;
        }
        return split;
      }
    }
    return None;
  }

  /** Runner and suffix are recovered from every printed name. */
  lemma ArtifactNameParsesBack(workflow: string, modelId: string, runner: string, suffix: string)
    requires modelId != "" && runner != "" && '_' !in suffix
    ensures SplitArtifact(WorkflowLogsArtifactName(workflow, modelId, runner, suffix), workflow,
              ModelNameVariants(modelId))
         == Some((runner, suffix))
  {
    hide SlugifyModelId, ModelNameVariants, SplitAtLast;
    var prefix := ArtifactPrefix(workflow, SlugifyModelId(modelId));
    var name := WorkflowLogsArtifactName(workflow, modelId, runner, suffix);
    CanonicalFirst(modelId, "");
    assert name == prefix + (runner + ['_'] + suffix);
    SplitAtLastOf(runner, '_', suffix);
  }

  /** Whatever is split has the grammar of a bundle of this model, under one of its spellings. */
  lemma {:induction false} SplitArtifactShape(name: string, workflow: string, tokens: seq<string>)
    ensures var r := SplitArtifact(name, workflow, tokens);
            r.Some? ==> r.value.0 != "" && '_' !in r.value.1
                        && exists k :: 0 <= k < |tokens|
                             && name == ArtifactPrefix(workflow, tokens[k]) + r.value.0 + ['_'] + r.value.1
  {
    if tokens != [] {
      var prefix := ArtifactPrefix(workflow, tokens[0]);
      if StartsWith(name, prefix) {
        assert name == prefix + name[|prefix|..];
        SplitAtLastShape(name[|prefix|..], '_');
        var r := SplitArtifact(name, workflow, tokens);
        if r.Some? {
          assert name == ArtifactPrefix(workflow, tokens[0]) + r.value.0 + ['_'] + r.value.1;
        }
      } else {
        SplitArtifactShape(name, workflow, tokens[1..]);
        var r := SplitArtifact(name, workflow, tokens);
        if r.Some? {
          var k :| 0 <= k < |tokens[1..]|
                   && name == ArtifactPrefix(workflow, tokens[1..][k]) + r.value.0 + ['_'] + r.value.1;
          assert tokens[1..][k] == tokens[k + 1];
        }
      }
    }
  }

  // ----- The device of a job ----------------------------------------------------------------

  predicate Trailing(c: char) {
    c == ',' || c == ')'
  }

  function DeviceWithToken(job: string, marker: string): Option<string> {
    match Find(job, marker)
    case None => None
    case Some(i) =>
      var tail := Strip(job[i + |marker|..], IsSpace);
      if tail == "" then None else Some(Strip(FirstWord(tail), Trailing))
  }

  function DeviceFrom(job: string, workflow: string, runnerLabel: string, tokens: seq<string>): Option<string> {
    if tokens == [] then None
    else
      var device := DeviceWithToken(job, Marker(workflow, tokens[0]) + runnerLabel + "-");
      if device.Some? then device else DeviceFrom(job, workflow, runnerLabel, tokens[1..])
  }

  method DeviceFromCiJobName(job: string, workflow: string, modelId: string, runnerLabel: string, impl: string)
    returns (r: Option<string>)
    ensures r == if job == "" then None else DeviceFrom(job, workflow, runnerLabel, LeafVariants(modelId, impl))
  {
    if job == "" {
      return None;
    }
    hide DeviceWithToken, Marker, LeafVariants;
    var tokens := LeafVariants(modelId, impl);
    for i := 0 to |tokens|
      invariant DeviceFrom(job, workflow, runnerLabel, tokens[i..]) == DeviceFrom(job, workflow, runnerLabel, tokens)
    {
      var device := DeviceWithToken(job, Marker(workflow, tokens[i]) + runnerLabel + "-");
      if device.Some? {
        return device;
      }
    }
    return None;
  }

  /** A device name the parser can return: one word without wrapping punctuation. */
  predicate DeviceName(device: string) {
    && device != "" && (forall c :: c in device ==> !IsSpace(c))
    && device[0] !in {',', ')'} && device[|device| - 1] !in {',', ')'}
  }

  /** `sub` is first found where `before` ends. */
  predicate FoundAfter(before: string, sub: string, rest: string) {
    forall i :: 0 <= i < |before| ==> !OccursAt(before + sub + rest, sub, i)
  }

  lemma FindAfter(before: string, sub: string, rest: string)
    requires FoundAfter(before, sub, rest)
    ensures Find(before + sub + rest, sub) == Some(|before|)
  {
    var s := before + sub + rest;
    assert s[|before|..|before| + |sub|] == sub;
    assert OccursAt(s, sub, |before|);
  }

  /** Punctuation and then anything after white space may follow the device. */
  predicate Trailer(punctuation: string, rest: string) {
    (forall c :: c in punctuation ==> c in {',', ')'}) && (rest == "" || IsSpace(rest[0]))
  }

  lemma DeviceWordParses(device: string, punctuation: string, rest: string)
    requires DeviceName(device) && Trailer(punctuation, rest)
    ensures Strip(device + punctuation + rest, IsSpace) != ""
    ensures Strip(FirstWord(Strip(device + punctuation + rest, IsSpace)), Trailing) == device
  {
    var word := device + punctuation;
    var s := word + rest;
    assert device[0] in device && s[0] == device[0];
    assert LStrip(s, IsSpace) == s;
    RStripPrefix(s, IsSpace);
    var n := |RStrip(s, IsSpace)|;
    assert forall c :: c in word ==> !IsSpace(c);
    assert word[|word| - 1] in word && s[|word| - 1] == word[|word| - 1];
    assert n >= |word|;
    assert s[..n] == word + rest[..n - |word|];
    FirstWordOf(word, rest[..n - |word|]);
    assert LStrip(word, Trailing) == word;
    RStripAll(device, punctuation);
  }

  lemma {:induction false} RStripAll(device: string, punctuation: string)
    requires device != "" && !Trailing(device[|device| - 1]) && forall c :: c in punctuation ==> Trailing(c)
    ensures RStrip(device + punctuation, Trailing) == device
  {
    if punctuation == "" {
      assert device + punctuation == device;
    } else {
      var shorter := punctuation[..|punctuation| - 1];
      assert punctuation[|punctuation| - 1] in punctuation;
      assert (device + punctuation)[..|device + punctuation| - 1] == device + shorter;
      RStripAll(device, shorter);
    }
  }

  // ----- Which spelling decides -------------------------------------------------------------

  /** The marker is in the job name, and not only white space follows its first occurrence. */
  ghost predicate Leads(job: string, marker: string, at: nat) {
    && OccursAt(job, marker, at) && (forall i :: 0 <= i < at ==> !OccursAt(job, marker, i))
    && exists c :: c in job[at + |marker|..] && !IsSpace(c)
  }

  lemma DeviceWithTokenIff(job: string, marker: string)
    ensures DeviceWithToken(job, marker).Some? <==> exists at :: Leads(job, marker, at)
  {
    match Find(job, marker)
    case None => forall at: nat ensures !Leads(job, marker, at) {}
    case Some(i) =>
      var tail := job[i + |marker|..];
      StripsToNothing(tail, IsSpace);
      hide Strip, FirstWord, IsSpace;
      if c :| c in tail && !IsSpace(c) {
        assert Leads(job, marker, i);
      }
      if at: nat :| Leads(job, marker, at) {
        assert at == i;
      }
  }

  /** The first spelling whose marker leads to something decides; without one there is no device. */
  lemma {:induction false} DeviceFromIff(job: string, workflow: string, runnerLabel: string, tokens: seq<string>)
    ensures var r := DeviceFrom(job, workflow, runnerLabel, tokens);
            && (r.None? <==> forall k :: 0 <= k < |tokens| ==>
                  DeviceWithToken(job, Marker(workflow, tokens[k]) + runnerLabel + "-").None?)
            && forall k ::
                 && 0 <= k < |tokens|
                 && DeviceWithToken(job, Marker(workflow, tokens[k]) + runnerLabel + "-").Some?
                 && (forall j :: 0 <= j < k ==>
                       DeviceWithToken(job, Marker(workflow, tokens[j]) + runnerLabel + "-").None?)
                 ==> r == DeviceWithToken(job, Marker(workflow, tokens[k]) + runnerLabel + "-")
  {
    hide DeviceWithToken, Marker;
    if tokens != [] {
      var rest := tokens[1..];
      DeviceFromIff(job, workflow, runnerLabel, rest);
      assert forall k :: 1 <= k < |tokens| ==> tokens[k] == rest[k - 1];
    }
  }

  /** So a job named by any spelling gives its device, unless an earlier spelling leads somewhere in it. */
  lemma AnySpellingParsesBack(
      caller: string, workflow: string, tokens: seq<string>, k: nat, runnerLabel: string, device: string,
      punctuation: string, rest: string)
    requires k < |tokens| && DeviceName(device) && Trailer(punctuation, rest)
    requires FoundAfter(caller, Marker(workflow, tokens[k]) + runnerLabel + "-", device + punctuation + rest)
    requires var job := caller + (Marker(workflow, tokens[k]) + runnerLabel + "-") + (device + punctuation + rest);
             forall j, at :: 0 <= j < k ==> !Leads(job, Marker(workflow, tokens[j]) + runnerLabel + "-", at)
    ensures DeviceFrom(
              caller + (Marker(workflow, tokens[k]) + runnerLabel + "-") + (device + punctuation + rest), workflow,
              runnerLabel, tokens)
         == Some(device)
  {
    hide Strip, FirstWord, Marker, Find, Trailer, DeviceName;
    var marker, tail := Marker(workflow, tokens[k]) + runnerLabel + "-", device + punctuation + rest;
    var job := caller + marker + tail;
    FindAfter(caller, marker, tail);
    assert job[|caller| + |marker|..] == tail;
    DeviceWordParses(device, punctuation, rest);
    forall j | 0 <= j < k
      ensures DeviceWithToken(job, Marker(workflow, tokens[j]) + runnerLabel + "-").None?
    {
      DeviceWithTokenIff(job, Marker(workflow, tokens[j]) + runnerLabel + "-");
      hide DeviceWithToken, Leads;
    }
    assert DeviceWithToken(job, marker) == Some(device);
    hide DeviceWithToken, Leads, FoundAfter;
    DeviceFromIff(job, workflow, runnerLabel, tokens);
  }

  /** The device is recovered from every printed job name, behind any caller prefix that holds no
      earlier marker and before any trailing description. */
  lemma JobNameParsesBack(caller: string, workflow: string, modelId: string, runnerLabel: string, device: string,
                          impl: string, punctuation: string, rest: string)
    requires modelId != "" && DeviceName(device) && Trailer(punctuation, rest)
    requires FoundAfter(caller, Marker(workflow, LeafToken(modelId, impl)) + runnerLabel + "-",
              device + punctuation + rest)
    ensures DeviceFrom(caller + CiJobName(workflow, modelId, runnerLabel, device, impl) + punctuation + rest,
                       workflow, runnerLabel, LeafVariants(modelId, impl))
         == Some(device)
  {
    hide Strip, FirstWord, Marker, LeafToken, Find, Trailer, DeviceName;
    var marker := Marker(workflow, LeafToken(modelId, impl)) + runnerLabel + "-";
    var tail := device + punctuation + rest;
    var job := caller + CiJobName(workflow, modelId, runnerLabel, device, impl) + punctuation + rest;
    assert job == caller + marker + tail;
    CanonicalFirst(modelId, impl);
    FindAfter(caller, marker, tail);
    assert job[|caller| + |marker|..] == tail;
    DeviceWordParses(device, punctuation, rest);
  }

  // ----- Which leaf a job belongs to --------------------------------------------------------

  function JobTail(job: string, marker: string, at: nat): string
    requires OccursAt(job, marker, at)
  {
    RStrip(Strip(job[at + |marker|..], IsSpace), Trailing)
  }

  /** The token accounts for the job: its marker is in the name, and what follows names no impl
      and ends in the device. */
  predicate Explains(job: string, workflow: string, token: string, deviceSuffix: string) {
    var marker := Marker(workflow, token);
    match Find(job, marker)
    case None => false
    case Some(at) =>
      var tail := JobTail(job, marker, at);
      IMPL_SEP !in tail && EndsWith(Lower(tail), deviceSuffix)
  }

  /** The length of the longest explaining token, None if there is no such token. */
  ghost predicate IsLongest(r: Option<nat>, job: string, workflow: string, tokens: seq<string>, deviceSuffix: string) {
    match r
    case None => forall k :: 0 <= k < |tokens| ==> !Explains(job, workflow, tokens[k], deviceSuffix)
    case Some(n) =>
      && (exists k :: 0 <= k < |tokens| && Explains(job, workflow, tokens[k], deviceSuffix) && |tokens[k]| == n)
      && (forall k :: 0 <= k < |tokens| && Explains(job, workflow, tokens[k], deviceSuffix) ==> |tokens[k]| <= n)
  }

  method LongestMatchingToken(job: string, workflow: string, modelId: string, deviceSuffix: string, impl: string)
    returns (best: Option<nat>)
    ensures IsLongest(best, job, workflow, LeafVariants(modelId, impl), deviceSuffix)
  {
    hide LeafVariants;
    var tokens := LeafVariants(modelId, impl);
    best := None;
    for i := 0 to |tokens|
      invariant IsLongest(best, job, workflow, tokens[..i], deviceSuffix)
    {
      hide Explains;
      ghost var before := best;
      if Explains(job, workflow, tokens[i], deviceSuffix) && (best.None? || |tokens[i]| > best.value) {
        best := Some(|tokens[i]|);
      }
      LongestSoFar(before, best, job, workflow, tokens, i, deviceSuffix);
    }
    assert tokens[..|tokens|] == tokens;
  }

  lemma LongestSoFar(before: Option<nat>, after: Option<nat>, job: string, workflow: string, tokens: seq<string>,
      i: nat, deviceSuffix: string)
    requires i < |tokens| && IsLongest(before, job, workflow, tokens[..i], deviceSuffix)
    requires after == if Explains(job, workflow, tokens[i], deviceSuffix)
              && (before.None? || |tokens[i]| > before.value)
                      then Some(|tokens[i]|) else before
    ensures IsLongest(after, job, workflow, tokens[..i + 1], deviceSuffix)
  {
    hide Explains;
    var now := tokens[..i + 1];
    assert forall k :: 0 <= k < i ==> now[k] == tokens[..i][k];
    assert now[i] == tokens[i];
    if after.Some? && after == before {
      var k :| 0 <= k < i && Explains(job, workflow, tokens[..i][k], deviceSuffix) && |tokens[..i][k]| == after.value;
      assert Explains(job, workflow, now[k], deviceSuffix);
    } else if after.Some? {
      assert Explains(job, workflow, now[i], deviceSuffix);
    }
  }

  function DeviceSuffix(device: string): string {
    Lower("-" + device)
  }

  /** Some token of the model explains the job, at least as long as every token with which
      another model in scope explains it. */
  ghost predicate Matches(job: string, workflow: string, modelId: string, device: string, others: seq<string>,
      impl: string) {
    var suffix, own := DeviceSuffix(device), LeafVariants(modelId, impl);
    && job != "" && device != ""
    && exists k :: 0 <= k < |own| && Explains(job, workflow, own[k], suffix)
         && forall o :: 0 <= o < |others| && others[o] != modelId ==>
              NoLongerRival(job, workflow, others[o], suffix, |own[k]|)
  }

  ghost predicate NoLongerRival(job: string, workflow: string, other: string, suffix: string, length: nat) {
    var tokens := LeafVariants(other, "");
    forall k :: 0 <= k < |tokens| && Explains(job, workflow, tokens[k], suffix) ==> |tokens[k]| <= length
  }

  method CiJobMatchesDevice(job: string, workflow: string, modelId: string, device: string, others: seq<string>,
      impl: string)
    returns (r: bool)
    ensures r <==> Matches(job, workflow, modelId, device, others, impl)
  {
    hide Matches, IsLongest, NoLongerRival, LeafVariants, DeviceSuffix;
    if job == "" || device == "" {
      NamesMissing(job, workflow, modelId, device, others, impl);
      return false;
    }
    var suffix := DeviceSuffix(device);
    var own := LongestMatchingToken(job, workflow, modelId, suffix, impl);
    if own.None? {
      NothingExplains(job, workflow, modelId, device, others, impl);
      return false;
    }
    for i := 0 to |others|
      invariant forall o :: 0 <= o < i && others[o] != modelId ==>
                  NoLongerRival(job, workflow, others[o], suffix, own.value)
    {
      if others[i] != modelId {
        var rival := LongestMatchingToken(job, workflow, others[i], suffix, "");
        if rival.Some? && rival.value > own.value {
          RivalWins(job, workflow, modelId, device, others, impl, own.value, rival.value, i);
          return false;
        }
        RivalLoses(rival, job, workflow, others[i], suffix, own.value);
      }
    }
    OwnWins(job, workflow, modelId, device, others, impl, own.value);
    return true;
  }

  lemma NamesMissing(job: string, workflow: string, modelId: string, device: string, others: seq<string>, impl: string)
    requires job == "" || device == ""
    ensures !Matches(job, workflow, modelId, device, others, impl)
  {
  }

  lemma NothingExplains(job: string, workflow: string, modelId: string, device: string, others: seq<string>,
      impl: string)
    requires IsLongest(None, job, workflow, LeafVariants(modelId, impl), DeviceSuffix(device))
    ensures !Matches(job, workflow, modelId, device, others, impl)
  {
    hide Explains, LeafVariants, NoLongerRival, DeviceSuffix;
  }

  lemma RivalLoses(rival: Option<nat>, job: string, workflow: string, other: string, suffix: string, own: nat)
    requires IsLongest(rival, job, workflow, LeafVariants(other, ""), suffix)
    requires rival.Some? ==> rival.value <= own
    ensures NoLongerRival(job, workflow, other, suffix, own)
  {
    hide Explains, LeafVariants;
  }

  lemma OwnWins(job: string, workflow: string, modelId: string, device: string, others: seq<string>, impl: string,
      own: nat)
    requires job != "" && device != ""
    requires IsLongest(Some(own), job, workflow, LeafVariants(modelId, impl), DeviceSuffix(device))
    requires forall o :: 0 <= o < |others| && others[o] != modelId ==>
               NoLongerRival(job, workflow, others[o], DeviceSuffix(device), own)
    ensures Matches(job, workflow, modelId, device, others, impl)
  {
    hide Explains, LeafVariants, NoLongerRival, DeviceSuffix;
    var tokens, suffix := LeafVariants(modelId, impl), DeviceSuffix(device);
    var best :| 0 <= best < |tokens| && Explains(job, workflow, tokens[best], suffix) && |tokens[best]| == own;
  }

  lemma RivalWins(job: string, workflow: string, modelId: string, device: string, others: seq<string>, impl: string,
                  own: nat, rival: nat, i: nat)
    requires i < |others| && others[i] != modelId && own < rival
    requires IsLongest(Some(own), job, workflow, LeafVariants(modelId, impl), DeviceSuffix(device))
    requires IsLongest(Some(rival), job, workflow, LeafVariants(others[i], ""), DeviceSuffix(device))
    ensures !Matches(job, workflow, modelId, device, others, impl)
  {
    hide Explains, LeafVariants;
    var suffix := DeviceSuffix(device);
    forall length: nat | length <= own ensures !NoLongerRival(job, workflow, others[i], suffix, length) {
    }
  }
}
