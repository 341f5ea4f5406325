/** utils/model_naming.py: whose log bundles a reader takes for its own. */
module CiBundles {
  import opened Wrappers
  import opened PyStrings
  import opened ModelNaming
  import opened CiNames
  import opened CiLeaves

  /** A bundle name of `own` on `runner` can be read as one of `token`. */
  predicate Takes(own: string, runner: string, token: string) {
    StartsWith(own + "_" + runner + "_", token + "_")
  }

  /** Token `k` is the first that can, and leaves some of the name for a runner. */
  predicate TakesFirst(own: string, runner: string, tokens: seq<string>, k: nat)
    requires k < |tokens|
  {
    && Takes(own, runner, tokens[k]) && |tokens[k]| < |own| + |runner|
    && forall j :: 0 <= j < k ==> !Takes(own, runner, tokens[j])
  }

  lemma SharedStart(start: string, x: string, y: string)
    ensures StartsWith(start + x, start + y) <==> StartsWith(x, y)
    ensures StartsWith(start + x, start + y) ==> (start + x)[|start + y|..] == x[|y|..]
  {
    var n := |y|;
    if n <= |x| {
      assert (start + x)[..|start + y|] == start + x[..n];
      assert (start + x)[|start|..][..n] == x[..n] && (start + y)[|start|..] == y;
      assert start + x[..n] == start + y ==> (start + x[..n])[|start|..] == (start + y)[|start|..];
      assert (start + x[..n])[|start|..] == x[..n];
    }
  }

  lemma StartsBeforeSuffix(body: string, suffix: string, token: string)
    requires '_' !in suffix
    ensures StartsWith(body + suffix, token + "_") <==> StartsWith(body, token + "_")
  {
    var t := token + "_";
    if |t| <= |body| {
      assert (body + suffix)[..|t|] == body[..|t|];
    } else if |t| <= |body + suffix| {
      var last := (body + suffix)[..|t|][|token|];
      assert last == suffix[|token| - |body|] && last in suffix && t[|token|] == '_';
    }
  }

  /** What a reader makes of a printed bundle when it tries the spelling `token`. */
  lemma BundleUnder(workflow: string, own: string, runner: string, suffix: string, token: string)
    requires '_' !in suffix && runner != ""
    ensures var name, prefix := ArtifactPrefix(workflow, own) + runner + "_" + suffix, ArtifactPrefix(workflow, token);
            && (StartsWith(name, prefix) <==> Takes(own, runner, token))
            && (StartsWith(name, prefix) ==>
                  SplitRest(name[|prefix|..])
                  == if |token| < |own| + |runner| then Some(((own + "_" + runner)[|token| + 1..], suffix)) else None)
  {
    hide StartsWith, SplitAtLast;
    var start, joined := "workflow_logs_" + workflow + "_", own + "_" + runner;
    var body := joined + "_";
    assert ArtifactPrefix(workflow, own) + runner + "_" + suffix == start + (body + suffix);
    assert ArtifactPrefix(workflow, token) == start + (token + "_");
    SharedStart(start, body + suffix, token + "_");
    StartsBeforeSuffix(body, suffix, token);
    if Takes(own, runner, token) {
      RestOfBundle(joined, suffix, token);
    }
  }

  lemma RestOfBundle(joined: string, suffix: string, token: string)
    requires '_' !in suffix && StartsWith(joined + "_", token + "_")
    ensures SplitRest((joined + "_" + suffix)[|token + "_"|..])
         == if |token| + 1 < |joined| then Some((joined[|token| + 1..], suffix)) else None
  {
    hide SplitAtLast;
    var n := |token + "_"|;
    if n <= |joined| {
      assert (joined + "_" + suffix)[n..] == joined[n..] + ['_'] + suffix;
      SplitAtLastOf(joined[n..], '_', suffix);
    } else {
      assert (joined + "_" + suffix)[n..] == suffix;
      SplitAtLastShape(suffix, '_');
    }
  }

  /** A reader takes the bundle printed for the token `own` iff the first of its spellings that
      could have started the name leaves some of it for a runner; exactly that is then read. */
  lemma {:induction false} BundleTakenIff(workflow: string, own: string, runner: string, suffix: string,
                                          tokens: seq<string>)
    requires runner != "" && '_' !in suffix
    ensures var r := SplitArtifact(ArtifactPrefix(workflow, own) + runner + "_" + suffix, workflow, tokens);
            && (r.Some? <==> exists k :: 0 <= k < |tokens| && TakesFirst(own, runner, tokens, k))
            && (forall k :: 0 <= k < |tokens| && TakesFirst(own, runner, tokens, k) ==>
                  r == Some(((own + "_" + runner)[|tokens[k]| + 1..], suffix)))
  {
    hide Takes, ArtifactPrefix, SplitRest, StartsWith;
    if tokens != [] {
      BundleUnder(workflow, own, runner, suffix, tokens[0]);
      if !Takes(own, runner, tokens[0]) {
        BundleTakenIff(workflow, own, runner, suffix, tokens[1..]);
        FirstOfRest(own, runner, tokens);
      } else {
        assert TakesFirst(own, runner, tokens, 0) <==> |tokens[0]| < |own| + |runner|;
        assert forall k :: 1 <= k < |tokens| ==> !TakesFirst(own, runner, tokens, k);
      }
    }
  }

  lemma FirstOfRest(own: string, runner: string, tokens: seq<string>)
    requires tokens != [] && !Takes(own, runner, tokens[0])
    ensures forall k :: 1 <= k < |tokens| ==>
              (TakesFirst(own, runner, tokens, k) <==> TakesFirst(own, runner, tokens[1..], k - 1))
    ensures (exists k :: 0 <= k < |tokens| && TakesFirst(own, runner, tokens, k))
       <==> exists k :: 0 <= k < |tokens[1..]| && TakesFirst(own, runner, tokens[1..], k)
  {
    var rest := tokens[1..];
    forall k | 1 <= k < |tokens| ensures TakesFirst(own, runner, tokens, k) <==> TakesFirst(own, runner, rest, k - 1) {
      hide Takes;
      assert rest[k - 1] == tokens[k];
      assert forall j :: 1 <= j < k ==> tokens[j] == rest[j - 1];
      assert forall j :: 0 <= j < k - 1 ==> rest[j] == tokens[j + 1];
    }
    assert !TakesFirst(own, runner, tokens, 0);
    hide TakesFirst;
    if k :| 0 <= k < |tokens| && TakesFirst(own, runner, tokens, k) {
      assert TakesFirst(own, runner, rest, k - 1);
    }
    if k :| 0 <= k < |rest| && TakesFirst(own, runner, rest, k) {
      assert TakesFirst(own, runner, tokens, k + 1);
    }
  }

  /** Neither token continues the other after an underscore. */
  predicate Apart(x: string, y: string) {
    !StartsWith(x + "_", y + "_") && !StartsWith(y + "_", x + "_")
  }

  lemma PrefixesCompare(s: string, x: string, y: string)
    requires StartsWith(s, x) && StartsWith(s, y)
    ensures StartsWith(x, y) || StartsWith(y, x)
  {
    if |y| <= |x| {
      assert s[..|x|][..|y|] == s[..|y|];
    } else {
      assert s[..|y|][..|x|] == s[..|x|];
    }
  }

  lemma TakenAreNotApart(own: string, runner: string, token: string)
    requires Takes(own, runner, token)
    ensures !Apart(token, own)
  {
    var body := own + "_" + runner + "_";
    assert body == own + "_" + (runner + "_");
    assert body[..|own + "_"|] == own + "_";
    PrefixesCompare(body, token + "_", own + "_");
  }

  /** A runner label, longer than asked, under which `own`'s bundles can be read as `token`'s. */
  lemma RunnerThatConfuses(own: string, token: string, length: nat) returns (runner: string)
    requires !Apart(token, own)
    ensures Takes(own, runner, token) && |runner| > length
  {
    var pad := seq(length + 1, _ => 'r');
    if StartsWith(own + "_", token + "_") {
      runner := pad;
      assert own + "_" + runner + "_" == own + "_" + (runner + "_");
      assert (own + "_" + runner + "_")[..|token + "_"|] == (own + "_")[..|token + "_"|];
    } else {
      runner := (token + "_")[|own + "_"|..] + pad;
      assert own + "_" + runner + "_" == token + "_" + (pad + "_");
      assert (own + "_" + runner + "_")[..|token + "_"|] == token + "_";
    }
  }

  lemma {:induction false} FirstTaker(own: string, runner: string, tokens: seq<string>, k: nat) returns (first: nat)
    requires k < |tokens| && Takes(own, runner, tokens[k])
    requires forall j :: 0 <= j < |tokens| ==> |tokens[j]| < |own| + |runner|
    ensures first < |tokens| && TakesFirst(own, runner, tokens, first)
  {
    hide Takes;
    if j :| 0 <= j < k && Takes(own, runner, tokens[j]) {
      first := FirstTaker(own, runner, tokens, j);
    } else {
      first := k;
    }
  }

  /** A reader of `modelId` takes the bundle printed for `other`. */
  predicate ReadsBundle(workflow: string, other: string, runner: string, suffix: string, modelId: string) {
    SplitArtifact(WorkflowLogsArtifactName(workflow, other, runner, suffix), workflow, ModelNameVariants(modelId)).Some?
  }

  /** No bundle of `other` is ever taken for one of `modelId`, on any runner, iff no spelling of
      `modelId` continues the other's token after an underscore, or is continued by it. */
  lemma BundlesStayApartIff(workflow: string, other: string, modelId: string)
    ensures (forall runner, suffix :: runner != "" && '_' !in suffix ==>
              !ReadsBundle(workflow, other, runner, suffix, modelId))
       <==> forall k :: 0 <= k < |ModelNameVariants(modelId)| ==>
              Apart(ModelNameVariants(modelId)[k], SlugifyModelId(other))
  {
    var own, tokens := SlugifyModelId(other), ModelNameVariants(modelId);
    SpellingsNoLonger(modelId);
    hide ModelNameVariants, SlugifyModelId, Apart, Takes, SplitArtifact, ArtifactPrefix;
    if k :| 0 <= k < |tokens| && !Apart(tokens[k], own) {
      var runner := RunnerThatConfuses(own, tokens[k], |SlugifyModelId(modelId)|);
      var first := FirstTaker(own, runner, tokens, k);
      BundleTakenIff(workflow, own, runner, "default", tokens);
      assert ReadsBundle(workflow, other, runner, "default", modelId);
    }
    if runner, suffix :| runner != "" && '_' !in suffix && ReadsBundle(workflow, other, runner, suffix, modelId) {
      BundleTakenIff(workflow, own, runner, suffix, tokens);
      var k :| 0 <= k < |tokens| && TakesFirst(own, runner, tokens, k);
      TakenAreNotApart(own, runner, tokens[k]);
    }
  }

  lemma ContinuedToken(id: string, rest: string)
    ensures SlugifyModelId(id + "_" + rest) == SlugifyModelId(id) + "_" + SlugifyModelId(rest)
  {
    SlugDistributes(id + "_", rest);
    SlugDistributes(id, "_");
    CleanIsFixed("_");
    hide SlugifyModelId;
  }

  lemma ContinuedTaken(token: string, rest: string, runner: string)
    ensures Takes(token + "_" + rest, runner, token)
    ensures (token + "_" + rest + "_" + runner)[|token| + 1..] == rest + "_" + runner
  {
    var start := token + "_";
    assert start + rest + "_" + runner + "_" == start + (rest + "_" + runner + "_");
    assert start + rest + "_" + runner == start + (rest + "_" + runner);
  }

  /** They do not always: an id that goes on after an underscore is taken, its rest for a runner. */
  lemma ContinuedNameTaken(workflow: string, modelId: string, rest: string, runner: string, suffix: string)
    requires modelId != "" && runner != "" && '_' !in suffix
    ensures SplitArtifact(
              WorkflowLogsArtifactName(workflow, modelId + "_" + rest, runner, suffix), workflow,
              ModelNameVariants(modelId))
         == Some((SlugifyModelId(rest) + "_" + runner, suffix))
  {
    hide ModelNameVariants, SlugifyModelId, SplitArtifact, ArtifactPrefix, Takes, LeafVariants;
    var own, tokens := SlugifyModelId(modelId + "_" + rest), ModelNameVariants(modelId);
    CanonicalFirst(modelId, "");
    ContinuedToken(modelId, rest);
    ContinuedTaken(tokens[0], SlugifyModelId(rest), runner);
    assert TakesFirst(own, runner, tokens, 0);
    BundleTakenIff(workflow, own, runner, suffix, tokens);
  }
}
