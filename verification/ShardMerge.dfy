/** report_module/merge_eval_shards.py: the runtime model spec a merged run takes its identity from. */
module ShardMerge {
  import opened Wrappers
  import opened JsonValues
  import opened Orders
  import opened EvalShards

  type Fields = map<string, Json>

  /** A runtime-spec file found under the shard directories, decoded. */
  datatype SpecFile = SpecFile(path: string, content: Json)

  datatype Entry = Entry(path: string, spec: Fields, config: Fields)

  /** A merged shard: its id `i/N` and the run its record names. */
  datatype Source = Source(shard: string, runId: Json)

  datatype Refusal = NotASpec | Malformed | NotBound

  /** `d.get(key)` */
  function Get(fields: Fields, key: string): Json {
    if key in fields then fields[key] else Null
  }

  /** Python's truth value. */
  predicate Truthy(v: Json) {
    match v
    case Null => false
    case Bool(b) => b
    case Num(r) => r != 0.0
    case Str(s) => s != ""
    case Arr(items) => items != []
    case Obj(fields) => fields != map[]
  }

  /** What may be a dictionary key. */
  predicate Hashable(v: Json) {
    !v.Arr? && !v.Obj?
  }

  function ParseSpec(file: SpecFile): Option<Entry> {
    if !file.content.Obj? then None
    else
      var spec, config := Get(file.content.fields, "runtime_model_spec"), Get(file.content.fields, "runtime_config");
      if spec.Obj? && config.Obj? then Some(Entry(file.path, spec.fields, config.fields)) else None
  }

  const PER_SHARD_KEYS := {"eval_shard", "run_id"}

  function WithoutPerShardKeys(fields: Fields): Fields {
    fields - PER_SHARD_KEYS
  }

  function SharedSpec(spec: Fields): Fields {
    if "cli_args" in spec && spec["cli_args"].Obj? then
      spec["cli_args" := Obj(WithoutPerShardKeys(spec["cli_args"].fields))]
    else spec
  }

  /** `v or {}` of a value a member is then read from; None where that read raises. */
  function OrEmpty(v: Json): Option<Fields> {
    if !Truthy(v) then Some(map[]) else if v.Obj? then Some(v.fields) else None
  }

  function EnvVars(spec: Fields): Option<Fields> {
    var device := OrEmpty(Get(spec, "device_model_spec"));
    if device.None? then None else OrEmpty(Get(device.value, "env_vars"))
  }

  /** The identity a spec claims, by the key under which the shards recorded theirs. */
  function Identity(spec: Fields, envVars: Fields): Fields {
    map["hf_model_repo" := Get(spec, "hf_model_repo"),
        "docker_image" := Get(spec, "docker_image"),
        "device" := Get(spec, "device_type"),
        "model_status" := Get(spec, "status"),
        "package_manifest_sha256" := Get(envVars, "QUETZAL_BUNDLE_MANIFEST_SHA256")]
  }

  const IDENTITY_KEYS := ["hf_model_repo", "docker_image", "device", "model_status", "package_manifest_sha256"]

  predicate IdentityMatches(spec: Fields, provenance: Fields) {
    EnvVars(spec).Some? &&
    forall k :: 0 <= k < |IDENTITY_KEYS| ==>
      Get(Identity(spec, EnvVars(spec).value), IDENTITY_KEYS[k]) == Get(provenance, IDENTITY_KEYS[k])
  }

  function RunOf(e: Entry): Json {
    Get(e.config, "run_id")
  }

  /** The specs of one run, in the order found. */
  function OfRun(entries: seq<Entry>, run: Json): seq<Entry> {
    if entries == [] then []
    else
      var last := entries[|entries| - 1];
      OfRun(entries[..|entries| - 1], run) + if RunOf(last) == run then [last] else []
  }

  // ----- What binding means -------------------------------------------------------------------------

  predicate EntryMatches(e: Entry, s: Source, model: string, provenance: Fields) {
    && Get(e.config, "eval_shard") == Str(s.shard)
    && Get(e.spec, "hf_model_repo") == Str(model)
    && IdentityMatches(e.spec, provenance)
  }

  predicate SourceBinds(entries: seq<Entry>, s: Source, model: string, provenance: Fields) {
    && Truthy(s.runId) && |OfRun(entries, s.runId)| == 1
    && EntryMatches(OfRun(entries, s.runId)[0], s, model, provenance)
  }

  predicate Merged(sources: seq<Source>, run: Json) {
    run != Null && exists i :: 0 <= i < |sources| && sources[i].runId == run
  }

  /** The same spec and run config, but for the per-shard keys. */
  ghost predicate Agree(a: Entry, b: Entry) {
    SharedSpec(a.spec) == SharedSpec(b.spec)
    && forall key :: key !in PER_SHARD_KEYS ==> Get(a.config, key) == Get(b.config, key)
  }

  predicate Numbered(s: Source) {
    ParseEvalShard(s.shard).Some?
  }

  /** The `i` of the shard id. */
  function Index(s: Source): nat {
    if Numbered(s) then ParseEvalShard(s.shard).value.0 else 0
  }

  ghost predicate Binds(entries: seq<Entry>, model: string, sources: seq<Source>, provenance: Fields) {
    && (forall j :: 0 <= j < |entries| ==> Hashable(RunOf(entries[j])) && Merged(sources, RunOf(entries[j])))
    && (forall i :: 0 <= i < |sources| ==> Numbered(sources[i]))
    && (forall i :: 0 <= i < |sources| ==> SourceBinds(entries, sources[i], model, provenance))
    && (forall i, j :: 0 <= i < |entries| && 0 <= j < |entries| ==> Agree(entries[i], entries[j]))
  }

  predicate AllSpecs(files: seq<SpecFile>) {
    forall k :: 0 <= k < |files| ==> ParseSpec(files[k]).Some?
  }

  function EntriesOf(files: seq<SpecFile>): seq<Entry>
    requires AllSpecs(files)
  {
    seq(|files|, k requires 0 <= k < |files| => ParseSpec(files[k]).value)
  }

  // ----- Sorting the shards ---------------------------------------------------------------------------

  function Position(s: Source): real {
    Index(s) as real
  }

  /** `sorted(sources, key=index)` */
  function SortByIndex(sources: seq<Source>): seq<Source> {
    SortBy(sources, Position)
  }

  lemma SameShards(sources: seq<Source>, x: Source)
    ensures x in SortByIndex(sources) <==> x in sources
  {
    SortKeeps(sources, Position, x);
  }

  lemma ShardsAscend(sources: seq<Source>)
    ensures var shards := SortByIndex(sources);
            forall i, j :: 0 <= i <= j < |shards| ==> Index(shards[i]) <= Index(shards[j])
  {
    SortSorts(sources, Position);
    hide SortBy;
    assert forall i :: 0 <= i < |SortBy(sources, Position)| ==>
        Position(SortBy(sources, Position)[i]) == Index(SortBy(sources, Position)[i]) as real;
  }

  // ----- The search -----------------------------------------------------------------------------------

  lemma {:induction false} OfRunAre(entries: seq<Entry>, run: Json, e: Entry)
    ensures e in OfRun(entries, run) <==> e in entries && RunOf(e) == run
  {
    if entries != [] {
      var n := |entries| - 1;
      OfRunAre(entries[..n], run, e);
      assert entries == entries[..n] + [entries[n]];
    }
  }

  lemma OfRunStep(entries: seq<Entry>, k: nat, run: Json)
    requires k < |entries|
    ensures OfRun(entries[..k + 1], run)
         == if RunOf(entries[k]) == run then OfRun(entries[..k], run) + [entries[k]] else OfRun(entries[..k], run)
  {
    assert entries[..k + 1][..k] == entries[..k];
  }

  method GroupByRun(entries: seq<Entry>) returns (byRun: map<Json, seq<Entry>>)
    ensures forall run :: run in byRun <==> OfRun(entries, run) != []
    ensures forall run :: run in byRun ==> byRun[run] == OfRun(entries, run)
  {
    byRun := map[];
    assert forall run :: OfRun(entries[..0], run) == [];
    hide OfRun, RunOf;
    for k := 0 to |entries|
      invariant forall run :: run in byRun <==> OfRun(entries[..k], run) != []
      invariant forall run :: run in byRun ==> byRun[run] == OfRun(entries[..k], run)
    {
      var run := RunOf(entries[k]);
      forall other ensures OfRun(entries[..k + 1], other)
          == if run == other then OfRun(entries[..k], other) + [entries[k]] else OfRun(entries[..k], other) {
        OfRunStep(entries, k, other);
      }
      byRun := byRun[run := (if run in byRun then byRun[run] else []) + [entries[k]]];
    }
    assert entries[..|entries|] == entries;
  }

  /** Each shard's run has one spec, its bound entry. */
  ghost predicate BoundTo(entries: seq<Entry>, shards: seq<Source>, bound: seq<Entry>) {
    |bound| == |shards| && forall i :: 0 <= i < |shards| ==> OfRun(entries, shards[i].runId) == [bound[i]]
  }

  lemma UnreadableIdentity(spec: Fields, provenance: Fields)
    requires EnvVars(spec).None?
    ensures !IdentityMatches(spec, provenance)
  {
  }

  /** The entries of the shards, in order; a failure or a problem where some shard does not bind. */
  method BindShards(
      entries: seq<Entry>, byRun: map<Json, seq<Entry>>, shards: seq<Source>, model: string, provenance: Fields)
    returns (bound: Result<seq<Entry>, Refusal>, problems: bool)
    requires forall run :: run in byRun <==> OfRun(entries, run) != []
    requires forall run :: run in byRun ==> byRun[run] == OfRun(entries, run)
    ensures bound.Success? && !problems <==>
              forall i :: 0 <= i < |shards| ==> SourceBinds(entries, shards[i], model, provenance)
    ensures bound.Success? && !problems ==> BoundTo(entries, shards, bound.value)
  {
    hide OfRun, IdentityMatches;
    var found := [];
    problems := false;
    for k := 0 to |shards|
      invariant !problems <==> forall i :: 0 <= i < k ==> SourceBinds(entries, shards[i], model, provenance)
      invariant !problems ==> |found| == k && forall i :: 0 <= i < k ==> OfRun(entries, shards[i].runId) == [found[i]]
    {
      var shard := shards[k];
      var own := if Truthy(shard.runId) && shard.runId in byRun then byRun[shard.runId] else [];
      if |own| != 1 {
        problems := true;
        continue;
      }
      if EnvVars(own[0].spec).None? {
        UnreadableIdentity(own[0].spec, provenance);
        return Failure(Malformed), problems;
      }
      if !EntryMatches(own[0], shard, model, provenance) {
        problems := true;
      }
      found := found + [own[0]];
    }
    return Success(found), problems;
  }

  /** `config.get(k)` agrees on every key either has. */
  predicate AgreeOnKeys(a: Entry, b: Entry) {
    SharedSpec(a.spec) == SharedSpec(b.spec)
    && forall key :: key in a.config.Keys + b.config.Keys - PER_SHARD_KEYS ==> Get(a.config, key) == Get(b.config, key)
  }

  lemma AgreeIffOnKeys(a: Entry, b: Entry)
    ensures AgreeOnKeys(a, b) <==> Agree(a, b)
  {
    hide SharedSpec;
    if AgreeOnKeys(a, b) {
      forall key | key !in PER_SHARD_KEYS ensures Get(a.config, key) == Get(b.config, key) {
        if key in a.config || key in b.config {
          assert key in a.config.Keys + b.config.Keys - PER_SHARD_KEYS;
        }
      }
    }
  }

  method SpecsAgree(bound: seq<Entry>) returns (agree: bool)
    requires bound != []
    ensures agree <==> forall i :: 0 <= i < |bound| ==> Agree(bound[0], bound[i])
  {
    agree := true;
    AgreeIffOnKeys(bound[0], bound[0]);
    assert Agree(bound[0], bound[0]);
    for k := 1 to |bound|
      invariant agree <==> forall i :: 0 <= i < k ==> Agree(bound[0], bound[i])
    {
      AgreeIffOnKeys(bound[0], bound[k]);
      hide Agree, AgreeOnKeys;
      if !AgreeOnKeys(bound[0], bound[k]) {
        agree := false;
      }
    }
  }

  /** Every specification lies in the bound entries, so they agree iff all do. */
  lemma BoundAgreeIff(
      entries: seq<Entry>, model: string, sources: seq<Source>, provenance: Fields, shards: seq<Source>,
      bound: seq<Entry>)
    requires forall j :: 0 <= j < |entries| ==> Hashable(RunOf(entries[j])) && Merged(sources, RunOf(entries[j]))
    requires forall i :: 0 <= i < |sources| ==> Numbered(sources[i])
    requires shards == SortByIndex(sources) && BoundTo(entries, shards, bound) && bound != []
    requires forall i :: 0 <= i < |shards| ==> SourceBinds(entries, shards[i], model, provenance)
    ensures (forall i :: 0 <= i < |bound| ==> Agree(bound[0], bound[i])) <==> Binds(entries, model, sources, provenance)
  {
    hide SourceBinds, SortByIndex, OfRun, Agree, Merged, RunOf, BoundTo, SameEntries;
    forall i | 0 <= i < |sources| ensures SourceBinds(entries, sources[i], model, provenance) {
      SameShards(sources, sources[i]);
      var k :| 0 <= k < |shards| && shards[k] == sources[i];
    }
    BoundAreEntries(entries, sources, shards, bound);
    AgreementSpreads(entries, bound);
  }

  ghost predicate SameEntries(entries: seq<Entry>, bound: seq<Entry>) {
    && (forall j :: 0 <= j < |entries| ==> entries[j] in bound)
    && (forall i :: 0 <= i < |bound| ==> bound[i] in entries)
  }

  lemma BoundAreEntries(entries: seq<Entry>, sources: seq<Source>, shards: seq<Source>, bound: seq<Entry>)
    requires forall j :: 0 <= j < |entries| ==> Merged(sources, RunOf(entries[j]))
    requires shards == SortByIndex(sources) && BoundTo(entries, shards, bound)
    ensures SameEntries(entries, bound)
  {
    assert |bound| == |shards|;
    hide SortByIndex, OfRun, Merged, RunOf, BoundTo;
    forall j | 0 <= j < |entries| ensures entries[j] in bound {
      EntryIsBound(entries, sources, shards, bound, j);
    }
    forall i | 0 <= i < |bound| ensures bound[i] in entries {
      BoundIsEntry(entries, shards, bound, i);
    }
  }

  lemma BoundIsEntry(entries: seq<Entry>, shards: seq<Source>, bound: seq<Entry>, i: nat)
    requires BoundTo(entries, shards, bound) && i < |bound|
    ensures bound[i] in entries
  {
    hide OfRun, RunOf;
    OfRunAre(entries, shards[i].runId, bound[i]);
    assert bound[i] in OfRun(entries, shards[i].runId);
  }

  lemma EntryIsBound(entries: seq<Entry>, sources: seq<Source>, shards: seq<Source>, bound: seq<Entry>, j: nat)
    requires j < |entries| && Merged(sources, RunOf(entries[j]))
    requires shards == SortByIndex(sources) && BoundTo(entries, shards, bound)
    ensures entries[j] in bound
  {
    hide SortByIndex, OfRun, RunOf;
    var i :| 0 <= i < |sources| && sources[i].runId == RunOf(entries[j]);
    SameShards(sources, sources[i]);
    var k :| 0 <= k < |shards| && shards[k] == sources[i];
    OfRunAre(entries, RunOf(entries[j]), entries[j]);
    assert entries[j] in OfRun(entries, shards[k].runId);
    assert bound[k] == entries[j];
  }

  /** Agreement with one entry spreads to every pair. */
  lemma AgreementSpreads(entries: seq<Entry>, bound: seq<Entry>)
    requires bound != [] && SameEntries(entries, bound)
    ensures (forall i :: 0 <= i < |bound| ==> Agree(bound[0], bound[i]))
       <==> forall i, j :: 0 <= i < |entries| && 0 <= j < |entries| ==> Agree(entries[i], entries[j])
  {
    hide Agree;
    if forall i :: 0 <= i < |bound| ==> Agree(bound[0], bound[i]) {
      forall i, j | 0 <= i < |entries| && 0 <= j < |entries| ensures Agree(entries[i], entries[j]) {
        var k :| 0 <= k < |bound| && bound[k] == entries[i];
        var m :| 0 <= m < |bound| && bound[m] == entries[j];
        AgreeEuclidean(bound[0], entries[i], entries[j]);
      }
    }
    if forall i, j :: 0 <= i < |entries| && 0 <= j < |entries| ==> Agree(entries[i], entries[j]) {
      var first :| 0 <= first < |entries| && entries[first] == bound[0];
      forall i | 0 <= i < |bound| ensures Agree(bound[0], bound[i]) {
        var j :| 0 <= j < |entries| && entries[j] == bound[i];
        assert Agree(entries[first], entries[j]);
      }
    }
  }

  lemma AgreeEuclidean(a: Entry, b: Entry, c: Entry)
    ensures Agree(a, b) && Agree(a, c) ==> Agree(b, c)
  {
    hide SharedSpec;
  }

  /** Both are shard ids `i/N`, and the first has no larger `i`. */
  predicate NoLaterShard(shard: string, other: string) {
    var a, b := ParseEvalShard(shard), ParseEvalShard(other);
    a.Some? && b.Some? && a.value.0 <= b.value.0
  }

  /** The path of the one spec of a shard with the lowest index. */
  ghost predicate IsLowestSpec(entries: seq<Entry>, sources: seq<Source>, path: string) {
    exists i, j :: 0 <= i < |sources| && 0 <= j < |entries|
      && (forall k :: 0 <= k < |sources| ==> NoLaterShard(sources[i].shard, sources[k].shard))
      && Get(entries[j].config, "run_id") == sources[i].runId && entries[j].path == path
  }

  lemma FirstIsLowest(entries: seq<Entry>, sources: seq<Source>, bound: seq<Entry>)
    requires BoundTo(entries, SortByIndex(sources), bound) && bound != []
    requires forall i :: 0 <= i < |sources| ==> Numbered(sources[i])
    ensures IsLowestSpec(entries, sources, bound[0].path)
  {
    var shards, e := SortByIndex(sources), bound[0];
    ShardsAscend(sources);
    SameShards(sources, shards[0]);
    OfRunAre(entries, shards[0].runId, e);
    hide SortByIndex, OfRun, RunOf;
    assert e in OfRun(entries, shards[0].runId);
    var i :| 0 <= i < |sources| && sources[i] == shards[0];
    var j :| 0 <= j < |entries| && entries[j] == e;
    forall k | 0 <= k < |sources| ensures NoLaterShard(sources[i].shard, sources[k].shard) {
      SameShards(sources, sources[k]);
      var m :| 0 <= m < |shards| && shards[m] == sources[k];
    }
    assert RunOf(entries[j]) == sources[i].runId;
  }

  method ReadSpecs(files: seq<SpecFile>) returns (entries: Option<seq<Entry>>)
    ensures entries == if AllSpecs(files) then Some(EntriesOf(files)) else None
  {
    var read := [];
    for k := 0 to |files|
      invariant |read| == k && forall i :: 0 <= i < k ==> ParseSpec(files[i]) == Some(read[i])
    {
      hide ParseSpec;
      var entry := ParseSpec(files[k]);
      if entry.None? {
        return None;
      }
      read := read + [entry.value];
    }
    assert AllSpecs(files) && read == EntriesOf(files);
    return Some(read);
  }

  /** What binding asks of the sources, it asks of the sorted shards, which are then not empty. */
  lemma BindingBindsShards(entries: seq<Entry>, model: string, sources: seq<Source>, provenance: Fields)
    requires Binds(entries, model, sources, provenance) && entries != []
    ensures SortByIndex(sources) != []
    ensures forall i :: 0 <= i < |SortByIndex(sources)| ==>
              SourceBinds(entries, SortByIndex(sources)[i], model, provenance)
  {
    hide SourceBinds, SortByIndex, RunOf, Agree;
    var shards := SortByIndex(sources);
    assert Merged(sources, RunOf(entries[0]));
    var m :| 0 <= m < |sources| && sources[m].runId == RunOf(entries[0]);
    SameShards(sources, sources[m]);
    forall i | 0 <= i < |shards| ensures SourceBinds(entries, shards[i], model, provenance) {
      SameShards(sources, shards[i]);
    }
  }

  // ----- What agreement compares --------------------------------------------------------------------

  /** The same keys with the same values, but for some keys. */
  ghost predicate SameBut(a: Fields, b: Fields, except: set<string>) {
    forall key :: key !in except ==> (key in a <==> key in b) && (key in a && key in b ==> a[key] == b[key])
  }

  /** The copies of the run config in two specs: compared whole, but objects only up to the shard
      and run ids. */
  ghost predicate SameCliArgs(a: Fields, b: Fields) {
    if "cli_args" !in a || "cli_args" !in b then "cli_args" !in a && "cli_args" !in b
    else if a["cli_args"].Obj? && b["cli_args"].Obj? then
      SameBut(a["cli_args"].fields, b["cli_args"].fields, {"eval_shard", "run_id"})
    else a["cli_args"] == b["cli_args"]
  }

  /** Two found specs claim one build and one run config. */
  ghost predicate SameRun(a: Entry, b: Entry) {
    && SameBut(a.spec, b.spec, {"cli_args"}) && SameCliArgs(a.spec, b.spec)
    && forall key :: key in a.config.Keys + b.config.Keys && key != "eval_shard" && key != "run_id" ==>
         Get(a.config, key) == Get(b.config, key)
  }

  lemma WithoutSame(a: Fields, b: Fields)
    ensures WithoutPerShardKeys(a) == WithoutPerShardKeys(b) <==> SameBut(a, b, {"eval_shard", "run_id"})
  {
    var x, y := WithoutPerShardKeys(a), WithoutPerShardKeys(b);
    forall key ensures key in x <==> key in a && key !in {"eval_shard", "run_id"} {}
    forall key ensures key in y <==> key in b && key !in {"eval_shard", "run_id"} {}
    if x == y {
      forall key | key !in {"eval_shard", "run_id"}
        ensures (key in a <==> key in b) && (key in a && key in b ==> a[key] == b[key])
      {
        assert key in x <==> key in y;
        assert key in x ==> x[key] == y[key];
      }
    }
    if SameBut(a, b, {"eval_shard", "run_id"}) {
      assert forall key :: key in x <==> key in y;
    }
  }

  lemma SharedMembers(spec: Fields)
    ensures var shared := SharedSpec(spec);
            && (forall key :: key in shared <==> key in spec)
            && (forall key :: key in spec && key != "cli_args" ==> shared[key] == spec[key])
            && ("cli_args" in spec ==>
                  shared["cli_args"] == if spec["cli_args"].Obj? then Obj(WithoutPerShardKeys(spec["cli_args"].fields))
                                        else spec["cli_args"])
  {
    hide WithoutPerShardKeys;
  }

  lemma SharedSame(a: Fields, b: Fields)
    ensures SharedSpec(a) == SharedSpec(b) <==> SameBut(a, b, {"cli_args"}) && SameCliArgs(a, b)
  {
    var x, y := SharedSpec(a), SharedSpec(b);
    SharedMembers(a);
    SharedMembers(b);
    if "cli_args" in a && "cli_args" in b && a["cli_args"].Obj? && b["cli_args"].Obj? {
      WithoutSame(a["cli_args"].fields, b["cli_args"].fields);
    }
    hide SharedSpec, WithoutPerShardKeys;
    if x == y {
      forall key ensures key in a <==> key in b {
        assert key in x <==> key in y;
      }
      forall key | key in a && key != "cli_args" ensures a[key] == b[key] {
        assert x[key] == y[key];
      }
    }
    if SameBut(a, b, {"cli_args"}) && SameCliArgs(a, b) {
      forall key ensures key in x <==> key in y {}
      forall key | key in x ensures x[key] == y[key] {}
    }
  }

  /** Agreement compares all of both specs and both configs, but the shard and run ids of the config
      and of its copy in the spec. */
  lemma AgreeIff(a: Entry, b: Entry)
    ensures Agree(a, b) <==> SameRun(a, b)
  {
    SharedSame(a.spec, b.spec);
    AgreeIffOnKeys(a, b);
    hide SharedSpec, SameBut, SameCliArgs, Get;
    assert PER_SHARD_KEYS == {"eval_shard", "run_id"};
  }

  // ----- Binding is a bijection -------------------------------------------------------------------------

  lemma {:induction false} TwoOfRun(entries: seq<Entry>, i: nat, j: nat)
    requires i < j < |entries| && RunOf(entries[i]) == RunOf(entries[j])
    ensures |OfRun(entries, RunOf(entries[i]))| >= 2
  {
    hide RunOf;
    var n := |entries| - 1;
    if j < n {
      TwoOfRun(entries[..n], i, j);
    } else {
      OfRunAre(entries[..n], RunOf(entries[i]), entries[i]);
      assert entries[..n][i] == entries[i];
    }
  }

  function RunIds(entries: seq<Entry>): seq<Json> {
    seq(|entries|, j requires 0 <= j < |entries| => RunOf(entries[j]))
  }

  function SourceRuns(sources: seq<Source>): seq<Json> {
    seq(|sources|, i requires 0 <= i < |sources| => sources[i].runId)
  }

  /** What a spec says of the bundle it was built from; None where the code cannot read it. */
  ghost predicate ManifestIs(spec: Fields, sha: Json) {
    if "device_model_spec" !in spec || IsFalsy(spec["device_model_spec"]) then sha == Null
    else
      spec["device_model_spec"].Obj? &&
      var device := spec["device_model_spec"].fields;
      if "env_vars" !in device || IsFalsy(device["env_vars"]) then sha == Null
      else device["env_vars"].Obj? && sha == Get(device["env_vars"].fields, "QUETZAL_BUNDLE_MANIFEST_SHA256")
  }

  ghost predicate IsFalsy(v: Json) {
    v == Null || v == Bool(false) || v == Num(0.0) || v == Str("") || v == Arr([]) || v == Obj(map[])
  }

  /** The spec of a merged shard: its run and shard ids, the model, and the merged provenance. */
  ghost predicate SpecOf(e: Entry, s: Source, model: string, provenance: Fields) {
    && Get(e.config, "run_id") == s.runId && Get(e.config, "eval_shard") == Str(s.shard)
    && Get(e.spec, "hf_model_repo") == Str(model) && Get(provenance, "hf_model_repo") == Str(model)
    && Get(e.spec, "docker_image") == Get(provenance, "docker_image")
    && Get(e.spec, "device_type") == Get(provenance, "device")
    && Get(e.spec, "status") == Get(provenance, "model_status")
    && ManifestIs(e.spec, Get(provenance, "package_manifest_sha256"))
  }

  lemma ManifestIff(spec: Fields, sha: Json)
    ensures ManifestIs(spec, sha)
       <==> EnvVars(spec).Some? && Get(EnvVars(spec).value, "QUETZAL_BUNDLE_MANIFEST_SHA256") == sha
  {
    assert Get(map[], "QUETZAL_BUNDLE_MANIFEST_SHA256") == Null;
  }

  lemma IdentityByKey(spec: Fields, envVars: Fields)
    ensures var id := Identity(spec, envVars);
            && Get(id, IDENTITY_KEYS[0]) == Get(spec, "hf_model_repo")
            && Get(id, IDENTITY_KEYS[1]) == Get(spec, "docker_image")
            && Get(id, IDENTITY_KEYS[2]) == Get(spec, "device_type")
            && Get(id, IDENTITY_KEYS[3]) == Get(spec, "status")
            && Get(id, IDENTITY_KEYS[4]) == Get(envVars, "QUETZAL_BUNDLE_MANIFEST_SHA256")
  {
    var d := IDENTITY_KEYS;
    assert |d[0]| == 13 && |d[1]| == 12 && |d[2]| == 6 && |d[3]| == 12 && |d[4]| == 23;
    assert d[1][0] == 'd' && d[3][0] == 'm';
  }

  /** A spec of the shard's run is taken for it iff it claims the shard and the merged provenance. */
  lemma MatchesIff(e: Entry, s: Source, model: string, provenance: Fields)
    requires RunOf(e) == s.runId
    ensures EntryMatches(e, s, model, provenance) <==> SpecOf(e, s, model, provenance)
  {
    ManifestIff(e.spec, Get(provenance, "package_manifest_sha256"));
    if EnvVars(e.spec).Some? {
      IdentityByKey(e.spec, EnvVars(e.spec).value);
      hide Get, EnvVars, ManifestIs, Identity;
    }
  }

  ghost predicate HasSpec(entries: seq<Entry>, s: Source, model: string, provenance: Fields) {
    exists j :: 0 <= j < |entries| && SpecOf(entries[j], s, model, provenance)
  }

  ghost predicate HasSource(e: Entry, sources: seq<Source>, model: string, provenance: Fields) {
    exists i :: 0 <= i < |sources| && SpecOf(e, sources[i], model, provenance)
  }

  lemma SourceHasSpec(entries: seq<Entry>, s: Source, model: string, provenance: Fields)
    requires SourceBinds(entries, s, model, provenance)
    ensures HasSpec(entries, s, model, provenance)
    ensures forall j :: 0 <= j < |entries| && RunOf(entries[j]) == s.runId ==> SpecOf(entries[j], s, model, provenance)
  {
    hide OfRun, RunOf, EntryMatches, SpecOf;
    var e := OfRun(entries, s.runId)[0];
    assert e in OfRun(entries, s.runId);
    OfRunAre(entries, s.runId, e);
    MatchesIff(e, s, model, provenance);
    forall j | 0 <= j < |entries| && RunOf(entries[j]) == s.runId ensures entries[j] == e {
      OfRunAre(entries, s.runId, entries[j]);
    }
  }

  lemma EachHasItsOwn(entries: seq<Entry>, model: string, sources: seq<Source>, provenance: Fields)
    requires Binds(entries, model, sources, provenance)
    ensures forall i :: 0 <= i < |sources| ==> HasSpec(entries, sources[i], model, provenance)
    ensures forall j :: 0 <= j < |entries| ==> HasSource(entries[j], sources, model, provenance)
  {
    hide SourceBinds, EntryMatches, Agree, RunOf;
    forall i | 0 <= i < |sources|
      ensures HasSpec(entries, sources[i], model, provenance)
    {
      SourceHasSpec(entries, sources[i], model, provenance);
    }
    forall j | 0 <= j < |entries|
      ensures HasSource(entries[j], sources, model, provenance)
    {
      assert Merged(sources, RunOf(entries[j]));
      var i :| 0 <= i < |sources| && sources[i].runId == RunOf(entries[j]);
      SourceHasSpec(entries, sources[i], model, provenance);
    }
  }

  lemma RunsDistinct(entries: seq<Entry>, model: string, sources: seq<Source>, provenance: Fields)
    requires Binds(entries, model, sources, provenance)
    requires forall i, k :: 0 <= i < k < |sources| ==> sources[i].shard != sources[k].shard
    ensures Distinct(RunIds(entries)) && Distinct(SourceRuns(sources))
  {
    hide Agree, RunOf, IdentityMatches, OfRun;
    forall i, j | 0 <= i < j < |entries| ensures RunOf(entries[i]) != RunOf(entries[j]) {
      assert Merged(sources, RunOf(entries[i]));
      var k :| 0 <= k < |sources| && sources[k].runId == RunOf(entries[i]);
      assert SourceBinds(entries, sources[k], model, provenance);
      if RunOf(entries[i]) == RunOf(entries[j]) {
        TwoOfRun(entries, i, j);
      }
    }
    forall i, k | 0 <= i < k < |sources| ensures sources[i].runId != sources[k].runId {
      assert SourceBinds(entries, sources[i], model, provenance) && SourceBinds(entries, sources[k], model, provenance);
    }
  }

  lemma SpecOfRun(e: Entry, s: Source, model: string, provenance: Fields)
    requires SpecOf(e, s, model, provenance)
    ensures RunOf(e) == s.runId
  {
  }

  lemma SameRuns(entries: seq<Entry>, model: string, sources: seq<Source>, provenance: Fields)
    requires Binds(entries, model, sources, provenance)
    ensures (set run | run in RunIds(entries)) == (set run | run in SourceRuns(sources))
  {
    hide Agree, RunOf, SourceBinds, EntryMatches, SpecOf;
    forall run | run in RunIds(entries) ensures run in SourceRuns(sources) {
      var j :| 0 <= j < |entries| && RunOf(entries[j]) == run;
      assert Merged(sources, RunOf(entries[j]));
      var i :| 0 <= i < |sources| && sources[i].runId == run;
      assert SourceRuns(sources)[i] == run;
    }
    forall run | run in SourceRuns(sources) ensures run in RunIds(entries) {
      var i :| 0 <= i < |sources| && sources[i].runId == run;
      SourceHasSpec(entries, sources[i], model, provenance);
      var j :| 0 <= j < |entries| && SpecOf(entries[j], sources[i], model, provenance);
      SpecOfRun(entries[j], sources[i], model, provenance);
      assert RunIds(entries)[j] == run;
    }
  }

  lemma SameNumber(entries: seq<Entry>, model: string, sources: seq<Source>, provenance: Fields)
    requires Binds(entries, model, sources, provenance) && Distinct(RunIds(entries)) && Distinct(SourceRuns(sources))
    ensures |entries| == |sources|
  {
    hide Binds, Distinct;
    SameRuns(entries, model, sources, provenance);
    DistinctSize(RunIds(entries));
    DistinctSize(SourceRuns(sources));
  }

  /** Binding puts the specs found and the merged shards, whose ids differ, in bijection by run. */
  lemma BindingIsBijection(entries: seq<Entry>, model: string, sources: seq<Source>, provenance: Fields)
    requires Binds(entries, model, sources, provenance)
    requires forall i, k :: 0 <= i < k < |sources| ==> sources[i].shard != sources[k].shard
    ensures forall i :: 0 <= i < |sources| ==> HasSpec(entries, sources[i], model, provenance)
    ensures forall j :: 0 <= j < |entries| ==> HasSource(entries[j], sources, model, provenance)
    ensures Distinct(RunIds(entries)) && Distinct(SourceRuns(sources)) && |entries| == |sources|
  {
    EachHasItsOwn(entries, model, sources, provenance);
    RunsDistinct(entries, model, sources, provenance);
    SameNumber(entries, model, sources, provenance);
    hide Binds, RunIds, SourceRuns, Distinct, HasSpec, HasSource;
  }

  // ----- Binding, read off the files ----------------------------------------------------------------------

  ghost predicate OnlySpecOf(entries: seq<Entry>, j: nat, s: Source, model: string, provenance: Fields)
    requires j < |entries|
  {
    && SpecOf(entries[j], s, model, provenance)
    && forall k :: 0 <= k < |entries| && k != j ==> Get(entries[k].config, "run_id") != s.runId
  }

  ghost predicate ShardBound(entries: seq<Entry>, s: Source, model: string, provenance: Fields) {
    && ParseEvalShard(s.shard).Some? && !IsFalsy(s.runId)
    && exists j :: 0 <= j < |entries| && OnlySpecOf(entries, j, s, model, provenance)
  }

  /** Every merged shard, under a well-formed id and a run id, has the one spec of its run; every spec
      is of a merged run; all specs claim one build and one run config. */
  ghost predicate BindsByData(entries: seq<Entry>, model: string, sources: seq<Source>, provenance: Fields) {
    && (forall i :: 0 <= i < |sources| ==> ShardBound(entries, sources[i], model, provenance))
    && (forall j :: 0 <= j < |entries| ==> IsMergedRun(Get(entries[j].config, "run_id"), sources))
    && (forall i, j :: 0 <= i < |entries| && 0 <= j < |entries| ==> SameRun(entries[i], entries[j]))
  }

  ghost predicate IsMergedRun(run: Json, sources: seq<Source>) {
    && run != Null && !run.Arr? && !run.Obj?
    && exists i :: 0 <= i < |sources| && sources[i].runId == run
  }

  ghost predicate OnlyOfRun(entries: seq<Entry>, j: nat, run: Json)
    requires j < |entries|
  {
    RunOf(entries[j]) == run && forall k :: 0 <= k < |entries| && k != j ==> RunOf(entries[k]) != run
  }

  /** One more entry: it is the only one of its run, or leaves the only one of another run what it was. */
  lemma OnlyStep(entries: seq<Entry>, run: Json, j: nat)
    requires j < |entries|
    ensures var n := |entries| - 1;
            OnlyOfRun(entries, j, run)
            <==> if j < n then RunOf(entries[n]) != run && OnlyOfRun(entries[..n], j, run)
                 else RunOf(entries[n]) == run && forall k :: 0 <= k < n ==> RunOf(entries[..n][k]) != run
  {
    hide RunOf;
    assert forall k :: 0 <= k < |entries| - 1 ==> entries[..|entries| - 1][k] == entries[k];
  }

  lemma {:induction false} NoneOfRun(entries: seq<Entry>, run: Json)
    ensures OfRun(entries, run) == [] <==> forall j :: 0 <= j < |entries| ==> RunOf(entries[j]) != run
  {
    hide RunOf;
    if entries != [] {
      var n := |entries| - 1;
      NoneOfRun(entries[..n], run);
      assert forall k :: 0 <= k < n ==> entries[..n][k] == entries[k];
    }
  }

  lemma {:induction false} OnlyOneOfRun(entries: seq<Entry>, run: Json, j: nat)
    requires j < |entries| && OnlyOfRun(entries, j, run)
    ensures OfRun(entries, run) == [entries[j]]
  {
    var n := |entries| - 1;
    OnlyStep(entries, run, j);
    NoneOfRun(entries[..n], run);
    hide RunOf, OnlyOfRun;
    if j < n {
      OnlyOneOfRun(entries[..n], run, j);
    }
  }

  lemma {:induction false} OneIsOnly(entries: seq<Entry>, run: Json) returns (j: nat)
    requires |OfRun(entries, run)| == 1
    ensures j < |entries| && OnlyOfRun(entries, j, run)
  {
    var n := |entries| - 1;
    hide RunOf, OnlyOfRun;
    if RunOf(entries[n]) == run {
      NoneOfRun(entries[..n], run);
      j := n;
    } else {
      j := OneIsOnly(entries[..n], run);
    }
    OnlyStep(entries, run, j);
  }

  lemma OneOfRun(entries: seq<Entry>, run: Json)
    ensures |OfRun(entries, run)| == 1 <==> exists j :: 0 <= j < |entries| && OnlyOfRun(entries, j, run)
    ensures forall j :: 0 <= j < |entries| && OnlyOfRun(entries, j, run) ==> OfRun(entries, run) == [entries[j]]
  {
    hide OfRun, OnlyOfRun;
    forall j | 0 <= j < |entries| && OnlyOfRun(entries, j, run) ensures OfRun(entries, run) == [entries[j]] {
      OnlyOneOfRun(entries, run, j);
    }
    if |OfRun(entries, run)| == 1 {
      var j := OneIsOnly(entries, run);
    }
  }

  lemma SourceBindsIff(entries: seq<Entry>, s: Source, model: string, provenance: Fields)
    ensures SourceBinds(entries, s, model, provenance)
       <==> !IsFalsy(s.runId) && exists j :: 0 <= j < |entries| && OnlySpecOf(entries, j, s, model, provenance)
  {
    OneOfRun(entries, s.runId);
    hide OfRun, EntryMatches, SpecOf;
    forall j | 0 <= j < |entries| && OnlyOfRun(entries, j, s.runId)
      ensures EntryMatches(entries[j], s, model, provenance) <==> OnlySpecOf(entries, j, s, model, provenance)
    {
      MatchesIff(entries[j], s, model, provenance);
    }
    forall j | 0 <= j < |entries| && OnlySpecOf(entries, j, s, model, provenance)
      ensures OnlyOfRun(entries, j, s.runId)
    {
      SpecOfRun(entries[j], s, model, provenance);
    }
  }

  /** Binding is what the files and the merge say of each other. */
  lemma BindsIff(entries: seq<Entry>, model: string, sources: seq<Source>, provenance: Fields)
    ensures Binds(entries, model, sources, provenance) <==> BindsByData(entries, model, sources, provenance)
  {
    forall s: Source
      ensures ShardBound(entries, s, model, provenance)
         <==> Numbered(s) && SourceBinds(entries, s, model, provenance)
    {
      SourceBindsIff(entries, s, model, provenance);
    }
    forall e: Entry
      ensures IsMergedRun(Get(e.config, "run_id"), sources) <==> Hashable(RunOf(e)) && Merged(sources, RunOf(e)) {}
    forall a: Entry, b: Entry ensures Agree(a, b) <==> SameRun(a, b) {
      AgreeIff(a, b);
    }
    hide SourceBinds, ShardBound, Agree, SameRun, Numbered, Hashable, Merged, IsMergedRun, RunOf, Get;
  }

  /** What a file has to hold to be a spec. */
  lemma SpecFileIff(file: SpecFile, e: Entry)
    ensures ParseSpec(file) == Some(e)
       <==> && file.content.Obj? && e.path == file.path
            && "runtime_model_spec" in file.content.fields && file.content.fields["runtime_model_spec"] == Obj(e.spec)
            && "runtime_config" in file.content.fields && file.content.fields["runtime_config"] == Obj(e.config)
  {
  }

  /** Fails closed: a path is found exactly when every spec binds to the merged shards. */
  method FindShardRuntimeModelSpec(files: seq<SpecFile>, model: string, sources: seq<Source>, provenance: Fields)
    returns (r: Result<Option<string>, Refusal>)
    ensures r == Success(None) <==> files == []
    ensures r.Success? && r.value.Some? <==>
              files != [] && AllSpecs(files) && BindsByData(EntriesOf(files), model, sources, provenance)
    ensures r.Success? && r.value.Some? ==> IsLowestSpec(EntriesOf(files), sources, r.value.value)
  {
    assert AllSpecs(files) ==> |EntriesOf(files)| == |files|;
    assert files == [] ==> AllSpecs(files);
    hide AllSpecs, EntriesOf, SortByIndex, OfRun, SourceBinds, Agree, Merged, Hashable, IsLowestSpec, BindsByData;
    var read := ReadSpecs(files);
    if read.None? {
      return Failure(NotASpec);
    }
    var entries := read.value;
    if entries == [] {
      return Success(None);
    }
    if exists j :: 0 <= j < |entries| && !Hashable(RunOf(entries[j])) {
      BindsIff(entries, model, sources, provenance);
      return Failure(Malformed);
    }
    BindsIff(entries, model, sources, provenance);
    var byRun := GroupByRun(entries);
    var strangers := exists j :: 0 <= j < |entries| && !Merged(sources, RunOf(entries[j]));
    if exists i :: 0 <= i < |sources| && !Numbered(sources[i]) {
      return Failure(Malformed);
    }
    var shards := SortByIndex(sources);
    var bound, problems := BindShards(entries, byRun, shards, model, provenance);
    if Binds(entries, model, sources, provenance) {
      BindingBindsShards(entries, model, sources, provenance);
    }
    if bound.Failure? {
      return Failure(bound.error);
    }
    if strangers || problems || bound.value == [] {
      return Failure(NotBound);
    }
    BoundAgreeIff(entries, model, sources, provenance, shards, bound.value);
    var agree := SpecsAgree(bound.value);
    if !agree {
      return Failure(NotBound);
    }
    FirstIsLowest(entries, sources, bound.value);
    return Success(Some(bound.value[0].path));
  }

  // ----- Replacing the metrics --------------------------------------------------------------------------

  predicate IsMetric(key: string) {
    ',' in key
  }

  /** The metrics lm-eval reported for an entry of the template. */
  function Reported(entry: Fields): set<string> {
    set key | key in entry && IsMetric(key)
  }

  predicate Recomputes(recomputed: map<string, Fields>, name: string, entry: Fields) {
    Reported(entry) == {} || (name in recomputed && Reported(entry) <= recomputed[name].Keys)
  }

  function Replaced(recomputed: map<string, Fields>, name: string, entry: Fields): Fields
    requires Recomputes(recomputed, name, entry)
  {
    if Reported(entry) == {} then entry
    else recomputed[name]["alias" := if "alias" in entry then entry["alias"] else Str(name)]
  }

  /** One section of the merged document, replaced entry by entry; refused where some reported metric
      cannot be recomputed. */
  method ReplaceMetrics(section: map<string, Fields>, recomputed: map<string, Fields>)
    returns (r: Option<map<string, Fields>>)
    ensures r.Some? <==> forall name :: name in section ==> Recomputes(recomputed, name, section[name])
    ensures r.Some? ==> r.value.Keys == section.Keys
    ensures r.Some? ==> forall name :: name in section ==> r.value[name] == Replaced(recomputed, name, section[name])
  {
    var doc, todo := section, section.Keys;
    while todo != {}
      invariant todo <= section.Keys == doc.Keys
      invariant forall name :: name in section && name !in todo ==>
                  Recomputes(recomputed, name, section[name]) && doc[name] == Replaced(recomputed, name, section[name])
      invariant forall name :: name in todo ==> doc[name] == section[name]
    {
      hide Reported;
      var name :| name in todo;
      todo := todo - {name};
      var entry := doc[name];
      if Reported(entry) == {} {
        continue;
      }
      if name !in recomputed || !(Reported(entry) <= recomputed[name].Keys) {
        return None;
      }
      doc := doc[name := recomputed[name]["alias" := if "alias" in entry then entry["alias"] else Str(name)]];
    }
    return Some(doc);
  }

  /** lm-eval's metrics are the keys with a comma; each reported one has to be recomputed. */
  lemma RecomputesIff(recomputed: map<string, Fields>, name: string, entry: Fields)
    ensures Recomputes(recomputed, name, entry)
       <==> forall key :: key in entry && ',' in key ==> name in recomputed && key in recomputed[name]
  {
    assert forall key :: key in Reported(entry) <==> key in entry && ',' in key;
    hide Reported;
    if Recomputes(recomputed, name, entry) {
      forall key | key in entry && ',' in key ensures name in recomputed && key in recomputed[name] {
        assert key in Reported(entry);
      }
    }
  }

  /** An entry without metrics stays; any other is what was recomputed, under its old alias or its name:
      no metric is left from one shard, and none is lost. */
  lemma NoShardMetricLeft(recomputed: map<string, Fields>, name: string, entry: Fields)
    requires Recomputes(recomputed, name, entry)
    ensures var out := Replaced(recomputed, name, entry);
            if forall key :: key in entry ==> ',' !in key then out == entry
            else
              && name in recomputed && "alias" in out
              && out["alias"] == (if "alias" in entry then entry["alias"] else Str(name))
              && (forall key :: key in out && key != "alias" ==>
                    key in recomputed[name] && out[key] == recomputed[name][key])
              && (forall key :: key in entry && ',' in key ==> key in out && out[key] == recomputed[name][key])
  {
    RecomputesIff(recomputed, name, entry);
    assert forall key :: key in Reported(entry) <==> key in entry && ',' in key;
    assert ',' !in "alias";
    hide Reported;
    if key :| key in entry && ',' in key {
      assert key in Reported(entry);
    }
  }
}
