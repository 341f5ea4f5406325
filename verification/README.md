# Verified core of the inference-server release tooling

A Dafny model of the parts of the repository whose correctness is not visible from one function:
how tool-call schemas are rewritten and streamed replies put back together, how a report is graded
and accepted, how names travel between CI repositories, how the tensor cache is watched while a
server starts, how image builds and benchmark sweeps are scheduled, and how shards, runs and report
blocks are merged. `dafny verify dfyconfig.toml` checks all of it.

The model takes the form of the code it describes. Pure helpers are functions; loops that fill
lists and dictionaries are methods proved against a function or a predicate; the cache monitor, its
progress tracker, the prompt client and the build queue are classes whose methods update the same
fields. Everything outside the code (clock, sleeps, health replies, marker files, resource readings,
completion order, driver outcomes) is an arbitrary input.

## What is proved

**Tool-call schemas** (`SchemaSemantics`, `SchemaWrapping`, `SchemaFragment`, `SchemaMeaning`,
`SchemaCompilation`, `SchemaLimits`). JSON Schema (Draft 2020-12) acceptance is defined over JSON
trees. Because `$ref` may loop, it is indexed by a fuel that only references spend and by the answer
given when the fuel is used up; an instance is certainly valid, certainly invalid, or undecided.
Assertion keywords without a case of their own are interpreted by an arbitrary function, so the
theorems hold for all of them. For every closed schema the schema that is sent accepts exactly the
objects `{"value": v}` whose `v` the case accepts, through the root and `$defs`, at every depth of
reference chasing. Outside that fragment `SchemaLimits` says exactly when an `enum`, listed properties
(the whole document stripped with them), a reference or a boolean case keeps its meaning.

**Streams** (`StreamReassembly`, `StreamLaws`). Any in-order fragmentation and interleaving of a reply
comes back as that reply, and is graded alike; the one case in which another text is selected is exact.

**Acceptance** (`Grading`, `Acceptance`, `ReportData`, `AcceptanceLaws`, `AcceptanceData`, `TargetChecks`,
`TargetLaws`). `ReportData` says in the words of a report what its data mean, and that the checks make just
that of them; on top of it stand the blockers of every report, locality, stage verdicts, the exact strict
verdict, monotonicity in the policy, the floor no waiver reaches, the exact value of the `passed` count, what
each target check says of the record, that improving a measurement never blocks, and agreement of the writer
and the reader of target checks.

**Names** (`PyStrings`, `ModelNaming`, `CiNames`, `CiLeaves`, `CiBundles`). Round trips over unbounded
strings, separation of the CI leaves of different impls, and exactly which log bundles a reader takes.

**Cache monitor and startup wait** (`CacheMonitors`, `StartupWait`). A few fields refine the whole
history of polls, markers decide first and marks last; the wait ends within a bound although its timeout
switches, polls at exactly known times, and is honest.

**Schedulers** (`BuildQueues`, `SweepRunner`). Safety at every point of every run, and completion.

**Merging** (`EvalShards`, `ShardMerge`, `Percentiles`, `RunAggregation`, `BlockCollapse`, `RecordLaws`).
Fail-closed binding read off the files, laws of percentiles, conservation of runs, and of the records that
the data of blocks hold.

## Where the code and its descriptions differ

The model follows the code.

- `unslugify_model_id` documents that ids with `__` do not round-trip; nor do ids with `_/`, a blank
  or a backslash. `RoundTripIff` gives the exact condition.
- `split_workflow_logs_artifact_name` documents None for a name that is not this model's bundle; it
  also takes the bundles of a model whose token goes on after an underscore, the rest of that token
  read as part of the runner (`ContinuedNameTaken`). `BundlesStayApartIff` gives the exact condition.
- A call of the expected name without arguments fails as invalid JSON when it is not streamed, while
  its stream selects the empty text (`StreamSelectsAlikeIff`); the grade is the same (`StreamGradedAlike`).
- Boolean case schemas are sent unwrapped, so the case `true` admits arguments without a `value`
  (`BooleanCaseMeetsContractIff`).
- Stripping `default` also removes a property, a definition, or a member of an `enum` literal, of that
  name, and redirecting `"$ref": "#"` also rewrites literals (`PropertiesSurviveStrippingIff`,
  `ReferenceSurvivesIff`, `EnumSurvivesStrippingIff`, `EnumSurvivesRewritingIff`).
- `CategoryResult.passed` is not the number of blocks that passed. A must-benchmark that misses an
  enforced and an informational check is subtracted twice, so it can be negative; two waived blocks
  under one waiver key are subtracted once, so it can count a block that did not pass
  (`PassedCount`, `PassedHasTwoFaults`, `PassedCanBeNegative`, `PassedCanOvercount`).
- `RunnerResult.ok` is not the same as having emitted the sum of all repetitions: a later point that
  asks for no repetition, not reached because the server was lost, spoils the count
  (`CountAloneMisses`). `SweepOkIff` gives the exact condition.
- `build_target_checks` describes its verdict as that of the strictest tier that fully passes; it is that of
  the `target` tier alone, whatever the others say (`VerdictByData`).
- `wait_for_healthy` returns False not only on a timeout but also at the first stalled poll.
- When the first resource check of the build queue fails, it returns without building anything.

## Model

The rows follow the parts above. Those after `BlockCollapse` are consequences that only unfold
definitions; they say in one place what a reader of several definitions would put together.

| member | source | states |
|---|---|---|
| SchemaSemantics.VerdictsExclusive | llm_module/tool_call_schema.py:708-742 | no instance is both certainly valid and certainly invalid, through `not` and `oneOf` too |
| SchemaWrapping.FreshDefName | llm_module/tool_call_schema.py:265-268 | the search ends with a name no definition uses, the first free one behind ever more underscores |
| SchemaWrapping.WrapSchemaAsParameterProperty | llm_module/tool_call_schema.py:247-286 | the step-by-step construction yields the wrapper that the laws below are about |
| SchemaFragment.RewriteIsRecast | llm_module/tool_call_schema.py:231-244 | redirecting root references is the recasting whose effect on meaning is proved |
| SchemaFragment.StripIsRecast | llm_module/tool_call_schema.py:352-361 | so is stripping `default` |
| SchemaFragment.RecastWithoutRootRefs | llm_module/tool_call_schema.py:218-244 | a document in which no `$ref` collected is `#` is left as it is |
| SchemaFragment.RecastInFragment | llm_module/tool_call_schema.py:231-244 | redirected references still resolve |
| SchemaMeaning.AnnotationsAssertNothing | llm_module/tool_call_schema.py:352-361 | schemas that differ only in `default`, `$defs` and `$id` accept alike |
| SchemaMeaning.RecastPreserves | llm_module/tool_call_schema.py:231-244 | at every fuel a recast schema accepts in the recast document what the schema accepts in its own |
| SchemaCompilation.FreshNameReferable | llm_module/tool_call_schema.py:266-269 | the invented name can be referenced without escaping |
| SchemaCompilation.CaseRefResolves | llm_module/tool_call_schema.py:264-276 | the new reference finds the hoisted case; no older definition captures it |
| SchemaCompilation.WrappedIsClosed | llm_module/tool_call_schema.py:247-286 | all references of a wrapper resolve, and it alone is identified, as the document was |
| SchemaCompilation.WrappingPreservesMeaning | llm_module/tool_call_schema.py:247-286 | the wrapper accepts exactly the objects `{"value": v}` whose `v` the case accepts |
| SchemaCompilation.StrippingPreservesMeaning | llm_module/tool_call_schema.py:352-361 | stripping `default` changes no verdict of a closed schema |
| SchemaCompilation.CompiledCaseAcceptsExactly | llm_module/tool_call_schema.py:410-413 | wrapping and stripping together accept exactly `{"value": v}` for acceptable `v` |
| SchemaCompilation.CompiledCaseVerdict | llm_module/tool_call_schema.py:382-413 | an argument object is certainly valid (invalid) iff its `value` is for the case |
| SchemaLimits.StripLeavesNone | llm_module/tool_call_schema.py:352-361 | no member of that name is left anywhere, and a document without one is unchanged |
| SchemaLimits.EnumSurvivesStrippingIff | llm_module/tool_call_schema.py:352-361 | an `enum` keeps its meaning iff no literal holds a member `default` |
| SchemaLimits.EnumSurvivesRewritingIff | llm_module/tool_call_schema.py:231-244 | an `enum` keeps its meaning iff no literal contains `"$ref": "#"` |
| SchemaLimits.ForbiddenPropertySurvivesIff | llm_module/tool_call_schema.py:352-361 | one forbidden property stays forbidden iff it is not named `default` |
| SchemaLimits.PropertiesSurviveStrippingIff | llm_module/tool_call_schema.py:352-361 | for any `properties`, open or closed to others, read in any document before and in any, stripped with them or not, after: the schema keeps its meaning iff every other property does and `default` is not listed, or is listed with a schema that accepts everything where the object is open and nothing where it is closed |
| SchemaLimits.ListedDefaultSurvivesIff | llm_module/tool_call_schema.py:352-361 | a document that lists properties, itself stripped and with references to itself at any depth, keeps its meaning iff `default` may be dispensed with, where no other property holds a member `default` |
| SchemaLimits.ReferenceSurvivesIff | llm_module/tool_call_schema.py:352-361 | a reference keeps its meaning iff its definition is not named `default`, or admits nothing |
| SchemaLimits.BooleanCaseMeetsContractIff | llm_module/tool_call_schema.py:247-256 | a boolean case, sent unwrapped, admits exactly `{"value": v}` objects iff it is `false` |
| StreamReassembly.ReassembleStream | llm_module/tool_call_schema.py:588-652 | the loop over lines and deltas yields, slot by slot, what the deltas of that slot say, or the fault met first |
| StreamReassembly.StopFrom | llm_module/tool_call_schema.py:601-622 | reading ends at the first `[DONE]` or fault |
| StreamReassembly.SlotIsSpelled | llm_module/tool_call_schema.py:631-642 | a slot depends only on its own fragments: names merged, arguments joined |
| StreamReassembly.RepeatedNameSpelled | llm_module/tool_call_schema.py:631-642 | a name repeated in full comes back once |
| StreamReassembly.SplitNameSpelledIff | llm_module/tool_call_schema.py:631-642 | a name split over deltas comes back iff no piece equals the text before it |
| StreamReassembly.StreamReassembles | llm_module/tool_call_schema.py:588-652 | any interleaved fragmentation of a reply reassembles to its content and its calls in index order |
| StreamReassembly.StreamSelectsAlikeIff | llm_module/tool_call_schema.py:679-705 | the streamed reply selects the same arguments, or fails for the same cause, as the plain one iff the first call of the expected name, if any, has arguments; otherwise it selects the empty text where the plain one fails as invalid JSON |
| StreamReassembly.StreamGradedAlike | llm_module/tool_call_schema.py:795-845 | both are graded alike, calls without arguments included |
| StreamLaws.ReassembledByLine | llm_module/tool_call_schema.py:588-652 | line by line up to the first `[DONE]` or fault: a line that is no JSON and an error event give their own causes; otherwise the texts are joined, the deltas collected, and the last reason to finish is kept |
| StreamLaws.VerdictByReply | llm_module/tool_call_schema.py:679-705 | an unusable body, a reply without calls, one without a call of the expected name, and a first such call without arguments each fail with their own cause; otherwise the text or the dumped object of that call is validated |
| Acceptance.CheckCategory | report_module/acceptance_criteria.py:493-1038 | the loop over the blocks computes the category's counters, blockers and waivers; what each block contributes is `ReportData` |
| Acceptance.AcceptanceCriteriaCheck | report_module/acceptance_criteria.py:144-158 | the verdict is the absence of blockers; blockers are the union over the four categories |
| Acceptance.BlockersByBlock | report_module/acceptance_criteria.py:144-158 | a key blocks the report iff some block contributes it |
| Acceptance.OutcomeIsLocal | report_module/acceptance_criteria.py:493-651 | with distinct benchmark keys a block's outcome does not depend on the rest of the report |
| Acceptance.AcceptanceIsLocal | report_module/acceptance_criteria.py:144-158 | the report's blockers are the union of the blockers of its single-block reports |
| Acceptance.StageResults | report_module/acceptance_criteria.py:302-342 | the loops over blocks and sorted stages give each stage its verdict, from its own blockers that the overall verdict has, its name, position and non-empty categories |
| Acceptance.StagesAreOrdered | report_module/acceptance_criteria.py:315-322 | every stage that a block names has one verdict, under its first tag, in order of position and among equal positions of first naming |
| AcceptanceData.StageBlocksInOrder | report_module/acceptance_criteria.py:324-329 | a stage's blocks are those at the positions tagged with it, in report order |
| AcceptanceData.StageByData | report_module/acceptance_criteria.py:302-342 | a stage keeps exactly the blockers its own blocks' data call for and the overall verdict has, and shows the categories that have blocks |
| Acceptance.StageAcceptedIff | report_module/acceptance_criteria.py:302-342 | a stage is accepted iff none of its own blocks blocks |
| ReportData.StatusIff | report_module/status.py:43-60 | a status is one of six words, in any letter case and between any white space, or none |
| ReportData.EvalByData | report_module/acceptance_criteria.py:654-805 | from the eval's data and the policy: whether and under which key it blocks, is waived, or is left ungraded; a missing, false, 3 or failing accuracy check fails, 1 or NA is ungraded, anything else passes |
| ReportData.BenchmarkByData | report_module/acceptance_criteria.py:493-651 | from the benchmark's data and the enforced tiers: every key it blocks under, whether it is waived, skipped or NA |
| ReportData.SpecByData | report_module/acceptance_criteria.py:898-948 | from the spec test's data and the known issues: ERROR always blocks, FAIL unless excused |
| ReportData.SpecWaivedIff | report_module/acceptance_criteria.py:808-896 | a failed spec test is excused iff it is declared non-blocking, the workflow is waived, or every failing case is, by name or by all its failing parametrizations |
| ReportData.AgenticByData | report_module/acceptance_criteria.py:951-1038 | every failed or missing point blocks, and the measured points are counted |
| ReportData.WaivesIff | report_module/acceptance_criteria.py:230-262 | an issue waives a task of the workflow it names, in any letter case and with or without its class |
| AcceptanceData.BenchmarkKeyIs | report_module/acceptance_criteria.py:510-525 | a benchmark's key is its title; titles that repeat get the position among the benchmarks and the dimensions |
| AcceptanceData.RepeatsToldApart | report_module/acceptance_criteria.py:510-525 | so benchmarks of one title have different keys |
| AcceptanceData.BlockersByData | report_module/acceptance_criteria.py:144-158 | a report's blockers are exactly those that the data of its blocks call for under the policy |
| AcceptanceData.AcceptedByData | report_module/acceptance_criteria.py:144-158 | it is accepted iff they call for none |
| AcceptanceLaws.FailedEvalRefuses | report_module/acceptance_criteria.py:654-805 | a must-eval that failed, unexcused, or was not measured in full refuses its report under its key |
| AcceptanceLaws.PolicyByStatus | workflow_module/engine_types.py:93-133 | which tiers a model status enforces, and evals exactly when some tier is; an unknown status enforces all |
| AcceptanceLaws.StrictPassIff | report_module/acceptance_criteria.py:345-377 | strict pass iff accepted and the data of every must-eval say that it was measured in full and passed |
| AcceptanceLaws.StrictPassIgnoresEvalPolicy | report_module/acceptance_criteria.py:345-377 | policies that differ in eval issues and enforcement give the same strict verdict |
| AcceptanceLaws.EvalIssuesAgree | report_module/acceptance_criteria.py:230-262 | adding an issue of a workflow other than SPEC_TESTS, or toggling eval enforcement, is such a difference |
| AcceptanceLaws.LooseningIsAntitone | report_module/acceptance_criteria.py:493-1038 | more issues, fewer tiers or no eval enforcement never add a blocker |
| AcceptanceLaws.FloorIff | report_module/acceptance_criteria.py:493-1038 | a block blocks under every policy iff it is an incomplete or partial eval, a spec test in ERROR, a must-benchmark with failed requests, or otherwise unwaivable |
| AcceptanceLaws.UnwaivableNeverAccepted | report_module/acceptance_criteria.py:144-158 | a report with such a block is never accepted |
| AcceptanceLaws.PassedCount | report_module/acceptance_criteria.py:126-128 | the general law, for every report, repeated titles included, and benchmarks, evals and spec tests alike: `passed` is the clean passes, less the mixed benchmarks, plus the waived blocks whose waiver key an earlier one has |
| AcceptanceLaws.PassedIsCleanCountIff | report_module/acceptance_criteria.py:126-128 | `passed` is the number of clean passes iff as many benchmarks are mixed as waiver keys repeat |
| AcceptanceLaws.PassedHasTwoFaults | report_module/acceptance_criteria.py:126-128 | without repeated waiver keys it is never too high, and exact iff no must-benchmark misses both an enforced and an informational check; without such a benchmark it is never too low, and exact iff no waiver key repeats |
| AcceptanceLaws.BenchmarkVerdictIff | report_module/acceptance_criteria.py:526-651 | from the data: a benchmark both fails and is waived iff it is a must-block graded by its checks that misses an enforced and an informational one, and when it is waived at all |
| AcceptanceLaws.WaivedKeysAre | report_module/acceptance_criteria.py:493-948 | the waiver keys of a category are those of its waived blocks |
| AcceptanceData.CategoryByData | report_module/acceptance_criteria.py:493-948 | for benchmarks, evals and spec tests: each counter is the number of blocks whose data call for it, and each dictionary of waived or ungraded blocks holds exactly their keys |
| AcceptanceLaws.AgenticPassedExact | report_module/acceptance_criteria.py:951-1038 | for agentic targets `passed` is exactly the measured points that passed |
| AcceptanceLaws.MixedAloneIsNegative | report_module/acceptance_criteria.py:126-128 | a report of one mixed benchmark has `passed == -1` |
| AcceptanceLaws.PassedCanBeNegative | report_module/acceptance_criteria.py:126-128 | such a report |
| AcceptanceLaws.PassedCanOvercount | report_module/acceptance_criteria.py:126-128 | two failed must-evals of one title, not enforced, give `passed == 1` with no clean pass |
| TargetChecks.BuildTargetChecks | llm_module/target_checks.py:85-147 | the nested loops over tiers and metrics build the checks, and the verdict of the `target` tier |
| TargetChecks.TierAt | llm_module/target_checks.py:103-131 | no metric's entries overwrite another's in a tier |
| TargetLaws.ReadAsPromised | report_module/acceptance_criteria.py:1107-1172 | in a written tier acceptance reads a metric as missed iff its positive target was not measured or was missed beyond tolerance |
| TargetLaws.DeclaredIffPromised | report_module/acceptance_criteria.py:526-560 | acceptance finds a declared target in a graded point iff the sweep point declares a positive one |
| TargetLaws.MeasuresIff | llm_module/target_checks.py:43-75 | which field of the record feeds which metric, and what stands in for throughput that is not reported |
| TargetLaws.CheckByData | llm_module/target_checks.py:78-132 | a latency passes iff it is at most `goal * (1 + tolerance)`, a throughput iff it is at least `goal * (1 - tolerance)`; NA iff there is no positive goal, or no measurement and none required |
| TargetLaws.RatioByData | llm_module/target_checks.py:103-131 | the ratio written beside a check is the measurement in units of its goal, and zero where no measurement counts |
| TargetLaws.ExactMatchPasses | llm_module/target_checks.py:78-82 | an exact match passes at every tolerance from zero |
| TargetLaws.VerdictByData | llm_module/target_checks.py:135-147 | the verdict is that of the `target` tier: NA where it grades nothing, FAIL where a graded goal is missed |
| TargetLaws.ImprovingNeverBlocks | llm_module/target_checks.py:85-206 | improving what was measured adds no blocker, for any block, priorities and enforced tiers |
| TargetLaws.PrioritiesAre | llm_module/target_checks.py:170-182 | the last configured priority that names a metric, by its target's attribute or its field, is the one its checks are read with |
| TargetLaws.PromisesAreGraded | llm_module/target_checks.py:150-206 | for every status, priorities and enforced tiers: a graded point is NA iff no target is declared, and its blockers are its failed requests, its own failing status where that stands, or exactly the enforced, non-optional targets that were not measured or missed beyond tolerance, by their keys |
| TargetLaws.FailVerdictBlocks | llm_module/target_checks.py:135-147 | a FAIL verdict is a missed promise of the `target` tier, and blocks under it unless the metric is optional |
| ModelNaming.SlugDistributes | utils/model_naming.py:102-120 | escaping distributes over concatenation, for all strings |
| ModelNaming.SlugIdempotent | utils/model_naming.py:102-120 | escaping twice is escaping once, for all strings |
| ModelNaming.RoundTripIff | utils/model_naming.py:123-138 | unescaping gives an id back iff it has no backslash, blank, `__` or `_/` |
| ModelNaming.SlugInjective | utils/model_naming.py:102-120 | distinct reversible ids have distinct tokens |
| CiNames.CanonicalFirst | utils/model_naming.py:159-185 | the canonical token is the first spelling tried |
| CiNames.PrintedNames | utils/model_naming.py:200-277 | the grammars of leaf tokens, job names and bundle names, as both repositories document them |
| CiNames.SpellingsAre | utils/model_naming.py:159-185 | the four spellings, each once and none empty, in the order tried |
| CiNames.SplitWorkflowLogsArtifactName | utils/model_naming.py:210-241 | the search with early return finds the first spelling that explains the name |
| CiNames.ArtifactNameParsesBack | utils/model_naming.py:200-241 | runner and underscore-free suffix are recovered from every printed artifact name |
| CiNames.SplitArtifactShape | utils/model_naming.py:210-241 | whatever is split reads as a bundle name under one of the model's spellings; whose bundles do is `CiBundles` |
| CiNames.DeviceFromCiJobName | utils/model_naming.py:280-315 | the search over leaf spellings returns the first device found |
| CiNames.JobNameParsesBack | utils/model_naming.py:263-315 | the device is recovered from every printed job name, behind any caller prefix without an earlier marker |
| CiNames.AnySpellingParsesBack | utils/model_naming.py:280-315 | so is it from a job named by any other spelling, unless an earlier spelling leads to something in the name |
| CiNames.LongestMatchingToken | utils/model_naming.py:318-341 | the length of the longest spelling that explains the job, or None |
| CiNames.CiJobMatchesDevice | utils/model_naming.py:344-394 | true iff some own token explains the job at least as well as every token of another model in scope |
| CiLeaves.SpellingsNoLonger | utils/model_naming.py:159-185 | the canonical token is the longest spelling |
| CiLeaves.ImplsStayApart | utils/model_naming.py:344-394 | a query for one impl never matches another impl's job |
| CiLeaves.DefaultQueryMissesImplJob | utils/model_naming.py:344-394 | a default query never matches an impl's job |
| CiLeaves.OwnJobMatches | utils/model_naming.py:344-394 | a leaf's own job is claimed among any other models in scope whose names are no longer than the leaf |
| CiLeaves.LongerSiblingWins | utils/model_naming.py:344-394 | a longer-named model in scope takes its own job |
| CiBundles.BundleTakenIff | utils/model_naming.py:210-241 | a printed bundle of any model is taken iff the first spelling that could have started its name leaves some of it for a runner, and what is then read |
| CiBundles.BundlesStayApartIff | utils/model_naming.py:210-241 | no bundle of another model is ever taken, on any runner, iff no spelling of this model and the other's token continue one another after an underscore |
| CiBundles.ContinuedNameTaken | utils/model_naming.py:210-241 | a model id that goes on after an underscore has all its bundles taken by the shorter id, its rest read as runner |
| CacheMonitors.ActivityStays | utils/cache_monitor.py:554-571 | an unchanged snapshot keeps the activity time of the last change |
| CacheMonitors.ActivityChanges | utils/cache_monitor.py:554-561 | a changed snapshot is activity once the episode has shown content |
| CacheMonitors.StallPersists | utils/cache_monitor.py:563-571 | a stall lasts until the snapshot changes |
| CacheMonitors.ChangeEndsStall | utils/cache_monitor.py:554-561 | a changed snapshot ends it |
| CacheMonitors.CacheProgressTracker.Reset | utils/cache_monitor.py:541-544 | the three fields stand for the extended history |
| CacheMonitors.CacheProgressTracker.Update | utils/cache_monitor.py:546-571 | every status is the one the whole history of polls and resets calls for |
| CacheMonitors.SawEmptyGrows | utils/cache_monitor.py:924-953 | how one event changes whether an empty cache has been seen since the last reset |
| CacheMonitors.CacheMonitor.InferUnmarkedCacheStatus | utils/cache_monitor.py:924-941 | two flags give the lifecycle the history calls for; the second implies the first |
| CacheMonitors.CacheMonitor.ResolveCacheLifecycle | utils/cache_monitor.py:943-953 | the same with markers |
| CacheMonitors.CacheMonitor.GetCacheGenerationStatus | utils/cache_monitor.py:992-1027 | each poll extends the history by one event and reports its status; after a completed mark, and until a first run is marked, every poll of a Docker monitor reports an existing cache and no stall, and so does every local poll that finds the completed file; a disabled monitor reports nothing |
| CacheMonitors.CacheMonitor.MarkCacheFirstRunStarted | utils/cache_monitor.py:720-735 | when the mark succeeds, what it resets, and that it holds from then on |
| CacheMonitors.CacheMonitor.MarkCacheCompleted | utils/cache_monitor.py:737-753 | when the mark succeeds, what it resets, and that it holds from then on |
| StartupWait.PromptClient.GetHealth | utils/prompt_client.py:157-170 | the bookkeeping of the last health reply |
| StartupWait.PromptClient.PollOnce | utils/prompt_client.py:205-318 | a stalled poll never probes; any other makes one probe, answered by its own reply; a 200 is success and marks completion iff the poll reported generation; any other poll resumes an interval after its request, and at least a second after it is done |
| StartupWait.PromptClient.PollStep | utils/prompt_client.py:204-318 | one turn of the loop keeps this |
| StartupWait.TimelyIsShort | utils/prompt_client.py:204-318 | polls a second apart, each within the timeout then in force, number at most the ceiling of the larger timeout |
| StartupWait.PollsAreSpaced | utils/prompt_client.py:288-316 | polls are an interval apart, and at least a second |
| StartupWait.CompletionsAreLast | utils/prompt_client.py:272-275 | beyond the polls a history holds a completion mark only right after the last of them |
| StartupWait.PromptClient.PollUntil | utils/prompt_client.py:204-318 | the polling ends by a verdict or when the timeout in force has passed; monitor history and probes hold one poll event a record, the probes told and no other, and a completion mark only if the last poll made one |
| StartupWait.PromptClient.WaitForHealthy | utils/prompt_client.py:172-350 | at most ceil(max(base, tensor-cache timeout)) polls, at the times that the delays and the interval give; True iff already ready or the last reply was 200; False only on a stall or after the timeout in force; every probe ever made is that of a poll that reported no stall; a completion mark is in the history only right after a last poll that reported generation and was answered 200 |
| BuildQueues.GetMaxConcurrentBuilds | scripts/build_docker_images.py:100-155 | the largest number of builds that leaves every reserve and limit in place, and one where there is room for none |
| BuildQueues.CheckAgreesWithLimit | scripts/build_docker_images.py:158-173 | the check before a build passes iff the initial limit would fit one |
| BuildQueues.AllowedIsSafe | scripts/build_docker_images.py:1244-1335 | every step the queue may take keeps: FIFO, builds complete once and after their submission, submissions directly after a passing check, at most the limit running, the initial number running at every completion while work is pending |
| BuildQueues.SafePrefix | scripts/build_docker_images.py:1244-1335 | a safe run was safe at every moment |
| BuildQueues.MomentPartitions | scripts/build_docker_images.py:1244-1335 | at every moment of a safe run pending, running and finished builds partition the input, and no more than the limit run |
| BuildQueues.BuildQueue.CheckResourcesForNewBuild | scripts/build_docker_images.py:158-173 | one reading is used and recorded |
| BuildQueues.BuildQueue.SubmitNext | scripts/build_docker_images.py:1263-1275 | the head of the queue starts, and only after a passing check with a free slot |
| BuildQueues.BuildQueue.CompleteBuild | scripts/build_docker_images.py:1320-1332 | one running build leaves with one result |
| BuildQueues.BuildQueue.WaitForResourcesAndSubmit | scripts/build_docker_images.py:1277-1303 | polling ends with one submission, or with the readings |
| BuildQueues.BuildQueue.SubmitInitial | scripts/build_docker_images.py:1305-1318 | nothing is submitted only if the first check fails or there is no work |
| BuildQueues.BuildQueue.CompleteBatch | scripts/build_docker_images.py:1325-1333 | every completion is followed by a submission while work is pending |
| BuildQueues.BuildQueue.Run | scripts/build_docker_images.py:1244-1335 | the run is safe at every moment; a run that started a build ends with one result for each; a run that has not ended has seen fewer passing readings than there are builds |
| BuildQueues.NothingLeft | scripts/build_docker_images.py:1320-1335 | when nothing runs, everything has been built |
| SweepRunner.RunPoint | llm_module/runner.py:138-197 | the inner loop with break and continue yields the results of the phases driven |
| SweepRunner.Run | llm_module/runner.py:74-199 | the outer loop yields the sweep's result, or raises at a point that asks for no repetition |
| SweepRunner.PointYields | llm_module/runner.py:138-197 | a point emits its plan iff it is clean, and nothing after a failed warmup |
| SweepRunner.SweepOkIff | llm_module/runner.py:47-53 | `ok` iff every point asks for a repetition and the blocks number the sum of all; they are then the plan, in order |
| SweepRunner.CountAloneMisses | llm_module/runner.py:47-53 | a sweep with the full count that is not ok |
| SweepRunner.SweepBlocks | llm_module/runner.py:74-199 | exactly which blocks are emitted: good repetitions of points reached in health whose warmup succeeded |
| EvalShards.ShardIdParsesIff | workflows/eval_shard.py:55-65 | a printed shard id parses back to its index and count iff the count is at least two and the index below it |
| ShardMerge.FindShardRuntimeModelSpec | report_module/merge_eval_shards.py:361-439 | None iff no spec; a path iff every file is a spec, every merged shard has a well-formed id and the one spec of its run, with its shard id and the merged provenance, every spec is of a merged run, and all specs and run configs are equal but for the per-shard keys; it is the spec of the lowest shard; otherwise a refusal |
| ShardMerge.BindShards | report_module/merge_eval_shards.py:399-422 | no problem iff every shard has one spec of its run that matches it |
| ShardMerge.GroupByRun | report_module/merge_eval_shards.py:387-389 | the specs of each run, in the order found |
| ShardMerge.SpecsAgree | report_module/merge_eval_shards.py:423-433 | agreement with the first spec on everything but the per-shard keys |
| ShardMerge.BoundAgreeIff | report_module/merge_eval_shards.py:423-438 | agreement with the first bound spec is agreement of every pair found |
| ShardMerge.BindingIsBijection | report_module/merge_eval_shards.py:361-439 | specs found and merged shards are in bijection by run and shard id, matching model and provenance |
| ShardMerge.AgreeIff | report_module/merge_eval_shards.py:324-341 | agreement compares all keys and values of both specs and both run configs, but the shard and run ids of the config and of its `cli_args` copy |
| ShardMerge.MatchesIff | report_module/merge_eval_shards.py:344-358 | a spec matches iff it claims the shard, the model, and the image, device, status and manifest of the merged provenance |
| ShardMerge.BindsIff | report_module/merge_eval_shards.py:361-439 | binding is what the files and the merge say of each other |
| ShardMerge.SpecFileIff | report_module/merge_eval_shards.py:376-384 | what a file has to hold to be a spec |
| ShardMerge.ReplaceMetrics | report_module/merge_eval_shards.py:193-206 | every entry of a section is replaced, or the merge is refused because a metric cannot be recomputed |
| ShardMerge.RecomputesIff | report_module/merge_eval_shards.py:193-206 | an entry can be replaced iff every key with a comma is recomputed |
| ShardMerge.NoShardMetricLeft | report_module/merge_eval_shards.py:193-206 | a replaced entry is what was recomputed under its old alias or its name: no metric keeps one shard's value, and none is lost |
| Percentiles.MonotoneInPercentage | report_module/summary.py:55-69 | percentiles grow with the percentage |
| Percentiles.PercentileBounds | report_module/summary.py:55-69 | they stay between minimum and maximum and reach them at 0 and 100 |
| Percentiles.PercentileInterpolates | report_module/summary.py:55-69 | the exact value between the two samples around the rank |
| Percentiles.MonotoneInSorted | report_module/summary.py:55-69 | larger sorted samples have larger percentiles |
| Percentiles.SortMonotone | report_module/summary.py:79 | raising samples in any order raises every order statistic |
| Percentiles.MedianIsP50 | report_module/summary.py:72-91 | the 50th percentile is the median, for odd and even sizes |
| Percentiles.StatsAre | report_module/summary.py:72-91 | size, mean and median, and the percentiles at 50, 90 and 99 |
| Percentiles.ExtremesAreSamples | report_module/summary.py:72-91 | minimum and maximum are samples, and no sample lies beyond them |
| Percentiles.StatsOrdered | report_module/summary.py:72-91 | minimum, median, 90th, 99th percentile and maximum are ordered; mean and samples lie within |
| Percentiles.StatsMonotone | report_module/summary.py:72-91 | raising samples lowers no statistic |
| RunAggregation.GroupRuns | report_module/summary.py:123-145 | counts and metric values of every identity, each value in order |
| RunAggregation.AggregateBenchmarkRuns | report_module/summary.py:120-165 | one aggregate for each identity in order of first appearance, over exactly its runs |
| RunAggregation.RunsConserved | report_module/summary.py:120-165 | every run is counted in exactly one aggregate |
| BlockCollapse.FlattenOneLevel | report_module/generator.py:377-387 | the nested loops flatten one level |
| BlockCollapse.FlattenPrecedence | report_module/generator.py:377-387 | a key of the record itself wins; otherwise the first nested mapping that has it |
| BlockCollapse.FlattenIdempotent | report_module/generator.py:377-387 | flattening again changes nothing |
| BlockCollapse.RecordDataExtracts | report_module/renderers.py:107-130 | merged data yields its records back |
| BlockCollapse.SameHeadingIff | report_module/generator.py:352-358 | one heading means equal kind, task type, title and id, where nothing and the empty text are the same |
| RecordLaws.HoldsIff | report_module/renderers.py:107-130 | the records extracted are those the data hold: the mappings of a list or of `records`, one named row for each of a mapping of mappings, and otherwise the mapping itself |
| BlockCollapse.MergeKeepsRecords | report_module/generator.py:361-374 | a merged block yields the records of both, in order, under the first heading |
| BlockCollapse.CollapseSameHeadingBlocks | report_module/generator.py:341-349 | the loop that replaces the last block is the left fold |
| BlockCollapse.CollapseKeepsRecords | report_module/generator.py:341-349 | every record is kept, in order |
| RecordLaws.CollapseKeepsData | report_module/generator.py:341-374 | whatever records the data of the blocks hold, the collapsed blocks hold them, flattened, in order |
| BlockCollapse.CollapseMergesRuns | report_module/generator.py:341-370 | each maximal run of one heading becomes one block with the flattened records of all |
| BlockCollapse.RunsAreMaximal | report_module/generator.py:341-358 | the runs make up the sections and none could be longer |
| BlockCollapse.CollapseIdempotent | report_module/generator.py:341-349 | collapsing twice changes nothing |
| BlockCollapse.ConsolidateEvalBlocks | report_module/generator.py:312-338 | the loops over eval blocks and sections build the consolidated report |
| BlockCollapse.ConsolidateKeepsRecords | report_module/generator.py:312-338 | at most one eval block is left, with all eval records in order; all other blocks are untouched |
| RecordLaws.ConsolidateKeepsData | report_module/generator.py:312-338 | whatever records the data of the eval blocks hold, the consolidated one holds them, in order |
| RecordLaws.ConsolidatedBlock | report_module/generator.py:312-326 | it is an eval block under the common title and the id of the first |
| BlockCollapse.ConsolidatedInPlace | report_module/generator.py:328-337 | it takes the place of the first |
| CacheMonitors.LastChangeUnique | utils/cache_monitor.py:554-571 | an episode has one last change |
| CacheMonitors.MarkedPolls | utils/cache_monitor.py:687-694 | a poll that finds the completed marker reports an existing cache and no stall, whatever else it finds; the started marker alone means generation |
| CacheMonitors.UnmarkedPolls | utils/cache_monitor.py:924-941 | a poll without markers reports a first run iff the cache is empty, generation iff content follows an empty cache that nothing has voided since, and an existing cache otherwise |
| CacheMonitors.MarksLast | utils/cache_monitor.py:955-978 | a mark kept in memory holds until the other one is made, over any polls in between |
| CacheMonitors.PhasesExclude | utils/cache_monitor.py:955-978 | exactly one phase at a time; only generation can stall |
| AcceptanceLaws.StatusesTighten | report_module/acceptance_criteria.py:56-77 | each model status enforces at most what the next one does |
| ShardMerge.AgreeIffOnKeys | report_module/merge_eval_shards.py:428-429 | comparing the keys either config has is comparing all keys |
| Acceptance.AcceptedReportAcceptsStages | report_module/acceptance_criteria.py:302-342 | with repeated keys too, an accepted report accepts every stage |
| CacheMonitors.StallReportExact | utils/cache_monitor.py:536-571 | a status the history calls for reports a stall iff the episode has shown content and its last change is a timeout ago |
| AcceptanceLaws.EvalAccounted | report_module/acceptance_criteria.py:654-805 | a must-eval not graded PASS blocks, or is waived, or is left ungraded |
| AcceptanceLaws.EvalVerdictIff | report_module/acceptance_criteria.py:654-805 | an eval never both fails and is waived; it is waived iff it failed in full and is excused by priority, model status or a known issue |
| AcceptanceLaws.SpecVerdictIff | report_module/acceptance_criteria.py:898-948 | nor does a spec test; it is waived iff it is FAIL and its failing cases are waived |
| SchemaLimits.DefinitionSurvivesIff | llm_module/tool_call_schema.py:352-361 | a definition is still found after stripping iff it is not named `default` |

## Left out

- Docker, git, subprocesses, HTTP, file globbing, JSON decoding and logging: their results are inputs.
- Report wording, glyphs, badges, suffixes and titles: a blocker or waiver is its key.
- JSON Schema keywords that reach beyond their own value (`$anchor`, `$dynamicRef`, `patternProperties`, `if`/`then`/`else`, `unevaluatedProperties` and the like), nested `$id`, pointers other than `#` and `#/$defs/name`, and escaped pointer tokens: the code rewrites root references only.
- The skip heuristics of `classify_case` and case selection: a heuristic, not a claim; the model starts from a case that is not skipped.
- `run_case` and `run_cases`: retries and threads around one attempt.
- Members of JSON objects are unordered in the schema model; report records are ordered.
- Python's equality of `1`, `1.0` and `True` as dictionary keys: JSON booleans and numbers differ here.
- White space, digits and letter case beyond ASCII in string helpers.
- Acceptance.CheckCategory: the four check functions share one loop over blocks; their per-block branches are the outcome functions, and the inner loops over tiers and metrics are set comprehensions. The status text of a category is not modelled.
- Malformed report data that makes grading raise, and `task_failure_blockers`, which needs the runner's exit codes.
- The graded title and the written-back record of `apply_target_checks`: only what acceptance reads.
- SchemaSemantics.VerdictsExclusive: a law of acceptance itself; the causes and messages of a rejected instance are not modelled.
- Percentiles.StatsMonotone: standard deviation and coefficient of variation, which raising samples may lower.
- Floating-point rounding and NaN: ratios, times and percentiles are reals.
- CacheMonitors.CacheMonitor.GetCacheGenerationStatus: the estimated completion time, and the choice of the monitored directory or volume, are not modelled.
- A clock that runs back: delays in the startup wait are at least zero, and a sleep is at least as long as asked.
- BuildQueues.BuildQueue.Run: a build process that raises instead of returning a result is not modelled; a run is followed up to its last resource reading, so a run that waits for ever is one that never finishes.
- SweepRunner.Run: trace capture, dataset preparation, block parsing and the `on_block` callback; exceptions they raise.
- ShardMerge.ReplaceMetrics: plan and doc-set checks, sample merging and the merge provenance around the replacement loop.
- RunAggregation.AggregateBenchmarkRuns: `_flatten_numeric`, which selects the metrics of a block.
- Percentiles.PercentileBounds: percentages outside 0 to 100, which no caller passes.
- BlockCollapse.CollapseMergesRuns: a scalar of a record is known by a text.
