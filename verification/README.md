# A verified model of ObjectWeaver's control code

ObjectWeaver turns a JSON schema into many small LLM calls, runs them concurrently and puts the
answers together. The calls themselves cannot be reasoned about; the control code around them
can. This project models that control code in Dafny 4.11 and proves what it guarantees, for all
inputs, all answers and all interleavings. `dafny verify dfyconfig.toml` checks everything.

| file | component |
|---|---|
| `Definition.dfy` | the schema language and dynamically typed values |
| `Scheduler.dfy` | cutting the ordered keys of an object into batches by their `SelectFields` dependencies |
| `FieldRun.dfy`, `StoredNames.dfy`, `ObjectTree.dfy` | running the batches: concurrent fields that share one context of generated values, through nested objects and branches |
| `Engine.dfy`, `StructuredOutput.dfy` | leaves, objects, arrays; the JSON Schema of the same definition and what it accepts |
| `Totals.dfy` | tokens and cost: what is reported against what is used |
| `CombinedResponse.dfy`, `SizingAnswers.dfy`, `ListExtraction.dfy` | reading the sizing answer of an array and one item of a numbered list |
| `Assembly.dfy`, `NestedMaps.dfy`, `PathAssembler.dfy`, `PathConditions.dfy` | writing flat results into nested maps in place; resolving dotted paths; for which paths that is safe |
| `Generation.dfy` | a whole generation, from the root's fields to the assembled result |
| `PriorityHeap.dfy` | the two heaps with stored indices, and the request queue |
| `JobProtocol.dfy`, `JobOutcomes.dfy` | bridge, queue manager, workers, retries and batches as one state machine; where each answer leads |
| `WorkerPool.dfy`, `PoolLeaks.dfy` | sharded workers and per-request quota slots as a state machine; when slots are lost |
| `PoolWaits.dfy`, `Submissions.dfy`, `PoolRuns.dfy`, `PoolStarvation.dfy`, `LoneRequest.dfy` | closures that submit closures to their own pool and wait for them; for which schemas the pool can starve |
| `BatchManager.dfy`, `OverlappingCalls.dfy` | pending jobs, memory accounting, flushing, delivery of batch responses; calls that overlap |
| `RateLimiter.dfy` | windows, pause and ramp-up of the adaptive rate limiter |
| `TextParser.dfy` | the notation `title(string), modules(array: a, b(object: c))` |
| `CycleChecker.dfy` | the search for circular definitions |
| `Converters.dfy`, `Correspondence.dfy`, `ConverterLoops.dfy` | definitions to protobuf messages and back; what corresponds to what |
| `Scoring.dfy` | aggregation, selection and the recursive loop |
| `GoStrings.dfy`, `Sequences.dfy`, `Wrappers.dfy` | Go's string functions and general lemmas |

Methods carry the source's loops and state; each is proved against a function, and the lemmas
say what that function means. Concurrent code is a set of steps, one for each lock region,
channel operation or atomic addition, and "run" means any sequence of enabled steps.

## What the code does not do

Some properties one would expect hold only under a condition. For each the exact condition is
proved, and the lemma that gives a failing input or run is named.

- `Scheduler.LoopStopsIffKeysDistinct`: a repeated key in `ProcessingOrder` makes
  `analyzeFieldDependencies` loop for ever (`RepeatedKeyNeverStops`).
- `FieldRun.SeenIffNoClash`, `ObjectTree.SelectionsInTree`: objects inside objects, and the branches
  of decision points, store their values under plain keys in one shared context, so a nested field,
  a branch, or a field that runs beside the object or beside one around it can replace a selected
  value before it is read (`ObjectTree.BesideIsNotSeen`, `OwnBranchIsNotSeen`).
- `PoolStarvation.StarvesIff`: a worker that processes an object submits the object's fields to the
  pool it belongs to and keeps its place while it waits. If some submitted field submits again, the
  workers of a shard can all come to wait for that shard's own queue, for ever (`LockingRun`). The
  test for free workers does not prevent it (`ObjectInsideObjectStarves`), since it counts the
  workers of all shards. With 11 to 63 workers (a machine of two to four processors gets 20 to 40)
  one request for a wide enough object inside an object never ends, in any interleaving
  (`LoneRequest.LoneRequestStarves`).
- `Engine.PathsAgreeIffComplete`: an array without `Items` fails in field decomposition but is an
  array of strings in the JSON Schema, and an order that names a missing property adds that
  property to the object although the schema forbids it (`Engine.IncompleteDisagrees`).
- `Totals.TotalsCompleteIffLossless`, `TotalsCompleteIffNoLeaf`: what the items of a failed array
  used is missing from the totals, and so is what retried empty answers used (`Totals.LosingRun`).
- `PathConditions.NeverFailsIff`, `EveryOrderKeptIff`, `AlwaysResolveIff`: results whose paths lead
  through each other depend on their order, and keys with dots do not resolve
  (`ThroughAValueFails`, `OverAMapLoses`, `DottedKeyIsLost`).
- `BatchManager.CountedExactlyIff`: jobs restored after a failed conversion are no longer counted,
  so the memory limit can be exceeded (`UncountedAfterFailure`).
- `OverlappingCalls.LimitHoldsIff`, `LimitHoldsAloneIff`, `AlwaysDistinctIff`: `AddJob` releases its
  lock while it flushes, so `AddJob` calls that overlap can exceed the request limit and share
  identifiers (`BoundReached`, `SameIdentifier`), and one that overlaps with a flush can exceed the
  limit once conversions fail (`Grow`). The program itself adds jobs from one goroutine and flushes
  periodically from another: of these only the last can happen (`OneAdderOneFlusher`).
- `BatchManager.ToldOnceUnlessSilent`: a response with neither error nor body leaves its job waiting.
- `PoolLeaks.IdleIsFreeIff`, `CanLeakIff`, `LossIsExact`: a submission that is cancelled after the
  global pool checked its context and before its closure starts keeps its quota slot
  (`SkippedClosureKeepsItsSlot`, `UnqueuedSubmissionKeepsItsSlot`); one that is cancelled earlier
  does not (`EarlyCancellationIsHarmless`).
- `RateLimiter.ErrorPausesIff`: an expired pause that nobody has looked at yet swallows a new
  rate-limit error (`LateErrorForgotten`).
- `Converters.StructuredOutputSurvivesIff`: two fields of the messages are converted in neither
  direction.
- `SizingAnswers.ListKeptIff`, `AllExtractedIff`: a backslash followed by an `n` is taken for a
  newline, so an item like `C:\new` is torn apart (`PathIsSplit`).
- `SizingAnswers.CountReadIff`, `ListReadIff`: an indented `COUNT:` or `LIST:` line is read from the
  wrong offset; the size is then counted from the list (`SizeWithoutCount`).
- `Scoring.AlwaysAmongIff`, `Scoring.SelectByScore`: negative weights leave the range of the scores
  (`NegativeWeightEscapes`), and an average of no scores, once first, is never replaced as the best.

## Model

| member | source | states |
|---|---|---|
| `Scheduler.BatchesPermuteKeys` | orchestration/jos/infrastructure/execution/generate_object.go:454-517 | With distinct ordered keys the batches together are a permutation of the keys, none empty and none longer than five |
| `Scheduler.ObjectsAreAlone` | orchestration/jos/infrastructure/execution/generate_object.go:482-490 | A batch that contains an object-typed key contains nothing else |
| `Scheduler.PassesRespectDependencies` | orchestration/jos/infrastructure/execution/generate_object.go:465-513 | A regular batch has every dependency of its keys in strictly earlier batches; a fallback batch arises only when no unprocessed key is ready, and is the first unprocessed key |
| `Scheduler.NoFallbackIffAcyclic` | orchestration/jos/infrastructure/execution/generate_object.go:505-513 | The fallback is never used if and only if the dependencies lie within the ordered keys and have no cycle |
| `Scheduler.LoopStopsIffKeysDistinct` | orchestration/jos/infrastructure/execution/generate_object.go:457 | The batching loop ends if and only if the ordered keys are distinct, because its guard compares a set size with a list length |
| `Scheduler.RepeatedKeyNeverStops` | orchestration/jos/infrastructure/execution/generate_object.go:457 | On the order `a, a` the guard never fails |
| `Scheduler.EverythingScheduledOnce` | orchestration/jos/infrastructure/execution/generate_object.go:410-428 | Batches and remaining keys schedule every ordered key and every property exactly once, and are exactly the properties iff the order names only properties |
| `Scheduler.ScheduleIff` | orchestration/jos/infrastructure/execution/generate_object.go:454-513 | The batches are the one schedule in which, the ready keys being the unprocessed ones in order whose dependencies are all processed, every batch is its first ready key alone if that is an object, and otherwise the ready keys up to the first object, at most five; without a ready key it is the first unprocessed one |
| `Scheduler.CollectDependencies` | orchestration/jos/infrastructure/execution/generate_object.go:436-452 | The table has an entry exactly for the keys that select another root, with exactly those roots |
| `Scheduler.CanProcess` | orchestration/jos/infrastructure/execution/generate_object.go:465-474 | True iff every recorded dependency is processed |
| `Scheduler.CollectBatch` | orchestration/jos/infrastructure/execution/generate_object.go:458-497 | One scan over the keys: the first ready key alone if it is an object, otherwise the ready keys up to the first object and at most five; empty iff no key is ready |
| `Scheduler.AnalyzeFieldDependencies` | orchestration/jos/infrastructure/execution/generate_object.go:430-518 | On distinct keys the nested loops terminate with the one schedule in which every batch takes the first of the keys that are ready after the batches before it |
| `Scheduler.GetOrderedKeys` | orchestration/jos/infrastructure/execution/generate_object.go:410-428 | The declared order, and exactly the other properties in some order without repetition |
| `Scheduler.RootFieldName` | orchestration/jos/infrastructure/execution/generate_object.go:522-535 | The longest dot-free prefix, ended by the first dot or the end |
| `FieldRun.StepInv` | orchestration/jos/infrastructure/execution/generate_object.go:133-250 | Every start, write of a value or of a nested field or of a branch, second write, failure, finish or stage change, and every write from outside the object, in any interleaving keeps: earlier stages ended, later ones not begun, produced values in the context unless overwritten by a nested field, a branch or from outside; context keys only grow |
| `FieldRun.ExecInv` | orchestration/jos/infrastructure/execution/generate_object.go:103-115 | The same after every sequence of steps |
| `FieldRun.AtStart` | orchestration/jos/infrastructure/execution/generate_object.go:538-592 | When a field of a later stage starts, a field of an earlier one has ended and its value is in the context, unchanged if no field outside the object may store that name, no branch it decides on does, and no other field that may run in between stores it inside or by a branch |
| `FieldRun.EndedIffEarlier` | orchestration/jos/infrastructure/execution/generate_object.go:144-176 | A field is certain to have ended before another starts iff its stage is an earlier one |
| `FieldRun.SeenIffNoClash` | orchestration/jos/infrastructure/execution/generate_object.go:227-250 | A later field is certain to find another's own result in the shared context iff no field outside the object may store that name, no branch the other decides on does, and no third field that may run in between stores it inside or by a branch |
| `FieldRun.OverwritingRun` | orchestration/jos/infrastructure/execution/generate_object.go:257-273 | An explicit run in which a nested field or a branch of another field replaces the value before it is read |
| `FieldRun.OverwrittenByItsBranch` | orchestration/jos/infrastructure/execution/generate_object.go:238-250 | An explicit run in which a branch that the field itself decides on replaces its value before it is read |
| `FieldRun.OverwrittenFromOutside` | orchestration/jos/infrastructure/execution/generate_object.go:326-366 | An explicit run in which a field outside the object replaces the value before it is read |
| `FieldRun.OrderedFieldFindsItsSelections` | orchestration/jos/infrastructure/execution/generate_object.go:133-250 | In every run a key of a regular batch starts with every selected root ended and its value present; it is certain to be the root's own value iff no field outside the object may store that name, no branch the root decides on does, and no other field of a batch from the root's on stores it before the key starts |
| `FieldRun.DisturbedByObjectsOnly` | orchestration/jos/infrastructure/execution/generate_object.go:482-490 | In an object none of whose fields has a decision point, only a nested field of an object in a batch strictly between the two is in the way |
| `FieldRun.RemainingStartLast` | orchestration/jos/infrastructure/execution/generate_object.go:109-114 | Remaining keys start only after every ordered key has ended, and find the values of those that have one |
| `FieldRun.PlanValid` | orchestration/jos/infrastructure/execution/generate_object.go:103-115 | The batches and the remaining keys of any object are a valid plan; an object without properties runs nothing |
| `StoredNames.NestedNamesIff` | orchestration/jos/infrastructure/execution/generate_object.go:238-250 | The names that fields inside an object store in the shared context are exactly those at the end of a way down from it: through properties of nested objects, or through branches with conditions of decision points |
| `StoredNames.BranchNamesIff` | orchestration/jos/infrastructure/execution/decision_processor.go:221-250 | The names that the branches of a field's decision point store are exactly those at the end of a way that begins with one of these branches |
| `ObjectTree.OutsideIff` | orchestration/jos/infrastructure/execution/generate_object.go:257-273 | The names that can be stored from outside while an object runs are exactly those that the fields beside it, or beside an object around it up to the nearest array item, store as their own, as nested ones or by a branch |
| `ObjectTree.SelectionsInTree` | orchestration/jos/infrastructure/execution/generate_object.go:238-366 | For every object of every schema, decision points included: a key of a regular batch is certain to find a selected value iff no such field stores its name, no branch that the selected field decides on does, and no other field of a batch from its own on stores it before the key starts |
| `ObjectTree.SiblingOverwrites` | orchestration/jos/infrastructure/execution/generate_object.go:326-366 | A field that runs beside an object and stores a name the object selects can take the selected value away |
| `ObjectTree.BesideIsNotSeen` | orchestration/jos/infrastructure/execution/generate_object.go:257-273 | For a root with an object that generates `name` and `desc`, `desc` selecting `name`, and beside it a field `name` or one that stores that name as a nested field or by a branch: the selected value is not certain to be seen although nothing in the object is in the way |
| `ObjectTree.FallbackIsNotSeen` | orchestration/jos/infrastructure/execution/generate_object.go:188-210 | The same when beside it runs an object for structured output with a property `name`: when the structured call fails it is decomposed after all |
| `ObjectTree.OwnBranchIsNotSeen` | orchestration/jos/infrastructure/execution/decision_processor.go:221-250 | For an object with `name` and `desc` alone, `desc` selecting `name`, whose decision point has a branch with a property `name`: the selected value is not certain to be seen |
| `FieldRun.ExecutionContext.SetGeneratedValue` | orchestration/jos/domain/task_executor.go:120-124 | Changes one key of the shared map and nothing else |
| `FieldRun.ExecutionContext.GetGeneratedValue` | orchestration/jos/domain/task_executor.go:113-118 | The stored value, or nothing if the key is missing |
| `FieldRun.ExecutionContext.WithParent` | orchestration/jos/domain/task_executor.go:68-78 | The copying loop yields a new context with the same values |
| `Engine.ArraySize` | orchestration/jos/infrastructure/execution/array_processor.go:375-403 | The array size lies between 0 and 100 whatever the sizing call returned |
| `Engine.CollectExact` | orchestration/jos/infrastructure/execution/generate_object.go:50-64 | An object holds exactly the fields that produced a value, under their keys, and its totals are their sums |
| `Engine.GatherExact` | orchestration/jos/infrastructure/execution/array_processor.go:186-204 | An array succeeds iff every item does, and then position i holds item i's value and the totals are the sums |
| `Engine.ArrayKeepsPositions` | orchestration/jos/infrastructure/execution/array_processor.go:83-216 | Every successful array has 0 to 100 items with item i's value at position i |
| `Engine.CollectAnyOrder` | orchestration/jos/infrastructure/execution/generate_object.go:326-366 | The order in which concurrent fields are collected changes neither the object nor the totals |
| `Engine.GatherAnyOrder` | orchestration/jos/infrastructure/execution/array_processor.go:186-204 | The order in which items arrive changes neither the array nor the totals nor whether it fails |
| `Engine.MapCollector.Collect` | orchestration/jos/infrastructure/execution/generate_object.go:50-64 | The locked loop leaves map and totals as the fold over the non-nil results says |
| `Engine.CollectFields` | orchestration/jos/infrastructure/execution/generate_object.go:257-273 | Collecting an object's fields one after another in order of arrival gives the specified object and totals |
| `Engine.CollectItems` | orchestration/jos/infrastructure/execution/array_processor.go:186-215 | The fan-in loop over an array of slots gives the specified outcome, failing at the first failed item |
| `Engine.PathsAgreeIffComplete` | orchestration/jos/infrastructure/execution/structured_output_processor.go:170-254 | Field decomposition always yields a value that validates against the JSON Schema of the same definition iff every array has an item definition and every processing order names only properties |
| `Engine.CompleteAgrees` | orchestration/jos/infrastructure/execution/generate_object.go:103-272 | With a complete definition, every run whose leaves succeed yields a valid value |
| `Engine.IncompleteDisagrees` | orchestration/jos/infrastructure/execution/structured_output_processor.go:239-254 | For every incomplete definition a run exists whose value is missing or invalid |
| `Engine.GenerateValue` | orchestration/jos/infrastructure/execution/primitive_processor.go:193-234 | The retry loop makes at least one and at most four calls and goes on exactly while answers are empty: it fails when the last call fails, and otherwise yields the value and the usage of the last answer alone |
| `Totals.TotalsConserved` | orchestration/jos/infrastructure/execution/array_processor.go:113-136 | In every run, reported totals plus what was lost in retried empty answers and failed arrays equals what all provider calls of the leaves used |
| `Totals.TotalsCompleteIffLossless` | orchestration/jos/infrastructure/execution/array_processor.go:191-193 | Every run without retries reports all it spent iff no array that can be generated has items that can fail and can spend |
| `Totals.TotalsCompleteIffNoLeaf` | orchestration/jos/infrastructure/execution/primitive_processor.go:206-227 | Counting retries too, every run reports all it spent iff no leaf can be reached |
| `Totals.LosingRun` | orchestration/jos/infrastructure/execution/array_processor.go:191-193 | For every definition that is not lossless, a run without retries that spends a token and loses it |
| `Totals.ReportsAllIffNothingRetried` | orchestration/jos/infrastructure/execution/primitive_processor.go:206-227 | A run of a lossless definition reports all it spent iff its retried answers used nothing |
| `Totals.NothingLost` | orchestration/jos/infrastructure/execution/array_processor.go:186-215 | With a complete definition and successful leaves the reported totals together with what retried empty answers used are the sum over all provider calls, through nested objects and arrays; without retries they are that sum |
| `StructuredOutput.ObjectToSchema` | orchestration/jos/infrastructure/execution/structured_output_processor.go:213-237 | The loop over the properties, in any order, fills `properties` and `required` with all of them and closes the object |
| `StructuredOutput.ValidatesIff` | orchestration/jos/infrastructure/execution/structured_output_processor.go:170-254 | The schema of a definition accepts exactly the values of its type, at every depth: objects with all the properties and no others, arrays of accepted items or of strings, numbers that are whole where an integer is wanted |
| `StructuredOutput.SchemaDescribes` | orchestration/jos/infrastructure/execution/structured_output_processor.go:176-236 | At every depth the schema carries the instruction of the definition as its description, and none if there is none |
| `Generation.FlatAssembles` | orchestration/jos/application/default_generator.go:81-106 | Assembling the flat results of the root's fields succeeds and gives the object, tokens and cost that collecting the fields gives, with one field counted for each value |
| `Generation.GenerationIsSound` | orchestration/jos/application/default_generator.go:81-106 | End to end, for a complete schema whose leaves all have a value and for every order of completion: the assembled tree validates against the JSON Schema of the definition, and reported tokens and cost together with what retried empty answers used are the sums over all provider calls |
| `Assembly.PutThenLookup` | orchestration/jos/infrastructure/assembly/path_based_assembler.go:47-80 | A value written at a path is found there |
| `Assembly.PutElsewhere` | orchestration/jos/infrastructure/assembly/path_based_assembler.go:47-80 | Writing at one path changes neither what is found at a path apart from it nor whether one can write there |
| `Assembly.PutsCommute` | orchestration/jos/infrastructure/assembly/path_based_assembler.go:47-80 | Writes at paths apart from each other commute |
| `Assembly.AllFound` | orchestration/jos/infrastructure/assembly/path_based_assembler.go:17-60 | After a prefix-free list of writes every value is found at its path |
| `Assembly.PutAllAnyOrder` | orchestration/jos/infrastructure/assembly/path_based_assembler.go:17-60 | A prefix-free list of writes gives the same tree in every order |
| `NestedMaps.NestedMaps.SetNestedValue` | orchestration/jos/infrastructure/assembly/path_based_assembler.go:62-92 | The in-place walk succeeds iff no map is needed where something else is; it then has the effect of one write on the tree, and otherwise leaves the tree as it was |
| `NestedMaps.NestedMaps.Step` | orchestration/jos/infrastructure/assembly/path_based_assembler.go:70-87 | One step of the walk: into the existing map, into a new one, or a path conflict |
| `NestedMaps.ChangePuts` | orchestration/jos/infrastructure/assembly/path_based_assembler.go:89-91 | Changing one map reached by references writes exactly one value into the tree those references spell out |
| `NestedMaps.LeadsLooksUp` | orchestration/jos/infrastructure/assembly/path_based_assembler.go:73-79 | Following references along a path is looking the path up in the tree |
| `PathAssembler.Assemble` | orchestration/jos/infrastructure/assembly/path_based_assembler.go:17-60 | Succeeds iff every successful result can be written after the ones before it; tree, detailed data and totals are those of the successful results, nil and failed ones skipped |
| `PathAssembler.Store` | orchestration/jos/infrastructure/assembly/path_based_assembler.go:36-56 | Places one result at its path, or at the root under its key, and gives the key of its details |
| `PathAssembler.BuildPathKey` | orchestration/jos/infrastructure/assembly/path_based_assembler.go:94-103 | The path joined with dots |
| `PathAssembler.ResolveFieldPath` | orchestration/jos/infrastructure/execution/field_path_resolver.go:13-69 | Resolving splits at dots and navigates maps; inside an array it collects the field from the items and succeeds iff one has it and it is the last part |
| `PathAssembler.IndependentWritable` | orchestration/jos/infrastructure/assembly/path_based_assembler.go:17-60 | Results of which none leads through another never cause an assembly error |
| `PathAssembler.AssembledResolves` | orchestration/jos/infrastructure/execution/field_path_resolver.go:13-69 | On independent dot-free paths, resolving the key under which a result is filed gives back exactly its value |
| `PathAssembler.NothingElse` | orchestration/jos/infrastructure/assembly/path_based_assembler.go:17-60 | Whatever is found in an assembled tree lies on the path of some result or inside its value |
| `PathAssembler.AssemblyIgnoresOrder` | orchestration/jos/infrastructure/assembly/path_based_assembler.go:17-60 | The same results in another order give the same tree, details and totals |
| `PathAssembler.TotalsAddUp` | orchestration/jos/infrastructure/assembly/path_based_assembler.go:26-33 | Each total is the sum of that number over the successful results, and the field count is how many there are |
| `PathAssembler.DetailsAreLast` | orchestration/jos/infrastructure/assembly/path_based_assembler.go:35-57 | The detailed data has exactly the keys under which results are filed, with the last result filed under each |
| `PathAssembler.ArrayFieldResolves` | orchestration/jos/infrastructure/execution/field_path_resolver.go:44-61 | A path that ends inside an array resolves to the field's values in item order |
| `PathAssembler.ExtractAligned` | orchestration/jos/infrastructure/execution/field_path_resolver.go:46-53 | If every item has the field, the collected values line up with the items |
| `PathAssembler.ExtractExact` | orchestration/jos/infrastructure/execution/field_path_resolver.go:44-61 | What is collected from any list are the values of the field in exactly the items that are maps with it, in the order of the items |
| `PathConditions.NeverFailsIff` | orchestration/jos/infrastructure/assembly/path_based_assembler.go:62-92 | Whatever the values are, assembling at these paths in this order never fails iff no path leads through one that comes earlier |
| `PathConditions.AlwaysKeptIff` | orchestration/jos/infrastructure/assembly/path_based_assembler.go:17-60 | Whatever the values are, assembling at these paths in this order succeeds and every value is found at its path iff the paths are pairwise apart |
| `PathConditions.EveryOrderKeptIff` | orchestration/jos/infrastructure/assembly/path_based_assembler.go:17-60 | The same for every order of the paths, iff they are pairwise apart |
| `PathConditions.AlwaysResolveIff` | orchestration/jos/infrastructure/execution/field_path_resolver.go:13-69 | On paths pairwise apart, the key of every result resolves to its value whatever the values are iff no path component has a dot |
| `PathConditions.ThroughAValueFails` | orchestration/jos/infrastructure/assembly/path_based_assembler.go:73-79 | If a path leads through another result's value that is not a map, assembling them in that order fails |
| `PathConditions.OverAMapLoses` | orchestration/jos/infrastructure/assembly/path_based_assembler.go:89-91 | In the other order it succeeds and loses the nested value |
| `PathConditions.DottedKeyIsLost` | orchestration/jos/infrastructure/execution/field_path_resolver.go:15 | For any pairwise apart paths and any of them with a dot, values for which its key does not resolve to its value |
| `GoStrings.SplitJoinIff` | orchestration/jos/infrastructure/execution/field_path_resolver.go:15 | Splitting what was joined gives the parts back iff none contains the separator |
| `JobProtocol.StepInv` | llmManagement/LLM/orchestrator.go:104-170 | Every step of bridge, manager, workers and flushes keeps each accepted job in exactly one place and its counters consistent |
| `JobProtocol.RunInv` | llmManagement/LLM/orchestrator.go:80-100 | The same in every state of every run |
| `JobProtocol.EveryRunAccountsForJobs` | llmManagement/LLM/retryhandler.go:29-49 | In every reachable state an accepted job is in exactly one place and has been sent at most one result by a worker, exactly one once it has ended without being batched; Retries within MaxTransientRetries, calls within MaxTransientRetries + 1 + rate-limit requeues, none for a batched job |
| `JobOutcomes.CountersTell` | llmManagement/LLM/orchestrator.go:104-170 | At every point of every run, for every job: rate-limit requeues are its rate-limited answers, Retries its transient ones up to the maximum, calls its answers and the call under way; one result has been sent iff it has had a success, a permanent error, a refusal by the token limiter or a transient error beyond the maximum, and that result is a response iff it was a success |
| `JobOutcomes.EveryStepLeads` | llmManagement/LLM/orchestrator.go:116-169 | In every run each step takes its job where it belongs: finished with its one result after a success, a permanent error, a refusal or one transient error too many; back in the queue with nothing sent after a rate limit, a limiter error or a backoff; kept by its worker with one more retry after a transient error below the maximum; every other job stays where it is with its counters |
| `JobProtocol.SendNeverBlocksOrDrops` | llmManagement/LLM/orchestrator.go:158-169 | While a worker holds a job, nothing has been sent for it, so a buffered result channel is empty when it sends |
| `JobProtocol.AnsweredJobIsGone` | llmManagement/LLM/orchestrator.go:161-169 | From the moment a worker has answered for a job, in every later state: it is finished, has that one result, and is at no other place, be it bridge, queue, hand, channel, worker, pending, snapshot, batch or dropped |
| `JobProtocol.QueueStepConserves` | llmManagement/LLM/jobQueueManager.go:33-49 | Routing, dequeuing and sending to the channel move each job from one place to one other |
| `JobProtocol.BatchStepConserves` | llmManagement/LLM/batch_req_manager.go:194-261 | Snapshot, restore, drop, hand-over and completion of a batch lose and duplicate no job |
| `PriorityHeap.Heap.Swap` | llmManagement/LLM/priority_queue.go:14-18 | Exchanges two items and keeps every stored index equal to its position |
| `PriorityHeap.Heap.Push` | llmManagement/LLM/priority_queue.go:20-25 | Appends the item with its index |
| `PriorityHeap.Heap.Pop` | llmManagement/LLM/priority_queue.go:27-35 | Takes the last item off and marks its index -1 |
| `PriorityHeap.Heap.Up` | llmManagement/LLM/priority_queue.go:9-18 | Sift-up restores the heap order when only one item may belong further up, keeping the items and their indices |
| `PriorityHeap.Heap.Down` | llmManagement/LLM/priority_queue.go:9-18 | Sift-down restores the heap order below one item, keeping the items, their indices and what lies beyond |
| `PriorityHeap.Heap.HeapPush` | llmManagement/LLM/queue_manager.go:26-32 | Pushing adds exactly one item and keeps order and indices |
| `PriorityHeap.Heap.HeapPop` | orchestration/jos/infrastructure/execution/worker_pool.go:174 | Popping takes out exactly one item that none comes before, for the max-ordered queue and the min-ordered worker heap alike |
| `PriorityHeap.RootIsFirst` | orchestration/jos/infrastructure/execution/worker_pool.go:25-48 | The root of a heap comes before no later than every other item |
| `PriorityHeap.RequestQueueManager.Enqueue` | llmManagement/LLM/queue_manager.go:26-32 | The queued multiset grows by the job |
| `PriorityHeap.RequestQueueManager.Dequeue` | llmManagement/LLM/queue_manager.go:34-43 | Nothing iff empty; otherwise a job of maximal priority, index -1, and exactly that job is gone |
| `PriorityHeap.RequestQueueManager.MoveAll` | llmManagement/LLM/jobQueueManager.go:33-49 | Undisturbed, the manager moves every queued job to the channel once, by falling priority |
| `WorkerPool.ShardingFits` | orchestration/jos/infrastructure/execution/worker_pool.go:106-112 | The shards together never have more workers than configured |
| `WorkerPool.StepUnderWay` | orchestration/jos/infrastructure/execution/worker_pool.go:195-382 | Each step changes the slots and the active count of a pool by exactly what it changes of the work under way |
| `WorkerPool.RunInv` | orchestration/jos/infrastructure/execution/worker_pool.go:153-243 | Counters match the work under way in every state of every run |
| `WorkerPool.QuotaHolds` | orchestration/jos/infrastructure/execution/worker_pool.go:340-382 | At every step dropped <= active <= slots <= quota, and the slots are the submissions under way plus hosted closures plus dropped ones; nothing is dropped unless something was cancelled |
| `WorkerPool.IdlePoolKeepsOnlyDroppedSlots` | orchestration/jos/infrastructure/execution/worker_pool.go:177-183 | When nothing of a pool is under way, the slots still taken are those of closures that were skipped |
| `PoolLeaks.CanLeakIff` | orchestration/jos/infrastructure/execution/worker_pool.go:177-214 | From any sound state, without further cancellations the pool can come to be idle with a slot held iff it has lost one already or one of its submissions is cancelled after the global pool checked its context and before its closure starts |
| `PoolLeaks.LossIsExact` | orchestration/jos/infrastructure/execution/worker_pool.go:177-183 | However a run goes on without further cancellations, an idle pool holds exactly the slots of the submissions that had been dropped or were at risk, no more and no fewer |
| `PoolLeaks.IdleIsFreeIff` | orchestration/jos/infrastructure/execution/worker_pool.go:340-382 | Whatever may be cancelled and when: in every run an idle pool has all its slots free iff none of its own submissions is ever cancelled between that check and its start |
| `PoolLeaks.SkippedClosureKeepsItsSlot` | orchestration/jos/infrastructure/execution/worker_pool.go:177-183 | The run acquire, count, check, queue, pop, cancel, skip ends with the pool idle and a slot held |
| `PoolLeaks.UnqueuedSubmissionKeepsItsSlot` | orchestration/jos/infrastructure/execution/worker_pool.go:195-214 | The run acquire, count, check, cancel, drop at submission ends with the pool idle and a slot held |
| `PoolLeaks.EarlyCancellationIsHarmless` | orchestration/jos/infrastructure/execution/worker_pool.go:372-379 | A submission that is cancelled before the global pool checks its context is refused there and costs no slot |
| `PoolLeaks.Drain` | orchestration/jos/infrastructure/execution/worker_pool.go:153-189 | From every sound state everything under way can end without a cancellation, each pool having lost one slot for each submission that was dropped or at risk; without another loss iff nothing was at risk |
| `WorkerPool.ShardWithinItsWorkers` | orchestration/jos/infrastructure/execution/worker_pool.go:185-187 | A shard never counts more workers active than it has |
| `WorkerPool.AvailableWorkers` | orchestration/jos/infrastructure/execution/worker_pool.go:233-239 | Reading the shards' counters one by one at different times, the result is between 0 and the number of workers |
| `PoolWaits.StaysLocked` | orchestration/jos/infrastructure/execution/worker_pool.go:153-189 | Whatever step any request, closure or worker takes, a shard whose workers all wait for closures of its own queue stays so |
| `PoolWaits.LockedNeverEnds` | orchestration/jos/infrastructure/execution/generate_object.go:538-592 | Nothing that waits for the queue of such a shard, itself or through array items, ends in any continuation, new requests included |
| `Submissions.SubmitsIff` | orchestration/jos/infrastructure/execution/generate_object.go:133-177 | A field may submit closures, by a batch of two keys or more, by remaining keys while workers are free or somewhere below, iff one of the tasks it turns into does |
| `Submissions.NestsIff` | orchestration/jos/infrastructure/execution/generate_object.go:275-366 | A field somewhere submits a closure that would submit again iff one of the tasks it turns into does |
| `PoolRuns.QuietField` | orchestration/jos/infrastructure/execution/generate_object.go:251-273 | A field that submits nothing can be run through in place, whatever else is under way, and changes nothing else |
| `PoolRuns.RequestField` | orchestration/jos/infrastructure/execution/generate_object.go:275-366 | A request's field none of whose closures submits again can be run through with all the closures it submits, leaving nothing else behind |
| `PoolRuns.ClosureField` | orchestration/jos/infrastructure/execution/generate_object.go:538-592 | A field that may submit, run by a worker, can come to wait for a closure queued in the worker's own shard |
| `PoolStarvation.StepInv` | orchestration/jos/infrastructure/execution/generate_object.go:275-366 | Where no submitted closure submits again, every step keeps: queued and running closures submit nothing, they wait only for array items beside them, and whatever runs beside a worker finds it busy |
| `PoolStarvation.Drain` | orchestration/jos/infrastructure/execution/worker_pool.go:153-189 | Then everything under way can be brought to its end from every state of every run |
| `PoolStarvation.LockingRun` | orchestration/jos/infrastructure/execution/generate_object.go:538-592 | If some submitted closure submits again, a run from the start locks the first shard |
| `PoolStarvation.StarvesIff` | orchestration/jos/infrastructure/execution/generate_object.go:291-366 | With any number of requests for one schema and any number of workers, some process can come to wait for ever iff the requests submit a closure that submits closures itself, for all object schemas without decision points, scoring, loops, judges, structured output and byte fields |
| `PoolStarvation.ObjectInsideObjectStarves` | orchestration/jos/infrastructure/execution/generate_object.go:291-318 | The free-worker test does not prevent it: from eleven workers on an unordered property that is an object with an unordered property is enough |
| `LoneRequest.LoneRequestStarves` | orchestration/jos/infrastructure/execution/worker_pool.go:204-231 | With one worker for each shard, 11 to 63 workers, a single request for an object whose only property is an object with at least as many unordered leaf fields as there are shards never ends, in any interleaving under the round robin, and once they are submitted nothing that comes later changes that |
| `TextParser.SplitTopLevel` | textToWeaver/conversion.go:244-274 | The loop over characters computes the pieces described by `SplitFrom` |
| `TextParser.SplitsAtTopLevel` | textToWeaver/conversion.go:244-274 | For every string: the pieces are cut exactly at the delimiters outside parentheses and rejoin to the input, up to one dropped trailing delimiter |
| `TextParser.PiecesNoLonger` | textToWeaver/conversion.go:320-326 | Nested specifications are never longer than what they are split from, so parsing terminates on every input |
| `TextParser.ParseFieldSpec` | textToWeaver/conversion.go:278-367 | The recursive parser computes the name and definition described by `FieldSpec`, on every input |
| `TextParser.ParseStructuralAnalysis` | textToWeaver/conversion.go:222-241 | The loop over the pieces computes the properties described by `Fields` |
| `TextParser.FieldReadsBack` | textToWeaver/conversion.go:278-367 | Parsing a printed field gives its name and the definition described for it, at every depth |
| `TextParser.ListReadsBack` | textToWeaver/conversion.go:222-241 | Parsing a printed list of fields gives the definitions described for them |
| `TextParser.ParsedDepicts` | textToWeaver/conversion.go:278-367 | A printed field is parsed to its name and to a definition that depicts it, destructor by destructor at every depth: its type, its instruction with name and context, and for a group or a list of objects exactly the nested names with definitions that depict the nested fields |
| `TextParser.ParsedListDepicts` | textToWeaver/conversion.go:222-241 | A printed list of fields is parsed to exactly their names, each with a definition that depicts the last field of that name |
| `TextParser.DescribeAllExact` | textToWeaver/conversion.go:235-237 | With distinct names the properties are exactly the fields, under their names |
| `TextParser.TypeNameReads` | textToWeaver/conversion.go:206-218 | Each of the six type names is read as its type |
| `CycleChecker.CheckCircularDefinitions` | checks/circularDefinitions.go:6-48 | Terminates on every finite graph of definitions, and returns true iff some definition reachable from the root can reach itself through properties and items |
| `CycleChecker.Checker.Dfs` | checks/circularDefinitions.go:11-45 | One visit: a cycle is reported only if there is one, and otherwise the definition ends up finished with everything it leads to |
| `CycleChecker.FinishKeepsAcyclic` | checks/circularDefinitions.go:42-44 | Finished definitions are closed under successors and hold no cycle |
| `CycleChecker.FinishedRootNotCircular` | checks/circularDefinitions.go:47 | A finished root reaches no cycle |
| `RateLimiter.ModelLimiter.TryAdmit` | llmManagement/backoff/adpative-rate-limiter.go:62-122 | The body of the waiting loop has the specified effect on every field and decides to admit or to sleep |
| `RateLimiter.ModelLimiter.WaitAdmitted` | llmManagement/backoff/adpative-rate-limiter.go:62-123 | The waiting loop, with anything others do to the limiter between its looks: the limiter is the one after all those events, the request ends with the first look that admits it, and if nothing else happens with the second at the latest |
| `RateLimiter.ModelLimiter.Meanwhile` | llmManagement/backoff/adpative-rate-limiter.go:62-153 | Any sequence of looks and errors leaves the limiter as the run of those events says |
| `RateLimiter.ModelLimiter.Throttle` | llmManagement/backoff/adpative-rate-limiter.go:145-151 | A rate-limit error starts a pause of one minute unless one is flagged already |
| `RateLimiter.AdaptiveRateLimiter.constructor` | llmManagement/backoff/adpative-rate-limiter.go:36-44 | A limit that is not positive becomes 100000 |
| `RateLimiter.AdaptiveRateLimiter.Enter` | llmManagement/backoff/adpative-rate-limiter.go:49-59 | A limiter is made on first use and other models keep theirs |
| `RateLimiter.AdaptiveRateLimiter.Wait` | llmManagement/backoff/adpative-rate-limiter.go:48-124 | A request that waits among others for its model: it ends as described for the waiting loop and changes only its own model's limiter |
| `RateLimiter.AdaptiveRateLimiter.ReportResult` | llmManagement/backoff/adpative-rate-limiter.go:128-153 | An error changes only its own model's limiter, and only if it is a rate-limit error for a known model |
| `RateLimiter.EffectiveLimit` | llmManagement/backoff/adpative-rate-limiter.go:102-105 | At least one request, at most the level's share of the limit |
| `RateLimiter.EffectiveLimitIsFloor` | llmManagement/backoff/adpative-rate-limiter.go:102-105 | It is the whole number just below the level's share of the limit, unless that is less than one |
| `RateLimiter.TwoLooks` | llmManagement/backoff/adpative-rate-limiter.go:62-123 | A request with the limiter to itself is admitted at its second look at the latest |
| `RateLimiter.FallThroughUnreachable` | llmManagement/backoff/adpative-rate-limiter.go:107-117 | A reached limit always means a sleep; the lock is never given up before counting |
| `RateLimiter.RateHolds` | llmManagement/backoff/adpative-rate-limiter.go:86-121 | Over every run with a nondecreasing clock no window admits more than the limit, and no 60-second interval more than twice the limit |
| `RateLimiter.TwiceTheLimitOccurs` | llmManagement/backoff/adpative-rate-limiter.go:86-99 | For every limit and every start, a full window just before its end and another at its end put twice the limit within a minute |
| `RateLimiter.PauseHolds` | llmManagement/backoff/adpative-rate-limiter.go:66-84 | In every run, after a rate-limit error nothing is admitted before the pause ends, and the first window after it admits at most max(1, floor(0.3 * limit)) |
| `RateLimiter.BurstAdmitsRest` | llmManagement/backoff/adpative-rate-limiter.go:101-121 | Outside a pause a burst of requests within a window gets exactly what is left of the window's limit |
| `RateLimiter.NewLimiterAdmitsItsLimit` | llmManagement/backoff/adpative-rate-limiter.go:52-56 | A new limiter lets exactly its limit through at once |
| `RateLimiter.FirstWindowAdmitsItsShare` | llmManagement/backoff/adpative-rate-limiter.go:79-105 | The first window after a pause lets exactly max(1, floor(0.3 * limit)) requests through |
| `RateLimiter.NextWindow` | llmManagement/backoff/adpative-rate-limiter.go:86-121 | Outside a pause the first look in a new window opens it with a fifth of the limit more, up to the whole, and a burst gets exactly that many requests whatever the window before admitted |
| `RateLimiter.ClimbsBack` | llmManagement/backoff/adpative-rate-limiter.go:79-105 | Over any number of windows that follow a pause, window n admits max(1, floor((0.1 + 0.2 n) * limit)) requests of a burst, and from the fifth window on the whole limit |
| `RateLimiter.ErrorPausesIff` | llmManagement/backoff/adpative-rate-limiter.go:145-151 | After an error at `t` nothing is admitted for a minute, in every run, iff no pause is flagged that ends earlier |
| `RateLimiter.LateErrorForgotten` | llmManagement/backoff/adpative-rate-limiter.go:146 | The run error at 0, error and look at 60 seconds: the look is admitted at once |
| `BatchManager.DefaultBatchReqManager.FlushBatch` | llmManagement/LLM/batch_req_manager.go:194-261 | The new state for every way a flush can end, and an error iff jobs were pending and no batch was created |
| `BatchManager.DefaultBatchReqManager.AddJob` | llmManagement/LLM/batch_req_manager.go:150-191 | The new state, with a flush first if a limit would be exceeded; an error iff the job was not queued |
| `BatchManager.RunKeepsInv` | llmManagement/LLM/batch_req_manager.go:150-261 | Over every sequence of complete calls: pending within the request limit, batches nonempty and within it, queued = pending + batched + dropped, memory within the limit but for a single job, every identifier used at most once |
| `OverlappingCalls.SequentialIsRun` | llmManagement/LLM/batch_req_manager.go:150-261 | What complete calls do one after another is a run of the machine of lock regions with one `AddJob` and one flush at a time |
| `OverlappingCalls.EveryRunConserves` | llmManagement/LLM/batch_req_manager.go:150-261 | However calls overlap, in every state of every run each queued job is pending, batched, dropped or in a snapshot, no batch is empty, and no more memory is counted than pending |
| `OverlappingCalls.QueueBound` | llmManagement/LLM/batch_req_manager.go:171-190 | While conversions succeed and at most k `AddJob` calls overlap, the queue never exceeds what fits without a flush by more than k - 1, however many flushes overlap with them |
| `OverlappingCalls.BoundReached` | llmManagement/LLM/batch_req_manager.go:175-190 | For all limits and every number of overlapping `AddJob` calls a run from the start reaches that bound |
| `OverlappingCalls.LimitHoldsIff` | llmManagement/LLM/batch_req_manager.go:171-190 | While conversions succeed, the request limit holds in every run iff that bound is within it; with memory for a full batch, iff no two `AddJob` calls overlap, whatever flushes beside them |
| `OverlappingCalls.LimitHoldsAloneIff` | llmManagement/LLM/batch_req_manager.go:216-221 | With conversions that can fail, the request limit holds in every run iff no `AddJob` overlaps with another call, be it an `AddJob` or a flush |
| `OverlappingCalls.AlwaysDistinctIff` | llmManagement/LLM/batch_req_manager.go:165 | Queued jobs have different identifiers in every run iff no two `AddJob` calls overlap or the clock has moved on at each |
| `OverlappingCalls.SameIdentifier` | llmManagement/LLM/batch_req_manager.go:163-190 | A run from the start in which two overlapping `AddJob` calls give their jobs the same identifier |
| `OverlappingCalls.OneAdderOneFlusher` | llmManagement/LLM/setup.go:143-162 | As the program is wired, one goroutine adding beside one periodic flush: identifiers are distinct and the request limit holds while conversions succeed, but not once they can fail |
| `BatchManager.CountedExactlyIff` | llmManagement/LLM/batch_req_manager.go:207-222 | Over every sequence of complete calls counted memory never exceeds the memory of the pending jobs, and equals it iff no conversion failed on a nonempty queue since the last flush that emptied it |
| `BatchManager.UncountedAfterFailure` | llmManagement/LLM/batch_req_manager.go:216-221 | A run after which the pending jobs exceed the memory limit because a failed conversion put jobs back uncounted |
| `BatchManager.CustomIDInjective` | llmManagement/LLM/batch_req_manager.go:165 | An identifier determines the time and the count it was made from |
| `BatchManager.MonitorBatchCompletion` | llmManagement/LLM/batch_req_manager.go:397-486 | The loops send exactly what the jobs of the batch are owed: the completion of the last response with the job's identifier if it has no error and can be converted; otherwise, for a batch that failed, ended otherwise, had no output or could not be read, and for a missing, failed or unconvertible response, the error with its text; each to a channel that exists |
| `BatchManager.DeliversOwed` | llmManagement/LLM/batch_req_manager.go:397-486 | However a batch ends, a message is among those sent iff its job is in the batch and the job is owed it |
| `BatchManager.MapResponses` | llmManagement/LLM/batch_req_manager.go:449-452 | The response map holds for each identifier the last response with it |
| `BatchManager.AtMostOneMessage` | llmManagement/LLM/batch_req_manager.go:397-486 | In every run, however a batch ends, its monitor sends no job more than one message |
| `BatchManager.OwnResponse` | llmManagement/LLM/batch_req_manager.go:455-483 | A completion sent to a job comes from a response with the job's own identifier and no error |
| `BatchManager.ToldOnceUnlessSilent` | llmManagement/LLM/batch_req_manager.go:397-486 | In every run a job of a batch is sent exactly one message, unless its channel is missing or its response holds neither error nor body: then none |
| `BatchManager.EstimateJobMemory` | llmManagement/LLM/batch_req_manager.go:489-504 | Never less than 2048 |
| `BatchManager.EveryEntryEstimated` | llmManagement/LLM/batch_req_manager.go:150-191 | Over every sequence of complete calls every entry, pending, batched or dropped, counts two bytes for each character of its two prompts and 2048 more |
| `Converters.RoundTrip` | converison/grpcConverison.go:13-121 | Converting any definition to protobuf and back gives exactly its normal form, at every depth |
| `Converters.NormaliseIdempotent` | converison/grpcConverison.go:13-121 | Normalising twice is normalising once |
| `Converters.ComesNormal` | converison/grpcConverison.go:217-331 | Everything converted from protobuf is in normal form |
| `Converters.SecondTripIsStable` | converison/grpcConverison.go:335-462 | From protobuf to the model, a second round trip changes nothing |
| `Converters.HashMapRoundTrip` | converison/hashmap.go:10-31 | The same for the hash-map leg of the recursion |
| `Converters.ConfigRoundTrip` | converison/grpcConverison.go:490-582 | Integers wrapped to 32 bits, a zero seed turned into none, nil biases into an empty map, kwargs widened or lost |
| `Converters.ReqRoundTrip` | converison/requestFormat.go:10-43 | A request body is widened, or empty if some value cannot be stored |
| `Converters.ValueRoundTrip` | converison/map.go:6-13 | A storable dynamic value comes back with its integers turned into floats, at every depth |
| `Converters.Wrap32` | converison/grpcConverison.go:368 | Go's int32 conversion: the same value when it fits, and always the same modulo 2^32 |
| `Correspondence.ToPbMatches` | converison/grpcConverison.go:72-121 | The message made of a definition has, field by field and at every depth, what the definition has: instruction, model, prompts, order, selected fields, priority, configuration, requests, branches, conditions, loops, scoring, speech and image |
| `Correspondence.ToModelMatches` | converison/grpcConverison.go:13-52 | The definition made of a message corresponds to it in the same way, field by field and at every depth |
| `Converters.StructuredOutputIsLost` | converison/grpcConverison.go:18-42 | The structured-output flag and the response schema are carried by the messages but converted in neither direction |
| `Converters.StructuredOutputSurvivesIff` | converison/grpcConverison.go:18-42 | A round trip keeps them iff they are unset |
| `ConverterLoops.ConvertModelToProto` | converison/grpcConverison.go:72-121 | The converter with its loops over properties computes the specified message, which corresponds to the definition field by field at every depth |
| `ConverterLoops.ConvertModelDecisionPoint` | converison/grpcConverison.go:335-351 | The branch loop computes the specified message |
| `ConverterLoops.ConvertProtoToModel` | converison/grpcConverison.go:13-52 | The converter with its loops over properties computes the specified definition, which corresponds to the message field by field at every depth |
| `ConverterLoops.ConvertProtoDecisionPoint` | converison/grpcConverison.go:217-233 | The branch loop computes the specified decision point |
| `ConverterLoops.ConvertModelModelConfig` | converison/grpcConverison.go:535-582 | The bias loop and the seed and kwargs cases compute the specified message |
| `ConverterLoops.ConvertProtoModelConfig` | converison/grpcConverison.go:490-533 | The bias loop and the seed and kwargs cases compute the specified configuration |
| `ListExtraction.SplitLines` | orchestration/jos/infrastructure/execution/array_processor.go:451-466 | The character loop yields the lines that are not empty |
| `ListExtraction.JoinedLinesReadBack` | orchestration/jos/infrastructure/execution/array_processor.go:451-466 | Nonempty lines joined by newlines are read back |
| `ListExtraction.ExtractItemFromList` | orchestration/jos/infrastructure/execution/array_processor.go:446-532 | The index loops find the content of the first line that carries the number and has any |
| `ListExtraction.FirstMatchIff` | orchestration/jos/infrastructure/execution/array_processor.go:468-531 | The item is the content of the first line that carries the number and has any, and only of that line |
| `ListExtraction.ListReadsBack` | orchestration/jos/infrastructure/execution/array_processor.go:446-532 | A list printed as numbered lines after any unnumbered preamble gives back item i at index i, and nothing beyond its end |
| `CombinedResponse.ParseCombined` | orchestration/jos/infrastructure/execution/array_processor.go:328-403 | After replacing each backslash-n, the section loop yields the clamped number of items and the list text, falling back to counting numbered lines |
| `SizingAnswers.SizeByCount` | orchestration/jos/infrastructure/execution/array_processor.go:334-403 | If the announced count can be read, the array gets that many items, at most 100, whatever the items of the list are |
| `SizingAnswers.SizeWithoutCount` | orchestration/jos/infrastructure/execution/array_processor.go:375-403 | If the count line is indented, the array gets as many items as the list has, at most 100, and three if it has none |
| `SizingAnswers.ListKeptIff` | orchestration/jos/infrastructure/execution/array_processor.go:334-373 | The list that is kept is the numbered one, after the leftover of an indented list word, iff no item contains a backslash followed by an n |
| `SizingAnswers.AllExtractedIff` | orchestration/jos/infrastructure/execution/array_processor.go:446-532 | From such an answer every item is extracted at its index as it was written, and nothing beyond, iff no item contains a backslash followed by an n |
| `SizingAnswers.PathIsSplit` | orchestration/jos/infrastructure/execution/array_processor.go:334-335 | The item `C:\new` is never extracted as it was written |
| `SizingAnswers.CountReadIff` | orchestration/jos/infrastructure/execution/array_processor.go:358-366 | For any whitespace before it, the count is read iff there is none |
| `SizingAnswers.ListReadIff` | orchestration/jos/infrastructure/execution/array_processor.go:346-356 | For any whitespace before it, the text beside the list word is kept as it stands iff there is none |
| `Scoring.CalculateAggregate` | orchestration/jos/infrastructure/execution/recursive_processor.go:251-296 | The weighted and plain averages exactly; minimum and maximum attained or at the end of their scale; every result within any bounds that enclose what it is formed from, in every map order; not a number iff there is nothing to average |
| `Scoring.WeightedAverageBetween` | orchestration/jos/infrastructure/execution/recursive_processor.go:253-268 | With at least one match and no negative weight among the matches, the weighted average lies among the matching scores |
| `Scoring.AlwaysAmongIff` | orchestration/jos/infrastructure/execution/recursive_processor.go:253-268 | For given weights and a nonempty set of matching dimensions, the aggregate lies among the matching scores for all scores iff no matching weight is negative |
| `Scoring.AnyOrderSameAggregate` | orchestration/jos/infrastructure/execution/recursive_processor.go:251-296 | Two orders of the same map of scores give the same aggregate, for every method |
| `Scoring.NegativeWeightEscapes` | orchestration/jos/infrastructure/execution/recursive_processor.go:257-263 | For every negative matching weight, scores all of which are above their aggregate |
| `Scoring.IterationScore` | orchestration/jos/infrastructure/execution/recursive_processor.go:373-387 | The stored aggregate, or else the average of the scores |
| `Scoring.ScoreBetween` | orchestration/jos/infrastructure/execution/recursive_processor.go:373-387 | Without a stored aggregate the score lies between any bounds of the scores |
| `Scoring.SelectByScore` | orchestration/jos/infrastructure/execution/recursive_processor.go:363-400 | The first iteration that attains the extreme score; the first iteration if none is scored; a first score that is not a number is never replaced |
| `Scoring.SelectResult` | orchestration/jos/infrastructure/execution/recursive_processor.go:327-360 | Each strategy chooses what it promises; an error iff there are no results |
| `Scoring.Process` | orchestration/jos/infrastructure/execution/recursive_processor.go:44-129 | A result iff the loop was not cancelled at the start, no iteration failed and at least one was completed; it is the chosen one of the completed iterations |
| `Scoring.RoundsBounded` | orchestration/jos/infrastructure/execution/recursive_processor.go:61-121 | The loop completes at most the allowed number of rounds, in order; each was not cancelled and produced its iteration, and only the last may have stopped the loop |
| `Scoring.RoundsEnd` | orchestration/jos/infrastructure/execution/recursive_processor.go:61-121 | After the last completed round the loop ended because the next was cancelled or failed, the allowed number was reached or the round told it to stop |

## Left out

- HTTP and gRPC servers, authentication, caching, metrics, logging, environment parsing and wiring: plumbing without logic of its own.
- What the sizing call of an array uses: its metadata is discarded (`orchestration/jos/infrastructure/execution/array_processor.go:323`) and it generates no value, so `Totals` speaks of the calls of leaves.
- A fourth answer in a row that is nil stops the program in `parseValue` for all types but vectors; the runs of `Engine` leave that out.
- LLM, speech and image clients: what they answer, and whether they succeed, is a free choice of a step or an argument.
- Prompt texts, `Sprintf` formats and response cleaning: opaque strings; `%v` of a value is the parameter `show` of the converters.
- How a decision point chooses a branch and generates it: `FieldRun` and `ObjectTree` let any branch that has conditions store any of its names, once its field has a value. An object for structured output counts as storing its nested names, since it is decomposed after all when that call fails (`orchestration/jos/infrastructure/execution/generate_object.go:188-210`).
- Decision-point branches, epistemic judges, byte and map fields and the structured-output shortcut inside the engine: excluded from `Engine.Supported` runs; `Scoring` takes the termination decision of each round as given.
- The streaming processors repeat the field engine without a property of their own.
- Floating point: costs, scores, weights and ramp-up levels are real numbers, so sums do not depend on their order and 0.1 + 0.2 is 0.3. `Scoring` keeps the one float effect that matters, the value that is not a number.
- Go maps are ranged over in an order the methods leave open; Go strings are sequences of code points, so lengths count characters where the code counts bytes, and case folding covers what can equal an ASCII word.
- `FieldTask.Path` is an immutable sequence: that appends to a parent's slice may share memory is not modelled.
- Cancellation of a request inside `FieldRun` and `Engine`: every submitted field runs to its end. `WorkerPool` does model it.
- `checks/circularDefinitions.go` is modelled with loop variables that are new in every iteration, as in Go 1.22 and later, and with property maps that do not contain themselves.
- A map value assembled from a result is copied into the tree when a later path leads into it; that the result's own map changes with it is not modelled.
- `calculateBackoff`, `PriorityHeap` removal by index and the capacity of the submitters: easy arithmetic or unused.
- In `PoolWaits` and what builds on it: cancellation, which does not end a wait for a wait group but does end an array's wait for its items, and with it a lock that leads through one; that a worker's counter moves just after its job is taken, and that the shards' counters are read one by one; the quota slots and the limit of 50000 array items, as if they were never reached; fields with decision points, scoring, loops, judges, structured output or bytes, whose calls are of another kind (`Submissions.Plain`).
- PoolStarvation.StarvesIff: lets a submission go to any shard, for submissions of other requests move the round robin; `LoneRequest` has the round robin itself.
- LoneRequest.LoneRequestStarves: is about a root whose only property is the wide object, so that nothing else of the request takes part in the round robin.
- Wall-clock time: `RateLimiter` takes the clock as an argument of each event, and `JobProtocol` and `WorkerPool` only order their steps.
- `ConvertRawOutputToDefinition` and `convertFieldDescriptorToDefinition` in the text parser's file: they fill fixed templates.
- The `type` of a definition has the same enumeration on both sides of the converters, since the code casts the string without looking at it; nil entries in slices and maps of messages are excluded, and branches without a `then` (`Converters.HasThens`), which the code dereferences.
- Scheduler.AnalyzeFieldDependencies: requires distinct keys, because on repeated keys the source does not terminate (`Scheduler.LoopStopsIffKeysDistinct`).
- RateLimiter.AdaptiveRateLimiter.Wait: what others do meanwhile to the limiters of other models is not in it; they share nothing with this one. That a pause outlasts its window, as in its last clause, holds in every run (`RateLimiter.RunKeepsInv`).
- BatchManager.RunKeepsInv: speaks of complete calls one after another; what holds when they overlap, and when its limits and identifiers do, is in `OverlappingCalls`.
- OverlappingCalls.LimitHoldsIff: sent batches are counted together with handing them over, since nothing else reads that counter.
- FieldRun.SeenIffNoClash: a field outside the object may store its name at any time while the object runs; that a field which has ended stores nothing more is not used.
- JobProtocol.EveryRunAccountsForJobs: counts results sent by workers; what a batch monitor sends is the subject of `BatchManager.AtMostOneMessage`.
- TextParser.FieldReadsBack: is about fields with trimmed, delimiter-free names and the six types of the notation.
- ListExtraction.ListReadsBack: is about nonempty items without newlines or outer blanks, and numbers within 63 bits.
