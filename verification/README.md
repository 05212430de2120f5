# Proteus: a verified model of its hard core

A Dafny model of the parts of the Proteus query engine whose correctness is least obvious from the code,
with proofs about all their inputs and runs. `dafny verify dfyconfig.toml` checks everything.

| part of the system | modules |
|---|---|
| the jsmn JSON tokenizer with its growable token pool | `JsmnSpec`, `JsmnInvariant`, `JsmnStack`, `JsonText`, `JsmnLexis`, `JsmnRfc`, `JsmnGrammar`, `JsmnResume`, `JsmnCut`, `JsmnPart`, `JsmnParser` |
| query shaping: single server, scale-out, hybrid CPU/GPU; mergeable aggregates | `Streams`, `QueryShaping`, `ScaleOutShaping`, `JoinPaths`, `Aggregates`, `ShapedQueries` |
| expression hashing and tandem equality | `Hashing`, `HashCollision`, `HashPoints`, `Expressions`, `ExpressionAnswers`, `ObjectHashes` |
| partitioned loading, the file cache and the load policies | `Partitioning`, `FairShares`, `RowAlignment`, `FileLoading`, `StorageCache`, `StorageManager` |
| the adaptive HTAP scheduler, the OLTP engine it drives, core allocation | `HtapEngine`, `HtapSchedule`, `HtapCores`, `HtapSiblings` |
| cluster control: membership and query notifications | `ClusterMembers`, `ClusterQueries`, `ClusterOutstanding` |
| unpacking blocks into tuples | `BlockToTuples` |
| shared notions | `Sequences`, `Arithmetic` |

How the parts are modelled:

- The tokenizer is the class `JsmnParser.Parser`, with the source's fields and loops, in the built
  configuration (not strict, no parent links, the pool doubles). It is proved against the turn-by-turn
  specification `JsmnSpec.Run`; the results about tokenisation are lemmas about `Run`. RFC 8259, sections
  2 to 7, is written down independently in `JsonText`, as concrete syntax with its text and the preorder
  walk of its tokens, and so is the wider language that jsmn accepts in `JsmnGrammar`. The number of
  allocations that will still succeed is a field of the parser, so running out of memory is part of the
  model.
- A plan is modelled by what its operators do to streams. A router is an arbitrary function from tuples to
  instances, a broadcast makes one tagged copy per target, moves between memories and devices keep the
  contents; routers run on the CPU and a path on one device, which every shaped plan has to see to. The
  shaped plans are described for every path. What that means for a query is then shown for paths that
  are linear in the probe, which `JoinPaths` shows of selections, projections and hash joins, and in
  `ShapedQueries` for such paths with an aggregation at their end and once more after collecting.
- Hashes are computed on 64-bit words, represented as integers below 2^64. The hashes of floats, booleans
  and strings, casts and operators are parameters, so the results hold for every choice of them.
- The storage manager, the OLTP engine and the primary's books are classes; where steps of several threads
  interleave (load tasks, executor tasks), a state machine over their steps is the specification of the
  methods and the theorems range over all its runs.
- The kernel's short reads, the clock, the freshness of the data, the outcome of remote calls and the
  order of the thread pool are parameters.

## Where the code falls short of what one would expect

These are results too: where a property fails, a lemma gives the exact condition under which the code
meets it.

- A resumed tokenizer differs from one pass exactly if the cut runs through a primitive (`ResumeIff`,
  `SplitExample`). A text that is cut off inside an escape is reported as invalid, not as incomplete
  (`CutVerdict`, `IncompleteIff`, `EscapeExample`); it can be resumed all the same.
- Records of different arity can be taken as equal (`ArityDecides`, `UnequalArityAccepted`), casts are
  compared before the cast (`CastIff`, `TruncatingCast`), and projected records by their hash, which two
  integers already defeat (`ObjectsRightIff`, `FirstTwoCollide`). Projected 64-bit integers cannot be compared
  at all: they are taken for primitives, for which there is then no case (`DotAnswersIff`).
- The bytes after the last whole value unit are not loaded (`WholeFileIff`); `loadEverywhere` asks for
  bytes beyond the file unless a value is four bytes wide (`EverywhereFits`).
- A policy change without force is not seen by the next fetch of a file that is already loaded
  (`NextGet`), and dropping the custom loaders is such a change. `load` of a cached file starts a task
  whose result is thrown away (`LoadKeptIff`, `UnheldForever`).
- Scaling OLTP down by an odd number of cores overshoots (`ScaleIff`). Scaling back up resumes paused
  workers, but scaling down told them to terminate, so they stay stopped (`MigrateThrough`).
- The toggle `workers_in_home` has its meaning reversed: it is true exactly while the workers are away
  (`MigrateThrough`).
- The co-located allocation gives up hyper-threads without their siblings (`WholeCoresIff`), and both
  allocations list cores twice once the first hyper-threads run out (`ColocatedDistinctIff`,
  `ElasticDistinctIff`).
- Executor identifiers repeat after 2^32 registrations (`IdsNeverReusedIff`), and a second registration of
  a live address breaks the agreement of the books (`RegisterIff`).
- A broadcast that starts while something of the same query is outstanding may log too much
  (`LoggedOnceIff`, `OutstandingExample`). A failed execution is never reported, as the exception leaves
  the task before it notifies: an error in the log is always that of a preparation (`EveryNoteMatched`).
- The tuple identifier that a block's tuples are bound to is the thread's number for all of them, so it is
  the tuple's index for the first one only: the loop advances another counter (`ForEach`).

## Model

| member | source | states |
|---|---|---|
| `JsmnParser.Parser.Parse` | external/jsmn/jsmn.c:262-419 | from any valid state, fresh or resumed, and for every capacity of at least one: outcome, tokens, position and innermost open token are those of the specification; it runs out of memory if and only if the specification has more tokens than the array holds after as many doublings as allocations succeed, and then stops at a state from which the same outcome is still reached; without a token array the result is the count |
| `JsmnParser.Parser.constructor` | external/jsmn/jsmn.c:425-429 | a fresh parser is in the initial state |
| `JsmnParser.Parser.AllocToken` | external/jsmn/jsmn.c:30-84 | a fresh token, doubling by copying keeps all allocated tokens; what the array can still grow to is conserved; failure changes nothing and only when full with no allocation left |
| `JsmnParser.Parser.ParsePrimitive` | external/jsmn/jsmn.c:105-166 | stops on the last byte of the primitive, INVAL exactly if it has an unprintable byte, and every error restores the position |
| `JsmnParser.Parser.ParseString` | external/jsmn/jsmn.c:171-254 | the string's span if it closes, INVAL for a bad escape, PART if it is cut, and every error restores the position |
| `JsmnParser.CountThenFill` | external/jsmn/jsmn.c:262-419 | counting first and filling an array of exactly that size never runs out of memory and gives the verdict and tokens of one parse |
| `JsmnInvariant.EveryReachableState` | external/jsmn/jsmn.c:269-413 | in every state reachable by any history of turns, resumed calls on other texts included: `toksuper` is the innermost open token or -1, spans form a forest ordered by start, each size is the number of children |
| `JsmnInvariant.RunKeeps` | external/jsmn/jsmn.c:269-413 | a whole run keeps that invariant, also when it fails |
| `JsmnInvariant.CountMatches` | external/jsmn/jsmn.c:408-418 | the count-only run returns exactly the number of tokens a successful filling run allocates |
| `JsmnGrammar.SucceedsIff` | external/jsmn/jsmn.c:105-419 | a parse succeeds if and only if the text, up to its end, is in the language: separators, strings, primitives and groups in matching brackets in any order, with a separator or the end behind every primitive |
| `JsmnGrammar.TokensOf` | external/jsmn/jsmn.c:105-419 | for every text of the language the tokens are exactly the preorder walk of it: kinds, spans, and the number of children as size |
| `JsmnLexis.ClosesIff` | external/jsmn/jsmn.c:171-254 | a string closes at a byte if and only if that is a quote behind a sequence of plain bytes, two-byte escapes of eight letters and Unicode escapes of four hexadecimal digits |
| `JsmnLexis.CutIff` | external/jsmn/jsmn.c:171-254 | it is cut off if and only if the text ends behind such a sequence and possibly an unfinished Unicode escape; any other string is bad |
| `JsmnLexis.PrimEndIff` | external/jsmn/jsmn.c:105-166 | a primitive ends at the first separator, closing bracket or end of the text, if and only if only printable bytes of ASCII stand before |
| `JsmnStack.RunIsStack` | external/jsmn/jsmn.c:269-413 | the implicit stack of open tokens is a pushdown automaton over the brackets |
| `JsmnRfc.EveryJsonText` | external/jsmn/jsmn.c:105-419 | for every RFC 8259 text the parse succeeds, reads all of it, and the tokens are exactly the preorder walk of the value: types, spans, array sizes, object sizes twice the members |
| `JsmnResume.ResumeIff` | external/jsmn/jsmn.c:171-419 | whatever the call on a first piece returned, a second call on the longer text reaches the outcome of one pass if and only if the cut does not split a primitive |
| `JsmnResume.SplitDiffers` | external/jsmn/jsmn.c:105-166 | every cut through a primitive changes the outcome |
| `JsmnResume.SplitExample` | external/jsmn/jsmn.c:105-166 | a cut inside the number of an array after which resuming gives other tokens than one pass |
| `JsmnCut.CutVerdict` | external/jsmn/jsmn.c:171-254 | the first piece of a text that is accepted as a whole is invalid if and only if it ends in a string behind an odd number of backslashes, that is, inside an escape; otherwise it is accepted or incomplete |
| `JsmnCut.JsonCutVerdict` | external/jsmn/jsmn.c:171-254 | so for every piece of every RFC 8259 text |
| `JsmnCut.EscapeExample` | external/jsmn/jsmn.c:205-249 | a piece of an accepted text, cut behind a backslash, that is invalid |
| `JsmnPart.IncompleteIff` | external/jsmn/jsmn.c:171-419 | a text is reported as incomplete if and only if it is not accepted, some continuation of it is, and it does not end right behind the backslash of an escape; all other rejected texts are invalid |
| `QueryShaping.Parallel` | runtime/query-shaping/lib/query-shaper.cpp:31-46 | for every path, routing and degree of parallelism: the probe is shared out between the workers without loss or repetition, on the workers' device and moved there if asked, and the one result stream, on the CPU, is the path's output on every share with all of the builds |
| `QueryShaping.BuildReachesEveryWorker` | runtime/query-shaping/lib/query-shaper.cpp:90-105 | every worker gets every build tuple exactly once |
| `QueryShaping.ProbeReachesOneWorker` | runtime/query-shaping/lib/query-shaper.cpp:48-57 | every probe tuple is at exactly one worker |
| `QueryShaping.CollectMerges` | runtime/query-shaping/lib/query-shaper.cpp:107-124 | collecting merges all workers' results into one stream on the CPU, losing nothing, and moves it exactly if it is packed |
| `QueryShaping.HybridParallel` | runtime/query-shaping/lib/experimental-shapers.cpp:235-293 | the same over CPUs and GPUs together, for every path and every split between them |
| `ScaleOutShaping.ScaleOutShares` | runtime/query-shaping/lib/scale-out-query-shaper.cpp:54-109 | the same over all workers of a cluster, with any degrees of parallelism and any routing between and inside servers: the result is at server 0, nothing is left elsewhere |
| `Streams.LinearShares` | runtime/query-shaping/lib/query-shaper.cpp:31-46 | whatever the sharing out, a path that treats probe tuples one by one returns the multiset of its plain run |
| `ScaleOutShaping.BuildReachesWholeCluster` | runtime/query-shaping/lib/scale-out-query-shaper.cpp:54-67 | every worker of every server holds every build tuple of the cluster exactly once |
| `ScaleOutShaping.SharesOnce` | runtime/query-shaping/lib/scale-out-query-shaper.cpp:69-78 | re-routing shares between servers loses and repeats nothing |
| `ScaleOutShaping.InboxOfServer` | runtime/query-shaping/lib/experimental-shapers.cpp:34-44 | rotated routing gives each server exactly its predecessor's share, own-server routing its own |
| `JoinPaths.JoinPathsAreLinear` | apps/benchmarks/olap/prepared-queries/ssb/q1_1.cpp:39-67 | the part of every path before its aggregation, selections, projections and joins with prepared build tables, treats probe tuples one by one |
| `JoinPaths.ReturnedIff` | apps/benchmarks/olap/prepared-queries/ssb/q1_1.cpp:39-67 | a path returns exactly the tuples that a probe tuple becomes on its way: kept by every selection, mapped by every projection, combined with a matching build tuple by every join |
| `JoinPaths.SelectCounts` | apps/benchmarks/olap/prepared-queries/ssb/q1_1.cpp:39-67 | a selection keeps all copies of a tuple or none |
| `JoinPaths.JoinCounts` | apps/benchmarks/olap/prepared-queries/ssb/q1_1.cpp:39-67 | a join returns one tuple for each matching build tuple |
| `ShapedQueries.TwoPhases` | core/olap/lib/operators/agg-t.cpp:26-32 | sum, count, max and min, over everything or for each key, computed on every share and merged equal the one-phase result, wrap-around included |
| `ShapedQueries.AggregatedShares` | apps/benchmarks/olap/prepared-queries/ssb/q2_1.cpp:95-117 | for every sharing out of a probe: a path that ends in an aggregation, and the aggregation once more over the collected rows, returns what one aggregation of the plain path returns |
| `ShapedQueries.JoinPathAggregated` | apps/benchmarks/olap/prepared-queries/ssb/q2_1.cpp:41-117 | the same for every path of selections, projections and joins, with nothing asked of the path |
| `ShapedQueries.QueryOnServer` | apps/benchmarks/olap/prepared-queries/ssb/q1_1.cpp:36-77 | a whole query on one server returns the one-phase result of the plain path, for every routing |
| `ShapedQueries.QueryOnBoth` | runtime/query-shaping/lib/experimental-shapers.cpp:235-293 | a whole query on CPUs and GPUs returns it |
| `ShapedQueries.QueryOnCluster` | runtime/query-shaping/lib/scale-out-query-shaper.cpp:54-109 | a whole query on a cluster returns it at server 0 |
| `ShapedQueries.PlainOnCluster` | runtime/query-shaping/lib/scale-out-query-shaper.cpp:54-109 | without aggregation the cluster returns the multiset of the plain path |
| `ShapedQueries.AgainRereads` | apps/benchmarks/olap/prepared-queries/ssb/q2_1.cpp:108-117 | the usual second phase reads back exactly what the first one emits |
| `ShapedQueries.ReduceIs` | apps/benchmarks/olap/prepared-queries/ssb/q1_1.cpp:67-77 | `reduce` returns one row, with every aggregate over all tuples, also of none |
| `ShapedQueries.GroupByIs` | apps/benchmarks/olap/prepared-queries/ssb/q2_1.cpp:95-117 | `groupby` returns one row for each key that occurs, with every aggregate over the key's group |
| `ShapedQueries.GroupHas` | apps/benchmarks/olap/prepared-queries/ssb/q2_1.cpp:95-117 | a group has all copies of exactly the tuples with its key |
| `Aggregates.SumIsTotal` | core/olap/lib/operators/agg-t.cpp:26-26 | the sum is the mathematical sum up to wrap-around |
| `Aggregates.WrapIff` | core/olap/lib/operators/agg-t.cpp:26-28 | sums of integers wrap around at 32 bits, those of 64-bit integers and counts at 64 |
| `Aggregates.CountIsLength` | core/olap/lib/operators/agg-t.cpp:28-28 | the count is the number of tuples |
| `Aggregates.MaxIsMaximum` | core/olap/lib/operators/agg-t.cpp:30-30 | the maximum is an element and bounds all |
| `Aggregates.MinIsMinimum` | core/olap/lib/operators/agg-t.cpp:32-32 | the minimum is an element and bounds all |
| `Hashing.HashInt64Bijective` | core/olap/lib/expressions/expressions-hasher.cpp:66-85 | a constructed inverse undoes `hashInt64` on both sides |
| `HashPoints.HashOfMinusOne` | core/olap/lib/expressions/expressions-hasher.cpp:66-85 | the hash of the word with all bits set, which every step changes |
| `Hashing.HashInt32Invertible` | core/olap/lib/expressions/expressions-hasher.cpp:39-58 | a constructed inverse recovers the sign-extended key from `hashInt32` |
| `Hashing.HashesDecideEquality` | core/olap/lib/expressions/expressions-dot-evaluator.cpp:593-677 | comparing hashes of DATE or DSTRING values decides whether the values are equal |
| `Hashing.HashRecord` | core/olap/lib/expressions/expressions-hasher.cpp:562-583 | the loop over the attributes computes the left fold of the combining step |
| `Hashing.LastAttributeDecides` | core/olap/lib/expressions/expressions-hasher.cpp:562-583 | records that differ in their last attribute only collide exactly if its hashes do |
| `Hashing.CombineOnto` | core/olap/lib/expressions/expressions-hasher.cpp:562-583 | from every seed every record hash can be reached by the next attribute's hash |
| `HashCollision.Collision` | core/olap/lib/expressions/expressions-hasher.cpp:39-58 | two different pairs of 32-bit integers whose records have the same hash |
| `Expressions.LastValueDecides` | core/olap/lib/expressions/expressions-hasher.cpp:562-583 | records that differ only in a last attribute of type INT, INT64, DATE or DSTRING have different hashes |
| `Expressions.HashIsOfValue` | core/olap/lib/expressions/expressions-hasher.cpp:87-641 | for all well-typed expressions the hash depends on the evaluated value only, through conditionals, max/min, casts, references and records; for projected records if the plugin hashes those of their type as constructed ones |
| `Expressions.HashIsOfValueIff` | core/olap/lib/expressions/expressions-hasher.cpp:291-400 | for all expressions and bindings it does if and only if the plugin hashes projected records of every type as the hasher hashes constructed ones |
| `ExpressionAnswers.HashExistsIff` | core/olap/lib/expressions/expressions-hasher.cpp:87-641 | a well-typed expression has a hash, and the hasher does not throw, if and only if below its constructions and choices no record is computed and the plugin hashes every projected one |
| `ExpressionAnswers.PrimitiveHashIs` | core/olap/lib/expressions/expressions-hasher.cpp:87-641 | every well-typed expression that is not a record has a hash, the one of its value, whatever the plugin does |
| `Expressions.TypeOfValueIff` | core/olap/lib/expressions/expressions-hasher.cpp:99-145 | every value has exactly one type |
| `Expressions.HashComparison` | core/olap/lib/expressions/expressions-dot-evaluator.cpp:593-677 | the hash comparison of DATE and DSTRING projections is the comparison of their values |
| `Expressions.DotRecord` | core/olap/lib/expressions/expressions-dot-evaluator.cpp:519-542 | the loop over two records' attributes computes their pairwise verdict, or throws where a pair does |
| `Expressions.DotDecides` | core/olap/lib/expressions/expressions-dot-evaluator.cpp:33-823 | same-shaped expressions that are accepted have equal values, and without casts on the way exactly those with equal values are accepted; for projected records if the plugin's hash keeps those of their type apart |
| `ExpressionAnswers.DotAnswersIff` | core/olap/lib/expressions/expressions-dot-evaluator.cpp:33-823 | two same-shaped expressions get a verdict, and the visitor does not throw, if and only if every pair of nodes it arrives at can be compared: constants of one type, projections of anything but 64-bit integers, comparisons and null tests, and otherwise operators and choices of a few types |
| `ExpressionAnswers.EqualityDecided` | core/olap/lib/expressions/expressions-dot-evaluator.cpp:33-823 | without casts, the verdict on one expression over two bindings exists and is the equality of its values, if what the visitor arrives at can be compared and projected records are kept apart |
| `Expressions.ObjectsDecideIff` | core/olap/lib/expressions/expressions-dot-evaluator.cpp:657-677 | the verdict on projected records is about their values, for all bindings, if and only if the plugin's hash keeps records of their type apart |
| `ObjectHashes.KeepsApartIff` | core/olap/lib/expressions/expressions-dot-evaluator.cpp:657-677 | under a plugin that hashes as the hasher does, records of integers, dates and dictionary strings are kept apart if and only if they have at most one attribute |
| `ObjectHashes.ObjectsRightIff` | core/olap/lib/expressions/expressions-dot-evaluator.cpp:657-677 | so the verdict on projected records of such a type is right for all bindings if and only if they have at most one attribute |
| `ObjectHashes.FirstTwoCollide` | core/olap/lib/expressions/expressions-hasher.cpp:562-583 | for every such type with two attributes or more, and anything behind them, two different records with the same hash |
| `ObjectHashes.EveryRecordHasPartner` | core/olap/lib/expressions/expressions-hasher.cpp:562-583 | every record with an INT64 or DATE attribute behind others has, for any other values before it, a partner with the same hash |
| `Expressions.AcceptedHashesAgree` | core/olap/lib/expressions/expressions-dot-evaluator.cpp:467-823 | whatever the dot visitor accepts has equal hashes, projected records and any plugin included |
| `Expressions.ArityDecides` | core/olap/lib/expressions/expressions-dot-evaluator.cpp:519-542 | an accepted pair of records is equal exactly if the arities are |
| `Expressions.UnequalArityAccepted` | core/olap/lib/expressions/expressions-dot-evaluator.cpp:519-542 | an accepted pair of records stays accepted whatever attributes one side has beyond the other, although the two are then never equal |
| `Expressions.CastDecides` | core/olap/lib/expressions/expressions-dot-evaluator.cpp:819-823 | under a cast that is injective on their type the verdict on any two expressions is about the cast values |
| `Expressions.CastIff` | core/olap/lib/expressions/expressions-dot-evaluator.cpp:819-823 | for cast attributes the verdict is about the cast values, for all bindings, if and only if the cast is injective on their type |
| `Expressions.TruncatingCast` | core/olap/lib/expressions/expressions-dot-evaluator.cpp:819-823 | two floats that are cast to one integer and yet told apart |
| `Partitioning.LoadToDevices` | core/storage/lib/storage-manager.cpp:112-149 | the loop over GPUs, and the equal loop over sockets, yields the scaled device parts |
| `Partitioning.DevicePartsTile` | core/storage/lib/storage-manager.cpp:167-188 | the parts of the devices are nonempty, in order, without gap or overlap, and cover the file |
| `FairShares.PartSizeIsLeast` | core/storage/lib/storage-manager.cpp:95-98 | the part size is the least multiple of the alignment of which all devices together hold the file |
| `FairShares.EvenShares` | core/storage/lib/storage-manager.cpp:167-188 | all parts but the last are equally long, and none is more than one alignment unit above the even share |
| `Partitioning.DistributedTiles` | core/storage/lib/storage-manager.cpp:80-106 | over all servers, each with its own number of sockets, the byte ranges tile the file up to its last whole unit, servers with an empty share included |
| `FairShares.EvenServers` | core/storage/lib/storage-manager.cpp:80-106 | no server gets more than one alignment unit above the even share of the file, and none of its sockets more than one above the even share of the server |
| `RowAlignment.ColumnsStayAligned` | core/storage/lib/storage-manager.cpp:83-105 | for every width the byte ranges of each server and socket are the same row ranges, scaled: columns stay row-aligned through both ceiling divisions |
| `RowAlignment.DistributedAligned` | core/storage/lib/storage-manager.cpp:88-99 | every range of every server starts at a multiple of the alignment |
| `FileLoading.ReadAll` | core/storage/lib/mmap-file.cpp:126-136 | under any pattern of short reads the buffer ends up with exactly the range, nothing beyond it is touched, and a range that passes the end of the file ends in the unexpected-EOF error |
| `FileLoading.LoadAll` | core/storage/lib/mmap-file.cpp:126-138 | reading all ranges, each with its own short reads, yields their concatenated contents |
| `FileLoading.DistributedLoad` | core/storage/lib/storage-manager.cpp:80-106 | the ranges of all servers lie in the file and their concatenated contents are its whole units |
| `FileLoading.LoadDistributed` | core/storage/lib/storage-manager.cpp:80-106 | working out the shares and ranges of all servers and reading them under any positive short reads puts exactly the whole units of the file into memory |
| `FileLoading.WholeFileIff` | core/storage/lib/storage-manager.cpp:155-191 | the contents are the whole file if and only if the value's width in 4-byte units divides its size |
| `FileLoading.EverywhereFits` | core/storage/lib/storage-manager.cpp:193-243 | the ranges of `loadEverywhere` lie in the file if and only if a value is four bytes wide or the file is empty, and then hold the whole file |
| `StorageCache.EveryRun` | core/storage/lib/storage-manager.cpp:45-56 | in every run, asynchronous tasks included, the registered regions are exactly those of live records, and each finished load was made by the policy in force at some moment between its request and now |
| `StorageCache.EveryReachable` | core/storage/lib/storage-manager.cpp:336-340 | so it is in every state the storage manager can reach |
| `StorageCache.LoadKeptIff` | core/storage/lib/storage-manager.cpp:245-251 | the result of a load is kept if and only if the file is not cached |
| `StorageCache.UnheldForever` | core/storage/lib/storage-manager.cpp:245-251 | a result that nobody holds is never handed to anybody, in every run |
| `StorageCache.LoadedByPolicy` | core/storage/lib/storage-load-policy-registry.cpp:29-55 | in every run, a loaded file was ended by one operation and made by the policy in force then: the last one given to the file since custom policies were dropped, otherwise the last default, otherwise the one from the start |
| `StorageCache.ForcedChangeSeen` | core/storage/lib/storage-manager.cpp:342-357 | in every run with a forced change, a cached file that is loaded was loaded behind that change, by the policy in force at that later moment |
| `StorageCache.NextGet` | core/storage/lib/storage-manager.cpp:296-304 | the first fetch after a change returns the old copy if and only if the change is not forced and the file is already loaded |
| `StorageManager.Manager.Load` | core/storage/lib/storage-manager.cpp:245-251 | starts a task, and caches it only if the name is not cached |
| `StorageManager.Manager.GetOrLoadFile` | core/storage/lib/storage-manager.cpp:278-304 | loads if absent, and hands out the cached future |
| `StorageManager.Manager.FinishTask` | core/storage/lib/storage-manager.cpp:45-75 | the record of an ended task registers its regions, and unregisters them at once if nobody holds it |
| `StorageManager.Manager.UnloadFile` | core/storage/lib/storage-manager.cpp:273-276 | erases the name; the record goes only with its last holder |
| `StorageManager.Manager.UnloadAll` | core/storage/lib/storage-manager.cpp:271-271 | letting the futures go one by one unregisters exactly the regions no reader holds |
| `StorageManager.Manager.SetLoader` | core/storage/lib/storage-manager.cpp:351-357 | replaces the file's policy, with force also its cached copy |
| `StorageManager.Manager.SetDefaultLoader` | core/storage/lib/storage-manager.cpp:342-349 | replaces the default policy, with force all cached copies |
| `StorageManager.Manager.DropAllCustomLoaders` | core/storage/lib/storage-load-policy-registry.cpp:39-42 | all files fall back to the default policy, cached copies stay |
| `HtapEngine.Engine.MigrateState` | apps/benchmarks/htap/queries/olap-sequence.cpp:801-867 | from any of the four states to any other the engine ends set up for the new one, and the failing assertion is unreachable |
| `HtapEngine.Engine.MigrateThrough` | apps/benchmarks/htap/queries/olap-sequence.cpp:801-867 | after any sequence of migrations cores are given up exactly in S3-NI, workers are away exactly in S1, the toggle agrees, and workers told to terminate stay so |
| `HtapEngine.Engine.MigrateWorkers` | core/oltp/include/oltp.hpp:112-119 | by turns all workers are moved, each with its sibling, and exactly those moved come back; the pool's counter never underflows |
| `HtapEngine.Engine.ScaleDown` | core/oltp/lib/execution/worker-pool.cpp:455-496 | which cores are given up, for even and odd thresholds |
| `HtapEngine.ScaleIff` | core/oltp/lib/execution/worker-pool.cpp:464-496 | as many cores as asked are given up if and only if the threshold is even |
| `HtapEngine.GivenUpOnceIff` | core/oltp/lib/execution/worker-pool.cpp:464-496 | no core is given up twice if and only if the rounds do not reach the siblings |
| `HtapEngine.GivenUpAt` | core/oltp/lib/execution/worker-pool.cpp:464-496 | round k gives up core k of the second half and its sibling |
| `HtapSchedule.SetupAdaptive` | apps/benchmarks/htap/queries/olap-sequence.cpp:295-385 | every index of a state and query is in bounds and selects that state's statement |
| `HtapSchedule.SetupNamed` | apps/benchmarks/htap/queries/olap-sequence.cpp:485-592 | under a named policy every statement has the plugin and the cores of that policy |
| `HtapSchedule.LeavesIsolationIff` | apps/benchmarks/htap/queries/olap-sequence.cpp:869-935 | the scheduler leaves isolation if and only if the query reads fresh tuples and all fresh tuples are fewer than the configured fraction of the tuples it reads |
| `HtapSchedule.FreshTuplesAre` | apps/benchmarks/htap/queries/olap-sequence.cpp:891-892 | the fresh tuples are those the analytical side does not know yet, in unsigned arithmetic |
| `HtapSchedule.RunQuery` | apps/benchmarks/htap/queries/olap-sequence.cpp:1089-1127 | one query keeps engine and state in step, runs in the state of its policy or, adaptively, leaves isolation exactly if little of what it reads is fresh and then for the state the thresholds allow, runs the statement of that state, and has extracted the latest snapshot exactly if ETL was due or isolation demands it |
| `HtapSchedule.Execute` | apps/benchmarks/htap/queries/olap-sequence.cpp:1061-1138 | over whole runs under any clock and freshness: all queries run in order, each in the state that the freshness at that moment calls for and with the statement of that state; which snapshot was extracted last is known for each; local statements only run on the latest snapshot; each query has its own snapshot or each round one |
| `HtapCores.IsolatedCores` | apps/benchmarks/htap/queries/olap-sequence.cpp:192-201 | the cores of the analytical nodes in order |
| `HtapCores.AddPairs` | apps/benchmarks/htap/queries/olap-sequence.cpp:239-254 | pairs of a core and its sibling until the threshold is met or the cores run out |
| `HtapCores.EraseCores` | apps/benchmarks/htap/queries/olap-sequence.cpp:218-226 | every erasure is in bounds if and only if the condition on the number of cores holds |
| `HtapCores.ColocatedCores` | apps/benchmarks/htap/queries/olap-sequence.cpp:203-259 | succeeds if and only if the threshold is even and both core lists are long enough, and then returns the erased list with the added pairs |
| `HtapCores.ElasticCores` | apps/benchmarks/htap/queries/olap-sequence.cpp:261-293 | succeeds if and only if the threshold is even and the transactional cores suffice |
| `HtapCores.CoreCounts` | apps/benchmarks/htap/queries/olap-sequence.cpp:192-293 | co-location uses exactly as many cores as isolation, elasticity exactly the threshold more |
| `HtapCores.ErasedAt` | apps/benchmarks/htap/queries/olap-sequence.cpp:220-226 | where every core stood that is left after any number of rounds |
| `HtapCores.LeftIff` | apps/benchmarks/htap/queries/olap-sequence.cpp:220-226 | which cores are left: past the rounds all, in the first half those not yet reached, between them every other one until it is reached |
| `HtapSiblings.WholeCoresIff` | apps/benchmarks/htap/queries/olap-sequence.cpp:220-226 | for every number of rounds: the hyper-threads given up are whole cores, each with its sibling, if and only if there is one round, or nodes have two, or the places where every other one is left are exactly one node |
| `HtapCores.AddedOnceIff` | apps/benchmarks/htap/queries/olap-sequence.cpp:239-254 | no core is added twice if and only if the first hyper-threads suffice |
| `HtapCores.ColocatedDistinctIff` | apps/benchmarks/htap/queries/olap-sequence.cpp:203-259 | from the layout of the cores alone: the co-located allocation lists no core twice if and only if the first hyper-threads suffice |
| `HtapCores.ElasticDistinctIff` | apps/benchmarks/htap/queries/olap-sequence.cpp:261-293 | the same for the elastic allocation |
| `ClusterMembers.RegisterIff` | runtime/distributed-runtime/lib/cluster-control.cpp:296-318 | list, identifier map, address map and connections stay in agreement if and only if address and identifier are not live |
| `ClusterMembers.DeregisterKeeps` | runtime/distributed-runtime/lib/cluster-control.cpp:326-349 | the departure of a live executor keeps the books in agreement |
| `ClusterMembers.IdsNeverReusedIff` | runtime/distributed-runtime/lib/cluster-control.cpp:302-303 | no identifier is given out twice if and only if there were at most 2^32 registrations |
| `ClusterMembers.Control.Register` | runtime/distributed-runtime/lib/cluster-control.cpp:296-318 | the new books; insertions keep entries that are there |
| `ClusterMembers.Control.Deregister` | runtime/distributed-runtime/lib/cluster-control.cpp:326-349 | the new books; the list is filtered |
| `ClusterMembers.Control.ReplayAll` | runtime/distributed-runtime/lib/cluster-control.cpp:296-349 | over every history with distinct live addresses and at most 2^32 registrations the books describe exactly the live executors |
| `ClusterMembers.NextIdIsNew` | runtime/distributed-runtime/lib/cluster-control.cpp:302-303 | before the counter goes around the next identifier is not live |
| `ClusterQueries.EveryNoteMatched` | runtime/distributed-runtime/lib/cluster-control.cpp:350-406 | in every interleaving each logged notification belongs to a distinct delivered request of its query, executor and kind, and only preparations report errors |
| `ClusterQueries.EveryNoteReported` | runtime/distributed-runtime/lib/cluster-control.cpp:350-406 | every logged status is the one with which a task of the run ended, or older than the run |
| `ClusterQueries.BroadcastLogsEachOnce` | runtime/distributed-runtime/lib/cluster-control.cpp:185-221 | a broadcast begun with nothing of its query outstanding, in every interleaving, ends with exactly one entry for each executor whose request and notification got through, and no other |
| `ClusterOutstanding.LoggedOnceIff` | runtime/distributed-runtime/lib/cluster-control.cpp:185-221 | a broadcast is logged once in every continuation if and only if nothing of its query is outstanding when it starts |
| `ClusterOutstanding.TaskSpoils` | runtime/distributed-runtime/lib/cluster-control.cpp:350-406 | with any outstanding task of the query there is a continuation in which its notification is logged for the new broadcast |
| `ClusterOutstanding.BroadcastSpoils` | runtime/distributed-runtime/lib/cluster-control.cpp:191-197 | with an unfinished earlier broadcast of the query every continuation makes too many calls |
| `ClusterOutstanding.OutstandingExample` | runtime/distributed-runtime/lib/cluster-control.cpp:191-192 | a run from the start in which a second broadcast ends with two entries from one executor |
| `ClusterQueries.Primary.BroadcastQuery` | runtime/distributed-runtime/lib/cluster-control.cpp:185-221 | the loop of a broadcast is a run of the protocol that clears the query's log and calls every executor once, in order |
| `ClusterQueries.Primary.UpdateQueryStatus` | runtime/distributed-runtime/lib/cluster-control.cpp:395-406 | logging a notification is the protocol's step for the task that sent it |
| `ClusterQueries.Primary.GetQueryStatus` | runtime/distributed-runtime/lib/cluster-control.hpp:118-121 | reading is a step that returns the query's log and changes no query's entries |
| `BlockToTuples.Pipeline.Consume` | core/olap/lib/operators/block-to-tuples.cpp:99-126 | the leading thread hands back the previous block's buffers, in order, and keeps the new one's; other threads change nothing |
| `BlockToTuples.Pipeline.Close` | core/olap/lib/operators/block-to-tuples.cpp:278-303 | hands back the last block's buffers |
| `BlockToTuples.Unpack` | core/olap/lib/operators/block-to-tuples.cpp:99-303 | over a whole run the buffers of all blocks are handed back exactly once each and in order |
| `BlockToTuples.CurrentNotReleased` | core/olap/lib/operators/block-to-tuples.cpp:99-126 | no buffer of the current block has been handed back |
| `BlockToTuples.ForEach` | core/olap/lib/plugins/binary-block-plugin.cpp:981-1045 | a thread visits, in order and once each, exactly the indexes on its walk, and binds all of them to its own number |
| `BlockToTuples.SharedOnceIff` | core/olap/lib/operators/block-to-tuples.cpp:52-62 | every index below the count is visited by exactly one thread if and only if the stride is the grid's, or there is one thread, or at most one tuple |

## Left out

- LLVM code generation, JIT compilation, GPU streams and allocators: only what the emitted code computes is modelled.
- gRPC, sockets, threads and logging: remote calls either arrive or do not, tasks end in any order.
- The strict, parent-link and tight branches of jsmn: they are not in the built configuration.
- jsmn's 32-bit token fields and the overflow of the doubled capacity: positions and capacities are unbounded integers.
- jsmn with an array of no tokens at all: doubling zero stays zero in the source, so the pool has at least one token.
- Null flags of expression values, InputArgument, random and placeholder expressions: plumbing around the visits that are modelled.
- Float and string equality and hashing: any functions, as IEEE arithmetic and the plugins are not part of this model.
- The morsel shapers: their builds are not broadcast and rest on a shared hash table that is not part of this model.
- The affinity and slack of routers, and which plugin scans a table: they do not change what a plan returns.
- Columns narrower than four bytes, no devices and no servers: the arithmetic of the source divides by zero there.
- Overflow of sizes beyond 64 bits in the partition arithmetic: files are far smaller.
- The dictionaries of the storage manager, which are parsed from text files, and the mapping of files that are not read, which the operating system does.
- The memory that fetched file views point to after their record is gone: views are plain pointers without a lifetime.
- The CUSTOM policy, the sequence on GPUs, the micro-benchmark, the warm-up runs and the timing statistics of the HTAP sequence.
- What snapshots and ETL do to the tables, and whether scaling down addresses cores that exist: only their order and numbers are modelled.
- A second `execute` on the same engine: it assumes isolation without migrating back, so the results are for one run.
- The validity of the pointers into the vector of executors, which growth may move: records are values here.
- The departure of an unknown executor: the source dereferences a null pointer there.
- Shutdown of the cluster, which ends all runs, and the result server's identifier, a lookup of the primary's own address.
- Connections that change while a broadcast goes over them: a broadcast goes over the executors it found.
- LeavesIsolationIff: is about exact ratios, while the source computes them as doubles; when the two sides are within rounding of each other the source may decide the other way.
- Aggregates over floats: their sums depend on the order of addition, so two phases need not give the same bits.
- StorageCache and ClusterQueries: an operation is one step; races inside the unlocked maps are not modelled.
