# Verified models of the MongoDB load generator

The load generator drives a MongoDB server with generated, recorded or imported
traffic and reports what the server did. Around the driver calls sit algorithms whose
guarantees span whole runs: a replay that hands recorded operations to workers, a
comparison of two runs, deterministic traffic, index advice, bounded capture, seeding.
The modules here model these algorithms and prove the guarantees for every input, every
interleaving and every run.

| area | modules |
|---|---|
| Replay dispatcher as a step system | `ReplayDispatch` |
| Seeding pipeline as a step system | `Seeding` |
| Comparing two runs | `Outcomes`, `CompareSpec`, `Comparer`, `CompareFiles`, `ReportedKinds` |
| Index advice | `Predicates`, `ClassifiedFilter`, `DocumentTrees`, `PartialFilter`, `PartialFilterExact`, `IndexKeys`, `IndexAdvice`, `CandidateExact`, `IndexSuitability`, `SuitableExact`, `ServedQueries`, `InQueries` |
| Recording and replaying commands | `CommandCodec`, `Transactions`, `RecordedArguments`, `ReplayCommands`, `ReadsOnly` |
| Deterministic traffic | `Mix64`, `SeededCache`, `TrafficSpec`, `GeneratedOperations`, `PatchKeys`, `Deterministic`, `TrafficAgreement` |
| Impact accounting and capture | `Capture`, `UniformReservoir`, `CollectorState`, `Inventory`, `ImpactView`, `EventBuffer` |
| Sort specifications | `SortSpec`, `SortLocations` |
| Raw insert batches | `Bson`, `BsonBatch` |
| Latency percentiles, operation mix | `Histogram`, `OperationMix` |
| Shared helpers | `Wrappers`, `Sums`, `MapTotals`, `Loops`, `Text` |

How the program's world appears in the models:

- Goroutines, channels and wait groups are states and actions; a run is any sequence of
  enabled actions, so every interleaving, cancellation, error and panic is covered.
- A random stream is a function of its state, or the sequence of its draws; clocks,
  durations and server answers are inputs.
- A hash of a command stream is the sequence that is hashed.
- `bson.D` is a sequence of key and value pairs, a Go map is a map, and a loop over a Go
  map takes the keys in an arbitrary order.
- Objects that the program updates in place are classes; their methods are proved against
  functions of the old state, and the guarantees are lemmas about these functions.
- The recording is read in file order, with at least the worker numbers it was written
  with, and encoding and decoding one command is a faithful pair. The modules that read
  and write recordings, generate documents and import traffic are not part of this model.

Several promises hold only under a condition. The model keeps the code as it is and proves
exactly when they hold. With the condition goes an input of the other case:

| condition | an input that fails it |
|---|---|
| `CompareSpec.SwapDiffs` | `CompareSpec.SwapChangesWorker` for the lines of `CompareSpec.SwapExample` |
| `PartialFilterExact.PartialProvenExact` | `PartialFilterExact.NullIsDropped` |
| `IndexAdvice.PanicsExact` | `IndexAdvice.MissingEvidencePanics`, with evidence the program never passes (`IndexAdvice.NoEvidenceNeverPanics`) |
| `PatchKeys.KeyDeterminedExact` | `PatchKeys.OrdersUndetermined`, the orders of resources/collections/multi_collections.json |
| `TrafficAgreement.SendSameExact` | `TrafficAgreement.OrdersDiffer`, a run that starts with these orders |
| `SeededCache.InvisibleExact` | `SeededCache.DottedShowsCache`, with a database name that a server refuses (`SeededCache.DotlessIsInvisible`) |
| `Transactions.LookupExact` | `Transactions.NamelessIsMoved` |
| `ReplayCommands.HashMatchExact` | `ReplayCommands.DottedFindIsMoved`, again with a dot in a database name (`ReplayCommands.DotlessFindSurvives`) |
| `CommandCodec.RoundTripExact` | typed nil values, nil documents or lists of documents and unknown operations; the program's own callers pass none of these |
| `BsonBatch.PatchExact` | `BsonBatch.EarlierMarker` |
| `Histogram.BatchIsSingles` | `Histogram.EmptyBatchHasMinimum` |
| `Seeding.SeededIdsDistinct` | more than 2^32 documents of one namespace |
| `OperationMix.FallbackUnreachable` | a mix that was not normalized |

Some of the code's behaviour is easily overlooked, and is modelled as it is. A listed
difference takes its worker, its iteration and its shape from one of the two files. An
empty latency batch still lowers the minimum or raises the maximum of its window, and a
window that counted nothing is not cleared. The decoder of a partial filter skips literals
it has no canonical form for. A marker that occurs in a document before its patch key is
patched instead of the key. The patch key itself can be found by ranging over a map, by
every worker for itself, so one seed and one configuration do not always determine it. An
index is called suitable for a query with `$in` as well, although it need not deliver the
order then (`InQueries.InBreaksOrder`).

## Model

| member | source | states |
|---|---|---|
| ReplayDispatch.PendingExact | internal/mongo/workload_replay.go:228-325 | In every reachable state `pending` is the number of queued and held operations plus the one the reader hands over or gives back, and every one of these, in whatever phase its worker is, belongs to the current iteration |
| ReplayDispatch.HashedIsPrefix | internal/mongo/workload_replay.go:231-275 | Under any interleaving, cancellation, error or panic, what was hashed for a worker is a prefix of its share of the recording; which lines these are is `ReplayDispatch.ReadsOnlySendsNoWrite` and `ReplayDispatch.CompleteSends` |
| ReplayDispatch.CompleteIsComplete | internal/mongo/workload_replay.go:322-371 | A finished replay is reported complete exactly when nothing failed, the recording was exhausted and replayed plus skipped is the total; then every worker sent its whole share, line by line as in `ReplayDispatch.CompleteSends` |
| ReplayDispatch.ReadsOnlySendsNoWrite | internal/mongo/workload_replay.go:302-308 | In no reachable state has a reads-only replay sent a write, whatever the worker |
| ReplayDispatch.CompleteSends | internal/mongo/workload_replay.go:296-325 | When a replay is complete, what each worker sent are, in file order, exactly the recorded lines of this worker that are not writes left out by reads-only |
| ReplayDispatch.SkippedExact | internal/mongo/workload_replay.go:302-308 | In every reachable state the skipped count is the number of writes a reads-only replay has read past, and zero otherwise |
| ReplayDispatch.FailedExact | internal/mongo/workload_replay.go:231-275 | After any run the failed count is the number of executions that failed or could not be sent in it |
| ReplayDispatch.StepDecreases | internal/mongo/workload_replay.go:277-325 | Every action, also a cancel, a failure or the draining after a panic, lowers one measure of the remaining work |
| ReplayDispatch.NeverStuck | internal/mongo/workload_replay.go:277-330 | Until it has finished, the dispatcher can take an action of its own: neither the barrier nor a full queue blocks the reader for good |
| ReplayDispatch.EveryRunFinishes | internal/mongo/workload_replay.go:277-330 | No run is longer than the initial measure, and a run that cannot continue has finished |
| Seeding.PlanOf | internal/mongo/setup.go:67-77 | The batch size is the one set, or 1000, but no more than the documents; there are as many writers as set, or one, unless fewer have a batch each and are enough for all documents |
| Seeding.ExactlyOneBatch | internal/mongo/setup.go:78-159 | At every moment a dispatched document is in exactly one batch, inserted, lost or held by a writer, and any other document in none |
| Seeding.NilMeansAllInserted | internal/mongo/setup.go:120-159 | A nil result means that each of the `count` documents was inserted exactly once and that the progress total is `count` |
| Seeding.ProgressWithinCount | internal/mongo/setup.go:90-120 | No progress report exceeds the number inserted so far, and that never exceeds `count` |
| Seeding.ProducerHasReceiver | internal/mongo/setup.go:120-155 | The producer can only be left without a receiver when the work context is cancelled, and then it can stop |
| Seeding.NeverStuck | internal/mongo/setup.go:78-159 | No state short of the end is a deadlock |
| Seeding.EveryRunFinishes | internal/mongo/setup.go:78-159 | Every run is bounded, and one that cannot continue has finished |
| Seeding.SeededIdsDistinct | internal/mongo/setup.go:163-174 | The derived `_id`s of one namespace are pairwise distinct exactly up to 2^32 documents |
| Outcomes.CountsFaithful | internal/replaycompare/compare.go:260-307 | Two compact results agree in their counts exactly when the recorded outcomes do, absent counts included, with presence read off the bits of a number |
| Outcomes.MaskBits | internal/replaycompare/compare.go:287-307 | Bit i of the mask is set exactly when the i-th count is present, and no further bit is |
| Outcomes.SetBitSets | internal/replaycompare/compare.go:287-307 | Setting a bit sets that bit and no other |
| Outcomes.CompactCounts | internal/replaycompare/compare.go:287-307 | The loop over the six counts computes this mask, which fits the byte, and the values |
| Outcomes.OutcomeRoundTrip | internal/replaycompare/compare.go:287-324 | An outcome restored for the report compares like the recorded one and has its counts |
| CompareSpec.SelectionOpsA | internal/replaycompare/compare.go:646-667 | OpsA counts exactly the operations of the first file, for any selection of operations |
| CompareSpec.SelectionOpsB | internal/replaycompare/compare.go:671-715 | OpsB counts exactly the operations of the second file |
| CompareSpec.SelectionMatched | internal/replaycompare/compare.go:543-578 | Matched counts exactly the operations of both files |
| CompareSpec.DifferingSplits | internal/replaycompare/compare.go:543-578 | DifferingOps is MissingInA plus MissingInB plus the differing pairs, both of the overall totals and of the totals of every shape |
| CompareSpec.ShapesBalanced | internal/replaycompare/compare.go:646-728 | For every shape, however operations were re-attributed, OpsA is Matched plus MissingInB and OpsB is Matched plus MissingInA |
| CompareSpec.ShapesSumToTotal | internal/replaycompare/compare.go:768-783 | The totals of the shapes sum to the overall totals |
| CompareSpec.SwapTotals | internal/replaycompare/compare.go:543-578 | Exchanging the files exchanges the A and B fields of the overall totals and changes nothing else in them |
| CompareSpec.SwapDiffs | internal/replaycompare/compare.go:671-728 | Exchanging the files lists the same operations, and mirrors a listed difference exactly when only one file ran it or both lines agree in sequence, iteration, worker and attributed shape |
| CompareSpec.SwapChangesWorker | internal/replaycompare/compare.go:501-520 | Any two files of one line each whose lines share the sequence number and differ in worker and outcome have a difference that exchanging the files does not mirror |
| CompareSpec.SwapExample | internal/replaycompare/compare.go:501-520 | Two such lines: operation 7 succeeded for worker 1 in the one and failed for worker 2 in the other |
| CompareSpec.TopIsUnique | internal/replaycompare/compare.go:522-538 | The list of the N smallest keys in key order is determined by the set of all differences |
| CompareSpec.LinesAccounted | internal/replaycompare/compare.go:646-715 | The first lines of keys, the repeated lines and the lines without outcome are all lines of a file |
| Comparer.TrimRetains | internal/replaycompare/compare.go:522-538 | Trimming a buffer that retains the N smallest keys of everything ever added leaves exactly these, in key order |
| Comparer.Comparer.AddDiff | internal/replaycompare/compare.go:501-520 | After any addition the buffer holds the N smallest of all differences added and at most 4N+64 entries |
| Comparer.Comparer.TrimDiffs | internal/replaycompare/compare.go:522-538 | The buffer becomes exactly the N smallest keys of all differences ever added, sorted |
| Comparer.Comparer.Pair | internal/replaycompare/compare.go:543-578 | A pair adds to its shape what the specification says of two outcomes, and is listed exactly when they differ; when two outcomes differ is `ReportedKinds.KindsExact` |
| Comparer.Comparer.Match | internal/replaycompare/compare.go:690-715 | A line of the second file moves the first file's count to the attributed shape without underflow, and every accumulator stays the sum over its operations |
| CompareFiles.ReadFileA | internal/replaycompare/compare.go:646-667 | The first pass keeps the first line of every key and counts it for its shape; its two counters are the number of lines with an outcome whose key occurred before and the number of lines without outcome |
| CompareFiles.ReadFileB | internal/replaycompare/compare.go:668-715 | The second pass settles exactly the first line of every key against what the first pass kept, with the same two counters for its file |
| CompareFiles.Leftovers | internal/replaycompare/compare.go:722-729 | What is left over is counted as missing in the second file, in any map order, and the list is the N smallest differences |
| CompareFiles.MergeTotals | internal/replaycompare/compare.go:839-856 | Merging the accumulators gives the totals over all operations |
| CompareFiles.CompareFiles | internal/replaycompare/compare.go:589-783 | The streaming comparison equals the specification over the two maps from key to first line: overall totals, the totals of each shape, the listed differences; the duplicates of each file are the lines whose key occurred before, and the lines without outcome are those of both files |
| CompareFiles.ReportIsDetermined | internal/replaycompare/compare.go:646-783 | Reordering lines without changing the first line of a key, and any map order, leave overall totals and listed differences as they are |
| CompareFiles.SwappedReport | internal/replaycompare/compare.go:589-783 | The comparison of the exchanged files has the exchanged totals, lists the same keys in the same places and mirrors each difference exactly under the condition of SwapDiffs |
| ReportedKinds.KindsExact | internal/replaycompare/compare.go:543-578 | Of two recorded outcomes each of the five kinds is reported exactly when it is the case: both succeeded with different counts or transaction operations, both have checksums and these differ as hexadecimal numbers, both failed with different codes or names, or one failed |
| ReportedKinds.CountMismatchesExact | internal/replaycompare/compare.go:543-578 | The total of count mismatches is the number of operations of both files that succeeded with different counts |
| ReportedKinds.ChecksumMismatchesExact | internal/replaycompare/compare.go:543-578 | The total of checksum mismatches is the number of those whose recorded checksums are comparable and differ |
| ReportedKinds.ChecksumsComparedExact | internal/replaycompare/compare.go:543-578 | The total of compared checksums is the number of those that are comparable |
| ReportedKinds.ErrorCodesExact | internal/replaycompare/compare.go:543-578 | The total of error differences is the number of operations that failed in both files with different errors |
| ReportedKinds.ErrorsOnlyAExact | internal/replaycompare/compare.go:543-578 | The errors only in the first file are as many as the operations that failed there alone |
| ReportedKinds.ErrorsOnlyBExact | internal/replaycompare/compare.go:543-578 | So are those only in the second file |
| ReportedKinds.LabelExact | internal/replaycompare/compare.go:327-337 | Errors with a code and a name are counted together exactly when they agree in both |
| ReportedKinds.LatenciesExact | internal/replaycompare/compare.go:543-578 | Latencies are kept for exactly the operations that succeeded in both files |
| ReportedKinds.ListedExact | internal/replaycompare/compare.go:501-520 | An operation is a listed difference exactly when one file alone ran it or its outcomes differ, with the identity, the outcomes and the shape of the lines it came from |
| ReportedKinds.KeyExact | internal/replaycompare/compare.go:646-680 | Two lines are of one operation exactly when they agree in sequence number, or in iteration, worker and place |
| ReportedKinds.OrderExact | internal/replaycompare/compare.go:229-240 | Differences are listed by sequence number, or by iteration, worker and place |
| ReportedKinds.FirstLineKept | internal/replaycompare/compare.go:646-667 | What is kept for a key is the first line of the file that has it and an outcome |
| Predicates.Classifier.ClassifyFilter | internal/stats/index_advice.go:328-353 | Classifying a filter in place adds exactly the facts of its parts to the profile, in any map order |
| Predicates.Classifier.ClassifyField | internal/stats/index_advice.go:367-405 | A field's condition adds an equality, a range, an array or an unsupported fact as its operators say |
| ClassifiedFilter.RangeExact | internal/stats/index_advice.go:328-405 | A field is a range field exactly when some clause on it, in the filter or anywhere in its `$and` lists, has a range operator |
| ClassifiedFilter.EqualityExact | internal/stats/index_advice.go:328-405 | It is an equality field exactly when some clause compares it with a literal or lists values |
| ClassifiedFilter.ValueExact | internal/stats/index_advice.go:328-405 | It has a known value exactly when some clause compares it with a literal |
| ClassifiedFilter.InExact | internal/stats/index_advice.go:328-405 | A filter counts as one with `$in` exactly when some clause has it |
| ClassifiedFilter.SupportedExact | internal/stats/index_advice.go:328-405 | A filter is supported exactly when every member at every depth is a comment, a list under `$and` or a field with a supported clause |
| PartialFilter.MatchedToken | internal/stats/index_advice.go:328-405 | Every document, a tree with dotted paths into it, that matches a filter has, on each field classified as an equality with a canonical value, that value |
| PartialFilter.MatchedLiteral | internal/stats/index_advice.go:328-405 | Of each such field there is one literal with that canonical value that all matching documents equal |
| PartialFilter.ReliableIsSound | internal/stats/index_advice.go:852-869 | A partial filter that passes a computable test is never wrongly taken to include a query, whatever operators other than equality mean |
| PartialFilterExact.PartialProvenExact | internal/stats/index_advice.go:852-869 | For a partial filter of equalities, nested in `$and` and `$or` in any way, accepting an index whenever its decoded clauses are among the proven equalities is sound for all queries and documents exactly when nothing is provable, or one kept field leads into another, or no kept number is the lowest 64-bit integer and the kept values force every element of the filter |
| PartialFilterExact.AnyOperatorsExact | internal/stats/index_advice.go:852-869 | For any partial filter it is sound for every meaning of the other operators exactly under the same condition |
| PartialFilterExact.NullIsDropped | internal/webui/indexes.go:205-241 | An index on `{a: 1, b: null}` is taken to include documents that it excludes |
| PartialFilterExact.NullBelowIsForced | internal/webui/indexes.go:205-241 | An index on `{a: 1, "a.b": null}` drops the same literal and is rightly taken to include them |
| IndexKeys.LexOpposite | internal/stats/index_advice.go:695-708 | Reading an order backwards is the order of the flipped keys when every key has a direction |
| IndexAdvice.OrderedByEvidence | internal/stats/index_advice.go:631-665 | A determined equality order is a rearrangement of the fields by strictly increasing distinct counts of one source |
| IndexAdvice.PanicsExact | internal/stats/index_advice.go:631-665 | Ordering pairwise different fields dereferences nil exactly when there are at least two, one source counted as many fields but not the same ones, and the counts before the first uncounted field are pairwise different |
| IndexAdvice.NoEvidenceNeverPanics | internal/stats/index_advice.go:997-1004 | Without evidence, as the program calls it, the derivation of any profile succeeds and determines the order of at most one equality field; only evidence from another caller can panic |
| IndexAdvice.MissingEvidencePanics | internal/stats/index_advice.go:631-665 | An input that panics: the fields a and b with counts of one source for a and c |
| IndexAdvice.OrderEquality | internal/stats/index_advice.go:631-665 | The in-place ordering computes the specified order, tie or panic |
| IndexAdvice.BuildKeys | internal/stats/index_advice.go:601-620 | The loop that appends keys gives equality fields, then sort keys on new fields, then the range field |
| IndexAdvice.DeriveCandidate | internal/stats/index_advice.go:546-629 | The derivation gives the specified plan for every profile and all evidence |
| CandidateExact.EvidenceExact | internal/stats/index_advice.go:631-650 | The count of a field is that of the last usable evidence for it, and a field without usable evidence has none |
| CandidateExact.OrderedExact | internal/stats/index_advice.go:631-665 | Pairwise different equality fields have an order exactly when there is at most one or one source counted exactly these fields, all differently |
| CandidateExact.ChooseRangeExact | internal/stats/index_advice.go:561-595 | A range field is chosen exactly when there is at most one or only one is sorted on, it is that one, and the others are left over |
| CandidateExact.DeterminedExact | internal/stats/index_advice.go:546-629 | A plan is determined exactly when every clause is supported, the sort order is known, one range field at most is left to choose and the equality fields have an order; with all but the order it is undetermined for that reason |
| CandidateExact.SelectivityExact | internal/stats/index_advice.go:590-629 | A determined plan is put down to selectivity exactly when there were several equality fields to order |
| SuitableExact.PlanRest | internal/stats/index_advice.go:601-620 | After its equality keys a plan has, in their order, the sort keys on fields that no equality key or earlier sort key is on, and then the range field unless it was there |
| IndexSuitability.SeenKeysRedundant | internal/stats/index_advice.go:604-614 | Dropping sort keys on equality fields and repeated sort keys does not change the order of documents that agree on the equality fields |
| IndexSuitability.KeysServeSorts | internal/stats/index_advice.go:732-759 | An index that serves a plan, forward or flipped, delivers the sort order for documents that agree on the equality fields, with the equality keys in any order; which indexes serve is `SuitableExact.KeysServeExact` |
| IndexSuitability.LeadingSetSorts | internal/stats/index_advice.go:802-816 | So does an index with an undetermined equality order whose leading keys are the set of equality fields |
| IndexSuitability.HashedSorts | internal/stats/index_advice.go:732-759 | A hashed key is accepted only where no order is left to deliver |
| IndexSuitability.SuitableIndexSorts | internal/stats/index_advice.go:786-912 | If an index is called suitable for the plan derived from a profile, walking it in one of the two directions visits documents that agree on the equality fields in the captured sort order |
| IndexSuitability.EqualityIsOneRange | internal/stats/index_advice.go:786-912 | Such an index, unless it starts with a hashed key, keeps the documents with given equality values next to each other |
| SuitableExact.KeysServeExact | internal/stats/index_advice.go:732-759 | An index of any keys serves a candidate exactly when its first keys are on the equality fields, in any order, and its next keys are on the remaining fields in their order, with all directions equal or all opposite |
| SuitableExact.LeadingSetExact | internal/stats/index_advice.go:802-816 | The same condition is exact when the order of the equality fields is undetermined |
| SuitableExact.MirrorServes | internal/stats/index_advice.go:695-759 | An index of ascending and descending keys and the one with every direction negated serve the same candidates |
| SuitableExact.SuitableIndexExact | internal/stats/index_advice.go:786-912 | An index is called suitable for the plan derived from a profile exactly when it is visible, has the simple collation, is proven to hold every match, serves the plan as above or is the hashed index on its only field, and, if it is multikey, has one field and nothing to order |
| SuitableExact.ReasonsExact | internal/stats/index_advice.go:889-912 | An index that does not serve is refused for what it shares with the plan and its type, one that serves first for being hidden and then for its collation, each exactly in its case |
| SuitableExact.CollationExact | internal/stats/index_advice.go:843-850 | A collation is simple exactly when its locale is blank or the word simple in any case, between spaces |
| ServedQueries.MatchingAgree | internal/stats/index_advice.go:328-405 | Documents that match a captured filter without `$in` agree on the places of all its equality fields |
| ServedQueries.PartialHasMatches | internal/stats/index_advice.go:852-869 | A partial index that is called suitable, and whose filter passes the computable test, holds every matching document |
| ServedQueries.CapturedQueryIsServed | internal/stats/index_advice.go:997-1015 | From captured filter to delivered order: an index called suitable for the plan derived from the classified query holds the matching documents and visits them, in one of its two directions, in the captured sort order |
| InQueries.InBreaksOrder | internal/stats/index_advice.go:1278-1280 | An index on a and b is called suitable for `{a: {$in: [1, 2]}}` sorted by b and delivers this order in neither direction |
| CommandCodec.RoundTripExact | internal/mongo/workload_exec.go:285-337 | A request of any operation type is decoded from its recorded command and recorded the same way again exactly when it is well formed; that the decoded one has its arguments is `RecordedArguments.DecodedArguments` |
| CommandCodec.StoredTwice | internal/mongo/workload_replay.go:484-514 | Reading back a value that was read back changes nothing |
| CommandCodec.ImportIsStable | internal/mongo/traffic_import.go:16-41 | Importing fails exactly on arguments that cannot be decoded, and what it records is decoded, re-encoded and imported again unchanged; that nothing is lost is `RecordedArguments.ImportKeepsArguments` |
| CommandCodec.DecodeFastFind | internal/mongo/workload_replay.go:581-607 | The decoder's loops compute key, ids and limit or fail as specified |
| CommandCodec.FastFindRoundTrip | internal/mongo/workload_exec.go:470-476 | A recorded fast find is decoded to its key, ids and limit, for all 64-bit ids |
| CommandCodec.FastFindExact | internal/mongo/workload_replay.go:581-607 | A fast find is read exactly when its filter is a single field that asks for an array of 64-bit ids and it has a whole limit, and then with these |
| Transactions.LookupExact | internal/mongo/workload_replay.go:67-73 | `lookup` and `collectionNamespace` are inverse on a namespace exactly when it is configured, or has a dot and a database part that the naming rule keeps |
| Transactions.NamelessIsMoved | internal/mongo/workload_replay.go:67-73 | A namespace without a database part comes back with the database of the run |
| Transactions.ConfiguredIsStable | internal/mongo/recordpool.go:57-66 | The namespace recorded for any configured collection leads back to itself |
| Transactions.DecodeTxOps | internal/mongo/workload_replay.go:610-645 | The decoding loop gives the operations of a recorded transaction in order or fails as specified |
| Transactions.TransactionRoundTrip | internal/mongo/workload_exec.go:602-615 | A recorded transaction is decoded and recorded the same way again exactly when each operation is known and its namespace leads back to itself |
| RecordedArguments.StoredExact | internal/mongo/workload_replay.go:484-514 | A value is read back as it was exactly when it has no plain int and no typed nil map inside |
| RecordedArguments.DecodedArguments | internal/mongo/workload_exec.go:285-337 | For every operation type, decoding the recorded command gives a request with the given filter, update, upsert, pipeline, document, documents, projection, sort, skip, hint, limit and batch size, as far as the operation has them, and nothing else, or fails as stated |
| RecordedArguments.DecodedTxArguments | internal/mongo/workload_exec.go:602-615 | So it is for the arguments of every operation inside a transaction |
| RecordedArguments.DecodedTransaction | internal/mongo/workload_replay.go:610-645 | A recorded transaction is read back operation by operation, each with its own arguments and collection, exactly when every operation can be |
| RecordedArguments.ImportKeepsArguments | internal/mongo/traffic_import.go:16-41 | An import records each argument the operation has under its key and with its value, the batch size modulo 2^32 |
| ReplayCommands.LineReproduced | internal/mongo/workload_replay.go:417-459 | For each of the four kinds of line, replaying it sends the recorded command exactly when its operation survives recording |
| ReplayCommands.HashMatchExact | internal/mongo/workload_replay.go:340-357 | A complete replay that skipped nothing hashes, for every worker number, the commands of the recording exactly when every recorded operation survives recording |
| ReplayCommands.SentIsPrefix | internal/mongo/workload_replay.go:231-275 | At any moment of any run over operations that survive, what was sent for a worker is how its recorded, non-skipped commands begin |
| ReadsOnly.IsReplayWrite | internal/mongo/workload_targets.go:192-229 | The loops over stages and operations take a line for a write as specified |
| ReadsOnly.ReadsChangeNothing | internal/mongo/workload_targets.go:192-229 | What the replay of a line executes changes no data if the line is not taken for a write |
| ReadsOnly.WritesExact | internal/mongo/workload_targets.go:192-229 | Of the lines with a readable standard command, exactly those that change data are taken for writes |
| ReadsOnly.ReadsOnlyChangesNothing | internal/mongo/workload_replay.go:302-308 | At no moment of any run has a reads-only replay executed anything that changes data |
| ReplayCommands.DotlessFindSurvives | internal/mongo/workload_replay.go:433-440 | When no database name has a dot, every fast find is sent to a collection of the recorded name |
| ReplayCommands.DottedFindIsMoved | internal/mongo/workload_replay.go:67-73 | Two configured collections with one namespace string: the fast find of the first is sent to the second |
| Mix64.MixBijective | internal/mongo/workload_deterministic.go:53-57 | The mixing step has an inverse on all 64-bit words |
| Mix64.OpSeedInjective | internal/mongo/workload_deterministic.go:61-66 | The operation seed is injective in seed, iteration, worker and operation number, each with the others fixed |
| Mix64.SameOperationIDs | internal/mongo/workload_deterministic.go:70-75 | The documents of one insert have equal ids exactly when they have the same index |
| Mix64.OtherOperationIDs | internal/mongo/workload_deterministic.go:70-75 | The j-th documents of two operations of one worker and iteration have equal ids exactly when the operations are the same |
| Mix64.IDCollision | internal/mongo/workload_deterministic.go:70-75 | Any two ids are equal exactly when the seeds differ by the difference of the index terms |
| SeededCache.InvisibleExact | internal/mongo/workload_deterministic.go:321-338 | The cache returns what generating would have returned, after any lookups and clearing, exactly when definitions with one namespace string generate the same documents |
| SeededCache.ValidatedIsInvisible | internal/config/collections.go:164-192 | For validated definitions without padded names the cache is invisible |
| SeededCache.DotlessIsInvisible | internal/config/collections.go:164-192 | For validated definitions whose database names have no dot the cache is invisible, padded or not |
| SeededCache.DottedShowsCache | internal/config/collections.go:164-192 | Two definitions that pass validation and whose documents the cache mixes up for some generator |
| TrafficSpec.InsertedIDsDistinct | internal/mongo/workload_deterministic.go:381-500 | The documents generated for one insert have pairwise distinct `_id`s unless the collection defines its own; that these are the documents sent is `GeneratedOperations.GeneratedInsertMany` |
| TrafficSpec.TransactionIDsDistinct | internal/mongo/workload_deterministic.go:560-602 | A transaction holds its documents in order, and all of them, in whatever operations and collections, have pairwise distinct `_id`s unless a collection defines its own |
| TrafficSpec.FastIDsDistinct | internal/mongo/workload_deterministic.go:502-511 | The ids that one worker's fast inserts write in one iteration are equal exactly for the same operation and position, over repeated passes and with 64-bit wrapping, as long as 2^64 suffice |
| GeneratedOperations.GeneratedInsertMany | internal/mongo/workload_deterministic.go:434-500 | The `documents` of a generated insertMany are, in order, insertBatch documents drawn one after the other, those that the worker remembers, with pairwise distinct `_id`s unless the collection defines its own |
| GeneratedOperations.GeneratedInsert | internal/mongo/workload_deterministic.go:429-500 | The `document` of a generated insert is the one drawn and remembered |
| GeneratedOperations.GeneratedQuery | internal/mongo/workload_deterministic.go:447-500 | A query operation is skipped exactly when no query is found; otherwise its command has exactly the filter or pipeline, update, upsert, projection, limit and batch size of the query found, with an existing record for the placeholders exactly as the hit rate says |
| GeneratedOperations.GeneratedFastFind | internal/mongo/workload_deterministic.go:522-556 | A fast find decodes to a full batch of ids under the patch key, first those of existing records and then ids of the workers' ranges |
| GeneratedOperations.GeneratedFastInsert | internal/mongo/workload_deterministic.go:502-519 | A fast insert sends one of the prepared batches with ids from the operation's own range, and the worker remembers the same ids |
| GeneratedOperations.GeneratedTxOp | internal/mongo/workload_deterministic.go:560-602 | So does each operation of a transaction, with its documents numbered through the transaction |
| GeneratedOperations.GeneratedTransaction | internal/mongo/workload_deterministic.go:560-602 | A transaction is as many such operations as drawn, one after the other, less those without a query |
| GeneratedOperations.OwnBounded | internal/mongo/workload_deterministic.go:358-366 | No run remembers more than maxOwn documents of a namespace |
| GeneratedOperations.TrafficSends | internal/mongo/workload_deterministic.go:403-604 | All this holds of every operation of a worker's traffic, after whatever came before |
| PatchKeys.IdentifyPatchKey | internal/mongo/runner.go:183-198 | The selection, with its loop over the fields in any order, gives the key specified for that order |
| PatchKeys.PossibleExact | internal/mongo/runner.go:183-198 | A key is a shard key, `_id`, none, or any int or long field with "id" in its name exactly when some order of the map gives it |
| PatchKeys.KeyDeterminedExact | internal/mongo/runner.go:183-198 | All orders give one key exactly when a shard key is declared, or `_id` is int or long, or at most one int or long field name contains "id" |
| PatchKeys.OrdersUndetermined | resources/collections/multi_collections.json:3-19 | The shipped orders have two keys, `order_id` and `customer_id`, depending on the order of the map |
| PatchKeys.PrepareWorker | internal/mongo/workload_deterministic.go:293-312 | The loops that prepare a worker give its key and its twenty batches, or no fast paths when there is no key or a document cannot be encoded |
| Deterministic.DetWorker.SeededDoc | internal/mongo/workload_deterministic.go:321-338 | With the cache in any reachable state the returned document is the generated one |
| Deterministic.DetWorker.GenerateTransaction | internal/mongo/workload_deterministic.go:560-602 | A transaction and the new state are functions of the specification that has no cache |
| Deterministic.DetWorker.GenerateOp | internal/mongo/workload_deterministic.go:403-500 | Every operation equals the cache-free specification, from the configuration, the operation number and the worker's own records; what it sends is `GeneratedOperations.GeneratedOperation` |
| GeneratedOperations.GeneratedOperation | internal/mongo/workload_deterministic.go:403-604 | Every operation, from the documents remembered so far, sends what its path and type say |
| Deterministic.RunPass | internal/mongo/workload_deterministic.go:664-710 | One pass extends the specified stream by whole operations, each answered once, wherever the context ends; the answers enter the report and nothing that generating reads |
| Deterministic.RunWorker | internal/mongo/workload_deterministic.go:655-710 | For all sequences of answers and all stopping times the commands sent and hashed are those of the stream of the prepared worker: its configuration, patch key and batches |
| Deterministic.SentPrefix | internal/mongo/workload_deterministic.go:655-710 | The commands of fewer operations are a prefix of those of more |
| TrafficAgreement.RunsAgree | internal/mongo/workload_deterministic.go:655-710 | Of two runs with one configuration, any orders of the map and any answers one sent a prefix of the other, and complete ones hash the same, when the condition of SendSameExact holds for the operations they generated |
| TrafficAgreement.SendSameExact | internal/mongo/workload_deterministic.go:293-312 | Under all orders of the map a worker sends the same first n operations exactly when the first definition determines the patch key, or no possible key gives a batch pool, or none of these operations takes a fast path |
| TrafficAgreement.RunsDiffer | internal/mongo/workload_deterministic.go:293-312 | Otherwise there are two orders of the map with which complete runs never hash the same |
| TrafficAgreement.OrdersDiffer | resources/collections/multi_collections.json:3-19 | So it is for every run that starts with the shipped orders, builds a pool and sends a fast operation |
| TrafficAgreement.RunDeterministic | internal/mongo/workload_deterministic.go:293-312 | Preparing a worker and running it sends and hashes the stream that configuration and order of the map determine |
| Capture.ObservedBytes | internal/stats/capture.go:134-196 | An observation changes the bytes held by exactly what it adds and frees, and by nothing when the sample is not admitted |
| Capture.ObservedOk | internal/stats/capture.go:134-196 | Observing keeps a shape's invariant: a bounded reservoir of admitted samples, a slowest at least as slow as every sample ever admitted, exact counters |
| Capture.FateExact | internal/stats/capture.go:134-196 | An operation is passed over exactly when there is no place for it; otherwise it is admitted exactly when its sample has at most 16 KiB and all samples with it at most 8 MiB, and dropped for the first limit it exceeds |
| Capture.NothingLost | internal/stats/capture.go:134-213 | Without drops, at least as many samples as eligible operations means that the reservoir is the history |
| Capture.RetainedSamples | internal/stats/capture.go:200-213 | The retained samples are the reservoir, with the slowest appended only when it is not in it, and the index points at it |
| Capture.RetainedOfShape | internal/stats/capture.go:200-213 | The retained samples are pairwise different admitted operations |
| UniformReservoir.ReservoirIsUniform | internal/stats/capture.go:134-196 | While there is room for every sample, each of n operations is in the reservoir after exactly 8/n of all sequences of draws, the first as often as the last, and after all of them up to 8 operations |
| CollectorState.Collector.Record | internal/stats/impact.go:62-90 | A group is tracked exactly when it is known or there is room; a tracked operation changes its own group alone, another one goes to the overflow |
| CollectorState.Collector.ObserveEligible | internal/stats/capture.go:116-196 | The shape's capture, its history and the byte account change as specified and the whole accounting invariant is kept |
| CollectorState.Collector.RecordOperation | internal/stats/insights.go:666-715 | Every recorded operation keeps the accounting invariant and adds to the history of its own shape only, exactly when it is eligible; it is counted under exactly one class, for the first reason that applies |
| CollectorState.Collector.Reset | internal/stats/insights.go:648-658 | Totals, groups, capture and history start over together |
| CollectorState.AccountedFacts | internal/stats/capture.go:116-213 | After any operations and resets retained bytes are the sum over all samples and within the limit, counters are the sums over the groups plus overflow, reservoirs are bounded and every slowest is slowest |
| CollectorState.RecordedRun | internal/stats/impact.go:62-90 | After any operations a group has their number, the number that failed, the sum of their times and the longest of them |
| CollectorState.EvictionsExact | internal/stats/capture.go:134-196 | An admitted sample takes one or two places, and those it evicts give as many back |
| Inventory.SnapshotInventory | internal/stats/explain_coverage.go:84-194 | The merge over databases, in any map order, gives for each shape the sum of its groups |
| Inventory.MergedWork | internal/stats/explain_coverage.go:105-168 | Operations, errors, time and eligible operations of a shape are the sums over its groups |
| Inventory.MergedSlowest | internal/stats/explain_coverage.go:105-168 | The slowest operation of a shape is the slowest of its groups |
| Inventory.MergedSamples | internal/stats/explain_coverage.go:105-168 | A merged shape has drops exactly when one of its groups has, and without drops its reservoirs cover its eligible operations exactly when every group's does |
| Inventory.AllOperationsExact | internal/stats/explain_coverage.go:105-168 | Scope `all_operations` is reported exactly when there are samples and every eligible operation of every merged group is among them, none exactly without samples, and the one with drops exactly when there are samples and a group has drops |
| Inventory.SamplesIncluded | internal/stats/explain_coverage.go:105-168 | A merged shape's samples include those of each of its groups |
| ImpactView.BuildImpactView | internal/stats/impact.go:190-300 | The view shows the first twenty of a ranking of all groups, each once, and counts and sums up all others, for any map order and any way to arrange ties |
| ImpactView.ViewConserves | internal/stats/impact.go:190-275 | Operations and times of shown groups, groups not shown and overflow add up to everything that was recorded |
| ImpactView.ShownAreFirst | internal/stats/impact.go:238-262 | A group that is left out has no more total time than a shown one, with as much of it no more operations, and with as many no smaller id; it is left out only when twenty are shown |
| ImpactView.ViewIsDetermined | internal/stats/impact.go:238-262 | When groups with equal time and count have different ids, the view does not depend on map order or sorting algorithm |
| EventBuffer.SamplesPermille | internal/stats/insights.go:717-725 | Of any 1000 eligible operations in a row exactly `permille` are sampled |
| EventBuffer.Ring.Record | internal/stats/insights.go:676-715 | The ring appends exactly the sampled events to its log |
| EventBuffer.Ring.Snapshot | internal/stats/insights.go:816-830 | A snapshot is the last `maxEvents` sampled events, oldest first |
| SortSpec.ValidateSortSpec | internal/config/sort.go:209-233 | A specification is accepted exactly when every key is allowed once with a direction or a `$meta` value, and keeps its order |
| SortSpec.SpecExact | internal/config/sort.go:186-256 | An ordered specification is accepted exactly when it has terms, on different, named keys, each with a number 1 or -1 or a `$meta` text score; it comes out with the same terms in the same order, numbers as int32 |
| SortSpec.DecodedHasForm | internal/config/sort.go:54-124 | A decoded value holds ordered documents exactly at sort positions and `$meta` objects |
| SortSpec.NormalizeTwice | internal/config/sort.go:129-256 | Normalizing an accepted value again changes nothing |
| SortSpec.PrintDecodeNormalize | internal/config/sort.go:304-327 | For every decoded value that is accepted, printing, decoding and normalizing again returns the same value |
| SortLocations.CollectExact | internal/config/sort.go:392-430 | The reported locations are exactly the sort positions with two or more keys, with these keys in order |
| SortLocations.NormalizeKeepsSpecs | internal/config/sort.go:129-176 | Normalizing keeps every sort position and the key order of each |
| Bson.ParseExact | internal/mongo/runner.go:127-175 | The BSON document grammar accepts exactly the printed form of well-formed elements below 2^31 bytes, and reads it as these elements |
| Bson.PatchNested | internal/mongo/runner.go:638-643 | Eight bytes written inside an element's value give the document with the patched value |
| Bson.Int64RoundTrip | internal/mongo/runner.go:137-139 | The eight bytes written for a number give it back exactly when it fits an int64 |
| BsonBatch.BuildRawInt64Array | internal/mongo/runner.go:127-147 | The buffer built by appending and by writing the length last is the document of the ids keyed "0", "1", ... |
| BsonBatch.IdsRoundTrip | internal/mongo/runner.go:127-147 | These bytes parse back to exactly the ids, precisely when the document stays below 2^31 bytes |
| BsonBatch.MarkerOffsets | internal/mongo/runner.go:216-243 | The array is the document of the encoded documents, each offset is where the first marker of its document is, and the batch fails exactly when a document has none |
| BsonBatch.PrepareBatch | internal/mongo/runner.go:206-262 | The command holds that array and the final offsets are the marker offsets moved to where the array is first found |
| BsonBatch.ArrayInPlace | internal/mongo/runner.go:253-257 | For a name of fewer than 255 bytes without the byte 3 the first occurrence of the array's bytes in the command is the array |
| BsonBatch.MarkerBytes | internal/mongo/runner.go:213-215 | The marker that is searched for is the little-endian form of its number |
| BsonBatch.PatchExact | internal/mongo/runner.go:226-243 | Patching at the first marker changes just the patch key's value, for every id, exactly when the first marker is that value |
| BsonBatch.EarlierMarker | internal/mongo/runner.go:226-243 | A document with the marker as the value of an earlier field is patched there, for some id |
| BsonBatch.PutUint64 | internal/mongo/runner.go:640-643 | Writing a number in place changes these eight bytes only |
| BsonBatch.PatchBatch | internal/mongo/runner.go:638-643 | The worker's loop writes consecutive ids at the offsets in place and returns the next id |
| BsonBatch.PreparedInPlace | internal/mongo/runner.go:206-262 | If every first marker is its patch key's value, the prepared offsets are the places of the patch keys |
| BsonBatch.PatchedCommand | internal/mongo/runner.go:638-643 | The patched command parses to the same documents keyed "0" to "n-1" with only the patch keys changed to the new ids, whatever ids were there before |
| BsonBatch.PatchTwice | internal/mongo/runner.go:638-643 | A second round of ids leaves nothing of the first |
| BsonBatch.PatchesApart | internal/mongo/runner.go:638-643 | The patches of one command never overlap |
| Histogram.BinExact | internal/stats/collector.go:43-63 | A latency is counted under its rounded and clamped milliseconds exactly when these are below 2^63 |
| Histogram.BinMonotone | internal/stats/collector.go:43-63 | Below that limit a longer latency never has a smaller bucket |
| Histogram.BatchIsSingles | internal/stats/collector.go:65-85 | A batch equals that many single records exactly when it is not empty or its latency is within min and max |
| Histogram.EmptyBatchHasMinimum | internal/stats/collector.go:65-85 | An empty batch of 1 ms changes a fresh histogram |
| Histogram.RunCounts | internal/stats/collector.go:43-85 | In every run each bucket counts exactly the operations since the last reset that belong to it |
| Histogram.BucketsSum | internal/stats/collector.go:43-85 | Buckets and overflow add up to the count |
| Histogram.PercentileIsKth | internal/stats/collector.go:87-102 | For p in (0,100] the bucket scan finds the ceil(p*count/100)-th smallest of the rounded and clamped latencies |
| Histogram.KthOfSorted | internal/stats/collector.go:87-102 | The k-th smallest is the element at place k of the values in order |
| Histogram.PercentileMonotone | internal/stats/collector.go:87-102 | A higher percentile is no smaller |
| Histogram.RunSpans | internal/stats/collector.go:43-85 | Min and max are the extremes of what was given since the last effective reset |
| Histogram.LatencyHistogram.Record | internal/stats/collector.go:43-63 | The buckets, counters and extremes change in place as specified |
| Histogram.LatencyHistogram.RecordBatch | internal/stats/collector.go:65-85 | So they do for a batch |
| Histogram.LatencyHistogram.GetPercentile | internal/stats/collector.go:87-102 | The scan with a running count returns the specified percentile |
| Histogram.LatencyHistogram.SnapshotAndReset | internal/stats/collector.go:190-224 | The three percentiles and the maximum describe the window before the call, which is then cleared unless it was empty |
| OperationMix.Config.Normalize | internal/config/config.go:1221-1356 | The in-place normalization gives the specified mix, for any pinned fields |
| OperationMix.NormalizedIsMix | internal/config/config.go:1221-1356 | The mix is seven non-negative percentages with sum 100, and without transactions when these are disabled |
| OperationMix.PinnedIsKept | internal/config/config.go:1221-1356 | Pinned percentages that add up to at most 100 are kept, except that find gets the rest |
| OperationMix.SharesProportional | internal/config/config.go:1221-1356 | Every percentage but find's is its share rounded down: of 100 among the pinned ones when these exceed it, else of the remainder among the others |
| OperationMix.CompleteIsKept | internal/config/config.go:1221-1356 | A mix that adds up to 100 is kept, whatever is pinned |
| OperationMix.NormalizedTwice | internal/config/config.go:1221-1356 | Normalizing again, whatever is pinned then, changes nothing |
| OperationMix.SelectOperation | internal/mongo/runner.go:264-290 | The loop selects the first operation whose running total exceeds the draw, and splits updates and deletes 90 to 10 |
| OperationMix.SingleDraws | internal/mongo/runner.go:264-290 | Of 100 second draws exactly 90 make an update or a delete a single one |
| OperationMix.DrawsPerOperation | internal/mongo/runner.go:264-290 | With a normalized mix exactly as many of the 100 first draws as its percentage select an operation |
| OperationMix.FallbackUnreachable | internal/mongo/runner.go:264-290 | The final fallback is out of reach of all 100 draws exactly when the percentages add up to at least 100 |

## Left out

- Driver calls, connections, sharding, index creation and explain: an execution returns an arbitrary outcome, error or panic.
- Timed replay, pacing and lag: they delay steps and change no safety statement.
- Writing, scanning and hashing recordings: a stream delivers its operations in file order, and a hash is what it hashes.
- Comparing runs: the refusal of mismatched identities, latency verdicts, plans and the order and trimming of shapes in the report.
- Shape and descriptor strings: a shape is an opaque reference, and a group's labels are not interpreted.
- Index advice: profiles that also carry pipelines, sparse indexes, multikey paths, rankings and the wording of reasons; index directions are those the decoder gives.
- PartialFilterExact.PartialProvenExact: documents hold no arrays, a literal document is compared without the order of its fields, and duplicate keys, values that are not finite numbers and collations are outside. Operators other than equality are an arbitrary relation; a filter that has them and for which something is provable is settled by PartialFilterExact.AnyOperatorsExact instead.
- ServedQueries.CapturedQueryIsServed: a query with `$in` is outside, because its documents do not agree on that field (InQueries.InBreaksOrder has one where the order is lost), and so are documents with arrays.
- ReplayCommands.HashMatchExact: the recording was made with the database and the collections of the replay; encoding a command as JSON is outside.
- ReadsOnly: of the text of a command only whether it has `$out` or `$merge` in quotes counts, and it has the keys of its stages; a recorded fast find of another operation type is taken for what its type says.
- GeneratedOperations: what the document generator, the queries and the filling of placeholders give is a function of the random stream.
- Deterministic: there is no record pool in this mode (internal/mongo/runner.go:1372), so an execution has no state to change that generating reads.
- TrafficSpec: the field of a generated fallback filter comes from the shard key the server reports; it is part of the query function, so two runs count as having one configuration only when the server reports the same.
- PatchKeys.PrepareWorker: lower-casing is a function of characters, and whether a document can be encoded is a function of the document.
- IndexSuitability.SuitableIndexSorts: profiles are those whose sort keys have a direction, and documents have one value per field, so arrays are outside.
- CommandCodec.ImportIsStable: the arguments are what a stored command can hold; how a value is laid out in bytes is outside.
- UniformReservoir.ReservoirIsUniform: it counts sequences of draws; that the generator makes them equally likely is outside, and so are shapes with drops.
- Inventory.AllOperationsExact: the reason given for shapes without samples and the ranking of shapes are outside.
- CollectorState: locking, and changing the limits during a run.
- ImpactView.BuildImpactView: times stay nanoseconds, and shares, sample percentiles, limitations and explanations of the report are outside; ids are a parameter.
- SortSpec.PrintDecodeNormalize: JSON is a tree with ordered members, not bytes; the in-place rewriting of shared maps and slices is modelled on values, so aliasing is outside.
- SortLocations.CollectExact: the appending to one result slice is modelled as the returned list.
- Raw batches from a single template: the same loop with one document repeated.
- BsonBatch.PrepareBatch: encoding a document and the command is a function of its elements; adding `_id`s to a recorded batch is outside.
- BsonBatch.ArrayInPlace: it is proved in one direction; a longer name, or one with the byte 3, needs a coincidence of the array with itself to go wrong.
- Histogram: milliseconds are exact numbers and not float64, counts are unbounded, and a number outside int64 is converted as on amd64.
- OperationMix.NormalizedIsMix: shares are exact fractions that are truncated; the rounding of a float64 factor is outside.
- OperationMix.Config.Normalize: the seven fields are one sequence in the order of selection instead of seven named fields.
- TrafficSpec.FastIDsDistinct: ids of different iterations or workers are not claimed to be distinct.
