# Presto operator cores, modelled in Dafny

This project models three small pieces of Presto's execution engine and proves properties of them.

- **The table-writer source operator** (`NewTableWriterOperator`). It has a RUNNING → FINISHING → FINISHED lifecycle. It accepts one native split naming the shard to write. It creates a staging column-file handle when the first page arrives, and adds to its row count what the handle's `append` reports. After `finish()` it emits a single row-count page. When a handle exists, it first commits the shard and registers it with the task output. The storage manager, the handle and the task output live outside the operator. Their effects are ghost logs on the operator class: the handles created, the pages appended, the commits and the registered outputs.
- **The approximate-percentile aggregation over doubles** (`DoubleApproximatePercentileAggregation`). This covers the accumulator protocol: initialize, the block and cursor forms of addInput, addIntermediate, evaluateIntermediate and evaluateFinal. It includes the `-1` "percentile not supplied" sentinel and the order-fixing bit transform `doubleToSortableLong` / `longToDouble`. Doubles are raw 64-bit IEEE-754 patterns (`bv64`), so no floating-point reasoning is involved. The quantile digest is abstracted to the multiset of sortable longs added to it: its count is the multiset's size and merge is multiset union. The digest's quantile lookup is a function parameter. The per-group accumulator `DigestAndPercentile` is a class whose fields the protocol methods update in place. Each method is proved against a pure function on accumulator values.
- **The order-by operator, as `TestOrderByOperator` fixes its behaviour.** The operator's own source is not part of this model. Its factory takes:
  - the source types;
  - the output channels;
  - an expected-positions hint;
  - the sort channels, with one sort order per channel.

  The model has:
  - a composite lexicographic row comparator, with per-key direction and null placement;
  - an operator class that buffers pushed pages and reserves the buffer's estimated size against the task's memory ceiling;
  - sorting on finish, and pulling output as pages of sorted rows projected onto the output channels.

  The four test cases are proved as concrete scenarios: single key, multiple keys, reverse order and memory limit.

Modules:
- `Common` (`common.dfy`) holds nullable values, outcomes of calls that may throw, the error kinds, tuple descriptors and decimal rendering.
- `TableWriter` (`table_writer.dfy`).
- `SortableBits` (`sortable_bits.dfy`) holds the bit transform and its order lemmas.
- `ApproximatePercentile` (`approximate_percentile.dfy`).
- `SortOrdering` (`sort_order.dfy`) holds values, the comparators, insertion sort, projection and reversal.
- `OrderBy` (`order_by.dfy`) holds the memory accountant, the operator and its drivers.
- `OrderByScenarios` (`order_by_scenarios.dfy`) holds the four test cases.

Exceptions become values. `Outcome` (`Pass | Fail(error)`) stands for a void call that may throw. `Result` stands for a call that returns a value or throws. `Option` stands for a Java reference that may be null.

## Model

| member | source | states |
|---|---|---|
| Common.DecimalText | presto-main/src/test/java/com/facebook/presto/operator/TestOrderByOperator.java:163 | the decimal rendering of a byte count (the "10" of "10B") is a non-empty string of decimal digits, one digit exactly for numbers below ten |
| Common.DecimalTextValue | presto-main/src/test/java/com/facebook/presto/operator/TestOrderByOperator.java:163 | the digits of the rendering denote the number rendered |
| Common.DecimalTextInjective | presto-main/src/test/java/com/facebook/presto/operator/TestOrderByOperator.java:163 | distinct numbers render as distinct texts |
| Common.Message | presto-main/src/test/java/com/facebook/presto/operator/TestOrderByOperator.java:163 | definition of the text an error carries; the memory-limit error reads "Task exceeded max memory size of " followed by the ceiling in bytes. `OrderByScenarios.MemoryLimit` states its value for a 10-byte ceiling |
| TableWriter.RowsWritten | presto-main/src/main/java/com/facebook/presto/noperator/NewTableWriterOperator.java:185 | definition of the total of the row counts `append` reports over a run's pages; `TableWriter.RowsWrittenSnoc` and `TableWriter.WriteShard` state its properties |
| TableWriter.RowsWrittenSnoc | presto-main/src/main/java/com/facebook/presto/noperator/NewTableWriterOperator.java:185 | the running row total grows by exactly what `append` reports for one more page |
| TableWriter.TupleInfos | presto-main/src/main/java/com/facebook/presto/noperator/NewTableWriterOperator.java:62-66 | the writer's output descriptor is one SINGLE_LONG column |
| TableWriter.NewTableWriterOperator.constructor | presto-main/src/main/java/com/facebook/presto/noperator/NewTableWriterOperator.java:98-112 | a new writer is RUNNING with row count 0, no split, no task output, no handle and no storage effects |
| TableWriter.NewTableWriterOperator.SetTaskOutput | presto-main/src/main/java/com/facebook/presto/noperator/NewTableWriterOperator.java:120-123 | the task output is replaced and nothing else changes |
| TableWriter.NewTableWriterOperator.AddSplit | presto-main/src/main/java/com/facebook/presto/noperator/NewTableWriterOperator.java:126-132 | fails on a null split ("split is null"), on a non-native split, and on a second split ("Shard Id … was already set!"); succeeds exactly for the first native split, which it records |
| TableWriter.NewTableWriterOperator.NoMoreSplits | presto-main/src/main/java/com/facebook/presto/noperator/NewTableWriterOperator.java:135-138 | succeeds exactly when a split was set, otherwise fails with "No shard id was set!"; changes nothing |
| TableWriter.NewTableWriterOperator.Finish | presto-main/src/main/java/com/facebook/presto/noperator/NewTableWriterOperator.java:147-152 | RUNNING becomes FINISHING, and FINISHING and FINISHED stay as they are, so a second call changes nothing |
| TableWriter.NewTableWriterOperator.IsFinished | presto-main/src/main/java/com/facebook/presto/noperator/NewTableWriterOperator.java:155-158 | true exactly in FINISHED |
| TableWriter.NewTableWriterOperator.IsBlocked | presto-main/src/main/java/com/facebook/presto/noperator/NewTableWriterOperator.java:161-164 | always the not-blocked future |
| TableWriter.NewTableWriterOperator.NeedsInput | presto-main/src/main/java/com/facebook/presto/noperator/NewTableWriterOperator.java:167-170 | true exactly in RUNNING |
| TableWriter.NewTableWriterOperator.AddInput | presto-main/src/main/java/com/facebook/presto/noperator/NewTableWriterOperator.java:173-186 | fails on a null page and, outside RUNNING, with "Operator is finishing". Fails with a null dereference when no split was set and no handle exists. On success it adds exactly what `append` reports to the row count. The handle is created on the first page for the split's shard and reused afterwards, and at most one is ever created. The state, split and task output never change. A failure changes nothing |
| TableWriter.NewTableWriterOperator.GetOutput | presto-main/src/main/java/com/facebook/presto/noperator/NewTableWriterOperator.java:189-212 | outside FINISHING: no page and no change. In FINISHING: moves to FINISHED. Without a handle it emits the row-count page and commits nothing. With a handle it commits that handle once. It then registers the shard, with the node identifier, on the task output that was set and emits the row count, or fails with "TaskOutput not set" when no task output was given |
| TableWriter.WriteShard | presto-main/src/main/java/com/facebook/presto/noperator/NewTableWriterOperator.java:147-212 | over a whole run (split, pages, finish twice, pull twice), the first pull returns the sum of what `append` reported and the second returns nothing. The shard is committed and registered exactly once when some page was added, and never otherwise |
| SortableBits.DoubleToSortableLong | presto-main/src/main/java/com/facebook/presto/operator/aggregation/DoubleApproximatePercentileAggregation.java:131-139 | definition of doubleToSortableLong on the raw bit pattern; `SortableBits.SortableKeepsSign`, `SortableBits.SortableRoundTrip` and `SortableBits.SortableOrder` state its properties |
| SortableBits.LongToDouble | presto-main/src/main/java/com/facebook/presto/operator/aggregation/DoubleApproximatePercentileAggregation.java:121-128 | definition of the bit step of longToDouble; `SortableBits.SortableKeepsSign` and `SortableBits.SortableRoundTrip` state its properties |
| SortableBits.SortableKeepsSign | presto-main/src/main/java/com/facebook/presto/operator/aggregation/DoubleApproximatePercentileAggregation.java:121-139 | both transforms keep the sign bit |
| SortableBits.SortableRoundTrip | presto-main/src/main/java/com/facebook/presto/operator/aggregation/DoubleApproximatePercentileAggregation.java:121-139 | the bit step of longToDouble undoes doubleToSortableLong, and the other way round |
| SortableBits.NegativeOrder | presto-main/src/main/java/com/facebook/presto/operator/aggregation/DoubleApproximatePercentileAggregation.java:130-139 | on two negative patterns the encoding is signed-less exactly when the first has the larger magnitude |
| SortableBits.NonNegativeOrder | presto-main/src/main/java/com/facebook/presto/operator/aggregation/DoubleApproximatePercentileAggregation.java:130-139 | on two non-negative patterns the encoding is signed-less exactly when the first has the smaller magnitude |
| SortableBits.MixedSignOrder | presto-main/src/main/java/com/facebook/presto/operator/aggregation/DoubleApproximatePercentileAggregation.java:130-139 | across signs, the encoding of the negative pattern is the signed-smaller one |
| SortableBits.SortableOrder | presto-main/src/main/java/com/facebook/presto/operator/aggregation/DoubleApproximatePercentileAggregation.java:130-139 | sign-then-magnitude order of double patterns is exactly signed 64-bit order of their encodings |
| ApproximatePercentile.SortableValuesAppend | presto-main/src/main/java/com/facebook/presto/operator/aggregation/DoubleApproximatePercentileAggregation.java:26-34 | the encodings collected from two pages concatenated are the union of those of each page |
| ApproximatePercentile.FirstPercentile | presto-main/src/main/java/com/facebook/presto/operator/aggregation/DoubleApproximatePercentileAggregation.java:36-42 | the percentile block sets the percentile from its first position when that position exists and is non-null, and otherwise keeps the current one |
| ApproximatePercentile.Initial | presto-main/src/main/java/com/facebook/presto/operator/aggregation/DoubleApproximatePercentileAggregation.java:18-21 | the initial state has an empty digest and percentile -1 |
| ApproximatePercentile.SortableValues | presto-main/src/main/java/com/facebook/presto/operator/aggregation/DoubleApproximatePercentileAggregation.java:24-45 | definition of the encodings the value loop adds to the digest, one per non-null value; `ApproximatePercentile.SortableValuesAppend` and `ApproximatePercentile.AllNullNoValues` state its properties |
| ApproximatePercentile.BlockInput | presto-main/src/main/java/com/facebook/presto/operator/aggregation/DoubleApproximatePercentileAggregation.java:24-45 | the digest gains the encodings of the block's non-null values and keeps its error bound; the percentile follows FirstPercentile |
| ApproximatePercentile.CursorInput | presto-main/src/main/java/com/facebook/presto/operator/aggregation/DoubleApproximatePercentileAggregation.java:48-60 | a null value leaves the digest alone, a non-null one adds its encoding; the percentile is replaced only by a non-null percentile |
| ApproximatePercentile.Serialize | presto-main/src/main/java/com/facebook/presto/operator/aggregation/DoubleApproximatePercentileAggregation.java:76-88 | null exactly for an empty digest; otherwise the digest followed by the percentile |
| ApproximatePercentile.Combine | presto-main/src/main/java/com/facebook/presto/operator/aggregation/DoubleApproximatePercentileAggregation.java:63-73 | a null blob changes nothing; otherwise the blob's digest is merged in and its trailing percentile replaces the current one |
| ApproximatePercentile.Final | presto-main/src/main/java/com/facebook/presto/operator/aggregation/DoubleApproximatePercentileAggregation.java:91-100 | null exactly for an empty digest. It fails with "Percentile is missing" exactly when the digest is non-empty and the percentile is -1. Otherwise it emits the double that the quantile lookup's sortable long decodes to |
| ApproximatePercentile.IntermediateRoundTrip | presto-main/src/main/java/com/facebook/presto/operator/aggregation/DoubleApproximatePercentileAggregation.java:63-88 | merging the intermediate value of a non-empty state into a fresh state restores its digest contents and percentile; an empty state's null leaves the fresh state unchanged |
| ApproximatePercentile.PageSplitDigest | presto-main/src/main/java/com/facebook/presto/operator/aggregation/DoubleApproximatePercentileAggregation.java:24-45 | feeding a value block as two pages gives the same state as feeding it whole |
| ApproximatePercentile.PartialThenMergeDigest | presto-main/src/main/java/com/facebook/presto/operator/aggregation/DoubleApproximatePercentileAggregation.java:24-88 | partial aggregation of two batches, serialized and merged into a fresh state, gives the single-pass digest, whatever percentiles the batches supply |
| ApproximatePercentile.PartialThenMergeMatchesSinglePass | presto-main/src/main/java/com/facebook/presto/operator/aggregation/DoubleApproximatePercentileAggregation.java:24-100 | when both batches supply the same non-null percentile at their first position, the merged partial aggregations also give the single-pass final result |
| ApproximatePercentile.SentinelTrailerOverwrites | presto-main/src/main/java/com/facebook/presto/operator/aggregation/DoubleApproximatePercentileAggregation.java:65-70 | a blob's -1 trailer replaces a supplied percentile: merging a non-empty blob with no percentile after one with a percentile makes the final evaluation fail with "Percentile is missing", and merging in the other order succeeds |
| ApproximatePercentile.AllNullNoValues | presto-main/src/main/java/com/facebook/presto/operator/aggregation/DoubleApproximatePercentileAggregation.java:28-34 | a value field that is null at every position adds no value to the digest |
| ApproximatePercentile.AllNullFinalIsNull | presto-main/src/main/java/com/facebook/presto/operator/aggregation/DoubleApproximatePercentileAggregation.java:24-45 | a fresh group fed a block whose value column is entirely null evaluates to null, whatever percentile block comes with it |
| ApproximatePercentile.MergeOrderIrrelevant | presto-main/src/main/java/com/facebook/presto/operator/aggregation/DoubleApproximatePercentileAggregation.java:63-73 | the merged digest does not depend on the order in which blobs arrive |
| ApproximatePercentile.IntermediateTupleInfo | presto-main/src/main/java/com/facebook/presto/operator/aggregation/DoubleApproximatePercentileAggregation.java:115-119 | definition: the intermediate type is SINGLE_VARBINARY; `ApproximatePercentile.TupleInfosDiffer` states that it differs from the final type |
| ApproximatePercentile.FinalTupleInfo | presto-main/src/main/java/com/facebook/presto/operator/aggregation/DoubleApproximatePercentileAggregation.java:109-113 | definition: the final type is SINGLE_DOUBLE; `ApproximatePercentile.TupleInfosDiffer` states that it differs from the intermediate type |
| ApproximatePercentile.TupleInfosDiffer | presto-main/src/main/java/com/facebook/presto/operator/aggregation/DoubleApproximatePercentileAggregation.java:109-119 | the intermediate type (SINGLE_VARBINARY) differs from the final type (SINGLE_DOUBLE) |
| ApproximatePercentile.DigestAndPercentile.constructor | presto-main/src/main/java/com/facebook/presto/operator/aggregation/DoubleApproximatePercentileAggregation.java:141-150 | the new accumulator holds the given digest and percentile -1 |
| ApproximatePercentile.Initialize | presto-main/src/main/java/com/facebook/presto/operator/aggregation/DoubleApproximatePercentileAggregation.java:18-21 | a fresh accumulator whose value is Initial |
| ApproximatePercentile.AddInputBlock | presto-main/src/main/java/com/facebook/presto/operator/aggregation/DoubleApproximatePercentileAggregation.java:24-45 | the loop over the value block leaves the accumulator in state BlockInput of its old state, and returns the same accumulator |
| ApproximatePercentile.AddInputCursor | presto-main/src/main/java/com/facebook/presto/operator/aggregation/DoubleApproximatePercentileAggregation.java:48-60 | the accumulator is updated in place to CursorInput of its old state |
| ApproximatePercentile.AddIntermediate | presto-main/src/main/java/com/facebook/presto/operator/aggregation/DoubleApproximatePercentileAggregation.java:63-73 | the accumulator is updated in place to Combine of its old state |
| ApproximatePercentile.EvaluateIntermediate | presto-main/src/main/java/com/facebook/presto/operator/aggregation/DoubleApproximatePercentileAggregation.java:76-88 | appends exactly what Serialize gives for the accumulator's value, so IntermediateRoundTrip applies to what it emits |
| ApproximatePercentile.EvaluateFinal | presto-main/src/main/java/com/facebook/presto/operator/aggregation/DoubleApproximatePercentileAggregation.java:91-100 | appends exactly what Final gives for the accumulator's value |
| SortOrdering.CompareInts | presto-main/src/test/java/com/facebook/presto/operator/TestOrderByOperator.java:71-77 | BIGINT keys compare numerically: -1, 0 and 1 for less, equal and greater |
| SortOrdering.CompareStrings | presto-main/src/test/java/com/facebook/presto/operator/TestOrderByOperator.java:103-109 | VARCHAR keys compare lexicographically: result 0 exactly for equal strings |
| SortOrdering.CompareStringsAntisymmetric | presto-main/src/test/java/com/facebook/presto/operator/TestOrderByOperator.java:103-109 | swapping two strings negates their comparison |
| SortOrdering.CompareStringsTransitive | presto-main/src/test/java/com/facebook/presto/operator/TestOrderByOperator.java:103-109 | the string order is transitive |
| SortOrdering.CompareValuesAntisymmetric | presto-main/src/test/java/com/facebook/presto/operator/TestOrderByOperator.java:71-128 | swapping two values negates their comparison |
| SortOrdering.CompareValuesTransitive | presto-main/src/test/java/com/facebook/presto/operator/TestOrderByOperator.java:71-128 | the value order is transitive |
| SortOrdering.CompareKey | presto-main/src/test/java/com/facebook/presto/operator/TestOrderByOperator.java:85 | two nulls tie; a null sorts after a non-null under NULLS_LAST and before it under NULLS_FIRST, in either direction |
| SortOrdering.ReverseDirection | presto-main/src/test/java/com/facebook/presto/operator/TestOrderByOperator.java:149 | flipping ASC to DESC negates the comparison of two non-null values |
| SortOrdering.CompareKeyAntisymmetric | presto-main/src/test/java/com/facebook/presto/operator/TestOrderByOperator.java:85 | swapping two values negates their key comparison |
| SortOrdering.CompareKeyTransitive | presto-main/src/test/java/com/facebook/presto/operator/TestOrderByOperator.java:85 | the key order is transitive |
| SortOrdering.SortKeys | presto-main/src/test/java/com/facebook/presto/operator/TestOrderByOperator.java:116-117 | the i-th sort channel is paired with the i-th sort order, one order per key |
| SortOrdering.CompareRows | presto-main/src/test/java/com/facebook/presto/operator/TestOrderByOperator.java:116-117 | the composite comparison of two rows, decided by the first key that tells them apart, is -1, 0 or 1; `SortOrdering.CompareRowsAntisymmetric`, `SortOrdering.CompareRowsTransitive` and `SortOrdering.ReverseKeyInRows` state its properties |
| SortOrdering.CompareRowsAntisymmetric | presto-main/src/test/java/com/facebook/presto/operator/TestOrderByOperator.java:116-117 | swapping two rows negates the composite comparison |
| SortOrdering.CompareRowsTransitive | presto-main/src/test/java/com/facebook/presto/operator/TestOrderByOperator.java:116-117 | the composite order is transitive |
| SortOrdering.InsertPermutation | presto-main/src/test/java/com/facebook/presto/operator/TestOrderByOperator.java:81-94 | inserting a row adds exactly that row |
| SortOrdering.InsertSorted | presto-main/src/test/java/com/facebook/presto/operator/TestOrderByOperator.java:81-94 | inserting into a sorted sequence keeps it sorted |
| SortOrdering.SortRows | presto-main/src/test/java/com/facebook/presto/operator/TestOrderByOperator.java:81-94 | the sort keeps the number of rows; `SortOrdering.SortRowsPermutation` and `SortOrdering.SortRowsSorted` state that it is a sorted permutation |
| SortOrdering.SortRowsPermutation | presto-main/src/test/java/com/facebook/presto/operator/TestOrderByOperator.java:81-94 | sorting is a permutation of the buffered rows |
| SortOrdering.SortRowsSorted | presto-main/src/test/java/com/facebook/presto/operator/TestOrderByOperator.java:81-94 | the sorted rows are in composite-key order |
| SortOrdering.Project | presto-main/src/test/java/com/facebook/presto/operator/TestOrderByOperator.java:82 | the projected row holds the row's values at the output channels, in their order |
| SortOrdering.ProjectAll | presto-main/src/test/java/com/facebook/presto/operator/TestOrderByOperator.java:82 | every row is projected, none added or dropped, in order |
| SortOrdering.ProjectAllAppend | presto-main/src/test/java/com/facebook/presto/operator/TestOrderByOperator.java:81-94 | projecting two chunks of rows, one after the other, gives the projection of both |
| SortOrdering.ProjectSortPermutation | presto-main/src/test/java/com/facebook/presto/operator/TestOrderByOperator.java:81-94 | the projected output is a permutation of the projected input rows |
| SortOrdering.Reverse | presto-main/src/test/java/com/facebook/presto/operator/TestOrderByOperator.java:135-160 | the reversal has the same length and holds the rows back to front |
| SortOrdering.ReversedKeySortsReversed | presto-main/src/test/java/com/facebook/presto/operator/TestOrderByOperator.java:135-160 | rows sorted on a non-null key, reversed, are sorted on the same key in the other direction |
| SortOrdering.ReverseKeyInRows | presto-main/src/test/java/com/facebook/presto/operator/TestOrderByOperator.java:99-160 | inside a composite key list, reversing one key's direction negates the comparison of two rows that tie on every earlier key and whose non-null values that key tells apart |
| OrderBy.FlattenAppend | presto-main/src/test/java/com/facebook/presto/operator/TestOrderByOperator.java:74 | the rows of two page lists together are the rows of each, one after the other |
| OrderBy.PageBreakInvisible | presto-main/src/test/java/com/facebook/presto/operator/TestOrderByOperator.java:74 | moving a page break does not change the buffered rows |
| OrderBy.EstimatedBytesAppend | presto-main/src/test/java/com/facebook/presto/operator/TestOrderByOperator.java:163-191 | the size estimate of a buffer is additive over its parts |
| OrderBy.FlattenConforms | presto-main/src/test/java/com/facebook/presto/operator/TestOrderByOperator.java:71-77 | rows of pages of the source types are rows of the source types |
| OrderBy.TaskMemory.constructor | presto-main/src/test/java/com/facebook/presto/operator/TestOrderByOperator.java:176 | a task's memory starts with nothing reserved under its ceiling |
| OrderBy.TaskMemory.TryReserve | presto-main/src/test/java/com/facebook/presto/operator/TestOrderByOperator.java:163-191 | reserves exactly when the bytes fit under the ceiling, and otherwise reserves nothing |
| OrderBy.TaskMemory.Free | presto-main/src/test/java/com/facebook/presto/operator/TestOrderByOperator.java:163-191 | releases exactly the bytes given |
| OrderBy.OrderByOperatorFactory.Keys | presto-main/src/test/java/com/facebook/presto/operator/TestOrderByOperator.java:84-85 | the i-th sort channel with the i-th sort order, each channel a column of the source types |
| OrderBy.OrderByOperatorFactory.OutputTypes | presto-main/src/test/java/com/facebook/presto/operator/TestOrderByOperator.java:89-93 | the output types are the source types at the output channels |
| OrderBy.OrderByOperator.constructor | presto-main/src/test/java/com/facebook/presto/operator/TestOrderByOperator.java:87 | a created operator needs input, with an empty buffer and no reservation |
| OrderBy.OrderByOperator.NeedsInput | presto-main/src/test/java/com/facebook/presto/operator/TestOrderByOperator.java:96 | true exactly before finish |
| OrderBy.OrderByOperator.IsFinished | presto-main/src/test/java/com/facebook/presto/operator/TestOrderByOperator.java:96 | true exactly in Finished; under `Valid()`, which ties Finished to a drained buffer, a true answer means every sorted row was emitted |
| OrderBy.OrderByOperator.TrySetReservation | presto-main/src/test/java/com/facebook/presto/operator/TestOrderByOperator.java:163-191 | moves the operator's reservation to the new size exactly when the task's other reservations leave room, and otherwise changes nothing |
| OrderBy.OrderByOperator.AddInput | presto-main/src/test/java/com/facebook/presto/operator/TestOrderByOperator.java:163-191 | appends the page's rows to the buffer. Succeeds exactly when the buffer's estimate fits beside the task's other reservations, and then reserves that estimate. Otherwise it fails with the ceiling and leaves every reservation as it was |
| OrderBy.OrderByOperator.Finish | presto-main/src/test/java/com/facebook/presto/operator/TestOrderByOperator.java:81-94 | on the first call the buffered rows are sorted on the keys and output starts; later calls change nothing |
| OrderBy.OrderByOperator.GetOutput | presto-main/src/test/java/com/facebook/presto/operator/TestOrderByOperator.java:81-94 | the next at most pageRows sorted rows, projected; no page before finish, and no page, with the operator finished, once every row was emitted |
| OrderBy.OrderByResult | presto-main/src/test/java/com/facebook/presto/operator/TestOrderByOperator.java:67-191 | definition of what a whole run yields: the projected sorted rows, or the memory-limit error when the estimate exceeds the ceiling; `OrderBy.OrderByResultSorted`, `OrderBy.OrderByResultConforms`, `OrderBy.PageBreakIrrelevant` and `OrderBy.RunOrderBy` state its properties |
| OrderBy.OrderByResultSorted | presto-main/src/test/java/com/facebook/presto/operator/TestOrderByOperator.java:67-191 | the run fails exactly when the estimate exceeds the ceiling, with the ceiling. On success the output holds as many rows as the input. It is a permutation of the projected input rows and the projection of a sorted permutation of the input |
| OrderBy.OrderByResultConforms | presto-main/src/test/java/com/facebook/presto/operator/TestOrderByOperator.java:89-94 | every row of a successful result has the factory's output types, the types the expected results are built from |
| OrderBy.ProjectConforms | presto-main/src/test/java/com/facebook/presto/operator/TestOrderByOperator.java:82 | projecting a row of the source types onto the output channels gives a row of the output types |
| OrderBy.PageBreakIrrelevant | presto-main/src/test/java/com/facebook/presto/operator/TestOrderByOperator.java:74 | moving a page break changes neither the output nor whether the ceiling is exceeded |
| OrderBy.PushAll | presto-main/src/test/java/com/facebook/presto/operator/TestOrderByOperator.java:163-191 | pushing every page succeeds exactly when the whole buffer's estimate fits the ceiling, and then buffers all rows in order; otherwise it fails with the ceiling |
| OrderBy.PullAll | presto-main/src/test/java/com/facebook/presto/operator/TestOrderByOperator.java:81-94 | the pulled pages, concatenated, are all sorted rows projected, and the operator ends finished |
| OrderBy.RunOrderBy | presto-main/src/test/java/com/facebook/presto/operator/TestOrderByOperator.java:67-191 | driving a fresh operator through push, finish and pull gives exactly OrderByResult |
| OrderByScenarios.NumberPages | presto-main/src/test/java/com/facebook/presto/operator/TestOrderByOperator.java:71-77 | two pages of (BIGINT, DOUBLE) rows, four rows in all |
| OrderByScenarios.TextPages | presto-main/src/test/java/com/facebook/presto/operator/TestOrderByOperator.java:103-109 | two pages of (VARCHAR, BIGINT) rows |
| OrderByScenarios.NumberRows | presto-main/src/test/java/com/facebook/presto/operator/TestOrderByOperator.java:71-77 | the buffered rows of the number pages are (1, 0.1), (2, 0.2), (-1, -0.1), (4, 0.4) |
| OrderByScenarios.TextRows | presto-main/src/test/java/com/facebook/presto/operator/TestOrderByOperator.java:103-109 | the buffered rows of the text pages are ("a", 1), ("b", 2), ("b", 3), ("a", 4) |
| OrderByScenarios.AscendingNumbers | presto-main/src/test/java/com/facebook/presto/operator/TestOrderByOperator.java:71-96 | sorting the number rows on channel 0 ASC_NULLS_LAST gives keys -1, 1, 2, 4 |
| OrderByScenarios.DescendingNumbers | presto-main/src/test/java/com/facebook/presto/operator/TestOrderByOperator.java:135-160 | sorting them on channel 0 DESC_NULLS_LAST gives keys 4, 2, 1, -1 |
| OrderByScenarios.SortedText | presto-main/src/test/java/com/facebook/presto/operator/TestOrderByOperator.java:103-128 | sorting the text rows on channel 0 ASC then channel 1 DESC gives ("a",4), ("a",1), ("b",3), ("b",2) |
| OrderByScenarios.SingleFieldKey | presto-main/src/test/java/com/facebook/presto/operator/TestOrderByOperator.java:67-97 | the operator outputs -0.1, 0.1, 0.2, 0.4 |
| OrderByScenarios.MultiFieldKey | presto-main/src/test/java/com/facebook/presto/operator/TestOrderByOperator.java:99-129 | the operator outputs ("a",4), ("a",1), ("b",3), ("b",2) |
| OrderByScenarios.ReverseOrder | presto-main/src/test/java/com/facebook/presto/operator/TestOrderByOperator.java:131-161 | the operator outputs 4, 2, 1, -1, the exact reverse of the ascending key column |
| OrderByScenarios.MemoryLimit | presto-main/src/test/java/com/facebook/presto/operator/TestOrderByOperator.java:163-191 | under a 10-byte ceiling, with an input estimated above 10 bytes, the run fails with the ceiling, and its message is "Task exceeded max memory size of 10B" |

## Left out

- The IEEE-754 meaning of `Double.doubleToRawLongBits` and `Double.longBitsToDouble`. Doubles are their raw bit patterns. `percentile != -1` is a comparison with the one pattern of -1.0, which is exact because no other pattern is numerically equal to -1.0.
- The `QuantileDigest` internals: error bounds, the quantile estimate and the serialized byte format. The digest is the multiset of the longs added to it, and a blob is a (digest, percentile) value.
- `estimateSizeInBytes` of the aggregation (`DoubleApproximatePercentileAggregation.java:103-107`). It reports the digest's in-memory size, which the abstract digest does not have.
- ApproximatePercentile.Final: `getCount() == 0.0` is read as "no value was added"; the digest's decayed, floating-point count is not modelled.
- The block cursor API of the aggregation. A block is a sequence of tuples of nullable doubles, and advancing a cursor is indexing.
- Storage-manager I/O. `IOException` propagation from `createStagingFileHandles` and `commit` is not modelled; these calls always succeed, and `append`'s report is a function parameter.
- The cross-thread visibility of the writer's `AtomicReference` fields. Calls are sequential.
- TableWriter.NewTableWriterOperator.AddInput: the row count is an unbounded integer; the Java `long` never overflows in the model.
- TableWriter.NewTableWriterOperator.AddSplit: the "already set" message shows the shard id in decimal, where the source formats the split object with its `toString`, which is not part of this model.
- TableWriter.NewTableWriterOperator.AddInput: the null dereference on a page with no split carries an empty message; the JVM's message text is not modelled.
- Order-insensitive merging of the percentile. As in the source, a blob's trailer overwrites the percentile even when it is the -1 sentinel, so the final result can depend on the order in which blobs are merged (SentinelTrailerOverwrites). Only the digest is merged order-insensitively (MergeOrderIrrelevant).
- The writer's factory (`NewTableWriterOperator.java:35-82`), other than its tuple descriptor. It only forwards constructor arguments.
- The order-by operator's own source is not part of this model. Its behaviour is modelled from the test's factory arguments, inputs and expected results, and from the push/finish/pull operator protocol the test drives.
- OrderBy.OrderByOperator.AddInput: it requires the operator to still need input. What the real operator does on a protocol violation is not visible.
- The per-row byte estimator and the rows per output page are parameters. The memory-limit scenario requires the input's estimate to exceed 10 bytes, and not the exact figure.
- Releasing the operator's reservation when it finishes.
- The factory's expected-positions argument (10 in every test). It is a capacity hint with no effect on results.
- DOUBLE values as sort keys compare equal to one another. They appear only as carried payload in the tests.
- `SortOrdering.At` reads a missing column as null. Rows of the declared source types never reach that case.
- The thread pool, `ConnectorSession`, `TaskContext` and driver-context construction of the test, and `MaterializedResult` comparison. A scenario's result is compared with the expected rows directly.
- `HandTpchQuery6.java` (a benchmark with floating-point filters) and `FailedQueryExecution.java` (no-op wrappers around an unseen state machine) belong to no modelled component.
- The writer's `getOutput` commits the shard before checking the task output, so the "TaskOutput not set" failure leaves the shard committed and the operator FINISHED. This follows the code as written.
