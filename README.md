# In-memory bounded source with dynamic splitting

A model of the worker's in-memory source (`InMemorySource`): a bounded source
over a list of encoded elements and a half-open range `[startIndex, endIndex)`
of record indices, and its iterator (`InMemorySourceIterator`). The iterator
reads forward from `index` up to the exclusive stop `endPosition`. It reports
its cursor as progress. It also accepts dynamic-split requests that lower the
stop while it runs.

Files:

- `wrappers.dfy`: `Option` (stands for Java's null) and `Result` (stands for a
  value or the exception raised).
- `positions.dfy`: the API `Position` (a record index that may be null) and
  the approximate `Progress` (a position that may be null).
- `cursor.dfy`: the iterator state as a value `Cursor(index, endPosition)`.
  It holds `Step`, the effect of each call, and `Run`, which plays any
  sequence of `hasNext`/`next`/`getProgress`/`updateStopPosition` calls and
  records the indices read. The whole-run lemmas are proved about these.
- `in_memory_source.dfy`: module `Worker`. It holds the constructor's range
  resolution, the immutable `InMemorySource` class and the mutable
  `InMemorySourceIterator` class. Every iterator method is tied to `Step`, and
  the object invariant `Valid()` is
  `startIndex <= index <= endPosition <= endIndex <= |encodedElements|`.

A Dafny constructor cannot throw. So the Java constructor is modelled as the
static method `InMemorySource.Create`, which returns a `Result`. Its checks and
clamping live in `ResolveRange`. The coder, together with the JSON-string to
bytes conversion, is a total function value `string -> Result<T, string>`
stored in the source.

One design choice of the code is kept as written: `next` increments `index`
before it decodes (line 106). So `InMemorySourceIterator.Next` leaves the cursor
advanced when decoding fails, and calling it again reads the following record,
not the same one again.

## Model

| member | source | states |
|---|---|---|
| Worker.ResolveRange | sdk/src/main/java/com/google/cloud/dataflow/sdk/runners/worker/InMemorySource.java:57-75 | a negative start fails with the start message; an end below the clamped start fails with the end message; these are the only failures; otherwise start = min(start or 0, size), end = min(end or size, size), 0 <= start <= end <= size, and the range is exactly the requested one intersected with the list's indices |
| Worker.InMemorySource.constructor | sdk/src/main/java/com/google/cloud/dataflow/sdk/runners/worker/InMemorySource.java:53-77 | stores the list, the coder and an already resolved range; the source invariant start <= end <= size holds |
| Worker.InMemorySource.Create | sdk/src/main/java/com/google/cloud/dataflow/sdk/runners/worker/InMemorySource.java:53-77 | fails with an argument error exactly when the range is refused; otherwise a fresh valid source with the clamped bounds, the given list and coder |
| Worker.InMemorySource.Iterator | sdk/src/main/java/com/google/cloud/dataflow/sdk/runners/worker/InMemorySource.java:79-82 | a fresh valid iterator over this source with index = startIndex and endPosition = endIndex |
| Worker.InMemorySourceIterator.constructor | sdk/src/main/java/com/google/cloud/dataflow/sdk/runners/worker/InMemorySource.java:91-94 | index starts at startIndex and endPosition at endIndex |
| Worker.InMemorySourceIterator.HasNext | sdk/src/main/java/com/google/cloud/dataflow/sdk/runners/worker/InMemorySource.java:96-99 | true exactly when index < endPosition; false exactly when the cursor has reached the stop |
| Worker.InMemorySourceIterator.Next | sdk/src/main/java/com/google/cloud/dataflow/sdk/runners/worker/InMemorySource.java:101-113 | on an exhausted iterator fails with NoSuchElement and changes nothing; otherwise returns the decode of the element at the old index (or its decode error) and advances index by exactly one, also when decoding fails; the stop is unchanged and the invariant kept |
| Worker.InMemorySourceIterator.GetProgress | sdk/src/main/java/com/google/cloud/dataflow/sdk/runners/worker/InMemorySource.java:115-128 | reports the current index as the record index, which lies within [startIndex, endPosition]; changes nothing |
| Worker.InMemorySourceIterator.UpdateStopPosition | sdk/src/main/java/com/google/cloud/dataflow/sdk/runners/worker/InMemorySource.java:130-161 | accepts exactly when the proposal has a position with a record index strictly between the current index and the current stop; then sets the stop to it and returns the proposed position; otherwise returns None and changes nothing; the index never moves and the stop never rises |
| Positions.RecordIndexProgress | sdk/src/main/java/com/google/cloud/dataflow/sdk/runners/worker/InMemorySource.java:120-127 | the reported progress carries a position whose record index is the given one |
| Cursors.AcceptedStop | sdk/src/main/java/com/google/cloud/dataflow/sdk/runners/worker/InMemorySource.java:138-157 | a proposal is accepted exactly when it carries a record index strictly between the cursor and the current stop, and the accepted stop is that record index |
| Cursors.Step | sdk/src/main/java/com/google/cloud/dataflow/sdk/runners/worker/InMemorySource.java:96-160 | every call keeps index <= endPosition and never raises the stop; a `next` on an active iterator advances the index by exactly one and every other call leaves it; only a split request can move the stop |
| Cursors.RunReadsInterval | sdk/src/main/java/com/google/cloud/dataflow/sdk/runners/worker/InMemorySource.java:96-160 | any sequence of calls keeps the range invariant, never raises the stop, and reads exactly the indices from the initial cursor to the final one |
| Cursors.RunReadsInOrderBeforeStop | sdk/src/main/java/com/google/cloud/dataflow/sdk/runners/worker/InMemorySource.java:102-106 | every index read is read once, in increasing order, and lies before the final stop, whatever splits were accepted |
| Cursors.ExhaustedIsTerminal | sdk/src/main/java/com/google/cloud/dataflow/sdk/runners/worker/InMemorySource.java:97-104 | from an exhausted state no call sequence changes the state or reads anything |
| Cursors.ObservationsChangeNothing | sdk/src/main/java/com/google/cloud/dataflow/sdk/runners/worker/InMemorySource.java:96-128 | any run of hasNext and getProgress calls leaves the state, and so the reported progress, unchanged |
| Cursors.SplitPartitionsRemaining | sdk/src/main/java/com/google/cloud/dataflow/sdk/runners/worker/InMemorySource.java:152-159 | an accepted split divides the remaining indices into a non-empty kept part [index, stop) and a non-empty relinquished tail [stop, old end), with nothing lost or shared |
| Cursors.ProgressIsNoStop | sdk/src/main/java/com/google/cloud/dataflow/sdk/runners/worker/InMemorySource.java:115-157 | a stop proposed at the cursor the iterator reports is rejected |
| Cursors.RebalancingExample | sdk/src/main/java/com/google/cloud/dataflow/sdk/runners/worker/InMemorySource.java:130-161 | over [0, 10), after three reads, stops at 3, 2, 10 and 15 are rejected, 7 is accepted, and the run reads 0 to 6 and ends exhausted at 7 |
| Cursors.DrainReadsSlice | sdk/src/main/java/com/google/cloud/dataflow/sdk/runners/worker/InMemorySource.java:88-113 | a fresh iterator over [start, end) that has been drained after any calls, including accepted splits, has read exactly the elements start .. finalStop - 1, in order, each once, with start <= finalStop <= end |
| Cursors.NoSplitKeepsStop | sdk/src/main/java/com/google/cloud/dataflow/sdk/runners/worker/InMemorySource.java:152-159 | a run with no split request ends with the stop it started with |
| Cursors.DrainWithoutSplitsReadsRange | sdk/src/main/java/com/google/cloud/dataflow/sdk/runners/worker/InMemorySource.java:88-113 | a fresh iterator over [start, end) drained without any split request has read exactly end - start records, records[start .. end), in order, each once |
| Cursors.RunAppend | sdk/src/main/java/com/google/cloud/dataflow/sdk/runners/worker/InMemorySource.java:96-160 | running two call sequences one after the other gives the same final state and the same reads, concatenated, as running their concatenation |

## Left out

- `GroupAlsoByWindowsParDoFn` and the `TimeUtil` tests are not part of this model. The first is deserialization and reflection plumbing. The second tests code that is not part of this model.
- The coder's decode and `StringUtils.jsonStringToByteArray` are not modelled. Both are one opaque function value given to the source, which either yields a value or fails with a message.
- The translations between the worker's and the API's progress and position forms (`cloudProgressToSourceProgress`, `sourceProgressToCloudProgress`, `cloudPositionToSourcePosition`) are taken to be the identity.
- `notifyElementRead` (the bytes-read counter) and the `LOG.warn` calls are left out. They are side channels with no effect on the iterator's state or results.
- `checkNotNull(proposedStopPosition)` is left out. A Dafny datatype value cannot be null.
- Concurrency between the control path (`getProgress`, `updateStopPosition`) and `next` is left out. The calls are modelled as sequential method calls on one object, and `Run` interleaves them in any order.
- The Java `long` to `int` narrowing casts (lines 65, 74, 159) are left out. The values cast always lie between 0 and the list size, so unbounded integers are used.
- Aliasing of the element list is left out. The source keeps the caller's `List` by reference (line 57) and `next` reads it at the time of the call (line 106). The model takes `encodedElements` as an immutable sequence fixed at construction, so it does not capture a caller changing the list afterwards.
