/**
 * The state of an in-memory source iterator, as a value, and the effect of each
 * call on it.  An iterator over the range [start, end) is the pair
 * (index, endPosition): it reads the record at `index` and stops at
 * `endPosition`, which a dynamic split may lower but never raise.
 *
 * `Run` plays an arbitrary sequence of calls, as a consumer and a control path
 * would issue them one after the other, and records the indices of the records
 * read.  The lemmas say what such a run delivers.
 */
module Cursors {
  import opened Wrappers
  import opened Positions

  datatype Cursor = Cursor(index: int, endPosition: int) {
    /** The iterator has another record to read. */
    predicate HasNext()
    {
      index < endPosition
    }
  }

  /** The calls a client can make on an iterator. */
  datatype Call =
    | CallHasNext
    | CallNext
    | CallGetProgress
    | CallUpdateStopPosition(proposed: Progress)

  /** Calls that only observe the iterator. */
  predicate IsObservation(call: Call)
  {
    call.CallHasNext? || call.CallGetProgress?
  }

  /** The indices lo, lo+1, ..., hi-1, in this order. */
  function Interval(lo: int, hi: int): (r: seq<int>)
    ensures |r| == if lo <= hi then hi - lo else 0
    ensures forall k :: 0 <= k < |r| ==> r[k] == lo + k
    decreases hi - lo
  {
    if hi <= lo then [] else [lo] + Interval(lo + 1, hi)
  }

  /** The progress an iterator in state `c` reports: its read position. */
  function ProgressAt(c: Cursor): Progress
  {
    RecordIndexProgress(c.index)
  }

  /**
   * The stop position a split request gets accepted at, or None when it is
   * rejected: the proposal must carry a record index lying strictly after the
   * cursor and strictly before the current end.
   */
  function AcceptedStop(c: Cursor, proposed: Progress): (r: Option<int>)
    ensures r.Some? <==>
      RecordIndexOf(proposed).Some? && c.index < RecordIndexOf(proposed).value < c.endPosition
    ensures r.Some? ==> RecordIndexOf(proposed) == r
  {
    match RecordIndexOf(proposed)
    case None => None
    case Some(recordIndex) =>
      if recordIndex <= c.index || recordIndex >= c.endPosition then None
      else Some(recordIndex)
  }

  /** The state after one call. */
  function Step(c: Cursor, call: Call): (r: Cursor)
    ensures c.index <= c.endPosition ==> c.index <= r.index <= r.endPosition <= c.endPosition
    ensures r.index == c.index || r.index == c.index + 1
    ensures call.CallNext? && c.HasNext() ==> r.index == c.index + 1
    ensures !call.CallNext? || !c.HasNext() ==> r.index == c.index
    ensures !call.CallUpdateStopPosition? ==> r.endPosition == c.endPosition
  {
    match call
    case CallHasNext => c
    case CallGetProgress => c
    case CallNext => if c.HasNext() then c.(index := c.index + 1) else c
    case CallUpdateStopPosition(proposed) =>
      match AcceptedStop(c, proposed)
      case None => c
      case Some(stop) => c.(endPosition := stop)
  }

  /** The indices of the records one call reads: the cursor's, for a `next` that succeeds. */
  function ReadBy(c: Cursor, call: Call): seq<int>
  {
    if call.CallNext? && c.HasNext() then [c.index] else []
  }

  /** The final state of a run, and the indices of the records it read, in order. */
  datatype Trace = Trace(final: Cursor, read: seq<int>)

  function Run(c: Cursor, calls: seq<Call>): Trace
    decreases |calls|
  {
    if calls == [] then Trace(c, [])
    else
      var rest := Run(Step(c, calls[0]), calls[1..]);
      Trace(rest.final, ReadBy(c, calls[0]) + rest.read)
  }

  /**
   * A run from a consistent state keeps the state consistent, never raises the
   * stop, and reads exactly the records from the initial cursor up to the final
   * one.
   */
  lemma {:induction false} RunReadsInterval(c: Cursor, calls: seq<Call>)
    requires c.index <= c.endPosition
    ensures var t := Run(c, calls);
      c.index <= t.final.index <= t.final.endPosition <= c.endPosition &&
      t.read == Interval(c.index, t.final.index)
    decreases |calls|
  {
    if calls != [] {
      var next := Step(c, calls[0]);
      RunReadsInterval(next, calls[1..]);
      var rest := Run(next, calls[1..]);
      if calls[0].CallNext? && c.HasNext() {
        assert Interval(c.index, rest.final.index) == [c.index] + Interval(c.index + 1, rest.final.index);
      } else {
        assert ReadBy(c, calls[0]) == [];
      }
    }
  }

  /**
   * Every record a run reads is read once, in increasing index order, and lies
   * before the stop in force at the end: a split never takes back a record
   * already delivered.
   */
  lemma RunReadsInOrderBeforeStop(c: Cursor, calls: seq<Call>)
    requires c.index <= c.endPosition
    ensures var t := Run(c, calls);
      (forall k :: 0 <= k < |t.read| ==> c.index <= t.read[k] < t.final.endPosition) &&
      (forall i, j :: 0 <= i < j < |t.read| ==> t.read[i] < t.read[j])
  {
    RunReadsInterval(c, calls);
  }

  /** An exhausted iterator stays exhausted: no call changes it or reads anything. */
  lemma {:induction false} ExhaustedIsTerminal(c: Cursor, calls: seq<Call>)
    requires !c.HasNext()
    ensures Run(c, calls) == Trace(c, [])
    decreases |calls|
  {
    if calls != [] {
      assert Step(c, calls[0]) == c;
      ExhaustedIsTerminal(c, calls[1..]);
    }
  }

  /**
   * Progress queries and `hasNext` change nothing, so any number of them in a
   * row leave the reported progress as it was.
   */
  lemma {:induction false} ObservationsChangeNothing(c: Cursor, calls: seq<Call>)
    requires forall k :: 0 <= k < |calls| ==> IsObservation(calls[k])
    ensures Run(c, calls) == Trace(c, [])
    ensures ProgressAt(Run(c, calls).final) == ProgressAt(c)
    decreases |calls|
  {
    if calls != [] {
      assert IsObservation(calls[0]);
      assert forall k :: 0 <= k < |calls[1..]| ==> IsObservation(calls[1..][k]) by {
        forall k | 0 <= k < |calls[1..]| ensures IsObservation(calls[1..][k]) {
          assert calls[1..][k] == calls[k + 1];
        }
      }
      ObservationsChangeNothing(c, calls[1..]);
    }
  }

  /**
   * An accepted split divides the records the iterator still had to read into
   * two non-empty parts: those it keeps, [index, stop), and the relinquished
   * tail, [stop, old end).  Nothing is lost and nothing is in both.
   */
  lemma SplitPartitionsRemaining(c: Cursor, proposed: Progress)
    requires AcceptedStop(c, proposed).Some?
    ensures var r := Step(c, CallUpdateStopPosition(proposed));
      r.index == c.index && r.endPosition == AcceptedStop(c, proposed).value &&
      Interval(r.index, r.endPosition) + Interval(r.endPosition, c.endPosition) == Interval(c.index, c.endPosition) &&
      Interval(r.index, r.endPosition) != [] && Interval(r.endPosition, c.endPosition) != []
  {
  }

  /** Only a split request moves the stop: a run without one ends at the stop it started with. */
  lemma {:induction false} NoSplitKeepsStop(c: Cursor, calls: seq<Call>)
    requires forall k :: 0 <= k < |calls| ==> !calls[k].CallUpdateStopPosition?
    ensures Run(c, calls).final.endPosition == c.endPosition
    decreases |calls|
  {
    if calls != [] {
      assert !calls[0].CallUpdateStopPosition?;
      assert forall k :: 0 <= k < |calls[1..]| ==> !calls[1..][k].CallUpdateStopPosition? by {
        forall k | 0 <= k < |calls[1..]| ensures !calls[1..][k].CallUpdateStopPosition? {
          assert calls[1..][k] == calls[k + 1];
        }
      }
      NoSplitKeepsStop(Step(c, calls[0]), calls[1..]);
    }
  }

  /** A stop proposed at the cursor the iterator reports is always rejected. */
  lemma ProgressIsNoStop(c: Cursor)
    ensures AcceptedStop(c, ProgressAt(c)).None?
  {
  }

  /** Running two call sequences one after the other is running their concatenation. */
  lemma {:induction false} RunAppend(c: Cursor, first: seq<Call>, second: seq<Call>)
    ensures var t1 := Run(c, first); var t2 := Run(t1.final, second);
      Run(c, first + second) == Trace(t2.final, t1.read + t2.read)
    decreases |first|
  {
    if first != [] {
      assert (first + second)[0] == first[0];
      assert (first + second)[1..] == first[1..] + second;
      RunAppend(Step(c, first[0]), first[1..], second);
    } else {
      assert first + second == second;
    }
  }

  /** In the rebalancing example: three reads from [0, 10). */
  lemma ExampleReads()
    ensures Run(Cursor(0, 10), [CallNext, CallNext, CallNext]) == Trace(Cursor(3, 10), [0, 1, 2])
  {
  }

  /** In the rebalancing example: of five split requests at cursor 3, only the one at 7 is accepted. */
  lemma ExampleSplits()
    ensures Run(Cursor(3, 10),
      [CallUpdateStopPosition(RecordIndexProgress(3)),
       CallUpdateStopPosition(RecordIndexProgress(2)),
       CallUpdateStopPosition(RecordIndexProgress(10)),
       CallUpdateStopPosition(RecordIndexProgress(15)),
       CallUpdateStopPosition(RecordIndexProgress(7))])
      == Trace(Cursor(3, 7), [])
  {
  }

  /** In the rebalancing example: five `next` calls from [3, 7) read four records. */
  lemma ExampleDrain()
    ensures Run(Cursor(3, 7), [CallNext, CallNext, CallNext, CallNext, CallNext])
      == Trace(Cursor(7, 7), [3, 4, 5, 6])
  {
  }

  /**
   * A rebalancing run over [0, 10): after three reads, stops at 3 and 2 (not
   * after the cursor) and at 10 and 15 (not before the stop) are rejected, a
   * stop at 7 is accepted, and the iterator then reads 3, 4, 5, 6 and is done;
   * a further `next` reads nothing.
   */
  lemma RebalancingExample()
    ensures Run(Cursor(0, 10),
      [CallNext, CallNext, CallNext,
       CallUpdateStopPosition(RecordIndexProgress(3)),
       CallUpdateStopPosition(RecordIndexProgress(2)),
       CallUpdateStopPosition(RecordIndexProgress(10)),
       CallUpdateStopPosition(RecordIndexProgress(15)),
       CallUpdateStopPosition(RecordIndexProgress(7)),
       CallNext, CallNext, CallNext, CallNext, CallNext])
      == Trace(Cursor(7, 7), [0, 1, 2, 3, 4, 5, 6])
  {
    var first := [CallNext, CallNext, CallNext];
    var splits := [CallUpdateStopPosition(RecordIndexProgress(3)),
                   CallUpdateStopPosition(RecordIndexProgress(2)),
                   CallUpdateStopPosition(RecordIndexProgress(10)),
                   CallUpdateStopPosition(RecordIndexProgress(15)),
                   CallUpdateStopPosition(RecordIndexProgress(7))];
    var drain := [CallNext, CallNext, CallNext, CallNext, CallNext];
    var tail := splits + drain;
    assert Run(Cursor(3, 10), tail) == Trace(Cursor(7, 7), [3, 4, 5, 6]) by {
      ExampleSplits();
      ExampleDrain();
      RunAppend(Cursor(3, 10), splits, drain);
    }
    assert Run(Cursor(0, 10), first + tail) == Trace(Cursor(7, 7), [0, 1, 2, 3, 4, 5, 6]) by {
      ExampleReads();
      RunAppend(Cursor(0, 10), first, tail);
    }
    assert first + tail == [CallNext, CallNext, CallNext,
       CallUpdateStopPosition(RecordIndexProgress(3)),
       CallUpdateStopPosition(RecordIndexProgress(2)),
       CallUpdateStopPosition(RecordIndexProgress(10)),
       CallUpdateStopPosition(RecordIndexProgress(15)),
       CallUpdateStopPosition(RecordIndexProgress(7)),
       CallNext, CallNext, CallNext, CallNext, CallNext];
  }

  /** The records at the given indices, in the order of the indices. */
  function RecordsAt(records: seq<string>, indices: seq<int>): (r: seq<string>)
    requires forall k :: 0 <= k < |indices| ==> 0 <= indices[k] < |records|
    ensures |r| == |indices|
    ensures forall k :: 0 <= k < |r| ==> r[k] == records[indices[k]]
  {
    seq(|indices|, k requires 0 <= k < |indices| => records[indices[k]])
  }

  /**
   * Draining: a fresh iterator over [start, end) that, after any calls,
   * including any accepted splits, has no next record, has read exactly the
   * records records[start .. finalStop), in order, each once.
   */
  lemma DrainReadsSlice(records: seq<string>, start: int, end: int, calls: seq<Call>)
    requires 0 <= start <= end <= |records|
    requires !Run(Cursor(start, end), calls).final.HasNext()
    ensures var t := Run(Cursor(start, end), calls);
      start <= t.final.endPosition <= end &&
      t.read == Interval(start, t.final.endPosition) &&
      RecordsAt(records, t.read) == records[start..t.final.endPosition]
  {
    RunReadsInterval(Cursor(start, end), calls);
  }

  /**
   * Draining without splits: a fresh iterator over [start, end) that, after
   * calls none of which is a split request, has no next record, has read
   * exactly end - start records, records[start .. end), in order, each once.
   */
  lemma DrainWithoutSplitsReadsRange(records: seq<string>, start: int, end: int, calls: seq<Call>)
    requires 0 <= start <= end <= |records|
    requires forall k :: 0 <= k < |calls| ==> !calls[k].CallUpdateStopPosition?
    requires !Run(Cursor(start, end), calls).final.HasNext()
    ensures var t := Run(Cursor(start, end), calls);
      |t.read| == end - start &&
      t.read == Interval(start, end) &&
      RecordsAt(records, t.read) == records[start..end]
  {
    NoSplitKeepsStop(Cursor(start, end), calls);
    DrainReadsSlice(records, start, end, calls);
  }
}
