/**
 * A source that yields a list of precomputed, encoded elements over a half-open
 * range of record indices, and its iterator, whose remaining range a dynamic
 * split may shrink while it runs.
 */
module Worker {
  import opened Wrappers
  import opened Positions
  import opened Cursors

  /** The exceptions the source and its iterator raise. */
  datatype SourceError =
    | IllegalArgument(message: string)
    | NoSuchElement
    | DecodeError(message: string)

  /**
   * Turns one encoded element into a value, or fails with a message: the JSON
   * string to bytes conversion followed by the coder's decode.
   */
  type Coder<T> = string -> Result<T, string>

  const StartMessage := "start index should be >= 0"
  const EndMessage := "end index should be >= start index"

  function Min(a: int, b: int): int
  {
    if a <= b then a else b
  }

  /** The start index asked for; an absent one means 0. */
  function RequestedStart(startIndex: Option<int>): int
  {
    startIndex.GetOr(0)
  }

  /** The end index asked for; an absent one means the number of elements. */
  function RequestedEnd(endIndex: Option<int>, maxIndex: nat): int
  {
    endIndex.GetOr(maxIndex)
  }

  /** A resolved half-open range of record indices. */
  datatype IndexRange = IndexRange(start: nat, end: nat) {
    predicate Contains(k: int)
    {
      start <= k < end
    }
  }

  /**
   * The range checks and clamping the source's constructor performs on
   * `maxIndex` elements: a negative start is refused; an end before the start
   * (once that is clamped) is refused; otherwise both ends are clamped to the
   * list, and the range is the requested one cut down to the list's indices.
   */
  method ResolveRange(maxIndex: nat, startIndex: Option<int>, endIndex: Option<int>)
    returns (r: Result<IndexRange, SourceError>)
    ensures RequestedStart(startIndex) < 0 ==> r == Failure(IllegalArgument(StartMessage))
    ensures 0 <= RequestedStart(startIndex) &&
      RequestedEnd(endIndex, maxIndex) < Min(RequestedStart(startIndex), maxIndex)
      ==> r == Failure(IllegalArgument(EndMessage))
    ensures r.Failure? <==>
      RequestedStart(startIndex) < 0 ||
      RequestedEnd(endIndex, maxIndex) < Min(RequestedStart(startIndex), maxIndex)
    ensures r.Success? ==>
      r.value.start == Min(RequestedStart(startIndex), maxIndex) &&
      r.value.end == Min(RequestedEnd(endIndex, maxIndex), maxIndex)
    ensures r.Success? ==> r.value.start <= r.value.end <= maxIndex
    ensures r.Success? ==> forall k :: r.value.Contains(k) <==>
      0 <= k < maxIndex && RequestedStart(startIndex) <= k < RequestedEnd(endIndex, maxIndex)
  {
    var start: nat;
    if startIndex.None? {
      start := 0;
    } else {
      if startIndex.value < 0 {
        return Failure(IllegalArgument(StartMessage));
      }
      start := Min(startIndex.value, maxIndex);
    }
    var end: nat;
    if endIndex.None? {
      end := maxIndex;
    } else {
      if endIndex.value < start {
        return Failure(IllegalArgument(EndMessage));
      }
      end := Min(endIndex.value, maxIndex);
    }
    r := Success(IndexRange(start, end));
  }

  class InMemorySource<T> {
    const encodedElements: seq<string>
    const startIndex: nat
    const endIndex: nat
    const coder: Coder<T>

    ghost predicate Valid()
    {
      startIndex <= endIndex <= |encodedElements|
    }

    /** Stores a range that has already been checked and clamped. */
    constructor (encodedElements: seq<string>, range: IndexRange, coder: Coder<T>)
      requires range.start <= range.end <= |encodedElements|
      ensures Valid()
      ensures this.encodedElements == encodedElements && this.coder == coder
      ensures startIndex == range.start && endIndex == range.end
    {
      this.encodedElements := encodedElements;
      this.startIndex := range.start;
      this.endIndex := range.end;
      this.coder := coder;
    }

    /**
     * The public constructor: resolves the optional bounds, failing with an
     * argument error where the resolution does, and builds the source.
     */
    static method Create(encodedElements: seq<string>, startIndex: Option<int>, endIndex: Option<int>,
                         coder: Coder<T>)
      returns (r: Result<InMemorySource<T>, SourceError>)
      ensures r.Failure? <==>
        RequestedStart(startIndex) < 0 ||
        RequestedEnd(endIndex, |encodedElements|) < Min(RequestedStart(startIndex), |encodedElements|)
      ensures r.Failure? ==> r.error.IllegalArgument?
      ensures r.Success? ==>
        fresh(r.value) && r.value.Valid() &&
        r.value.encodedElements == encodedElements && r.value.coder == coder &&
        r.value.startIndex == Min(RequestedStart(startIndex), |encodedElements|) &&
        r.value.endIndex == Min(RequestedEnd(endIndex, |encodedElements|), |encodedElements|)
    {
      var range := ResolveRange(|encodedElements|, startIndex, endIndex);
      match range
      case Failure(e) =>
        r := Failure(e);
      case Success(bounds) =>
        var source := new InMemorySource(encodedElements, bounds, coder);
        r := Success(source);
    }

    /** Opens a fresh iterator over the whole range of this source. */
    method Iterator() returns (it: InMemorySourceIterator<T>)
      requires Valid()
      ensures fresh(it) && it.Valid() && it.source == this
      ensures it.State() == Cursor(startIndex, endIndex)
    {
      it := new InMemorySourceIterator(this);
    }
  }

  /** The value the element at `i` decodes to, or the decode failure. */
  function DecodeAt<T>(source: InMemorySource<T>, i: int): Result<T, SourceError>
    requires 0 <= i < |source.encodedElements|
  {
    match source.coder(source.encodedElements[i])
    case Success(v) => Success(v)
    case Failure(message) => Failure(DecodeError(message))
  }

  class InMemorySourceIterator<T> {
    const source: InMemorySource<T>
    var index: int
    var endPosition: int

    ghost predicate Valid()
      reads this
    {
      source.Valid() && source.startIndex <= index <= endPosition <= source.endIndex
    }

    /** The iterator's state as a value. */
    function State(): Cursor
      reads this
    {
      Cursor(index, endPosition)
    }

    constructor (source: InMemorySource<T>)
      requires source.Valid()
      ensures Valid() && this.source == source
      ensures index == source.startIndex && endPosition == source.endIndex
    {
      this.source := source;
      index := source.startIndex;
      endPosition := source.endIndex;
    }

    /** There is another record to read; false exactly when the cursor has reached the stop. */
    function HasNext(): (b: bool)
      reads this
      requires Valid()
      ensures b <==> State().HasNext()
      ensures !b <==> index == endPosition
    {
      index < endPosition
    }

    /**
     * Reads the record at the cursor and decodes it.  The cursor moves past the
     * record before decoding, so a decode failure leaves it advanced; an
     * exhausted iterator fails with NoSuchElement and stays as it is.
     */
    method Next() returns (r: Result<T, SourceError>)
      requires Valid()
      modifies this
      ensures Valid()
      ensures State() == Step(old(State()), CallNext)
      ensures old(index) < old(endPosition) ==>
        index == old(index) + 1 && r == DecodeAt(source, old(index))
      ensures old(index) >= old(endPosition) ==>
        index == old(index) && r == Failure(NoSuchElement)
      ensures endPosition == old(endPosition)
    {
      if !HasNext() {
        return Failure(NoSuchElement);
      }
      var encodedElement := source.encodedElements[index];
      index := index + 1;
      match source.coder(encodedElement)
      case Success(v) =>
        r := Success(v);
      case Failure(message) =>
        r := Failure(DecodeError(message));
    }

    /** Reports the cursor as a record-index position; it lies within the live range. */
    function GetProgress(): (p: Progress)
      reads this
      requires Valid()
      ensures RecordIndexOf(p) == Some(index)
      ensures source.startIndex <= index <= endPosition
      ensures p == ProgressAt(State())
    {
      RecordIndexProgress(index)
    }

    /**
     * Dynamic split: lowers the stop to the proposed record index when that
     * index lies strictly after the cursor and strictly before the current
     * stop, and returns the accepted position; otherwise returns None and
     * changes nothing.
     */
    method UpdateStopPosition(proposed: Progress) returns (r: Option<Position>)
      requires Valid()
      modifies this
      ensures Valid()
      ensures State() == Step(old(State()), CallUpdateStopPosition(proposed))
      ensures r.Some? <==>
        RecordIndexOf(proposed).Some? &&
        old(index) < RecordIndexOf(proposed).value < old(endPosition)
      ensures r.Some? ==>
        r == proposed.position && endPosition == RecordIndexOf(proposed).value
      ensures r.None? ==> endPosition == old(endPosition)
      ensures index == old(index) && endPosition <= old(endPosition)
    {
      var stopPosition := proposed.position;
      if stopPosition.None? {
        return None;
      }
      var recordIndex := stopPosition.value.recordIndex;
      if recordIndex.None? {
        return None;
      }
      if recordIndex.value <= index || recordIndex.value >= endPosition {
        return None;
      }
      endPosition := recordIndex.value;
      r := stopPosition;
    }
  }
}
