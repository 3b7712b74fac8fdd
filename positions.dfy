/**
 * Positions and progress reports exchanged with the control plane.
 *
 * The API position carries a record index that may be null, and an approximate
 * progress report carries a position that may be null; both nulls are `None`.
 * The translations between the worker's and the API's forms of these values are
 * taken to be the identity.
 */
module Positions {
  import opened Wrappers

  /** An API position; this core only looks at its record index. */
  datatype Position = Position(recordIndex: Option<int>)

  /** An approximate progress report; this core only looks at its position. */
  datatype Progress = Progress(position: Option<Position>)

  /** The record index a progress report denotes, if it denotes one at all. */
  function RecordIndexOf(p: Progress): Option<int>
  {
    match p.position
    case None => None
    case Some(pos) => pos.recordIndex
  }

  /** A progress report at record index `i`, as an iterator reports its cursor. */
  function RecordIndexProgress(i: int): (p: Progress)
    ensures RecordIndexOf(p) == Some(i)
    ensures p.position.Some?
  {
    Progress(Some(Position(Some(i))))
  }
}
