/** Optional values and the failures the engine can raise outside of a rule rejection. */
module Results {

  /** A value that may be absent: stands for a nullable reference. */
  datatype Option<+T> = None | Some(value: T)

  /** The outcome of an operation that either returns a value or fails. */
  datatype Result<+T, +E> = Ok(value: T) | Err(error: E)

  /** The hard failures of the engine (the exceptions it throws), as opposed to a rejected move. */
  datatype Failure =
    | IndexOutOfBound   // a board lookup outside rows and columns 0..7
    | NullPiece         // ownership asked of an empty start square
    | NullMovedPiece    // a move record built without a moved piece
    | IllegalArgument   // a game built from two players of the same side
}
