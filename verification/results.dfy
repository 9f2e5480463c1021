/** Failure-carrying results of the batching engine. */
module Results {

  /** Why a collation or a selection was refused. */
  datatype Error =
    /** The records do not share one attribute layout (different numbers of
        feature blocks, index blocks, node types or edge types). */
    | StructuralMismatch
    /** A selector named a graph outside `[0, num_graphs)`. */
    | IndexOutOfRange(index: int)

  datatype Result<+T> = Ok(value: T) | Err(error: Error)
}
