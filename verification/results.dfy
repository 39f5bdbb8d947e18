/** Failure-carrying values shared by every module of the model: `Option` for a value
    that may be absent and `Result` for the outcome of an operation that can fail
    (Rust's `anyhow::Result`, with the error made explicit). */
module Results {

  datatype Option<+T> = None | Some(value: T)

  datatype Result<+T, +E> = Ok(value: T) | Err(error: E)

  /** The three outcomes of Rust's `Ord::cmp`. */
  datatype Ordering = Less | Equal | Greater {
    /** The ordering seen from the other operand. */
    function Reverse(): Ordering {
      match this
      case Less => Greater
      case Equal => Equal
      case Greater => Less
    }
  }
}
