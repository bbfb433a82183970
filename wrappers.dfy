// Value types shared by the immutable list and its iterator.

/** An element slot of the list. `None` stands for Java's `null`. */
datatype Option<T> = None | Some(value: T)

/** The exceptions the list and its iterator can throw. */
datatype Error =
  | IndexOutOfBounds      // IndexOutOfBoundsException (and its array subclass)
  | UnsupportedOperation  // UnsupportedOperationException thrown by every mutator

/** The outcome of a call that either returns a value or throws. */
datatype Result<R> = Ok(value: R) | Err(error: Error)
