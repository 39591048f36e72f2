/** Small value wrappers shared by the model. */
module Wrappers {

  /** A value that may be absent: a JavaScript `null`/`undefined` or a `Map` miss. */
  datatype Option<+T> = None | Some(value: T)

  /** How a promise returned by an external client settles: with a value, or by
      rejecting (a thrown error, a network failure, a parse failure). */
  datatype Settled<+T> = Fulfilled(value: T) | Rejected
}
