/** Option and Result: the absent value of a lookup and the error of a resolver. */
module Wrappers {

  /** `None` is JavaScript's `undefined`, which a GraphQL field turns into `null`. */
  datatype Option<+T> = None | Some(value: T)

  /** The outcome of a resolver that can throw. */
  datatype Result<+R, +E> = Ok(value: R) | Err(error: E)
}
