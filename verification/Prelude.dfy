/** Small shared types: optional values, results with an error, and positive amounts. */
module Prelude {

  datatype Option<+T> = None | Some(value: T)

  datatype Result<+T, +E> = Ok(value: T) | Err(error: E)

  /** Identifiers drawn fresh by the program (uuid4).  Only equality matters. */
  type Uuid = nat

  /** Amounts the request schemas restrict to values above zero. */
  type pos = n: int | 0 < n witness 1
}
