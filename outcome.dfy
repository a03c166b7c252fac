/** Results of Python evaluation: a value, or a raised exception. */
module Outcomes {

  datatype Option<+T> = None | Some(value: T)

  /** The exceptions the modelled code can raise. */
  datatype Exception = KeyError | ValueError | UnboundLocalError

  /** What a Python call does: returns a value, or raises. */
  datatype Outcome<+T> = Ok(value: T) | Raise(exc: Exception)
}
