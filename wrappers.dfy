/** The optional value used for Go's nillable `error` result. */
module Wrappers {

  /** `None` plays the part of Go's `nil`; `Some(e)` carries a non-nil value. */
  datatype Option<+T> = None | Some(value: T)
}
