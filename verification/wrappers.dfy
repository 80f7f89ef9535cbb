/** An optional value, standing for Kotlin's nullable types and for calls
    that throw instead of returning. */
module Wrappers {

  datatype Option<+T> = None | Some(value: T)
}
