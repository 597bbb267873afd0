/** A value that may be absent: a car that has not finished loading, a pivot
    that was never wrapped, a car without wheels. */
module Wrappers {

  datatype Option<+T> = None | Some(value: T)
}
