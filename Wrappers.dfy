/** Small optional-value type used across the model (a C++ null pointer or an
    absent result is `None`). */
module Wrappers {

  datatype Option<+T> = None | Some(value: T)
}
