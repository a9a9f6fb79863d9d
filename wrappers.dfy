/** An optional value, for Python's `str | None`. */
module Wrappers {
  datatype Option<T> = None | Some(value: T)
}
