/** Value-or-error results, the shape of `std::expected` that every fallible operation of the wrapper returns. */
module Expected {

  /** An optional value, for the C library's nullable pointers and for searches that may find nothing. */
  datatype Option<+T> = None | Some(value: T)

  /** `std::expected<T, E>`: either the value or the error that replaced it. */
  datatype Expected<+T, +E> = Value(value: T) | Unexpected(error: E)
}
