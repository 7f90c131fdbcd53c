module Basics {
  /** A byte as a number. */
  type byte = x: int | 0 <= x < 256

  /** A byte as eight bits. */
  type octet = bv8

  datatype Option<T> = None | Some(value: T)
}
