// What several parts share.

module Options {
  datatype Option<T> = None | Some(value: T)
}

module Handles {

  /** A coroutine handle. */
  type Handle = nat
  const NULL: Handle := 0
}
