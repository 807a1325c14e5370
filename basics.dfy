/** Shared vocabulary: fixed-width unsigned integers and the failure-carrying wrappers. */
module Basics {
  /** The largest value of a C++ uint32_t. */
  const UINT32_MAX: nat := 0xFFFF_FFFF

  /** A C++ uint32_t: every counter and size of the engine has this width. */
  type uint32 = x: nat | x <= 0xFFFF_FFFF

  datatype Option<+T> = None | Some(value: T)

  datatype Result<+T, +E> = Success(value: T) | Failure(error: E)
}
