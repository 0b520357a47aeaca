/** Small shared vocabulary: optional values and fallible results. */
module Prelude {

  datatype Option<+T> = None | Some(value: T)

  datatype Result<+T, +E> = Ok(value: T) | Err(error: E)

  /** Rust's `u64`: every clock reading and expiry in the auth crate is one. */
  const U64_MAX := 0xFFFF_FFFF_FFFF_FFFF

  type U64 = x: int | 0 <= x <= U64_MAX

  /** One byte of a binary or of a term. */
  type Byte = x: int | 0 <= x < 256
}
