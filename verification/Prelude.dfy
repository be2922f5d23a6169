/** Shared basics: optional values, the unsigned 64-bit range and bytes. */
module Prelude {

  datatype Option<+T> = None | Some(value: T)

  const U64_MAX := 0xFFFF_FFFF_FFFF_FFFF

  type U64 = n: int | 0 <= n <= U64_MAX

  type Byte = n: int | 0 <= n < 256
}
