/** Small value types shared by the reflector and the DV3K modules. */
module Wrappers {

  /** A value that may be absent: a null reference, a missing map entry. */
  datatype Option<+T> = None | Some(value: T)

  /** The outcome of an operation that can throw or report an error. */
  datatype Result<+R, +E> = Success(value: R) | Failure(error: E)

  /** An unsigned 8-bit value (`unsigned char`). */
  type uint8 = x: int | 0 <= x < 0x100

  /** An unsigned 16-bit value (`uint16_t`). */
  type uint16 = x: int | 0 <= x < 0x1_0000
}
