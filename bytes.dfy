/** Octets, shared by the UTF-8 model, the value types and the part cursor. */
module Bytes {
  /** One octet, written as its unsigned value (Java's `byte` is signed; only the bit pattern matters here). */
  newtype byte = b: int | 0 <= b < 256
}
