/** Shared value types: optional values and byte strings. */
module Base {
  datatype Option<+T> = None | Some(value: T)

  type byte = x: int | 0 <= x < 256

  type bytes = seq<byte>

  /** The same as a machine word, where the code masks bits. */
  type octet = bv8

  type octets = seq<octet>
}
