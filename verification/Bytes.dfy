// Bytes as the archives and as the Hamming code see them.

module Bytes {
  /** A byte where its bits matter. */
  type Byte = bv8

  /** A byte where only its value matters. */
  type Octet = n: int | 0 <= n < 256

  /** The value of a byte. */
  function ValueOf(b: Byte): Octet {
    b as int
  }
}
