/** Byte strings. */
module Bytes {
  type Byte = n: nat | n < 256
  type Bytes = seq<Byte>
}
