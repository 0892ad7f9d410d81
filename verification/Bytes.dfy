/** Bytes, shared by the codecs. */
module Bytes {
  type Byte = n: nat | n < 256
}
