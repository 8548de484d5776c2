/** What an unsigned char holds. */
module Bytes {
  type Byte = b: nat | b < 256
}
