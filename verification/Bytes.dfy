/** Bytes, shared by the message, console, log and devicetree models. */
module Bytes {
  type Byte = b: int | 0 <= b < 256
}
