/** Bytes, as files and sockets hold them. */
module Bytes {
  type byte = x: int | 0 <= x < 256
}
