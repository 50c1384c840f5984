/** Octets and the byte strings the server stores and sends. */
module Bytes {

  type byte = x: int | 0 <= x < 256

  type Text = seq<byte>
}
