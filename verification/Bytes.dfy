/** Bytes, connection ids and the keyed hash the server derives ids with. */
module Bytes {
  newtype byte = x: int | 0 <= x < 256

  /** The bytes of a text in ASCII. */
  function Ascii(text: string): (s: seq<byte>)
    requires forall i :: 0 <= i < |text| ==> text[i] as int < 128
    ensures |s| == |text|
  {
    seq(|text|, i requires 0 <= i < |text| => text[i] as int as byte)
  }

  datatype Option<+T> = None | Some(value: T)

  /** A QUIC connection id, of any length a packet may carry. */
  type Id = seq<byte>

  const MAX_CONN_ID_LEN := 20

  /** An id cut from the 32-byte HMAC: exactly MAX_CONN_ID_LEN bytes. */
  type Digest = d: Id | |d| == MAX_CONN_ID_LEN witness seq(MAX_CONN_ID_LEN, _ => 0 as byte)

  /** HMAC under the seed of one `server_loop` call, truncated. Nothing else is known about it. */
  type Mac = Id -> Digest
}
