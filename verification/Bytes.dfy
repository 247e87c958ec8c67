/** Octets, the little-endian 16-bit codec of stack/core/ble_runtime.c, and the Option type. */
module Bytes {
  type byte = x: int | 0 <= x < 0x100
  type u16 = x: int | 0 <= x < 0x1_0000
  type u32 = x: int | 0 <= x < 0x1_0000_0000
  type bit = x: int | 0 <= x < 2

  datatype Option<+T> = None | Some(value: T)

  function U16Decode(b: seq<byte>): (v: u16)
    requires |b| >= 2
  {
    b[0] as int + 0x100 * b[1] as int
  }

  /** The pair of octets that decodes back to v. */
  function U16Encode(v: u16): (b: seq<byte>)
    ensures |b| == 2 && U16Decode(b) == v
  {
    [v % 0x100, v / 0x100]
  }

  /** Encoding is also the inverse of decoding, so equal values have equal octets. */
  lemma EncodeDecode(b: seq<byte>)
    requires |b| == 2
    ensures U16Encode(U16Decode(b)) == b
  {
    assert U16Encode(U16Decode(b))[0] == b[0] && U16Encode(U16Decode(b))[1] == b[1];
  }

  function Flip(b: bit): bit { 1 - b }
}
