/** UUIDs and their over-the-air form (stack/core/ble_uuid.c). */
module Uuids {
  import opened Bytes

  type uuid128 = s: seq<byte> | |s| == 16 witness seq(16, _ => 0)

  datatype Uuid = NoUuid | Sig16(short: u16) | Raw128(bytes: uuid128) | Vendor16(short: u16)

  const UUID16_LEN: nat := 2
  const UUID128_LEN: nat := 16

  function EncodedLen(u: Uuid, base: Option<uuid128>): nat {
    match u
    case Sig16(_) => UUID16_LEN
    case Raw128(_) => UUID128_LEN
    case Vendor16(_) => if base.Some? then UUID128_LEN else 0
    case NoUuid => 0
  }

  predicate IsValid(u: Uuid, base: Option<uuid128>) { EncodedLen(u, base) != 0 }

  /** A vendor UUID is its base with octets 12 and 13 replaced. */
  function Encode(u: Uuid, base: Option<uuid128>): (b: seq<byte>)
    requires IsValid(u, base)
    ensures |b| == EncodedLen(u, base)
  {
    match u
    case Sig16(v) => U16Encode(v)
    case Raw128(bytes) => bytes
    case Vendor16(v) => base.value[..12] + U16Encode(v) + base.value[14..]
  }

  predicate MatchesBytes(u: Uuid, base: Option<uuid128>, b: seq<byte>) {
    IsValid(u, base) && Encode(u, base) == b
  }

  /** What a client makes of received octets; any other length gives no UUID. */
  function FromBytes(b: seq<byte>): Uuid {
    if |b| == UUID16_LEN then Sig16(U16Decode(b))
    else if |b| == UUID128_LEN then Raw128(b)
    else NoUuid
  }

  /** A received UUID keeps its octets; only a vendor UUID comes back in another form. */
  lemma FromBytesEncode(u: Uuid, base: Option<uuid128>)
    requires IsValid(u, base)
    ensures Encode(FromBytes(Encode(u, base)), None) == Encode(u, base)
    ensures !u.Vendor16? ==> FromBytes(Encode(u, base)) == u
  {
    if u.Sig16? { EncodeDecode(Encode(u, base)); }
  }

  /** A vendor UUID on the air: octets 12 and 13 are its own, all the others those of the base. */
  lemma {:induction false} VendorOctets(v: u16, base: uuid128)
    ensures var b := Encode(Vendor16(v), Some(base));
            && |b| == 16 && U16Decode(b[12..]) == v
            && forall i :: 0 <= i < 16 && i != 12 && i != 13 ==> b[i] == base[i]
  {
    hide U16Encode;
    var b := Encode(Vendor16(v), Some(base));
    assert b[12..][0] == U16Encode(v)[0] && b[12..][1] == U16Encode(v)[1];
  }
}
