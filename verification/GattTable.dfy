/** The attribute table of the GATT server: how it is built and what a built table looks like. */
module GattTable {
  import opened Bytes
  import opened Seqs
  import opened Uuids

  const MAX_SERVICES: nat := 4
  const MAX_CHARACTERISTICS: nat := 8
  const FIXED_ATTRS: nat := 6
  const MAX_ATTRS: nat := 34
  const MAX_VALUE_LEN: nat := 244

  const PRIMARY_SERVICE: Uuid := Sig16(0x2800)
  const CHARACTERISTIC: Uuid := Sig16(0x2803)
  const CCCD: Uuid := Sig16(0x2902)

  const PROP_READ: nat := 0x02
  const PROP_WRITE_NO_RESP: nat := 0x04
  const PROP_WRITE: nat := 0x08
  const PROP_NOTIFY: nat := 0x10
  const PROP_INDICATE: nat := 0x20

  /** Bit test: mask is one of the property constants. */
  predicate Has(props: byte, mask: nat)
    requires mask > 0
  {
    (props / mask) % 2 == 1
  }

  /** At least one supported property and no other bit (0x01, 0x40, 0x80). */
  predicate SupportedProps(props: byte) { 0 < props < 0x40 && props % 2 == 0 }

  predicate NeedsCccd(props: byte) { Has(props, PROP_NOTIFY) || Has(props, PROP_INDICATE) }

  /** What the application hands over. value is the current value, at most maxLen of it is kept. */
  datatype Characteristic = Characteristic(uuid: Uuid, props: byte, value: seq<byte>, maxLen: nat)
  datatype Service = Service(uuid: Uuid, chars: seq<Characteristic>)

  /** The characteristic an attribute belongs to, by its position among all characteristics. */
  datatype Owner = NoOwner | ValueOf(index: nat) | CccdOf(index: nat)

  datatype Attr = Attr(handle: u16, uuid: Uuid, readable: bool, writable: bool, value: seq<byte>, maxLen: nat, owner: Owner)

  type Base = Option<uuid128>

  // ---- what init accepts ---------------------------------------------------------------------

  predicate ValidChar(c: Characteristic, base: Base) {
    IsValid(c.uuid, base) && 0 < c.maxLen <= MAX_VALUE_LEN && SupportedProps(c.props)
  }

  predicate ValidService(s: Service, base: Base) {
    IsValid(s.uuid, base) && s.chars != [] && forall j :: 0 <= j < |s.chars| ==> ValidChar(s.chars[j], base)
  }

  /** The number of characteristics in the first n services. */
  function CharCount(services: seq<Service>, n: nat): nat
    requires n <= |services|
  {
    if n == 0 then 0 else CharCount(services, n - 1) + |services[n - 1].chars|
  }

  predicate ValidServices(services: seq<Service>, base: Base) {
    && |services| <= MAX_SERVICES
    && CharCount(services, |services|) <= MAX_CHARACTERISTICS
    && forall i :: 0 <= i < |services| ==> ValidService(services[i], base)
  }

  // ---- the table it builds ---------------------------------------------------------------------

  function Kept(c: Characteristic): seq<byte> { Take(c.value, c.maxLen) }

  function Fixed(name: seq<byte>): (t: seq<Attr>)
    requires |name| <= 20
    ensures |t| == FIXED_ATTRS
  {
    [Attr(1, PRIMARY_SERVICE, true, false, [0x00, 0x18], 2, NoOwner),
     Attr(2, CHARACTERISTIC, true, false, [PROP_READ, 3, 0, 0x00, 0x2A], 5, NoOwner),
     Attr(3, Sig16(0x2A00), true, false, name, 20, NoOwner),
     Attr(4, CHARACTERISTIC, true, false, [PROP_READ, 5, 0, 0x01, 0x2A], 5, NoOwner),
     Attr(5, Sig16(0x2A01), true, false, [0, 0], 2, NoOwner),
     Attr(6, PRIMARY_SERVICE, true, false, [0x01, 0x18], 2, NoOwner)]
  }

  function ServiceDecl(s: Service, h: u16, base: Base): Attr
    requires IsValid(s.uuid, base)
  {
    Attr(h, PRIMARY_SERVICE, true, false, Encode(s.uuid, base), EncodedLen(s.uuid, base), NoOwner)
  }

  /** Declaration, value and, when it can notify or indicate, CCCD of the k-th characteristic. */
  function CharAttrs(c: Characteristic, k: nat, h: nat, base: Base): (t: seq<Attr>)
    requires ValidChar(c, base) && h + 2 < 0x1_0000
    ensures |t| == if NeedsCccd(c.props) then 3 else 2
  {
    var decl := [c.props] + U16Encode(h + 1) + Encode(c.uuid, base);
    [Attr(h, CHARACTERISTIC, true, false, decl, |decl|, NoOwner),
     Attr(h + 1, c.uuid, Has(c.props, PROP_READ), Has(c.props, PROP_WRITE) || Has(c.props, PROP_WRITE_NO_RESP),
          Kept(c), c.maxLen, ValueOf(k))]
    + if NeedsCccd(c.props) then [Attr(h + 2, CCCD, true, true, [0, 0], 2, CccdOf(k))] else []
  }

  /** The table is built by appending: t followed by the first n characteristics, the first of which
      is the k-th of all; handles continue from the end. */
  function AddChars(t: seq<Attr>, k: nat, chars: seq<Characteristic>, n: nat, base: Base): (u: seq<Attr>)
    requires n <= |chars| && forall j :: 0 <= j < n ==> ValidChar(chars[j], base)
    requires |t| + 3 * n < 0xFFFF
    ensures |t| + 2 * n <= |u| <= |t| + 3 * n
  {
    if n == 0 then t
    else
      var before := AddChars(t, k, chars, n - 1, base);
      before + CharAttrs(chars[n - 1], k + n - 1, |before| + 1, base)
  }

  /** t followed by the first n services with their characteristics. */
  function AddServices(t: seq<Attr>, services: seq<Service>, n: nat, base: Base): (u: seq<Attr>)
    requires n <= |services| && forall i :: 0 <= i < n ==> ValidService(services[i], base)
    requires |t| + n + 3 * CharCount(services, n) < 0xFFFF
    ensures |t| + n + 2 * CharCount(services, n) <= |u| <= |t| + n + 3 * CharCount(services, n)
  {
    if n == 0 then t
    else
      var before := AddServices(t, services, n - 1, base);
      var s := services[n - 1];
      assert ValidService(services[n - 1], base);
      AddChars(before + [ServiceDecl(s, |before| + 1, base)], CharCount(services, n - 1), s.chars, |s.chars|, base)
  }

  function Table(name: seq<byte>, services: seq<Service>, base: Base): (t: seq<Attr>)
    requires ValidServices(services, base) && |name| <= 20
    ensures FIXED_ATTRS <= |t| <= MAX_ATTRS
  {
    AddServices(Fixed(name), services, |services|, base)
  }
}
