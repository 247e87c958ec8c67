/** What the four discovery requests of ATT ask for, and what the server answers. */
module AttSpec {
  import opened Bytes
  import opened Uuids
  import opened GattTable

  const ATT_MTU_DEFAULT: nat := 23
  /** One data packet of the link carries an L2CAP frame with at most this much. */
  const ATT_MAX_MTU: nat := 247

  const OP_ERROR: byte := 0x01
  const OP_FIND_INFO_REQ: byte := 0x04
  const OP_FIND_INFO_RSP: byte := 0x05
  const OP_FIND_BY_VALUE_REQ: byte := 0x06
  const OP_FIND_BY_VALUE_RSP: byte := 0x07
  const OP_READ_BY_TYPE_REQ: byte := 0x08
  const OP_READ_BY_TYPE_RSP: byte := 0x09
  const OP_READ_BY_GROUP_REQ: byte := 0x10
  const OP_READ_BY_GROUP_RSP: byte := 0x11
  const ERR_INVALID_PDU: byte := 0x04
  const ERR_REQUEST_NOT_SUPPORTED: byte := 0x06
  const ERR_NOT_FOUND: byte := 0x0A
  const ERR_UNSUPPORTED_GROUP: byte := 0x10

  /** The searchable content of a server: its table and the vendor UUID base in force. */
  datatype Db = Db(attrs: seq<Attr>, base: Base)

  /** A table as the builder leaves it, whatever values have been written since. */
  ghost predicate Sound(db: Db) {
    && 0 < |db.attrs| <= MAX_ATTRS
    && (forall i :: 0 <= i < |db.attrs| ==> db.attrs[i].handle == i + 1)
    && (forall i :: 0 <= i < |db.attrs| ==> IsValid(db.attrs[i].uuid, db.base))
    && (forall i :: 0 <= i < |db.attrs| ==> |db.attrs[i].value| <= db.attrs[i].maxLen <= MAX_VALUE_LEN)
    && db.attrs[0].uuid == PRIMARY_SERVICE
  }

  /** Primary services; those with a given UUID value; readable attributes of a type; everything. */
  datatype Query = Services | ServicesWith(value: seq<byte>) | Typed(uuid: seq<byte>) | Everything

  predicate IsService(a: Attr) { a.uuid == PRIMARY_SERVICE }

  predicate Matches(q: Query, a: Attr, base: Base) {
    match q
    case Services => IsService(a)
    case ServicesWith(value) => IsService(a) && a.value == value
    case Typed(uuid) => MatchesBytes(a.uuid, base, uuid) && a.readable
    case Everything => true
  }

  predicate Wanted(q: Query, db: Db, start: u16, end: u16, a: Attr) {
    start <= a.handle <= end && Matches(q, a, db.base)
  }

  /** The wanted attributes from position i on, in handle order. */
  function Found(q: Query, db: Db, start: u16, end: u16, i: nat): (found: seq<Attr>)
    requires i <= |db.attrs|
    decreases |db.attrs| - i
  {
    if i == |db.attrs| then []
    else if Wanted(q, db, start, end, db.attrs[i]) then [db.attrs[i]] + Found(q, db, start, end, i + 1)
    else Found(q, db, start, end, i + 1)
  }

  /** The last handle before the next primary service, or the last of all. */
  function EndHandle(attrs: seq<Attr>, h: u16): u16
    requires attrs != []
  {
    EndFrom(attrs, h, 0)
  }

  function EndFrom(attrs: seq<Attr>, h: u16, i: nat): u16
    requires attrs != [] && i <= |attrs|
    decreases |attrs| - i
  {
    if i == |attrs| then attrs[|attrs| - 1].handle
    else if IsService(attrs[i]) && attrs[i].handle > h then attrs[i].handle - 1
    else EndFrom(attrs, h, i + 1)
  }

  // ---- one response entry ------------------------------------------------------------------------

  function EntryLen(q: Query, a: Attr, base: Base): nat {
    match q
    case Services => 4 + |a.value|
    case ServicesWith(_) => 4
    case Typed(_) => 2 + |a.value|
    case Everything => 2 + EncodedLen(a.uuid, base)
  }

  function Entry(q: Query, a: Attr, db: Db): (e: seq<byte>)
    requires db.attrs != [] && IsValid(a.uuid, db.base)
    ensures |e| == EntryLen(q, a, db.base)
  {
    match q
    case Services => U16Encode(a.handle) + U16Encode(EndHandle(db.attrs, a.handle)) + a.value
    case ServicesWith(_) => U16Encode(a.handle) + U16Encode(EndHandle(db.attrs, a.handle))
    case Typed(_) => U16Encode(a.handle) + a.value
    case Everything => U16Encode(a.handle) + Encode(a.uuid, db.base)
  }

  // ---- the page of entries a response carries ------------------------------------------------------

  /** The first room entries of length len, the others being skipped. */
  function TakeSame(q: Query, base: Base, found: seq<Attr>, len: nat, room: nat): (page: seq<Attr>)
    ensures |page| <= room && |page| <= |found|
  {
    if found == [] || room == 0 then []
    else if EntryLen(q, found[0], base) == len then
      [found[0]] + TakeSame(q, base, found[1..], len, room - 1)
    else TakeSame(q, base, found[1..], len, room)
  }

  function HeaderLen(q: Query): nat { if q.ServicesWith? then 1 else 2 }

  function Room(q: Query, len: nat, max: nat): nat
    requires len > 0 && max >= HeaderLen(q)
  {
    (max - HeaderLen(q)) / len
  }

  /** The length of the first entry decides which entries go into the response, and how many fit. */
  function Page(q: Query, base: Base, found: seq<Attr>, max: nat): (page: seq<Attr>)
    requires max >= HeaderLen(q) && forall a :: a in found ==> IsValid(a.uuid, base)
  {
    if found == [] then []
    else
      var len := EntryLen(q, found[0], base);
      TakeSame(q, base, found, len, Room(q, len, max))
  }

  function Entries(q: Query, db: Db, page: seq<Attr>): seq<byte>
    requires db.attrs != [] && forall a :: a in page ==> IsValid(a.uuid, db.base)
  {
    if page == [] then []
    else Entries(q, db, page[..|page| - 1]) + Entry(q, page[|page| - 1], db)
  }

  function ResponseHeader(q: Query, len: nat): seq<byte>
    requires 2 <= len < 0x100
  {
    match q
    case Services => [OP_READ_BY_GROUP_RSP, len]
    case ServicesWith(_) => [OP_FIND_BY_VALUE_RSP]
    case Typed(_) => [OP_READ_BY_TYPE_RSP, len]
    case Everything => [OP_FIND_INFO_RSP, if len == 2 + UUID128_LEN then 2 else 1]
  }

  function RequestOpcode(q: Query): byte {
    match q
    case Services => OP_READ_BY_GROUP_REQ
    case ServicesWith(_) => OP_FIND_BY_VALUE_REQ
    case Typed(_) => OP_READ_BY_TYPE_REQ
    case Everything => OP_FIND_INFO_REQ
  }

  function ErrorRsp(max: nat, opcode: byte, handle: u16, code: byte): seq<byte> {
    if max < 5 then [] else [OP_ERROR, opcode] + U16Encode(handle) + [code]
  }

  ghost predicate AllValid(db: Db) {
    db.attrs != [] && forall i :: 0 <= i < |db.attrs| ==>
      IsValid(db.attrs[i].uuid, db.base) && |db.attrs[i].value| <= MAX_VALUE_LEN
  }

  lemma {:induction false} FoundValid(q: Query, db: Db, start: u16, end: u16, i: nat)
    requires AllValid(db) && i <= |db.attrs|
    ensures forall a :: a in Found(q, db, start, end, i) ==> a in db.attrs
    ensures forall a :: a in Found(q, db, start, end, i) ==>
      IsValid(a.uuid, db.base) && |a.value| <= MAX_VALUE_LEN
    decreases |db.attrs| - i
  {
    if i < |db.attrs| {
      FoundValid(q, db, start, end, i + 1);
    }
  }

  lemma {:induction false} TakeSameMembers(q: Query, base: Base, found: seq<Attr>, len: nat, room: nat)
    ensures forall a :: a in TakeSame(q, base, found, len, room) ==> a in found && EntryLen(q, a, base) == len
  {
    if found != [] && room > 0 {
      TakeSameMembers(q, base, found[1..], len, if EntryLen(q, found[0], base) == len then room - 1 else room);
    }
  }

  /** The whole answer to a discovery query. */
  function Respond(q: Query, db: Db, start: u16, end: u16, max: nat): seq<byte>
    requires AllValid(db)
  {
    if max < HeaderLen(q) then []
    else
      FoundValid(q, db, start, end, 0);
      var found := Found(q, db, start, end, 0);
      var page := Page(q, db.base, found, max);
      if page == [] then ErrorRsp(max, RequestOpcode(q), start, ERR_NOT_FOUND)
      else
        TakeSameMembers(q, db.base, found, EntryLen(q, found[0], db.base), Room(q, EntryLen(q, found[0], db.base), max));
        ResponseHeader(q, EntryLen(q, found[0], db.base)) + Entries(q, db, page)
  }

  function FindByTypeValueRsp(db: Db, start: u16, end: u16, typeUuid: u16, value: seq<byte>, max: nat): seq<byte>
    requires AllValid(db)
  {
    if typeUuid != PRIMARY_SERVICE.short || (|value| != UUID16_LEN && |value| != UUID128_LEN) then
      ErrorRsp(max, OP_FIND_BY_VALUE_REQ, start, ERR_NOT_FOUND)
    else Respond(ServicesWith(value), db, start, end, max)
  }

  function ReadByGroupTypeRsp(db: Db, start: u16, end: u16, group: seq<byte>, max: nat): seq<byte>
    requires AllValid(db)
  {
    if |group| != UUID16_LEN || U16Decode(group) != PRIMARY_SERVICE.short then
      ErrorRsp(max, OP_READ_BY_GROUP_REQ, start, ERR_UNSUPPORTED_GROUP)
    else Respond(Services, db, start, end, max)
  }

  /** The answer to a request PDU; opcodes other than the four discovery requests are not searched for. */
  function Answer(db: Db, pdu: seq<byte>, max: nat): seq<byte>
    requires AllValid(db) && pdu != []
  {
    var op := pdu[0];
    if op == OP_FIND_INFO_REQ then
      if |pdu| < 5 then ErrorRsp(max, op, 0, ERR_INVALID_PDU)
      else Respond(Everything, db, U16Decode(pdu[1..]), U16Decode(pdu[3..]), max)
    else if op == OP_FIND_BY_VALUE_REQ then
      if |pdu| < 7 then ErrorRsp(max, op, 0, ERR_INVALID_PDU)
      else FindByTypeValueRsp(db, U16Decode(pdu[1..]), U16Decode(pdu[3..]), U16Decode(pdu[5..]), pdu[7..], max)
    else if op == OP_READ_BY_GROUP_REQ || op == OP_READ_BY_TYPE_REQ then
      if |pdu| < 7 || (|pdu| - 5 != UUID16_LEN && |pdu| - 5 != UUID128_LEN) then
        ErrorRsp(max, op, 0, ERR_INVALID_PDU)
      else if op == OP_READ_BY_GROUP_REQ then
        ReadByGroupTypeRsp(db, U16Decode(pdu[1..]), U16Decode(pdu[3..]), pdu[5..], max)
      else Respond(Typed(pdu[5..]), db, U16Decode(pdu[1..]), U16Decode(pdu[3..]), max)
    else ErrorRsp(max, op, 0, ERR_REQUEST_NOT_SUPPORTED)
  }
}
