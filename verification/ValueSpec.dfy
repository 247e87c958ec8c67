/**
 * Values at the GATT server: reads, writes, client configuration, notifications, indications and the
 * MTU exchange (stack/host/gatt/ble_gatt_server.c).
 */
module ValueSpec {
  import opened Bytes
  import opened Seqs
  import opened Uuids
  import opened GattTable
  import opened AttSpec

  const OP_MTU_REQ: byte := 0x02
  const OP_MTU_RSP: byte := 0x03
  const OP_READ_REQ: byte := 0x0A
  const OP_READ_RSP: byte := 0x0B
  const OP_WRITE_REQ: byte := 0x12
  const OP_WRITE_RSP: byte := 0x13
  const OP_NOTIFICATION: byte := 0x1B
  const OP_INDICATION: byte := 0x1D
  const OP_CONFIRMATION: byte := 0x1E
  const OP_WRITE_CMD: byte := 0x52
  const ERR_INVALID_HANDLE: byte := 0x01
  const ERR_READ_NOT_PERMITTED: byte := 0x02
  const ERR_WRITE_NOT_PERMITTED: byte := 0x03
  const ERR_VALUE_LEN: byte := 0x0D
  const ERR_VALUE_NOT_ALLOWED: byte := 0x13

  const DATA_OCTETS_DEFAULT: nat := 27

  /** Which of its two pushes a client has configured. */
  datatype Push = Notify | Indicate

  /** What the server tells the application and what it pushes; Reset begins a connection. */
  datatype Note =
    | Reset
    | Enabled(index: nat, push: Push) | Disabled(index: nat, push: Push)
    | Written(index: nat)
    | Pushed(index: nat, push: Push, pdu: seq<byte>)
    | Confirmed

  datatype Gatt = Gatt(db: Db, pending: bool, mtu: nat, log: seq<Note>)

  function Property(push: Push): nat { if push == Notify then PROP_NOTIFY else PROP_INDICATE }

  function Bit(push: Push, value: seq<byte>): bool {
    |value| > 0 && (if push == Notify then value[0] % 2 == 1 else value[0] / 2 % 2 == 1)
  }

  // ---- the entries of a characteristic ----------------------------------------------------------------

  /** A value entry follows its declaration, a CCCD its value, and a value has a CCCD when its properties need one. */
  ghost predicate ShapeAt(attrs: seq<Attr>, x: nat)
    requires x < |attrs|
  {
    match attrs[x].owner
    case NoOwner => !attrs[x].writable
    case ValueOf(k) =>
      && x > 0 && attrs[x - 1].owner == NoOwner && |attrs[x - 1].value| > 0
      && (NeedsCccd(attrs[x - 1].value[0]) <==> x + 1 < |attrs| && attrs[x + 1].owner == CccdOf(k))
    case CccdOf(k) =>
      && x > 1 && attrs[x - 1].owner == ValueOf(k)
      && attrs[x].writable && attrs[x].readable && |attrs[x].value| == 2 && attrs[x].maxLen == 2
  }

  ghost predicate Shape(db: Db) {
    && Sound(db)
    && (forall x :: 0 <= x < |db.attrs| ==> ShapeAt(db.attrs, x))
    && (forall x, y :: 0 <= x < y < |db.attrs| && db.attrs[x].owner != NoOwner ==> db.attrs[x].owner != db.attrs[y].owner)
  }

  function Props(attrs: seq<Attr>, x: nat): byte
    requires x < |attrs|
  {
    match attrs[x].owner
    case ValueOf(_) => if x > 0 && |attrs[x - 1].value| > 0 then attrs[x - 1].value[0] else 0
    case CccdOf(_) => if x > 1 && |attrs[x - 2].value| > 0 then attrs[x - 2].value[0] else 0
    case NoOwner => 0
  }

  /** The configuration of the characteristic whose value entry is at x. */
  function Configured(attrs: seq<Attr>, x: nat): seq<byte>
    requires x < |attrs|
  {
    if attrs[x].owner.ValueOf? && x + 1 < |attrs| && attrs[x + 1].owner == CccdOf(attrs[x].owner.index) then
      attrs[x + 1].value
    else [0, 0]
  }

  /** Handles are positions. */
  function Locate(db: Db, handle: u16): Option<nat> {
    if 1 <= handle <= |db.attrs| then Some(handle - 1) else None
  }

  // ---- writes ------------------------------------------------------------------------------------------

  /** No bit beyond those the properties allow. */
  predicate ConfigAllowed(props: byte, value: seq<byte>)
    requires |value| >= 2
  {
    var v := U16Decode(value);
    && v < 4
    && (v % 2 == 1 ==> Has(props, PROP_NOTIFY))
    && (v / 2 % 2 == 1 ==> Has(props, PROP_INDICATE))
  }

  /** Why a write is refused; a command is refused silently, but by the same rules except its property. */
  function Refusal(db: Db, handle: u16, data: seq<byte>, withRsp: bool): Option<byte> {
    if Locate(db, handle).None? then Some(ERR_INVALID_HANDLE)
    else
      var x := Locate(db, handle).value;
      var a := db.attrs[x];
      if !a.writable then Some(ERR_WRITE_NOT_PERMITTED)
      else if a.owner.CccdOf? && |data| != 2 then Some(ERR_VALUE_LEN)
      else if a.owner.CccdOf? && !ConfigAllowed(Props(db.attrs, x), data) then Some(ERR_VALUE_NOT_ALLOWED)
      else if a.owner.ValueOf? && !Has(Props(db.attrs, x), if withRsp then PROP_WRITE else PROP_WRITE_NO_RESP) then
        Some(ERR_WRITE_NOT_PERMITTED)
      else if |data| > a.maxLen then Some(ERR_VALUE_LEN)
      else None
  }

  function Store(db: Db, x: nat, data: seq<byte>): Db
    requires x < |db.attrs|
  {
    db.(attrs := db.attrs[x := db.attrs[x].(value := data)])
  }

  function ChangeNote(k: nat, push: Push, before: seq<byte>, after: seq<byte>): seq<Note> {
    if Bit(push, before) == Bit(push, after) then []
    else if Bit(push, after) then [Enabled(k, push)] else [Disabled(k, push)]
  }

  function WriteNotes(a: Attr, data: seq<byte>): seq<Note> {
    match a.owner
    case CccdOf(k) => ChangeNote(k, Notify, a.value, data) + ChangeNote(k, Indicate, a.value, data)
    case ValueOf(k) => [Written(k)]
    case NoOwner => []
  }

  function Write(s: Gatt, handle: u16, data: seq<byte>, withRsp: bool): Gatt {
    if Refusal(s.db, handle, data, withRsp).Some? then s
    else
      var x := Locate(s.db, handle).value;
      s.(db := Store(s.db, x, data), log := s.log + WriteNotes(s.db.attrs[x], data))
  }

  function WriteRsp(db: Db, handle: u16, data: seq<byte>, max: nat): seq<byte> {
    match Refusal(db, handle, data, true)
    case Some(code) => ErrorRsp(max, OP_WRITE_REQ, handle, code)
    case None => if max < 1 then [] else [OP_WRITE_RSP]
  }

  // ---- reads -------------------------------------------------------------------------------------------

  function ReadRsp(db: Db, handle: u16, max: nat): seq<byte>
    requires max >= 1
  {
    if Locate(db, handle).None? then ErrorRsp(max, OP_READ_REQ, handle, ERR_INVALID_HANDLE)
    else
      var a := db.attrs[Locate(db, handle).value];
      if !a.readable then ErrorRsp(max, OP_READ_REQ, handle, ERR_READ_NOT_PERMITTED)
      else [OP_READ_RSP] + Take(Take(a.value, a.maxLen), max - 1)
  }

  // ---- notifications and indications -----------------------------------------------------------------

  /** The PDU that pushes the value with this handle, if it may be pushed and fits. */
  function ValuePdu(s: Gatt, handle: u16, push: Push): Option<seq<byte>> {
    if Locate(s.db, handle).None? then None
    else
      var x := Locate(s.db, handle).value;
      var a := s.db.attrs[x];
      var value := Take(a.value, a.maxLen);
      if a.owner.ValueOf? && Has(Props(s.db.attrs, x), Property(push)) && Bit(push, Configured(s.db.attrs, x))
         && 3 + |value| <= (if s.mtu < ATT_MAX_MTU then s.mtu else ATT_MAX_MTU) && !(push == Indicate && s.pending) then
        Some([if push == Notify then OP_NOTIFICATION else OP_INDICATION] + U16Encode(handle) + value)
      else None
  }

  /** An indication waits for its confirmation from the moment the queue has taken it. */
  function PushValue(s: Gatt, handle: u16, push: Push, accepted: bool): Gatt {
    var pdu := ValuePdu(s, handle, push);
    if pdu.None? || !accepted then s
    else
      var k := s.db.attrs[Locate(s.db, handle).value].owner.index;
      s.(pending := s.pending || push == Indicate, log := s.log + [Pushed(k, push, pdu.value)])
  }

  function Confirm(s: Gatt): Gatt { s.(pending := false, log := s.log + [Confirmed]) }

  /** A new connection starts unconfigured, with the default MTU and nothing pending. */
  function ResetConnection(s: Gatt): Gatt {
    Gatt(Unconfigured(s.db), false, ATT_MTU_DEFAULT, s.log + [Reset])
  }

  function Unconfigured(db: Db): Db {
    Db(seq(|db.attrs|, x requires 0 <= x < |db.attrs| =>
         if db.attrs[x].owner.CccdOf? then db.attrs[x].(value := [0, 0]) else db.attrs[x]), db.base)
  }

  // ---- MTU ----------------------------------------------------------------------------------------------

  function Min(a: nat, b: nat): nat { if a < b then a else b }

  /** The largest ATT PDU one data packet of the link can carry after its four header octets, within 23 to 247. */
  function LocalMaxMtu(connected: bool, maxTx: nat, maxRx: nat): (m: nat)
    ensures 23 <= m <= 247
    ensures var octets := if connected then Min(maxTx, maxRx) else 27;
            (m == 23 || m + 4 <= octets) && (m == 247 || octets < m + 5)
  {
    var octets := if connected then Min(maxTx, maxRx) else DATA_OCTETS_DEFAULT;
    if octets <= 4 || octets - 4 < ATT_MTU_DEFAULT then ATT_MTU_DEFAULT else Min(octets - 4, ATT_MAX_MTU)
  }

  function MtuRequest(s: Gatt, requested: u16, local: nat): Gatt { s.(mtu := Min(requested, local)) }

  // ---- the dispatcher ------------------------------------------------------------------------------------

  /** A PDU from the client, with room for a response of room octets; local is the local maximum MTU. */
  function Process(s: Gatt, pdu: seq<byte>, room: nat, local: u16): (r: (Gatt, seq<byte>))
    requires AllValid(s.db) && pdu != [] && Min(room, s.mtu) >= 1
  {
    var max := Min(room, s.mtu);
    var op := pdu[0];
    if op == OP_MTU_REQ then
      if |pdu| < 3 then (s, ErrorRsp(max, op, 0, ERR_INVALID_PDU))
      else (MtuRequest(s, U16Decode(pdu[1..]), local), if max < 3 then [] else [OP_MTU_RSP] + U16Encode(local))
    else if op == OP_READ_REQ then
      (s, if |pdu| < 3 then ErrorRsp(max, op, 0, ERR_INVALID_PDU) else ReadRsp(s.db, U16Decode(pdu[1..]), max))
    else if op == OP_WRITE_REQ then
      if |pdu| < 3 then (s, ErrorRsp(max, op, 0, ERR_INVALID_PDU))
      else
        (Write(s, U16Decode(pdu[1..]), pdu[3..], true), WriteRsp(s.db, U16Decode(pdu[1..]), pdu[3..], max))
    else if op == OP_WRITE_CMD then
      (if |pdu| >= 3 then Write(s, U16Decode(pdu[1..]), pdu[3..], false) else s, [])
    else if op == OP_CONFIRMATION then (if |pdu| == 1 then Confirm(s) else s, [])
    else (s, Answer(s.db, pdu, max))
  }
}
