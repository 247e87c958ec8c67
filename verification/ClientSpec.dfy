/** The GATT client's discovery procedures: requests, response parsing and what it reports. */
module ClientSpec {
  import opened Bytes
  import opened Uuids
  import opened GattTable
  import opened AttSpec

  datatype Procedure = Inactive | PrimaryServices | PrimaryServicesByUuid | Characteristics | Descriptors

  datatype Event =
    | ServiceFound(start: u16, end: u16, uuid: Uuid)
    | CharacteristicFound(decl: u16, props: byte, valueHandle: u16, uuid: Uuid)
    | DescriptorFound(handle: u16, uuid: Uuid)
    | ProcedureComplete(procedure: Procedure)
    | ProcedureError(procedure: Procedure, opcode: byte, handle: u16, code: byte)

  datatype Client = Client(procedure: Procedure, rangeStart: u16, rangeEnd: u16, serviceUuid: Uuid)

  /** A step of the client: its new state, the notifications it makes, and the request it queues. */
  datatype Reaction = Reaction(client: Client, events: seq<Event>, request: Option<seq<byte>>)

  const IDLE: Client := Client(Inactive, 0, 0, NoUuid)

  predicate CanAsk(c: Client, base: Base) {
    c.procedure != Inactive && (c.procedure == PrimaryServicesByUuid ==> IsValid(c.serviceUuid, base))
  }

  function Request(c: Client, base: Base): (pdu: seq<byte>)
    requires CanAsk(c, base)
    ensures pdu != []
  {
    var range := U16Encode(c.rangeStart) + U16Encode(c.rangeEnd);
    match c.procedure
    case PrimaryServices => [OP_READ_BY_GROUP_REQ] + range + U16Encode(PRIMARY_SERVICE.short)
    case PrimaryServicesByUuid =>
      [OP_FIND_BY_VALUE_REQ] + range + U16Encode(PRIMARY_SERVICE.short) + Encode(c.serviceUuid, base)
    case Characteristics => [OP_READ_BY_TYPE_REQ] + range + U16Encode(CHARACTERISTIC.short)
    case Descriptors => [OP_FIND_INFO_REQ] + range
  }

  // ---- parsing -----------------------------------------------------------------------------------

  /** The length of the items in a response of the current procedure, 0 when it is malformed. */
  function ItemLen(c: Client, rsp: seq<byte>): nat
    requires c.procedure != Inactive && |rsp| >= 2
  {
    match c.procedure
    case PrimaryServices => if rsp[1] == 6 || rsp[1] == 20 then rsp[1] else 0
    case PrimaryServicesByUuid => if |rsp| >= 5 && (|rsp| - 1) % 4 == 0 then 4 else 0
    case Characteristics => if rsp[1] == 7 || rsp[1] == 21 then rsp[1] else 0
    case Descriptors => if rsp[1] == 1 then 4 else if rsp[1] == 2 then 18 else 0
  }

  function FirstItem(c: Client): nat { if c.procedure == PrimaryServicesByUuid then 1 else 2 }

  function MinItem(p: Procedure): nat {
    match p
    case PrimaryServices => 4
    case PrimaryServicesByUuid => 4
    case Characteristics => 5
    case Descriptors => 2
    case Inactive => 0
  }

  function Decode(c: Client, item: seq<byte>): Event
    requires c.procedure != Inactive && |item| >= MinItem(c.procedure)
  {
    match c.procedure
    case PrimaryServices => ServiceFound(U16Decode(item), U16Decode(item[2..]), FromBytes(item[4..]))
    case PrimaryServicesByUuid => ServiceFound(U16Decode(item), U16Decode(item[2..]), c.serviceUuid)
    case Characteristics =>
      CharacteristicFound(U16Decode(item), item[2], U16Decode(item[3..]), FromBytes(item[5..]))
    case Descriptors => DescriptorFound(U16Decode(item), FromBytes(item[2..]))
  }

  function Parse(c: Client, rsp: seq<byte>, offset: nat, len: nat): seq<Event>
    requires c.procedure != Inactive && len >= MinItem(c.procedure) && len > 0
    decreases |rsp| - offset
  {
    if offset + len > |rsp| then []
    else [Decode(c, rsp[offset..offset + len])] + Parse(c, rsp, offset + len, len)
  }

  /** The handle after which the next request starts: a service is skipped to its end. */
  function LastHandle(events: seq<Event>): u16 {
    if events == [] then 0
    else
      match events[|events| - 1]
      case ServiceFound(_, end, _) => end
      case CharacteristicFound(decl, _, _, _) => decl
      case DescriptorFound(handle, _) => handle
      case ProcedureComplete(_) => 0
      case ProcedureError(_, _, _, _) => 0
  }

  // ---- reacting ------------------------------------------------------------------------------------

  function Completed(c: Client, events: seq<Event>): Reaction {
    Reaction(IDLE, events + [ProcedureComplete(c.procedure)], None)
  }

  function Malformed(c: Client): Reaction {
    Reaction(IDLE, [ProcedureError(c.procedure, RequestFor(c.procedure), c.rangeStart, ERR_INVALID_PDU)], None)
  }

  function RequestFor(p: Procedure): byte {
    match p
    case PrimaryServices => OP_READ_BY_GROUP_REQ
    case PrimaryServicesByUuid => OP_FIND_BY_VALUE_REQ
    case Characteristics => OP_READ_BY_TYPE_REQ
    case Descriptors => OP_FIND_INFO_REQ
    case Inactive => 0
  }

  function ResponseFor(p: Procedure): byte {
    match p
    case PrimaryServices => OP_READ_BY_GROUP_RSP
    case PrimaryServicesByUuid => OP_FIND_BY_VALUE_RSP
    case Characteristics => OP_READ_BY_TYPE_RSP
    case Descriptors => OP_FIND_INFO_RSP
    case Inactive => 0
  }

  /** A discovery response of the current procedure. queued tells whether a follow-up request is accepted. */
  function OnItems(c: Client, base: Base, rsp: seq<byte>, queued: bool): Reaction
    requires CanAsk(c, base) && rsp != []
  {
    if |rsp| < 2 then if c.procedure == PrimaryServicesByUuid then Malformed(c) else Reaction(c, [], None)
    else if ItemLen(c, rsp) == 0 then Malformed(c)
    else
      var events := Parse(c, rsp, FirstItem(c), ItemLen(c, rsp));
      var last := LastHandle(events);
      if last == 0 || last >= c.rangeEnd then Completed(c, events)
      else
        var c' := c.(rangeStart := last + 1);
        if queued then Reaction(c', events, Some(Request(c', base))) else Completed(c, events)
  }

  /** Attribute-not-found for the request of the procedure is its normal end. */
  function OnError(c: Client, rsp: seq<byte>): Reaction
    requires rsp != []
  {
    if |rsp| < 5 then Reaction(c, [], None)
    else if c.procedure != Inactive && rsp[1] == RequestFor(c.procedure) && rsp[4] == ERR_NOT_FOUND then
      Completed(c, [])
    else Reaction(IDLE, [ProcedureError(c.procedure, rsp[1], U16Decode(rsp[2..]), rsp[4])], None)
  }

  function React(c: Client, base: Base, rsp: seq<byte>, queued: bool): Reaction
    requires rsp != [] && (c.procedure == Inactive || CanAsk(c, base))
  {
    if rsp[0] == OP_ERROR then OnError(c, rsp)
    else if c.procedure != Inactive && rsp[0] == ResponseFor(c.procedure) then OnItems(c, base, rsp, queued)
    else Reaction(c, [], None)
  }
}
