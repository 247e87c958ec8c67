/** The GATT client object: its procedure fields, updated in place by responses (ble_gatt_client.c). */
module GattClient {
  import opened Bytes
  import opened Uuids
  import opened GattTable
  import opened AttSpec
  import opened ClientSpec

  // ---- one more item parsed ---------------------------------------------------------------------

  /** Of the items of rsp those before offset are done, last is where they end; the rest are to be parsed. */
  ghost predicate Parsed(c: Client, rsp: seq<byte>, len: nat, offset: nat, done: seq<Event>, last: u16) {
    && c.procedure != Inactive && len >= MinItem(c.procedure) && len > 0
    && Parse(c, rsp, FirstItem(c), len) == done + Parse(c, rsp, offset, len)
    && last == LastHandle(done)
  }

  lemma {:induction false} ParsedNone(c: Client, rsp: seq<byte>, len: nat)
    requires c.procedure != Inactive && len >= MinItem(c.procedure) && len > 0
    ensures Parsed(c, rsp, len, FirstItem(c), [], 0)
  {
  }

  lemma {:induction false} ParsedOne(c: Client, rsp: seq<byte>, len: nat, offset: nat, done: seq<Event>, last: u16, e: Event)
    requires Parsed(c, rsp, len, offset, done, last) && offset + len <= |rsp|
    requires e == Decode(c, rsp[offset..offset + len])
    ensures Parsed(c, rsp, len, offset + len, done + [e], LastHandle([e]))
  {
    hide Decode;
    assert Parse(c, rsp, offset, len) == [e] + Parse(c, rsp, offset + len, len);
    assert done + ([e] + Parse(c, rsp, offset + len, len)) == (done + [e]) + Parse(c, rsp, offset + len, len);
  }

  /** With the items of a response reported, the client goes on after the last handle, or ends. */
  function After(c: Client, base: Base, events: seq<Event>, last: u16, accepted: bool): Reaction
    requires CanAsk(c, base)
  {
    if 0 < last < c.rangeEnd && accepted then
      Reaction(c.(rangeStart := last + 1), events, Some(Request(c.(rangeStart := last + 1), base)))
    else Completed(c, events)
  }

  lemma {:induction false} ParsedAll(c: Client, base: Base, rsp: seq<byte>, len: nat, offset: nat,
                                     done: seq<Event>, last: u16, accepted: bool)
    requires Parsed(c, rsp, len, offset, done, last) && offset + len > |rsp|
    requires CanAsk(c, base) && |rsp| >= 2 && ItemLen(c, rsp) == len
    ensures OnItems(c, base, rsp, accepted) == After(c, base, done, last, accepted)
  {
    assert done + [] == done;
  }

  lemma {:induction false} DecodeService(c: Client, rsp: seq<byte>, offset: nat, len: nat)
    requires c.procedure == PrimaryServices && 4 <= len && offset + len <= |rsp|
    ensures Decode(c, rsp[offset..offset + len])
         == ServiceFound(U16Decode(rsp[offset..]), U16Decode(rsp[offset + 2..]), FromBytes(rsp[offset + 4..offset + len]))
  {
    var item := rsp[offset..offset + len];
    assert item[2..][0] == rsp[offset + 2] && item[2..][1] == rsp[offset + 3];
    assert item[4..] == rsp[offset + 4..offset + len];
  }

  lemma {:induction false} DecodeServiceByUuid(c: Client, rsp: seq<byte>, offset: nat)
    requires c.procedure == PrimaryServicesByUuid && offset + 4 <= |rsp|
    ensures Decode(c, rsp[offset..offset + 4])
         == ServiceFound(U16Decode(rsp[offset..]), U16Decode(rsp[offset + 2..]), c.serviceUuid)
  {
  }

  lemma {:induction false} DecodeCharacteristic(c: Client, rsp: seq<byte>, offset: nat, len: nat)
    requires c.procedure == Characteristics && 5 <= len && offset + len <= |rsp|
    ensures Decode(c, rsp[offset..offset + len])
         == CharacteristicFound(U16Decode(rsp[offset..]), rsp[offset + 2], U16Decode(rsp[offset + 3..]),
                                FromBytes(rsp[offset + 5..offset + len]))
  {
    assert rsp[offset..offset + len][5..] == rsp[offset + 5..offset + len];
  }

  lemma {:induction false} DecodeDescriptor(c: Client, rsp: seq<byte>, offset: nat, len: nat)
    requires c.procedure == Descriptors && 2 <= len && offset + len <= |rsp|
    ensures Decode(c, rsp[offset..offset + len])
         == DescriptorFound(U16Decode(rsp[offset..]), FromBytes(rsp[offset + 2..offset + len]))
  {
    assert rsp[offset..offset + len][2..] == rsp[offset + 2..offset + len];
  }

  /** What a reaction adds to the queue. */
  function Queued(r: Reaction): seq<seq<byte>> {
    if r.request.Some? then [r.request.value] else []
  }

  class GattClient {
    var procedure: Procedure
    var rangeStart: u16
    var rangeEnd: u16
    var serviceUuid: Uuid
    var events: seq<Event>
    var requests: seq<seq<byte>>
    const base: Base

    function State(): Client reads this {
      Client(procedure, rangeStart, rangeEnd, serviceUuid)
    }

    /** A running procedure always has a proper range left to ask for; without one the state is clear. */
    ghost predicate Valid() reads this {
      && (procedure == Inactive ==> State() == IDLE)
      && (procedure != Inactive ==> CanAsk(State(), base) && 1 <= rangeStart <= rangeEnd)
    }

    constructor (b: Base)
      ensures Valid() && State() == IDLE && events == [] && requests == [] && base == b
    {
      procedure, rangeStart, rangeEnd, serviceUuid := Inactive, 0, 0, NoUuid;
      events, requests, base := [], [], b;
    }

    method ClearProcedure()
      modifies this`procedure, this`rangeStart, this`rangeEnd, this`serviceUuid
      ensures State() == IDLE
    {
      procedure, rangeStart, rangeEnd, serviceUuid := Inactive, 0, 0, NoUuid;
    }

    /** The L2CAP queue takes the request or is full. */
    method QueueRequest(accepted: bool) returns (ok: bool)
      requires CanAsk(State(), base)
      modifies this`requests
      ensures ok == accepted
      ensures requests == if accepted then old(requests) + [Request(State(), base)] else old(requests)
    {
      if accepted {
        requests := requests + [Request(State(), base)];
      }
      ok := accepted;
    }

    // ---- starting a procedure --------------------------------------------------------------------

    method Start(c: Client, ready: bool, accepted: bool) returns (ok: bool)
      requires Valid() && CanAsk(c, base) && 1 <= c.rangeStart <= c.rangeEnd
      modifies this
      ensures Valid() && events == old(events)
      ensures ok == (ready && accepted && old(procedure) == Inactive)
      ensures State() == if ok then c else old(State())
      ensures requests == if ok then old(requests) + [Request(c, base)] else old(requests)
    {
      if !ready || procedure != Inactive {
        return false;
      }
      procedure, rangeStart, rangeEnd, serviceUuid := c.procedure, c.rangeStart, c.rangeEnd, c.serviceUuid;
      ok := QueueRequest(accepted);
      if !ok {
        ClearProcedure();
      }
    }

    method DiscoverPrimaryServices(ready: bool, accepted: bool) returns (ok: bool)
      requires Valid()
      modifies this
      ensures Valid() && events == old(events)
      ensures ok == (ready && accepted && old(procedure) == Inactive)
      ensures State() == if ok then Client(PrimaryServices, 1, 0xFFFF, NoUuid) else old(State())
      ensures requests == if ok then old(requests) + [Request(State(), base)] else old(requests)
    {
      ok := Start(Client(PrimaryServices, 1, 0xFFFF, NoUuid), ready, accepted);
    }

    method DiscoverPrimaryServicesByUuid(uuid: Uuid, ready: bool, accepted: bool) returns (ok: bool)
      requires Valid()
      modifies this
      ensures Valid() && events == old(events)
      ensures ok == (ready && accepted && old(procedure) == Inactive && IsValid(uuid, base))
      ensures State() == if ok then Client(PrimaryServicesByUuid, 1, 0xFFFF, uuid) else old(State())
      ensures requests == if ok then old(requests) + [Request(State(), base)] else old(requests)
    {
      if !IsValid(uuid, base) {
        return false;
      }
      ok := Start(Client(PrimaryServicesByUuid, 1, 0xFFFF, uuid), ready, accepted);
    }

    method DiscoverCharacteristics(start: u16, end: u16, ready: bool, accepted: bool) returns (ok: bool)
      requires Valid()
      modifies this
      ensures Valid() && events == old(events)
      ensures ok == (ready && accepted && old(procedure) == Inactive && 1 <= start <= end)
      ensures State() == if ok then Client(Characteristics, start, end, NoUuid) else old(State())
      ensures requests == if ok then old(requests) + [Request(State(), base)] else old(requests)
    {
      if start == 0 || start > end {
        return false;
      }
      ok := Start(Client(Characteristics, start, end, NoUuid), ready, accepted);
    }

    method DiscoverDescriptors(start: u16, end: u16, ready: bool, accepted: bool) returns (ok: bool)
      requires Valid()
      modifies this
      ensures Valid() && events == old(events)
      ensures ok == (ready && accepted && old(procedure) == Inactive && 1 <= start <= end)
      ensures State() == if ok then Client(Descriptors, start, end, NoUuid) else old(State())
      ensures requests == if ok then old(requests) + [Request(State(), base)] else old(requests)
    {
      if start == 0 || start > end {
        return false;
      }
      ok := Start(Client(Descriptors, start, end, NoUuid), ready, accepted);
    }

    // ---- responses ---------------------------------------------------------------------------------

    method ReportMalformed()
      requires Valid() && procedure != Inactive
      modifies this
      ensures Valid() && requests == old(requests)
      ensures State() == Malformed(old(State())).client && events == old(events) + Malformed(old(State())).events
    {
      events := events + [ProcedureError(procedure, RequestFor(procedure), rangeStart, ERR_INVALID_PDU)];
      ClearProcedure();
    }

    method Complete()
      requires Valid() && procedure != Inactive
      modifies this
      ensures Valid() && State() == IDLE && requests == old(requests)
      ensures events == old(events) + [ProcedureComplete(old(procedure))]
    {
      events := events + [ProcedureComplete(procedure)];
      ClearProcedure();
    }

    /** After the items of a response: go on after the last handle, or end. */
    method Continue(last: u16, accepted: bool)
      requires Valid() && procedure != Inactive
      modifies this
      ensures Valid()
      ensures State() == After(old(State()), base, [], last, accepted).client
      ensures events == old(events) + After(old(State()), base, [], last, accepted).events
      ensures requests == old(requests) + Queued(After(old(State()), base, [], last, accepted))
    {
      if last == 0 || last >= rangeEnd {
        Complete();
        return;
      }
      rangeStart := last + 1;
      var ok := QueueRequest(accepted);
      if !ok {
        Complete();
      }
    }

    method HandleServices(rsp: seq<byte>, accepted: bool)
      requires Valid() && procedure == PrimaryServices && 0 < |rsp| <= ATT_MAX_MTU
      modifies this
      ensures Valid()
      ensures State() == OnItems(old(State()), base, rsp, accepted).client
      ensures events == old(events) + OnItems(old(State()), base, rsp, accepted).events
      ensures requests == old(requests) + Queued(OnItems(old(State()), base, rsp, accepted))
    {
      if |rsp| < 2 {
        return;
      }
      var len := rsp[1];
      if len != 6 && len != 20 {
        ReportMalformed();
        return;
      }
      ghost var c, before := State(), events;
      ghost var done: seq<Event> := [];
      var offset, last := 2, 0;
      hide Parsed;
      hide OnItems;
      hide Request;
      hide FromBytes;
      ParsedNone(c, rsp, len);
      while offset + len <= |rsp|
        invariant 2 <= offset && State() == c && Valid() && requests == old(requests)
        invariant events == before + done
        invariant Parsed(c, rsp, len, offset, done, last)
        decreases |rsp| - offset
      {
        var start, end := U16Decode(rsp[offset..]), U16Decode(rsp[offset + 2..]);
        DecodeService(c, rsp, offset, len);
        ghost var e := ServiceFound(start, end, FromBytes(rsp[offset + 4..offset + len]));
        ParsedOne(c, rsp, len, offset, done, last, e);
        events := events + [ServiceFound(start, end, FromBytes(rsp[offset + 4..offset + len]))];
        done := done + [e];
        last := end;
        offset := offset + len;
      }
      ParsedAll(c, base, rsp, len, offset, done, last, accepted);
      Continue(last, accepted);
    }

    method HandleServicesByUuid(rsp: seq<byte>, accepted: bool)
      requires Valid() && procedure == PrimaryServicesByUuid && 0 < |rsp| <= ATT_MAX_MTU
      modifies this
      ensures Valid()
      ensures State() == OnItems(old(State()), base, rsp, accepted).client
      ensures events == old(events) + OnItems(old(State()), base, rsp, accepted).events
      ensures requests == old(requests) + Queued(OnItems(old(State()), base, rsp, accepted))
    {
      if |rsp| < 5 || (|rsp| - 1) % 4 != 0 {
        ReportMalformed();
        return;
      }
      ghost var c, before := State(), events;
      ghost var done: seq<Event> := [];
      var offset, last, len := 1, 0, 4;
      hide Parsed;
      hide OnItems;
      hide Request;
      hide FromBytes;
      ParsedNone(c, rsp, len);
      while offset + len <= |rsp|
        invariant 1 <= offset && State() == c && Valid() && requests == old(requests)
        invariant events == before + done
        invariant Parsed(c, rsp, len, offset, done, last)
        decreases |rsp| - offset
      {
        var start, end := U16Decode(rsp[offset..]), U16Decode(rsp[offset + 2..]);
        DecodeServiceByUuid(c, rsp, offset);
        ghost var e := ServiceFound(start, end, serviceUuid);
        ParsedOne(c, rsp, len, offset, done, last, e);
        events := events + [ServiceFound(start, end, serviceUuid)];
        done := done + [e];
        last := end;
        offset := offset + len;
      }
      ParsedAll(c, base, rsp, len, offset, done, last, accepted);
      Continue(last, accepted);
    }

    method HandleCharacteristics(rsp: seq<byte>, accepted: bool)
      requires Valid() && procedure == Characteristics && 0 < |rsp| <= ATT_MAX_MTU
      modifies this
      ensures Valid()
      ensures State() == OnItems(old(State()), base, rsp, accepted).client
      ensures events == old(events) + OnItems(old(State()), base, rsp, accepted).events
      ensures requests == old(requests) + Queued(OnItems(old(State()), base, rsp, accepted))
    {
      if |rsp| < 2 {
        return;
      }
      var len := rsp[1];
      if len != 7 && len != 21 {
        ReportMalformed();
        return;
      }
      ghost var c, before := State(), events;
      ghost var done: seq<Event> := [];
      var offset, last := 2, 0;
      hide Parsed;
      hide OnItems;
      hide Request;
      hide FromBytes;
      ParsedNone(c, rsp, len);
      while offset + len <= |rsp|
        invariant 2 <= offset && State() == c && Valid() && requests == old(requests)
        invariant events == before + done
        invariant Parsed(c, rsp, len, offset, done, last)
        decreases |rsp| - offset
      {
        var decl, props, value := U16Decode(rsp[offset..]), rsp[offset + 2], U16Decode(rsp[offset + 3..]);
        DecodeCharacteristic(c, rsp, offset, len);
        ghost var e := CharacteristicFound(decl, props, value, FromBytes(rsp[offset + 5..offset + len]));
        ParsedOne(c, rsp, len, offset, done, last, e);
        events := events + [CharacteristicFound(decl, props, value, FromBytes(rsp[offset + 5..offset + len]))];
        done := done + [e];
        last := decl;
        offset := offset + len;
      }
      ParsedAll(c, base, rsp, len, offset, done, last, accepted);
      Continue(last, accepted);
    }

    method HandleDescriptors(rsp: seq<byte>, accepted: bool)
      requires Valid() && procedure == Descriptors && 0 < |rsp| <= ATT_MAX_MTU
      modifies this
      ensures Valid()
      ensures State() == OnItems(old(State()), base, rsp, accepted).client
      ensures events == old(events) + OnItems(old(State()), base, rsp, accepted).events
      ensures requests == old(requests) + Queued(OnItems(old(State()), base, rsp, accepted))
    {
      if |rsp| < 2 {
        return;
      }
      var len := 4;
      if rsp[1] == 2 {
        len := 18;
      } else if rsp[1] != 1 {
        ReportMalformed();
        return;
      }
      ghost var c, before := State(), events;
      ghost var done: seq<Event> := [];
      var offset, last := 2, 0;
      hide Parsed;
      hide OnItems;
      hide Request;
      hide FromBytes;
      ParsedNone(c, rsp, len);
      while offset + len <= |rsp|
        invariant 2 <= offset && State() == c && Valid() && requests == old(requests)
        invariant events == before + done
        invariant Parsed(c, rsp, len, offset, done, last)
        decreases |rsp| - offset
      {
        var handle := U16Decode(rsp[offset..]);
        DecodeDescriptor(c, rsp, offset, len);
        ghost var e := DescriptorFound(handle, FromBytes(rsp[offset + 2..offset + len]));
        ParsedOne(c, rsp, len, offset, done, last, e);
        events := events + [DescriptorFound(handle, FromBytes(rsp[offset + 2..offset + len]))];
        done := done + [e];
        last := handle;
        offset := offset + len;
      }
      ParsedAll(c, base, rsp, len, offset, done, last, accepted);
      Continue(last, accepted);
    }

    method HandleError(rsp: seq<byte>)
      requires Valid() && 0 < |rsp| <= ATT_MAX_MTU
      modifies this
      ensures Valid() && requests == old(requests)
      ensures State() == OnError(old(State()), rsp).client
      ensures events == old(events) + OnError(old(State()), rsp).events
    {
      if |rsp| < 5 {
        return;
      }
      if procedure != Inactive && rsp[1] == RequestFor(procedure) && rsp[4] == ERR_NOT_FOUND {
        Complete();
        return;
      }
      events := events + [ProcedureError(procedure, rsp[1], U16Decode(rsp[2..]), rsp[4])];
      ClearProcedure();
    }

    /** A received PDU: the state, the notifications and the queue change as the reaction says. */
    method Process(rsp: seq<byte>, accepted: bool)
      requires Valid() && 0 < |rsp| <= ATT_MAX_MTU
      modifies this
      ensures Valid()
      ensures State() == React(old(State()), base, rsp, accepted).client
      ensures events == old(events) + React(old(State()), base, rsp, accepted).events
      ensures requests == old(requests) + Queued(React(old(State()), base, rsp, accepted))
    {
      hide OnItems;
      var op := rsp[0];
      if op == OP_ERROR {
        HandleError(rsp);
      } else if op == OP_READ_BY_GROUP_RSP {
        if procedure == PrimaryServices { HandleServices(rsp, accepted); }
      } else if op == OP_FIND_BY_VALUE_RSP {
        if procedure == PrimaryServicesByUuid { HandleServicesByUuid(rsp, accepted); }
      } else if op == OP_READ_BY_TYPE_RSP {
        if procedure == Characteristics { HandleCharacteristics(rsp, accepted); }
      } else if op == OP_FIND_INFO_RSP {
        if procedure == Descriptors { HandleDescriptors(rsp, accepted); }
      }
    }
  }
}
