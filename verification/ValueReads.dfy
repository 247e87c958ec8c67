/**
 * What a client sees of the values: reads after writes, which writes are taken, what a push carries. Octets,
 * opcodes and property bits are written out as they are on the air.
 */
module ValueReads {
  import opened Bytes
  import opened Seqs
  import opened GattTable
  import opened AttSpec
  import opened ValueSpec
  import opened ValueResults

  function ReadPdu(handle: u16): seq<byte> { [0x0A] + U16Encode(handle) }

  function WritePdu(handle: u16, data: seq<byte>, withRsp: bool): seq<byte> {
    [if withRsp then 0x12 else 0x52] + U16Encode(handle) + data
  }

  predicate Exists(db: Db, handle: u16) { 1 <= handle <= |db.attrs| }

  /** The properties declared for the characteristic of a value or of a configuration. */
  predicate Declared(db: Db, handle: u16, bit: nat)
    requires Exists(db, handle) && bit > 0
  {
    match db.attrs[handle - 1].owner
    case ValueOf(_) => handle >= 2 && db.attrs[handle - 2].value != [] && db.attrs[handle - 2].value[0] / bit % 2 == 1
    case CccdOf(_) => handle >= 3 && db.attrs[handle - 3].value != [] && db.attrs[handle - 3].value[0] / bit % 2 == 1
    case NoOwner => false
  }

  /** A value takes what fits it if its characteristic allows it; a configuration two octets of declared bits. */
  predicate Allowed(db: Db, handle: u16, data: seq<byte>, withRsp: bool) {
    && Exists(db, handle) && db.attrs[handle - 1].writable
    && match db.attrs[handle - 1].owner
       case ValueOf(_) => |data| <= db.attrs[handle - 1].maxLen && Declared(db, handle, if withRsp then 0x08 else 0x04)
       case CccdOf(_) =>
         && |data| == 2 && data[0] < 4 && data[1] == 0
         && (data[0] % 2 == 1 ==> Declared(db, handle, 0x10)) && (data[0] / 2 == 1 ==> Declared(db, handle, 0x20))
       case NoOwner => false
  }

  /** Why a write that is not allowed is refused. */
  function Reason(db: Db, handle: u16, data: seq<byte>): byte {
    if !Exists(db, handle) then 0x01
    else if !db.attrs[handle - 1].writable then 0x03
    else if db.attrs[handle - 1].owner.CccdOf? then if |data| != 2 then 0x0D else 0x13
    else if !Declared(db, handle, 0x08) then 0x03
    else 0x0D
  }

  // ---- writes ----------------------------------------------------------------------------------------------

  lemma {:induction false} PduFields(handle: u16, op: byte, data: seq<byte>)
    ensures var pdu := [op] + U16Encode(handle) + data;
            |pdu| == 3 + |data| && pdu[0] == op && U16Decode(pdu[1..]) == handle && pdu[3..] == data
  {
    hide U16Encode;
    var pdu := [op] + U16Encode(handle) + data;
    assert pdu[1..][0] == U16Encode(handle)[0] && pdu[1..][1] == U16Encode(handle)[1];
  }

  lemma {:induction false} DeclaredIsHas(db: Db, handle: u16, bit: nat)
    requires Shape(db) && Exists(db, handle) && bit > 0 && db.attrs[handle - 1].owner != NoOwner
    ensures Declared(db, handle, bit) <==> Has(Props(db.attrs, handle - 1), bit)
  {
    assert ShapeAt(db.attrs, handle - 1);
    if db.attrs[handle - 1].owner.CccdOf? {
      assert ShapeAt(db.attrs, handle - 2);
    } else {
      assert 0 / bit == 0;
    }
  }

  lemma {:induction false} ConfigBits(db: Db, handle: u16, data: seq<byte>)
    requires Shape(db) && Exists(db, handle) && db.attrs[handle - 1].owner.CccdOf? && |data| == 2
    ensures ConfigAllowed(Props(db.attrs, handle - 1), data) <==>
      && data[0] < 4 && data[1] == 0
      && (data[0] % 2 == 1 ==> Declared(db, handle, 0x10)) && (data[0] / 2 == 1 ==> Declared(db, handle, 0x20))
  {
    DeclaredIsHas(db, handle, 0x10);
    DeclaredIsHas(db, handle, 0x20);
    hide Props;
    hide Declared;
    hide Has;
    hide Shape;
  }

  lemma {:induction false} AllowedExactly(db: Db, handle: u16, data: seq<byte>, withRsp: bool)
    requires Shape(db)
    ensures Refusal(db, handle, data, withRsp).None? <==> Allowed(db, handle, data, withRsp)
    ensures withRsp && Refusal(db, handle, data, true).Some? ==>
      Refusal(db, handle, data, true).value == Reason(db, handle, data)
  {
    if Exists(db, handle) {
      assert ShapeAt(db.attrs, handle - 1);
      if db.attrs[handle - 1].owner.ValueOf? {
        DeclaredIsHas(db, handle, 0x08);
        DeclaredIsHas(db, handle, 0x04);
      } else if db.attrs[handle - 1].owner.CccdOf? && |data| == 2 {
        ConfigBits(db, handle, data);
      }
    }
    hide ConfigAllowed;
    hide Props;
    hide Declared;
    hide Has;
    hide ShapeAt;
  }

  /** What the application is told of a write that is taken. */
  function Told(a: Attr, data: seq<byte>): seq<Note>
    requires a.owner.CccdOf? ==> |data| == 2 && |a.value| == 2
  {
    match a.owner
    case ValueOf(k) => [Written(k)]
    case CccdOf(k) =>
      (if a.value[0] % 2 == data[0] % 2 then [] else if data[0] % 2 == 1 then [Enabled(k, Notify)] else [Disabled(k, Notify)])
      + (if a.value[0] / 2 % 2 == data[0] / 2 % 2 then []
         else if data[0] / 2 % 2 == 1 then [Enabled(k, Indicate)] else [Disabled(k, Indicate)])
    case NoOwner => []
  }

  lemma {:induction false} ProcessWrites(s: Gatt, handle: u16, data: seq<byte>, withRsp: bool, room: nat, local: u16)
    requires AllValid(s.db) && Min(room, s.mtu) >= 1
    ensures Process(s, WritePdu(handle, data, withRsp), room, local)
         == (Write(s, handle, data, withRsp), if withRsp then WriteRsp(s.db, handle, data, Min(room, s.mtu)) else [])
  {
    PduFields(handle, if withRsp then 0x12 else 0x52, data);
    hide U16Encode;
    hide U16Decode;
    hide Write;
    hide WriteRsp;
  }

  /**
   * A write is taken exactly if it is allowed: one value becomes the data, the application is told, and a
   * request is answered 0x13. A write that is not allowed changes nothing, and a request gets the reason.
   */
  lemma {:induction false} WritesAreTakenExactly(s: Gatt, handle: u16, data: seq<byte>, withRsp: bool, room: nat, local: u16)
    requires Inv(s) && Min(room, s.mtu) >= 1
    ensures var (t, rsp) := Process(s, WritePdu(handle, data, withRsp), room, local);
            && t.pending == s.pending && t.mtu == s.mtu && t.db.base == s.db.base
            && if Allowed(s.db, handle, data, withRsp) then
                 && t.db.attrs == s.db.attrs[handle - 1 := s.db.attrs[handle - 1].(value := data)]
                 && (s.db.attrs[handle - 1].owner.CccdOf? ==> |s.db.attrs[handle - 1].value| == 2)
                 && t.log == s.log + Told(s.db.attrs[handle - 1], data)
                 && rsp == if withRsp then [0x13] else []
               else
                 && t == s
                 && rsp == if withRsp && Min(room, s.mtu) >= 5
                           then [0x01, 0x12] + U16Encode(handle) + [Reason(s.db, handle, data)] else []
  {
    ProcessWrites(s, handle, data, withRsp, room, local);
    AllowedExactly(s.db, handle, data, withRsp);
    if Exists(s.db, handle) {
      assert ShapeAt(s.db.attrs, handle - 1);
    }
    hide Process;
    hide Reason;
    hide Refusal;
    hide Shape;
    hide Disciplined;
    hide U16Encode;
  }

  // ---- reads ---------------------------------------------------------------------------------------------------

  lemma {:induction false} ProcessReads(s: Gatt, handle: u16, room: nat, local: u16)
    requires AllValid(s.db) && Min(room, s.mtu) >= 1
    ensures Process(s, ReadPdu(handle), room, local) == (s, ReadRsp(s.db, handle, Min(room, s.mtu)))
  {
    assert ReadPdu(handle) == [0x0A] + U16Encode(handle) + [];
    PduFields(handle, 0x0A, []);
    hide U16Encode;
    hide U16Decode;
    hide ReadRsp;
  }

  /** A read changes nothing and answers the value, as much of it as there is room for, or why not. */
  lemma {:induction false} ReadsAnswer(s: Gatt, handle: u16, room: nat, local: u16)
    requires Inv(s) && Min(room, s.mtu) >= 1
    ensures var (t, rsp) := Process(s, ReadPdu(handle), room, local);
            var max := Min(room, s.mtu);
            && t == s
            && if Exists(s.db, handle) && s.db.attrs[handle - 1].readable then
                 rsp == [0x0B] + (if |s.db.attrs[handle - 1].value| < max then s.db.attrs[handle - 1].value
                                  else s.db.attrs[handle - 1].value[..max - 1])
               else
                 rsp == if max < 5 then [] else [0x01, 0x0A] + U16Encode(handle) + [if Exists(s.db, handle) then 0x02 else 0x01]
  {
    ProcessReads(s, handle, room, local);
    hide Process;
    hide Disciplined;
    hide U16Encode;
  }

  lemma {:induction false} InvWritten(s: Gatt, handle: u16, data: seq<byte>, withRsp: bool)
    requires Inv(s)
    ensures Inv(Write(s, handle, data, withRsp)) && AllValid(Write(s, handle, data, withRsp).db)
  {
    hide Write;
    InvWrite(s, handle, data, withRsp);
    var t := Write(s, handle, data, withRsp);
    hide Disciplined;
    forall i | 0 <= i < |t.db.attrs| ensures |t.db.attrs[i].value| <= MAX_VALUE_LEN {
    }
  }

  /** The answer to a read request. */
  ghost function Read(s: Gatt, handle: u16, room: nat, local: u16): seq<byte>
    requires Inv(s) && Min(room, s.mtu) >= 1
  {
    Process(s, ReadPdu(handle), room, local).1
  }

  /** The server and its answer after a write request or command. */
  ghost function Wrote(s: Gatt, handle: u16, data: seq<byte>, withRsp: bool, room: nat, local: u16): (r: (Gatt, seq<byte>))
    requires Inv(s) && Min(room, s.mtu) >= 1
    ensures Inv(r.0) && r.0.mtu == s.mtu
  {
    ProcessWrites(s, handle, data, withRsp, room, local);
    InvWritten(s, handle, data, withRsp);
    Process(s, WritePdu(handle, data, withRsp), room, local)
  }

  /**
   * A client that reads what it has written and may read gets it back, as much as there is room for; every
   * other read is answered as before, and so is every read after a write that was not allowed.
   */
  lemma {:induction false} ReadAfterWrite(s: Gatt, handle: u16, data: seq<byte>, withRsp: bool, room: nat, local: u16,
                                          other: u16, room': nat, local': u16)
    requires Inv(s) && Min(room, s.mtu) >= 1 && Min(room', s.mtu) >= 1
    ensures var (t, rsp) := Wrote(s, handle, data, withRsp, room, local);
            var max := Min(room', s.mtu);
            && (withRsp ==> (rsp == [0x13] <==> Allowed(s.db, handle, data, true)))
            && Read(t, other, room', local')
               == if other == handle && Allowed(s.db, handle, data, withRsp) && s.db.attrs[handle - 1].readable then
                    [0x0B] + if |data| < max then data else data[..max - 1]
                  else Read(s, other, room', local')
  {
    hide Process;
    hide Inv;
    hide Declared;
    hide Told;
    hide U16Encode;
    WritesAreTakenExactly(s, handle, data, withRsp, room, local);
    var t := Wrote(s, handle, data, withRsp, room, local).0;
    ReadsAnswer(s, other, room', local');
    ReadsAnswer(t, other, room', local');
  }

  // ---- pushes --------------------------------------------------------------------------------------------------

  /** The client has switched this push of this value on, and the characteristic declares it. */
  predicate SwitchedOn(db: Db, handle: u16, push: Push)
    requires Exists(db, handle)
  {
    && db.attrs[handle - 1].owner.ValueOf? && Declared(db, handle, if push == Notify then 0x10 else 0x20)
    && handle < |db.attrs| && db.attrs[handle].owner == CccdOf(db.attrs[handle - 1].owner.index)
    && db.attrs[handle].value != []
    && (if push == Notify then db.attrs[handle].value[0] else db.attrs[handle].value[0] / 2) % 2 == 1
  }

  /**
   * A value is pushed exactly if that is switched on, the whole value fits, and no indication waits for its
   * confirmation; the PDU gives back its kind, its handle and the value.
   */
  lemma {:induction false} PushesCarryTheValue(s: Gatt, handle: u16, push: Push)
    requires Inv(s)
    ensures var pdu := ValuePdu(s, handle, push);
            && (pdu.Some? <==>
                  && Exists(s.db, handle) && SwitchedOn(s.db, handle, push)
                  && |s.db.attrs[handle - 1].value| + 3 <= s.mtu && (push == Indicate ==> !s.pending))
            && (pdu.Some? ==>
                  && |pdu.value| >= 3 && pdu.value[0] == (if push == Notify then 0x1B else 0x1D)
                  && U16Decode(pdu.value[1..]) == handle && pdu.value[3..] == s.db.attrs[handle - 1].value)
  {
    if Exists(s.db, handle) {
      assert ShapeAt(s.db.attrs, handle - 1);
      if s.db.attrs[handle - 1].owner.ValueOf? {
        DeclaredIsHas(s.db, handle, 0x10);
        DeclaredIsHas(s.db, handle, 0x20);
        PduFields(handle, if push == Notify then 0x1B else 0x1D, s.db.attrs[handle - 1].value);
      }
    }
    hide Disciplined;
    hide Declared;
    hide Props;
    hide Has;
    hide U16Encode;
    hide U16Decode;
  }

  // ---- the other requests --------------------------------------------------------------------------------------

  /**
   * A request too short for its fields is refused with code 0x04, a short command or a confirmation of any other
   * length than one octet does nothing, and octets after a read request or an MTU request are ignored.
   */
  lemma {:induction false} LengthsMatter(s: Gatt, pdu: seq<byte>, room: nat, local: u16)
    requires AllValid(s.db) && pdu != [] && Min(room, s.mtu) >= 1
    ensures |pdu| < 3 && pdu[0] in [0x02, 0x0A, 0x12] ==>
      Process(s, pdu, room, local) == (s, if Min(room, s.mtu) < 5 then [] else [0x01, pdu[0], 0x00, 0x00, 0x04])
    ensures |pdu| < 3 && pdu[0] == 0x52 ==> Process(s, pdu, room, local) == (s, [])
    ensures |pdu| > 1 && pdu[0] == 0x1E ==> Process(s, pdu, room, local) == (s, [])
    ensures |pdu| >= 3 && pdu[0] in [0x02, 0x0A] ==> Process(s, pdu, room, local) == Process(s, pdu[..3], room, local)
  {
    assert [0x01, pdu[0]] + U16Encode(0) + [0x04] == [0x01, pdu[0], 0x00, 0x00, 0x04];
    if |pdu| >= 3 {
      assert pdu[..3][1..][0] == pdu[1..][0] && pdu[..3][1..][1] == pdu[1..][1];
    }
    hide ReadRsp;
    hide Write;
    hide WriteRsp;
    hide Answer;
  }

  /** The smaller of the two limits is in force after an MTU exchange, and the answer tells the server's. */
  lemma {:induction false} SmallerMtuCounts(s: Gatt, pdu: seq<byte>, room: nat, local: u16)
    requires AllValid(s.db) && |pdu| >= 3 && pdu[0] == 0x02 && Min(room, s.mtu) >= 3
    ensures var (t, rsp) := Process(s, pdu, room, local);
            var asked := pdu[1] as int + 0x100 * pdu[2] as int;
            && t.mtu <= asked && t.mtu <= local && (t.mtu == asked || t.mtu == local)
            && t == s.(mtu := t.mtu)
            && |rsp| == 3 && rsp[0] == 0x03 && rsp[1] as int + 0x100 * rsp[2] as int == local
  {
    assert [OP_MTU_RSP] + U16Encode(local) == [0x03, U16Encode(local)[0], U16Encode(local)[1]];
  }

  /** A confirmation lets the next indication through; everything else stays. */
  lemma {:induction false} ConfirmationFrees(s: Gatt, room: nat, local: u16, handle: u16)
    requires Inv(s) && Min(room, s.mtu) >= 1
    ensures var (t, rsp) := Process(s, [0x1E], room, local);
            && rsp == [] && t.db == s.db && t.mtu == s.mtu && !t.pending
            && ValuePdu(t, handle, Indicate) == ValuePdu(s.(pending := false), handle, Indicate)
            && ValuePdu(t, handle, Notify) == ValuePdu(s, handle, Notify)
  {
  }

  /** A new connection has the MTU 23, waits for no confirmation, and nothing is switched on, so nothing is pushed. */
  lemma {:induction false} NothingPushedAtFirst(s: Gatt, handle: u16, push: Push)
    requires Inv(s)
    ensures var t := ResetConnection(s);
            Inv(t) && t.mtu == 23 && !t.pending && ValuePdu(t, handle, push).None?
  {
    hide Disciplined;
    hide Declared;
    hide U16Encode;
    InvReset(s);
    PushesCarryTheValue(ResetConnection(s), handle, push);
    hide ValuePdu;
  }

  /** It reads every value as the last connection left it, and every configuration as 00 00. */
  lemma {:induction false} ConnectionsStartAfresh(s: Gatt, handle: u16, room: nat, local: u16)
    requires Inv(s) && 3 <= room <= 23
    ensures Inv(ResetConnection(s))
    ensures Read(ResetConnection(s), handle, room, local)
         == if Exists(s.db, handle) && s.db.attrs[handle - 1].owner.CccdOf? then [0x0B, 0x00, 0x00]
            else Read(s, handle, room, local)
  {
    hide Process;
    hide Disciplined;
    hide Declared;
    hide U16Encode;
    InvReset(s);
    if Exists(s.db, handle) {
      assert ShapeAt(s.db.attrs, handle - 1);
    }
    hide Shape;
    ReadsAnswer(s, handle, room, local);
    ReadsAnswer(ResetConnection(s), handle, room, local);
  }
}
