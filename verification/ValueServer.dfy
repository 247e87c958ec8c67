/** The GATT server object: values and client configuration written in place. */
module ValueServer {
  import opened Bytes
  import opened Seqs
  import opened Uuids
  import opened GattTable
  import opened AttSpec
  import opened AttServer
  import opened ValueSpec
  import opened ValueResults

  class ValueServer {
    const table: Server
    var pending: bool
    var mtu: nat
    var log: seq<Note>

    ghost predicate Valid() reads this, table, table.db {
      table.Valid() && Shape(table.Model())
    }

    ghost function State(): Gatt reads this, table, table.db
      requires Valid()
    {
      Gatt(table.Model(), pending, mtu, log)
    }

    constructor (t: Server)
      requires t.Valid() && Shape(t.Model())
      ensures table == t && Valid() && State() == Gatt(t.Model(), false, ATT_MTU_DEFAULT, [])
    {
      table, pending, mtu, log := t, false, ATT_MTU_DEFAULT, [];
    }

    method FindAttr(handle: u16) returns (x: nat, found: bool)
      requires Valid()
      ensures found == Locate(table.Model(), handle).Some?
      ensures found ==> x < table.count && x == Locate(table.Model(), handle).value
    {
      x := 0;
      while x < table.count
        invariant x <= table.count
        invariant 1 <= handle <= table.count ==> x < handle
      {
        assert table.Model().attrs[x] == table.db[x];
        if table.db[x].handle == handle {
          return x, true;
        }
        x := x + 1;
      }
      found := false;
    }

    /** The properties byte of the declaration that the value or CCCD entry at x belongs to. */
    method Properties(x: nat) returns (props: byte)
      requires Valid() && x < table.count
      ensures props == Props(table.Model().attrs, x)
    {
      ghost var attrs := table.Model().attrs;
      assert attrs[x] == table.db[x] && ShapeAt(attrs, x);
      match table.db[x].owner {
        case ValueOf(_) =>
          assert attrs[x - 1] == table.db[x - 1];
          props := table.db[x - 1].value[0];
        case CccdOf(_) =>
          assert attrs[x - 2] == table.db[x - 2] && ShapeAt(attrs, x - 1);
          props := table.db[x - 2].value[0];
        case NoOwner =>
          props := 0;
      }
    }

    method ReadRequest(handle: u16, max: nat) returns (rsp: seq<byte>)
      requires Valid() && max >= 1
      ensures rsp == ReadRsp(table.Model(), handle, max)
    {
      var x, found := FindAttr(handle);
      if !found {
        return ErrorRsp(max, OP_READ_REQ, handle, ERR_INVALID_HANDLE);
      }
      var a := table.db[x];
      if !a.readable {
        return ErrorRsp(max, OP_READ_REQ, handle, ERR_READ_NOT_PERMITTED);
      }
      var len := |a.value|;
      if len > a.maxLen {
        len := a.maxLen;
      }
      if 1 + len > max {
        len := max - 1;
      }
      rsp := [OP_READ_RSP] + a.value[..len];
      assert a.value[..len] == Take(Take(a.value, a.maxLen), max - 1);
    }

    /** Whether a write is accepted; if not, why. */
    method CheckWrite(handle: u16, data: seq<byte>, withRsp: bool) returns (refusal: Option<byte>, x: nat)
      requires Valid()
      ensures refusal == Refusal(table.Model(), handle, data, withRsp)
      ensures refusal.None? ==> x < table.count && x == Locate(table.Model(), handle).value
    {
      var found;
      x, found := FindAttr(handle);
      if !found {
        return Some(ERR_INVALID_HANDLE), x;
      }
      var a := table.db[x];
      assert a == table.Model().attrs[x];
      if !a.writable {
        return Some(ERR_WRITE_NOT_PERMITTED), x;
      }
      var props := Properties(x);
      hide Props;
      if a.owner.CccdOf? {
        if |data| != 2 {
          return Some(ERR_VALUE_LEN), x;
        }
        if !ConfigAllowed(props, data) {
          return Some(ERR_VALUE_NOT_ALLOWED), x;
        }
      } else if a.owner.ValueOf? {
        if withRsp && !Has(props, PROP_WRITE) {
          return Some(ERR_WRITE_NOT_PERMITTED), x;
        }
        if !withRsp && !Has(props, PROP_WRITE_NO_RESP) {
          return Some(ERR_WRITE_NOT_PERMITTED), x;
        }
      }
      if |data| > a.maxLen {
        return Some(ERR_VALUE_LEN), x;
      }
      refusal := None;
    }

    method Announce(a: Attr, data: seq<byte>)
      modifies this`log
      ensures log == old(log) + WriteNotes(a, data)
    {
      match a.owner {
        case CccdOf(k) =>
          if Bit(Notify, a.value) != Bit(Notify, data) {
            log := log + [if Bit(Notify, data) then Enabled(k, Notify) else Disabled(k, Notify)];
          }
          if Bit(Indicate, a.value) != Bit(Indicate, data) {
            log := log + [if Bit(Indicate, data) then Enabled(k, Indicate) else Disabled(k, Indicate)];
          }
        case ValueOf(k) =>
          log := log + [Written(k)];
        case NoOwner =>
      }
    }

    /** Write a value or a configuration, and tell the application. */
    method WriteAttr(handle: u16, data: seq<byte>, withRsp: bool) returns (refusal: Option<byte>)
      requires Valid()
      modifies this`log, table.db
      ensures Valid()
      ensures refusal == Refusal(old(table.Model()), handle, data, withRsp)
      ensures State() == Write(old(State()), handle, data, withRsp)
    {
      hide Shape;
      hide AllValid;
      hide Refusal;
      hide WriteNotes;
      var x;
      refusal, x := CheckWrite(handle, data, withRsp);
      if refusal.Some? {
        return;
      }
      var a := table.db[x];
      ghost var before := table.Model();
      WriteKeepsShape(before, handle, data, withRsp);
      table.db[x] := a.(value := data);
      assert table.Model() == Store(before, x, data);
      Announce(a, data);
    }

    /** Send a notification or an indication; an indication waits once the queue has taken it. */
    method PushCharacteristic(handle: u16, push: Push, accepted: bool) returns (pdu: Option<seq<byte>>)
      requires Valid()
      modifies this`log, this`pending
      ensures Valid()
      ensures State() == PushValue(old(State()), handle, push, accepted)
      ensures pdu == if accepted then ValuePdu(old(State()), handle, push) else None
    {
      pdu := BuildValuePdu(handle, push);
      if pdu.None? || !accepted {
        return None;
      }
      if push == Indicate {
        pending := true;
      }
      log := log + [Pushed(table.db[handle - 1].owner.index, push, pdu.value)];
    }

    method BuildValuePdu(handle: u16, push: Push) returns (pdu: Option<seq<byte>>)
      requires Valid()
      ensures pdu == ValuePdu(State(), handle, push)
    {
      if push == Indicate && pending {
        return None;
      }
      var x, found := FindAttr(handle);
      if !found {
        return None;
      }
      var a := table.db[x];
      assert a == table.Model().attrs[x];
      if !a.owner.ValueOf? {
        return None;
      }
      var props := Properties(x);
      var config := Configuration(x);
      hide Props;
      hide Configured;
      hide Bit;
      hide Has;
      if !Has(props, Property(push)) || !Bit(push, config) {
        return None;
      }
      var value := Take(a.value, a.maxLen);
      if 3 + |value| > Min(mtu, ATT_MAX_MTU) {
        return None;
      }
      pdu := Some([if push == Notify then OP_NOTIFICATION else OP_INDICATION] + U16Encode(handle) + value);
    }

    method Configuration(x: nat) returns (config: seq<byte>)
      requires Valid() && x < table.count
      ensures config == Configured(table.Model().attrs, x)
    {
      assert table.db[x] == table.Model().attrs[x];
      config := [0, 0];
      if table.db[x].owner.ValueOf? && x + 1 < table.count {
        assert table.db[x + 1] == table.Model().attrs[x + 1];
        if table.db[x + 1].owner == CccdOf(table.db[x].owner.index) {
          config := table.db[x + 1].value;
        }
      }
    }

    method OnConfirmation()
      requires Valid()
      modifies this`pending, this`log
      ensures Valid() && State() == Confirm(old(State()))
    {
      pending, log := false, log + [Confirmed];
    }

    /** A new connection: every client configuration is cleared in place. */
    method ResetConnectionState()
      requires Valid()
      modifies this`pending, this`mtu, this`log, table.db
      ensures Valid() && State() == ResetConnection(old(State()))
    {
      mtu, pending, log := ATT_MTU_DEFAULT, false, log + [Reset];
      ghost var before := table.Model();
      ResetKeepsShape(before);
      hide Shape;
      hide AllValid;
      var i := 0;
      while i < table.count
        modifies table.db
        invariant i <= table.count
        invariant table.db[..i] == Unconfigured(before).attrs[..i]
        invariant forall y :: i <= y < table.count ==> table.db[y] == before.attrs[y]
      {
        if table.db[i].owner.CccdOf? {
          table.db[i] := table.db[i].(value := [0, 0]);
        }
        i := i + 1;
      }
      assert table.Model() == Unconfigured(before);
    }

    /** The dispatcher, for every request. */
    method ProcessPdu(pdu: seq<byte>, room: nat, local: u16) returns (rsp: seq<byte>)
      requires Valid() && pdu != [] && Min(room, mtu) >= 1
      modifies this, table.db
      ensures Valid()
      ensures State() == Process(old(State()), pdu, room, local).0
      ensures rsp == Process(old(State()), pdu, room, local).1
    {
      hide Answer;
      hide Refusal;
      hide Write;
      hide ReadRsp;
      hide Shape;
      hide AllValid;
      var max := Min(room, mtu);
      var op := pdu[0];
      rsp := [];
      if op == OP_MTU_REQ {
        if |pdu| < 3 { return ErrorRsp(max, op, 0, ERR_INVALID_PDU); }
        mtu := Min(U16Decode(pdu[1..]), local);
        if max >= 3 { rsp := [OP_MTU_RSP] + U16Encode(local); }
      } else if op == OP_READ_REQ {
        if |pdu| < 3 { return ErrorRsp(max, op, 0, ERR_INVALID_PDU); }
        rsp := ReadRequest(U16Decode(pdu[1..]), max);
      } else if op == OP_WRITE_REQ {
        if |pdu| < 3 { return ErrorRsp(max, op, 0, ERR_INVALID_PDU); }
        var refusal := WriteAttr(U16Decode(pdu[1..]), pdu[3..], true);
        rsp := if refusal.Some? then ErrorRsp(max, op, U16Decode(pdu[1..]), refusal.value) else [OP_WRITE_RSP];
      } else if op == OP_WRITE_CMD {
        if |pdu| >= 3 {
          var _ := WriteAttr(U16Decode(pdu[1..]), pdu[3..], false);
        }
      } else if op == OP_CONFIRMATION {
        if |pdu| == 1 { OnConfirmation(); }
      } else {
        rsp := table.ProcessDiscovery(pdu, max);
      }
    }
  }

  lemma {:induction false} ResetKeepsShape(db: Db)
    requires Shape(db)
    ensures Shape(Unconfigured(db)) && AllValid(Unconfigured(db))
  {
    UnconfiguredKeepsShape(db);
  }

  lemma {:induction false} WriteKeepsShape(db: Db, handle: u16, data: seq<byte>, withRsp: bool)
    requires Shape(db) && Refusal(db, handle, data, withRsp).None?
    ensures Shape(Store(db, Locate(db, handle).value, data)) && AllValid(Store(db, Locate(db, handle).value, data))
  {
    var x := Locate(db, handle).value;
    assert ShapeAt(db.attrs, x);
    StoreKeepsShape(db, x, data);
  }
}
