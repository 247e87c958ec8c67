/** The ATT MTU: both ends agree on it, and nothing either sends is too long for it or for a data packet. */
module Mtu {
  import opened Bytes
  import opened Seqs
  import opened Uuids
  import opened GattTable
  import opened AttSpec
  import opened Discovery
  import opened DiscoveryRun
  import ConnSpec
  import opened TableFacts
  import opened ValueSpec
  import opened ValueResults

  // ---- the exchange --------------------------------------------------------------------------------

  /** What a client may ask for, whatever the application wants. */
  function Clamp(wanted: u16): (m: u16)
    ensures ATT_MTU_DEFAULT <= m <= ATT_MAX_MTU
    ensures ATT_MTU_DEFAULT <= wanted <= ATT_MAX_MTU ==> m == wanted
  {
    if wanted < ATT_MTU_DEFAULT then ATT_MTU_DEFAULT else if wanted > ATT_MAX_MTU then ATT_MAX_MTU else wanted
  }

  function ClientRequest(wanted: u16): seq<byte> { [OP_MTU_REQ] + U16Encode(Clamp(wanted)) }

  /** The client's MTU after a response of at least three octets to its request. */
  function ClientMtu(wanted: u16, rsp: seq<byte>): nat
    requires |rsp| >= 3
  {
    Min(U16Decode(rsp[1..]), Clamp(Clamp(wanted)))
  }

  /** Whatever the client asks for, both ends end up with the same MTU, within the bounds of both. */
  lemma {:induction false} BothEndsAgree(s: Gatt, wanted: u16, room: nat, local: u16)
    requires AllValid(s.db) && Min(room, s.mtu) >= 3 && ATT_MTU_DEFAULT <= local <= ATT_MAX_MTU
    ensures var r := Process(s, ClientRequest(wanted), room, local);
            && |r.1| == 3 && r.1[0] == OP_MTU_RSP
            && ClientMtu(wanted, r.1) == r.0.mtu == Min(Clamp(wanted), local)
            && ATT_MTU_DEFAULT <= r.0.mtu <= ATT_MAX_MTU
  {
    var pdu := ClientRequest(wanted);
    assert pdu[1..] == U16Encode(Clamp(wanted));
    var rsp := [OP_MTU_RSP] + U16Encode(local);
    assert rsp[1..] == U16Encode(local);
    hide Answer;
    hide U16Encode;
  }

  // ---- sizes ----------------------------------------------------------------------------------------

  lemma {:induction false} RoomFits(q: Query, len: nat, max: nat, n: nat)
    requires len > 0 && max >= HeaderLen(q) && n <= Room(q, len, max)
    ensures HeaderLen(q) + n * len <= max
  {
    var room := Room(q, len, max);
    assert room * len <= max - HeaderLen(q);
    assert n * len <= room * len;
  }

  lemma {:induction false} RespondFits(q: Query, db: Db, start: u16, end: u16, max: nat)
    requires AllValid(db)
    ensures |Respond(q, db, start, end, max)| <= max
  {
    if max >= HeaderLen(q) {
      FoundValid(q, db, start, end, 0);
      var found := Found(q, db, start, end, 0);
      var page := Page(q, db.base, found, max);
      if page != [] {
        var len := EntryLen(q, found[0], db.base);
        TakeSameMembers(q, db.base, found, len, Room(q, len, max));
        EntriesLen(q, db, page, len);
        RoomFits(q, len, max, |page|);
      }
    }
  }

  lemma {:induction false} AnswerFits(db: Db, pdu: seq<byte>, max: nat)
    requires AllValid(db) && pdu != []
    ensures |Answer(db, pdu, max)| <= max
  {
    hide Respond;
    forall q, start, end ensures |Respond(q, db, start, end, max)| <= max {
      RespondFits(q, db, start, end, max);
    }
  }

  /** No response is longer than the MTU or than its buffer, whatever the request. */
  lemma {:induction false} ResponseFits(s: Gatt, pdu: seq<byte>, room: nat, local: u16)
    requires AllValid(s.db) && pdu != [] && Min(room, s.mtu) >= 1
    ensures |Process(s, pdu, room, local).1| <= Min(room, s.mtu)
  {
    AnswerFits(s.db, pdu, Min(room, s.mtu));
    hide Answer;
    hide Write;
    hide Refusal;
  }

  /** Neither is a pushed value. */
  lemma {:induction false} PushFits(s: Gatt, handle: u16, push: Push)
    ensures ValuePdu(s, handle, push).Some? ==> |ValuePdu(s, handle, push).value| <= Min(s.mtu, ATT_MAX_MTU)
  {
  }

  /** What fits the MTU passes the size check of the L2CAP queue, so only a full queue refuses it. */
  lemma {:induction false} FitsDataPacket(c: ConnSpec.Conn, cid: u16, payload: seq<byte>)
    requires 0 < |payload| <= ATT_MAX_MTU
    ensures ConnSpec.L2capAccepts(c, payload) <==> |c.l2cap| < ConnSpec.L2CAP_QUEUE_DEPTH
    ensures ConnSpec.L2capAccepts(c, payload) ==> |ConnSpec.Frame(cid, payload)| <= ConnSpec.DATA_PAYLOAD_MAX
  {
  }

  /** All of it together, in every state a run can reach. */
  lemma {:induction false} EverythingSentFits(db: Db, actions: seq<Action>, n: nat, pdu: seq<byte>, room: nat, local: u16)
    requires Shape(db) && n <= |actions| && forall i :: 0 <= i < n ==> Proper(actions[i])
    requires pdu != [] && room >= 1 && Inv(ResetConnection(Gatt(db, false, ATT_MTU_DEFAULT, [])))
    ensures var s := Run(ResetConnection(Gatt(db, false, ATT_MTU_DEFAULT, [])), actions, n);
            && ATT_MTU_DEFAULT <= s.mtu <= ATT_MAX_MTU
            && |Process(s, pdu, room, local).1| <= s.mtu
            && |Process(s, pdu, room, local).1| + ConnSpec.L2CAP_HDR_LEN <= ConnSpec.DATA_PAYLOAD_MAX
  {
    ResponseFits(Run(ResetConnection(Gatt(db, false, ATT_MTU_DEFAULT, [])), actions, n), pdu, room, local);
    hide Process;
  }

  // ---- the builder's table ----------------------------------------------------------------------------

  /** All this applies to every table the builder makes. */
  lemma {:induction false} BuiltShape(name: seq<byte>, services: seq<Service>, base: Base)
    requires TableFacts.Acceptable(name, services, base)
    ensures Shape(Db(Table(name, services, base), base))
  {
    TableIsLinked(name, services, base);
    var t := Table(name, services, base);
    hide Table;
    forall x | 0 <= x < |t| ensures ShapeAt(t, x) {
      assert LinkedAt(t, x, base);
      if x > 0 { assert LinkedAt(t, x - 1, base); }
    }
    forall x, y | 0 <= x < y < |t| && t[x].owner != NoOwner ensures t[x].owner != t[y].owner {
      if t[y].owner != NoOwner {
        assert IndexOf(t[x].owner) < IndexOf(t[y].owner);
      }
    }
  }
}
