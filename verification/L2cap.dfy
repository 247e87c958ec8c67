/**
 * L2CAP: framing, and the connection-parameter request from the peripheral's preference to the
 * central's connection update (stack/host/l2cap/ble_l2cap.c).
 */
module L2cap {
  import opened Bytes
  import opened ClockSpec
  import opened ClockResults
  import opened CtrlSpec
  import opened CentralControl
  import ConnSpec

  const CID_ATT: u16 := 0x0004
  const CID_SIGNALING: u16 := 0x0005
  const HDR_LEN: nat := ConnSpec.L2CAP_HDR_LEN
  const SIG_HDR_LEN: nat := 4
  const PARAM_UPDATE_REQ: byte := 0x12
  const PARAM_UPDATE_RSP: byte := 0x13
  const ACCEPTED: u16 := 0
  const REJECTED: u16 := 1
  const RSP_ROOM: nat := 247

  // ---- frames ------------------------------------------------------------------------------------

  /** The sum of a declared length and its header, in the sixteen bits it is computed in. */
  function Wrapped(len: u16): (sum: nat)
    ensures sum == if len < 65532 then len + 4 else len - 65532
  {
    (len + 4) % 0x1_0000
  }

  /** Channel and declared payload length of a data PDU; what exceeds that length is ignored. */
  function Deframe(pdu: seq<byte>): Option<(u16, u16)> {
    if |pdu| < HDR_LEN || |pdu| < Wrapped(U16Decode(pdu)) then None
    else Some((U16Decode(pdu[2..]), U16Decode(pdu)))
  }

  predicate Holds(pdu: seq<byte>, len: nat) { HDR_LEN + len <= |pdu| }

  function Payload(pdu: seq<byte>, len: nat): seq<byte>
    requires Holds(pdu, len)
  {
    pdu[HDR_LEN..HDR_LEN + len]
  }

  /** The receiver gets what the sender framed, whatever follows it in the packet. */
  lemma {:induction false} FrameRoundTrip(cid: u16, payload: seq<byte>, rest: seq<byte>)
    requires |payload| < 0x1_0000
    ensures var pdu := ConnSpec.Frame(cid, payload) + rest;
            Deframe(pdu) == Some((cid, |payload|)) && Holds(pdu, |payload|) && Payload(pdu, |payload|) == payload
  {
    var pdu := ConnSpec.Frame(cid, payload) + rest;
    var n, c := U16Encode(|payload|), U16Encode(cid);
    assert pdu[0] == n[0] && pdu[1] == n[1] && pdu[2..][0] == c[0] && pdu[2..][1] == c[1];
    assert pdu[HDR_LEN..HDR_LEN + |payload|] == payload;
  }

  /**
   * A packet is taken if and only if it holds the payload it declares, or declares 65532 octets or more;
   * and the payload of one taken lies in the packet if and only if the declared length is below that.
   */
  lemma {:induction false} TakenExactly(pdu: seq<byte>)
    requires |pdu| <= 0xFF
    ensures Deframe(pdu).Some? <==>
      |pdu| >= HDR_LEN && (Holds(pdu, U16Decode(pdu)) || U16Decode(pdu) >= 65532)
    ensures Deframe(pdu).Some? ==> (Holds(pdu, Deframe(pdu).value.1) <==> Deframe(pdu).value.1 < 65532)
    ensures Deframe(pdu).Some? && Holds(pdu, Deframe(pdu).value.1) ==>
      var (cid, len) := Deframe(pdu).value; ConnSpec.Frame(cid, Payload(pdu, len)) <= pdu
  {
    if Deframe(pdu).Some? && Holds(pdu, Deframe(pdu).value.1) {
      EncodeDecode(pdu[0..2]);
      EncodeDecode(pdu[2..4]);
      var (cid, len) := Deframe(pdu).value;
      assert U16Decode(pdu[0..2]) == len && U16Decode(pdu[2..4]) == cid;
      assert pdu == pdu[0..2] + pdu[2..4] + Payload(pdu, len) + pdu[HDR_LEN + len..];
    }
  }

  // ---- the connection-parameter request ------------------------------------------------------------

  /** Identifiers count up and skip 0. */
  function NextIdentifier(id: byte): (next: byte)
    ensures next != 0 && next != id
  {
    if id == 0xFF then 1 else id + 1
  }

  function Identifiers(id: byte, n: nat): byte {
    if n == 0 then id else NextIdentifier(Identifiers(id, n - 1))
  }

  /** From the first on they run through 1 to 255 and begin again, so 255 requests in a row have different ones. */
  lemma {:induction false} IdentifiersCycle(n: nat)
    ensures Identifiers(0, n + 1) == n % 255 + 1
  {
    if n > 0 {
      IdentifiersCycle(n - 1);
      NextModulo(n - 1);
    }
  }

  lemma {:induction false} NextModulo(n: nat)
    ensures (n + 1) % 255 == if n % 255 == 254 then 0 else n % 255 + 1
  {
  }

  function ParamRequest(id: byte, p: ConnParams): (sig: seq<byte>)
    ensures |sig| == 12
  {
    [PARAM_UPDATE_REQ, id] + U16Encode(8) + U16Encode(p.minInterval) + U16Encode(p.maxInterval)
    + U16Encode(p.latency) + U16Encode(p.timeout)
  }

  function ParamResponse(id: byte, result: u16): seq<byte> {
    [PARAM_UPDATE_RSP, id] + U16Encode(2) + U16Encode(result)
  }

  /**
   * A request is acted on by a central when the length it declares is enough for its four fields and, in
   * sixteen bits, no more than len octets. The octets are those that can be read from its start on, past its
   * end included.
   */
  predicate ActsOn(c: Ctrl, octets: seq<byte>, len: u16, room: nat)
    requires |octets| >= 12
  {
    && len >= SIG_HDR_LEN && room >= 6 && Wrapped(U16Decode(octets[2..])) <= len
    && octets[0] == PARAM_UPDATE_REQ && c.clock.role == Central && U16Decode(octets[2..]) >= 8
  }

  function Requested(octets: seq<byte>): ConnParams
    requires |octets| >= 12
  {
    ConnParams(U16Decode(octets[4..]), U16Decode(octets[6..]), U16Decode(octets[8..]), U16Decode(octets[10..]))
  }

  /** Anything not acted on gets no answer. */
  function OnSignaling(c: Ctrl, octets: seq<byte>, len: u16, room: nat): (r: (Ctrl, seq<byte>))
    requires |octets| >= 12
  {
    if !ActsOn(c, octets, len, room) then (c, [])
    else
      var p := Requested(octets);
      (InitiateConnUpdate(c, p), ParamResponse(octets[1], if Initiates(c, p) then ACCEPTED else REJECTED))
  }

  /** The receive buffer, and a data PDU that fills its first n octets. */
  predicate Received(buffer: seq<byte>, n: nat) { n <= |buffer| == ConnSpec.DATA_PAYLOAD_MAX }

  predicate ActsOnPdu(c: Ctrl, buffer: seq<byte>, n: nat)
    requires Received(buffer, n)
  {
    var frame := Deframe(buffer[..n]);
    frame.Some? && frame.value.0 == CID_SIGNALING && ActsOn(c, buffer[HDR_LEN..], frame.value.1, RSP_ROOM)
  }

  /** The signalling channel; no other changes the control procedures. */
  function OnDataPdu(c: Ctrl, buffer: seq<byte>, n: nat): (r: (Ctrl, seq<byte>))
    requires Received(buffer, n)
  {
    var frame := Deframe(buffer[..n]);
    if frame.None? || frame.value.0 != CID_SIGNALING then (c, [])
    else OnSignaling(c, buffer[HDR_LEN..], frame.value.1, RSP_ROOM)
  }

  // ---- requests that are there, and requests that are not --------------------------------------------

  /** The lengths of the frame and of the request in it. */
  function Declared(buffer: seq<byte>): (u16, u16)
    requires |buffer| == ConnSpec.DATA_PAYLOAD_MAX
  {
    (U16Decode(buffer), U16Decode(buffer[HDR_LEN..][2..]))
  }

  /** The frame lies in the packet and the request in the frame. */
  predicate WhollyReceived(buffer: seq<byte>, n: nat)
    requires Received(buffer, n)
  {
    HDR_LEN + Declared(buffer).0 <= n && SIG_HDR_LEN + Declared(buffer).1 <= Declared(buffer).0
  }

  lemma {:induction false} FrameOf(buffer: seq<byte>, n: nat)
    requires Received(buffer, n) && n >= HDR_LEN
    ensures U16Decode(buffer[..n]) == Declared(buffer).0
    ensures U16Decode(buffer[..n][2..]) == U16Decode(buffer[2..])
  {
  }

  /**
   * A request is acted on exactly by a central, with a frame of four octets and more and room for the answer,
   * if it declares its four fields and the frame holds what it declares, or if it declares 65532 or more.
   */
  lemma {:induction false} ActedOnExactly(c: Ctrl, octets: seq<byte>, len: u16, room: nat)
    requires |octets| >= 12
    ensures var declared := U16Decode(octets[2..]);
            ActsOn(c, octets, len, room) <==>
              && octets[0] == 0x12 && c.clock.role == Central && room >= 6 && len >= 4
              && declared >= 8 && (declared + 4 <= len || declared >= 65532)
  {
    hide U16Decode;
  }

  /** Every other packet, one on any other channel among them, changes nothing and gets no answer. */
  lemma {:induction false} NothingElseIsActedOn(c: Ctrl, buffer: seq<byte>, n: nat)
    requires Received(buffer, n)
    ensures OnDataPdu(c, buffer, n).1 != [] <==> ActsOnPdu(c, buffer, n)
    ensures !ActsOnPdu(c, buffer, n) ==> OnDataPdu(c, buffer, n) == (c, [])
    ensures ActsOnPdu(c, buffer, n) ==> n >= 4 && buffer[2] == 0x05 && buffer[3] == 0x00
  {
    if n >= HDR_LEN {
      FrameOf(buffer, n);
    }
    hide ActsOn;
    hide InitiateConnUpdate;
    hide Initiates;
  }

  /** A request acted on is wholly received if and only if both its declared lengths are below 65532. */
  lemma {:induction false} ActedOnIsReceivedExactly(c: Ctrl, buffer: seq<byte>, n: nat)
    requires Received(buffer, n) && ActsOnPdu(c, buffer, n)
    ensures WhollyReceived(buffer, n) <==> Declared(buffer).0 < 65532 && Declared(buffer).1 < 65532
  {
    FrameOf(buffer, n);
    TakenExactly(buffer[..n]);
  }

  /** Then what is done and answered depends on the packet alone, not on what lies beyond it. */
  lemma {:induction false} OnlyThePacketCounts(c: Ctrl, buffer: seq<byte>, other: seq<byte>, n: nat)
    requires Received(buffer, n) && Received(other, n) && buffer[..n] == other[..n]
    requires ActsOnPdu(c, buffer, n) && WhollyReceived(buffer, n)
    ensures OnDataPdu(c, other, n) == OnDataPdu(c, buffer, n)
  {
    FrameOf(buffer, n);
    FrameOf(other, n);
    assert n >= 16;
    assert forall i :: 0 <= i < 16 ==> buffer[i] == buffer[..n][i] && other[i] == other[..n][i];
    var a, b := buffer[HDR_LEN..], other[HDR_LEN..];
    assert forall i :: 0 <= i < 12 ==> a[i] == b[i];
    SameRequest(a, b);
    hide Requested;
    hide InitiateConnUpdate;
    hide Initiates;
  }

  lemma {:induction false} SameRequest(a: seq<byte>, b: seq<byte>)
    requires |a| >= 12 && |b| >= 12 && forall i :: 0 <= i < 12 ==> a[i] == b[i]
    ensures U16Decode(a[2..]) == U16Decode(b[2..]) && Requested(a) == Requested(b)
  {
    assert forall k, i :: 0 <= k < 11 && 0 <= i < 2 ==> a[k..][i] == a[k + i] && b[k..][i] == b[k + i];
  }

  lemma {:induction false} RequestFields(id: byte, p: ConnParams, rest: seq<byte>)
    ensures var octets := ParamRequest(id, p) + rest;
            octets[0] == PARAM_UPDATE_REQ && octets[1] == id && U16Decode(octets[2..]) == 8 && Requested(octets) == p
  {
    hide U16Encode;
    var octets := ParamRequest(id, p) + rest;
    assert octets[2..][0] == U16Encode(8)[0] && octets[2..][1] == U16Encode(8)[1];
    assert octets[4..][0] == U16Encode(p.minInterval)[0] && octets[4..][1] == U16Encode(p.minInterval)[1];
    assert octets[6..][0] == U16Encode(p.maxInterval)[0] && octets[6..][1] == U16Encode(p.maxInterval)[1];
    assert octets[8..][0] == U16Encode(p.latency)[0] && octets[8..][1] == U16Encode(p.latency)[1];
    assert octets[10..][0] == U16Encode(p.timeout)[0] && octets[10..][1] == U16Encode(p.timeout)[1];
  }

  lemma {:induction false} RequestScheduled(c: Ctrl, p: ConnParams)
    requires Initiates(c, p) && p.timeout != 32768
    ensures InitiateConnUpdate(c, p).clock.update
         == Some(Update(InstantFor(c.clock.counter), 0, ParamsOf(p.minInterval, p.latency, p.timeout)))
  {
    hide ConnUpdateInd;
    hide ScheduleConnUpdate;
    hide ParamsOf;
    assert TensToMs(p.timeout) != 0;
    ConnUpdateRoundTrip(c.clock, 0, p.minInterval, p.latency, p.timeout, InstantFor(c.clock.counter));
  }

  /** The framed request, at the start of the receive buffer. */
  function RequestPdu(id: byte, p: ConnParams): (pdu: seq<byte>)
    ensures |pdu| == 16
  {
    ConnSpec.Frame(CID_SIGNALING, ParamRequest(id, p))
  }

  lemma {:induction false} RequestArrives(id: byte, p: ConnParams, rest: seq<byte>)
    requires |rest| == ConnSpec.DATA_PAYLOAD_MAX - 16
    ensures var buffer := RequestPdu(id, p) + rest;
            && Deframe(buffer[..16]) == Some((CID_SIGNALING, 12))
            && buffer[HDR_LEN..] == ParamRequest(id, p) + rest
  {
    hide ParamRequest;
    var buffer := RequestPdu(id, p) + rest;
    assert buffer[..16] == RequestPdu(id, p) + [];
    assert buffer[HDR_LEN..] == ParamRequest(id, p) + rest;
    FrameRoundTrip(CID_SIGNALING, ParamRequest(id, p), []);
    hide Deframe;
  }

  /**
   * What the peripheral prefers is what the central schedules: the framed request, unframed and parsed,
   * starts exactly the update asked for, with the smallest interval; the answer carries the request's
   * identifier and says whether it started.
   */
  lemma {:induction false} PreferenceReachesCentral(c: Ctrl, id: byte, p: ConnParams, rest: seq<byte>)
    requires c.clock.role == Central && |rest| == ConnSpec.DATA_PAYLOAD_MAX - 16
    ensures OnDataPdu(c, RequestPdu(id, p) + rest, 16)
         == (InitiateConnUpdate(c, p), ParamResponse(id, if Initiates(c, p) then ACCEPTED else REJECTED))
    ensures Initiates(c, p) && p.timeout != 32768 ==>
      InitiateConnUpdate(c, p).clock.update
      == Some(Update(InstantFor(c.clock.counter), 0, ParamsOf(p.minInterval, p.latency, p.timeout)))
  {
    RequestArrives(id, p, rest);
    RequestFields(id, p, rest);
    hide RequestPdu;
    hide ParamRequest;
    hide ParamResponse;
    hide Requested;
    hide Deframe;
    hide InitiateConnUpdate;
    hide Initiates;
    hide ParamsOf;
    if Initiates(c, p) && p.timeout != 32768 {
      RequestScheduled(c, p);
    }
  }

  /**
   * The answer is a response to that request. It says 0, and the update has started, exactly if the link is up,
   * the parameters are a proper range and a timeout, and no procedure, update or request is in the way; it says
   * 1, and nothing has changed, otherwise.
   */
  lemma {:induction false} AnswerTells(c: Ctrl, id: byte, p: ConnParams, rest: seq<byte>)
    requires c.clock.role == Central && |rest| == ConnSpec.DATA_PAYLOAD_MAX - 16
    ensures var (after, rsp) := OnDataPdu(c, RequestPdu(id, p) + rest, 16);
            && |rsp| == 6 && rsp[0] == 0x13 && rsp[1] == id && U16Decode(rsp[2..]) == 2
            && var startable := && c.clock.connected && 0 < p.minInterval <= p.maxInterval && p.timeout != 0
                                && c.procedure == NoProcedure && c.clock.update.None? && c.slot.None?;
               && U16Decode(rsp[4..]) == (if startable then 0 else 1)
               && (if startable then after.procedure == ConnUpdate && after.slot.Some? else after == c)
  {
    PreferenceReachesCentral(c, id, p, rest);
    hide OnDataPdu;
    hide RequestPdu;
    hide U16Encode;
    hide ScheduleConnUpdate;
    hide ConnUpdateInd;
    var result := if Initiates(c, p) then ACCEPTED else REJECTED;
    var rsp := ParamResponse(id, result);
    assert rsp[2..][0] == U16Encode(2)[0] && rsp[2..][1] == U16Encode(2)[1];
    assert rsp[4..][0] == U16Encode(result)[0] && rsp[4..][1] == U16Encode(result)[1];
  }

  /** Eight octets that declare a request of 65532: its header is there, its four fields are not. */
  function HeaderOnly(id: byte): (pdu: seq<byte>) { [0x04, 0x00, 0x05, 0x00, 0x12, id, 0xFC, 0xFF] }

  /** Where the lengths are not checked enough: such a packet starts whatever update lies beyond its end. */
  lemma {:induction false} HeaderOnlyIsActedOn(c: Ctrl, id: byte, rest: seq<byte>)
    requires c.clock.role == Central && |rest| == ConnSpec.DATA_PAYLOAD_MAX - 8
    ensures var buffer := HeaderOnly(id) + rest;
            && !WhollyReceived(buffer, 8) && ActsOnPdu(c, buffer, 8)
            && OnDataPdu(c, buffer, 8).0
               == InitiateConnUpdate(c, ConnParams(U16Decode(rest), U16Decode(rest[2..]), U16Decode(rest[4..]), U16Decode(rest[6..])))
  {
    var sig: seq<byte> := [PARAM_UPDATE_REQ, id, 0xFC, 0xFF];
    var buffer := HeaderOnly(id) + rest;
    assert buffer[..8] == HeaderOnly(id);
    var octets := buffer[HDR_LEN..];
    assert octets == sig + rest;
    assert octets[2..][0] == 0xFC && octets[2..][1] == 0xFF;
    assert octets[4..] == rest && octets[6..] == rest[2..] && octets[8..] == rest[4..] && octets[10..] == rest[6..];
    hide InitiateConnUpdate;
    hide Initiates;
  }

  // ---- in place --------------------------------------------------------------------------------------

  class Signaling {
    var identifier: byte

    constructor ()
      ensures identifier == 0
    {
      identifier := 0;
    }

    /** The identifier moves on whether or not the queue takes the request. */
    method BuildParamRequest(p: ConnParams) returns (sig: seq<byte>)
      modifies this
      ensures identifier == NextIdentifier(old(identifier))
      ensures sig == ParamRequest(identifier, p)
    {
      identifier := (identifier + 1) % 0x100;
      if identifier == 0 {
        identifier := 1;
      }
      sig := [PARAM_UPDATE_REQ, identifier];
      sig := sig + U16Encode(8);
      sig := sig + U16Encode(p.minInterval);
      sig := sig + U16Encode(p.maxInterval);
      sig := sig + U16Encode(p.latency);
      sig := sig + U16Encode(p.timeout);
    }
  }

  method ProcessSignaling(control: CentralControl, octets: seq<byte>, len: u16, room: nat) returns (rsp: seq<byte>)
    requires |octets| >= 12
    modifies control, control.clock
    ensures (control.State(), rsp) == OnSignaling(old(control.State()), octets, len, room)
  {
    hide InitiateConnUpdate;
    hide Initiates;
    if len < SIG_HDR_LEN || room < 6 || Wrapped(U16Decode(octets[2..])) > len {
      return [];
    }
    if octets[0] == PARAM_UPDATE_REQ && control.clock.role == Central && U16Decode(octets[2..]) >= 8 {
      var accept := control.StartConnUpdate(Requested(octets));
      rsp := ParamResponse(octets[1], if accept then ACCEPTED else REJECTED);
      return;
    }
    rsp := [];
  }

  method ProcessDataPdu(control: CentralControl, buffer: seq<byte>, n: nat) returns (rsp: seq<byte>)
    requires Received(buffer, n)
    modifies control, control.clock
    ensures (control.State(), rsp) == OnDataPdu(old(control.State()), buffer, n)
  {
    hide OnSignaling;
    if n < HDR_LEN {
      return [];
    }
    var len := U16Decode(buffer[..n]);
    if n < Wrapped(len) {
      return [];
    }
    if U16Decode(buffer[..n][2..]) == CID_SIGNALING {
      rsp := ProcessSignaling(control, buffer[HDR_LEN..], len, RSP_ROOM);
      return;
    }
    rsp := [];
  }
}
