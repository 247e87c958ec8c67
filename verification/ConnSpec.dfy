/**
 * The connected-link transmit and acknowledgement state as values, and one function per
 * handler that updates it. ConnRuntime.dfy proves that the in-place handlers compute these.
 */
module ConnSpec {
  import opened Bytes

  const DATA_PAYLOAD_MAX: nat := 251
  const L2CAP_HDR_LEN: nat := 4
  const L2CAP_QUEUE_DEPTH: nat := 4

  datatype Llid = Reserved | Continuation | StartL2cap | Control
  datatype Header = Header(llid: Llid, nesn: bit, sn: bit)
  datatype Pdu = Pdu(header: Header, payload: seq<byte>)
  datatype Phase = Idle | WaitRx | WaitTx
  datatype Source = NoSource | RspSource | CtrlSource | L2capSource

  const EMPTY_RX: Pdu := Pdu(Header(Reserved, 0, 0), [])

  /** Pending payloads carry no SN/NESN of their own: the header is written on selection. */
  datatype Conn = Conn(
    txSn: bit, nextRxSn: bit, unacked: bool,
    txPdu: Pdu, lastPdu: Pdu,
    rsp: Option<seq<byte>>, ctrl: Option<seq<byte>>, l2cap: seq<seq<byte>>,
    selected: Source,
    rxPdu: Pdu, rxPending: bool,
    bcAcked: bool, bcNew: bool,
    phase: Phase)

  // ---- queueing -------------------------------------------------------------------------

  predicate ControlFits(payload: seq<byte>) { 0 < |payload| <= DATA_PAYLOAD_MAX }

  function QueueRsp(s: Conn, payload: seq<byte>): Conn {
    if ControlFits(payload) && s.rsp.None? then s.(rsp := Some(payload)) else s
  }

  function QueueCtrl(s: Conn, payload: seq<byte>): Conn {
    if ControlFits(payload) && s.ctrl.None? then s.(ctrl := Some(payload)) else s
  }

  function Frame(cid: u16, payload: seq<byte>): seq<byte>
    requires |payload| < 0x1_0000
  {
    U16Encode(|payload|) + U16Encode(cid) + payload
  }

  predicate L2capAccepts(s: Conn, payload: seq<byte>) {
    0 < |payload| && |payload| + L2CAP_HDR_LEN <= DATA_PAYLOAD_MAX && |s.l2cap| < L2CAP_QUEUE_DEPTH
  }

  function QueueL2cap(s: Conn, cid: u16, payload: seq<byte>): Conn {
    if L2capAccepts(s, payload) then s.(l2cap := s.l2cap + [Frame(cid, payload)]) else s
  }

  // ---- selection and staging --------------------------------------------------------------

  function BestSource(s: Conn): Source {
    if s.rsp.Some? then RspSource
    else if s.ctrl.Some? then CtrlSource
    else if s.l2cap != [] then L2capSource
    else NoSource
  }

  function SourceLlid(source: Source): Llid {
    match source
    case NoSource => Continuation
    case RspSource => Control
    case CtrlSource => Control
    case L2capSource => StartL2cap
  }

  /** What is waiting in a source, oldest first. */
  function Pending(s: Conn, source: Source): seq<seq<byte>> {
    match source
    case NoSource => []
    case RspSource => if s.rsp.Some? then [s.rsp.value] else []
    case CtrlSource => if s.ctrl.Some? then [s.ctrl.value] else []
    case L2capSource => s.l2cap
  }

  function Head(s: Conn, source: Source): seq<byte> {
    if Pending(s, source) == [] then [] else Pending(s, source)[0]
  }

  /** Copies the chosen payload, or an empty continuation PDU, into the transmit buffer. */
  function Load(s: Conn, nextRxSn: bit, txSn: bit): Conn {
    var source := BestSource(s);
    s.(txPdu := Pdu(Header(SourceLlid(source), nextRxSn, txSn), Head(s, source)), selected := source)
  }

  function Consume(s: Conn, source: Source): Conn {
    match source
    case NoSource => s
    case RspSource => s.(rsp := None)
    case CtrlSource => s.(ctrl := None)
    case L2capSource => s.(l2cap := if s.l2cap == [] then [] else s.l2cap[1..])
  }

  function Stage(s: Conn, isNew: bool): Conn {
    if isNew then Consume(s.(lastPdu := s.txPdu, unacked := true), s.selected) else s
  }

  // ---- central handlers ---------------------------------------------------------------------

  function CentralStart(s: Conn): Conn {
    var s0 := s.(rxPdu := EMPTY_RX, rxPending := false, selected := NoSource, phase := WaitTx);
    if s.unacked then Stage(s0, false) else Stage(Load(s0, s0.nextRxSn, s0.txSn), true)
  }

  predicate Acks(s: Conn, header: Header) { s.unacked && header.nesn != s.txSn }

  predicate IsNew(s: Conn, header: Header) { header.sn == s.nextRxSn }

  function Commit(s: Conn, acked: bool, isNew: bool): Conn {
    s.(unacked := s.unacked && !acked,
       txSn := if acked then Flip(s.txSn) else s.txSn,
       nextRxSn := if isNew then Flip(s.nextRxSn) else s.nextRxSn,
       rxPending := isNew)
  }

  function CentralPacket(s: Conn, rx: Pdu): Conn {
    Commit(s, Acks(s, rx.header), IsNew(s, rx.header)).(rxPdu := rx, selected := NoSource)
  }

  function CentralCrcError(s: Conn, garbage: Pdu): Conn {
    s.(rxPdu := garbage, rxPending := false, selected := NoSource)
  }

  // ---- peripheral handlers --------------------------------------------------------------------

  function PeripheralStart(s: Conn): Conn {
    s.(rxPdu := EMPTY_RX, rxPending := false, bcAcked := false, bcNew := false, selected := NoSource,
       phase := WaitRx)
  }

  /** The header of rx has arrived, and the response is prepared for a packet that will pass CRC. */
  function PeripheralBcmatch(s: Conn, rx: Pdu): Conn {
    var acked := Acks(s, rx.header);
    var isNew := IsNew(s, rx.header);
    var s0 := if s.phase == Idle then s.(rxPdu := rx)
              else s.(rxPdu := rx, bcAcked := acked, bcNew := isNew, selected := NoSource);
    if s.phase == Idle || (s.unacked && !acked) then s0
    else Load(s0, if isNew then Flip(s.nextRxSn) else s.nextRxSn, if acked then Flip(s.txSn) else s.txSn)
  }

  function PeripheralPacket(s: Conn): Conn {
    var s0 := Commit(s, s.bcAcked, s.bcNew);
    Stage(s0, !s0.unacked).(bcAcked := false, bcNew := false, selected := NoSource)
  }

  function PeripheralCrcError(s: Conn): Conn {
    var s0 := s.(bcAcked := false, bcNew := false, selected := NoSource, rxPending := false);
    if s.unacked then Stage(s0, false)
    else Stage(s0.(txPdu := Pdu(Header(Continuation, s.nextRxSn, s.txSn), [])), true)
  }

  // ---- end of the event --------------------------------------------------------------------------

  predicate IsControl(pdu: Pdu) { pdu.header.llid == Control && pdu.payload != [] }

  /** Hands the accepted PDU on; response is what the LL control handler answers to it, which
      matters only for a control PDU. */
  function Process(s: Conn, response: Option<seq<byte>>): Conn {
    var s0 := s.(rxPending := false);
    if s.rxPending && IsControl(s.rxPdu) && response.Some? then QueueRsp(s0, response.value) else s0
  }

  function CentralDisabled(s: Conn, response: Option<seq<byte>>): Conn {
    match s.phase
    case Idle => s
    case WaitTx => s.(phase := WaitRx)
    case WaitRx => Process(s.(phase := Idle), response)
  }

  function PeripheralDisabled(s: Conn, response: Option<seq<byte>>): Conn {
    match s.phase
    case Idle => s
    case WaitRx => s.(phase := WaitTx)
    case WaitTx => Process(s.(phase := Idle, bcAcked := false, bcNew := false, selected := NoSource), response)
  }
}
