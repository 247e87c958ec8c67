/**
 * Two connected ends of this stack over a channel that may deliver, corrupt or lose every packet.
 * The logs count without bound what the one-bit sequence numbers and the bounded buffers forget.
 */
module AckSystem {
  import opened Bytes
  import opened ConnSpec

  /** What one end has done so far. nesnCount is the value of accepted when the stored PDU was staged. */
  datatype Log = Log(
    sent: seq<Pdu>, from: seq<Source>,
    acked: nat, accepted: nat, nesnCount: nat,
    processed: seq<Pdu>,
    rspIn: seq<seq<byte>>, ctrlIn: seq<seq<byte>>, l2capIn: seq<seq<byte>>,
    refused: nat)

  datatype Node = Node(conn: Conn, log: Log)

  /** Progress of the current connection event; base is the central's acked count when it began. */
  datatype Stage =
    | Between
    | CentralSent(base: nat)
    | Matched(base: nat, crcOk: bool)
    | PeripheralSent(base: nat, crcOk: bool)
    | Heard(base: nat, clean: bool)

  datatype First = Nothing | CrcOk | CrcError

  /** first is the CRC result of the first packet the peripheral ever heard; clean counts the
      events in which both packets arrived intact. */
  datatype Sys = Sys(c: Node, p: Node, stage: Stage, first: First, clean: nat)

  datatype Fate = Intact | Corrupt(garbage: Pdu) | Lost

  datatype Action =
    | QueueControl(atCentral: bool, payload: seq<byte>)
    | QueueData(atCentral: bool, cid: u16, payload: seq<byte>)
    | Start
    | PeripheralHeader(fate: Fate)
    | PeripheralCrc
    | CentralHears(fate: Fate)
    | Finish(answerP: Option<seq<byte>>, answerC: Option<seq<byte>>)

  // ---- initial state -----------------------------------------------------------------------

  /** controller_prepare_connected_link clears everything but the two transmit buffers. */
  predicate Fresh(n: Node) {
    && n.conn.txSn == 0 && n.conn.nextRxSn == 0 && !n.conn.unacked
    && n.conn.rsp.None? && n.conn.ctrl.None? && n.conn.l2cap == []
    && n.conn.selected == NoSource && !n.conn.rxPending && n.conn.phase == Idle
    && n.log == Log([], [], 0, 0, 0, [], [], [], [], 0)
  }

  predicate Initial(s: Sys) {
    Fresh(s.c) && Fresh(s.p) && s.stage == Between && s.first == Nothing && s.clean == 0
  }

  // ---- steps of one end -------------------------------------------------------------------------

  /** Staging appends to the log exactly when a new PDU is staged: before is the state Stage was given. */
  function LogStaged(log: Log, before: Conn, isNew: bool): Log {
    if isNew then
      log.(sent := log.sent + [before.txPdu], from := log.from + [before.selected], nesnCount := log.accepted)
    else log
  }

  function LogHeard(log: Log, acks: bool, isNew: bool): Log {
    log.(acked := log.acked + (if acks then 1 else 0), accepted := log.accepted + (if isNew then 1 else 0))
  }

  function CentralBegins(n: Node): Node {
    var loaded := if n.conn.unacked then n.conn else Load(n.conn, n.conn.nextRxSn, n.conn.txSn);
    Node(CentralDisabled(CentralStart(n.conn), None), LogStaged(n.log, loaded, !n.conn.unacked))
  }

  function CentralHearing(n: Node, fate: Fate, packet: Pdu): Node {
    match fate
    case Intact =>
      Node(CentralPacket(n.conn, packet),
           LogHeard(n.log, Acks(n.conn, packet.header), IsNew(n.conn, packet.header)))
    case Corrupt(garbage) => n.(conn := CentralCrcError(n.conn, garbage))
    case Lost => n
  }

  function PeripheralAnswers(n: Node, crcOk: bool): Node {
    if crcOk then
      var log := LogHeard(n.log, n.conn.bcAcked, n.conn.bcNew);
      Node(PeripheralDisabled(PeripheralPacket(n.conn), None),
           LogStaged(log, n.conn, !n.conn.unacked || n.conn.bcAcked))
    else
      var empty := n.conn.(txPdu := Pdu(Header(Continuation, n.conn.nextRxSn, n.conn.txSn), []),
                           selected := NoSource);
      Node(PeripheralDisabled(PeripheralCrcError(n.conn), None), LogStaged(n.log, empty, !n.conn.unacked))
  }

  /** The last DISABLED of the event. An answer that finds the response slot full is refused. */
  function Ends(n: Node, after: Conn, answer: Option<seq<byte>>): Node {
    if !n.conn.rxPending then n.(conn := after)
    else
      var log := n.log.(processed := n.log.processed + [n.conn.rxPdu]);
      if !IsControl(n.conn.rxPdu) || answer.None? || !ControlFits(answer.value) then Node(after, log)
      else if n.conn.rsp.None? then Node(after, log.(rspIn := log.rspIn + [answer.value]))
      else Node(after, log.(refused := log.refused + 1))
  }

  function Queues(n: Node, a: Action): Node
    requires a.QueueControl? || a.QueueData?
  {
    match a
    case QueueControl(_, payload) =>
      var log := if ControlFits(payload) && n.conn.ctrl.None? then n.log.(ctrlIn := n.log.ctrlIn + [payload]) else n.log;
      Node(QueueCtrl(n.conn, payload), log)
    case QueueData(_, cid, payload) =>
      var log := if L2capAccepts(n.conn, payload) then n.log.(l2capIn := n.log.l2capIn + [Frame(cid, payload)]) else n.log;
      Node(QueueL2cap(n.conn, cid, payload), log)
  }

  // ---- steps of the system --------------------------------------------------------------------------

  /** One atomic handler (or two handlers of different ends); a step that is not enabled does nothing. */
  function Step(s: Sys, a: Action): Sys {
    match a
    case QueueControl(atCentral, _) => if atCentral then s.(c := Queues(s.c, a)) else s.(p := Queues(s.p, a))
    case QueueData(atCentral, _, _) => if atCentral then s.(c := Queues(s.c, a)) else s.(p := Queues(s.p, a))
    case Start =>
      if s.stage != Between then s
      else s.(c := CentralBegins(s.c), p := s.p.(conn := PeripheralStart(s.p.conn)), stage := CentralSent(s.c.log.acked))
    case PeripheralHeader(fate) =>
      if !s.stage.CentralSent? then s
      else if fate.Lost? then s.(stage := Heard(s.stage.base, false))
      else
        var rx := if fate.Intact? then s.c.conn.lastPdu else fate.garbage;
        s.(p := s.p.(conn := PeripheralBcmatch(s.p.conn, rx)), stage := Matched(s.stage.base, fate.Intact?))
    case PeripheralCrc =>
      if !s.stage.Matched? then s
      else
        var first := if s.first != Nothing then s.first else if s.stage.crcOk then CrcOk else CrcError;
        s.(p := PeripheralAnswers(s.p, s.stage.crcOk), first := first,
           stage := PeripheralSent(s.stage.base, s.stage.crcOk))
    case CentralHears(fate) =>
      if !s.stage.PeripheralSent? then s
      else
        var clean := s.stage.crcOk && fate.Intact?;
        s.(c := CentralHearing(s.c, fate, s.p.conn.lastPdu), stage := Heard(s.stage.base, clean),
           clean := s.clean + if clean then 1 else 0)
    case Finish(answerP, answerC) =>
      if !s.stage.Heard? then s
      else
        s.(c := Ends(s.c, CentralDisabled(s.c.conn, answerC), answerC),
           p := Ends(s.p, PeripheralDisabled(s.p.conn, answerP), answerP), stage := Between)
  }

  ghost predicate Reaches(s: Sys, actions: seq<Action>, t: Sys)
    decreases |actions|
  {
    if actions == [] then s == t else Reaches(Step(s, actions[0]), actions[1..], t)
  }

  ghost predicate Reachable(t: Sys) { exists s, actions :: Initial(s) && Reaches(s, actions, t) }
}
