/** The link-layer handlers as they run: one runtime object updated in place by every event. */
module ConnRuntime {
  import opened Bytes
  import opened ConnSpec

  /** The four-slot ring of framed L2CAP payloads; contents is what waits in it, oldest first. */
  class L2capTxQueue {
    const q: array<Pdu>
    var ridx: nat
    var widx: nat
    var count: nat
    ghost var contents: seq<seq<byte>>

    ghost predicate Valid()
      reads this, q
    {
      && q.Length == L2CAP_QUEUE_DEPTH && ridx < L2CAP_QUEUE_DEPTH
      && |contents| == count <= L2CAP_QUEUE_DEPTH
      && widx == Slot(ridx, count)
      && forall i :: 0 <= i < count ==> Holds(q[Slot(ridx, i)], contents[i])
    }

    static function Slot(first: nat, i: nat): (slot: nat)
      ensures slot < L2CAP_QUEUE_DEPTH
    {
      (first + i) % L2CAP_QUEUE_DEPTH
    }

    static predicate Holds(pdu: Pdu, payload: seq<byte>) {
      pdu.header.llid == StartL2cap && pdu.payload == payload
    }

    constructor ()
      ensures Valid() && contents == [] && fresh(q)
    {
      q := new Pdu[L2CAP_QUEUE_DEPTH](_ => EMPTY_RX);
      ridx, widx, count, contents := 0, 0, 0, [];
    }

    method Reset()
      requires Valid()
      modifies this
      ensures Valid() && contents == []
    {
      ridx, widx, count, contents := 0, 0, 0, [];
    }

    method Push(header: Header, payload: seq<byte>)
      requires Valid() && count < L2CAP_QUEUE_DEPTH && header.llid == StartL2cap
      modifies this, q
      ensures Valid() && contents == old(contents) + [payload]
    {
      q[widx] := Pdu(header, payload);
      widx, count := (widx + 1) % L2CAP_QUEUE_DEPTH, count + 1;
      contents := contents + [payload];
    }

    method Peek() returns (pdu: Pdu)
      requires Valid() && count > 0
      ensures Holds(pdu, contents[0])
    {
      pdu := q[ridx];
      assert ridx == Slot(ridx, 0);
    }

    method Pop()
      requires Valid()
      modifies this
      ensures Valid() && contents == if old(contents) == [] then [] else old(contents)[1..]
    {
      if count == 0 { return; }
      contents := contents[1..];
      ridx, count := (ridx + 1) % L2CAP_QUEUE_DEPTH, count - 1;
      assert forall i :: 0 <= i < count ==> Slot(ridx, i) == Slot(old(ridx), i + 1);
    }
  }

  class Runtime {
    var connected: bool
    var txSn: bit
    var nextRxSn: bit
    var unacked: bool
    var txPdu: Pdu
    var lastPdu: Pdu
    var hasRsp: bool
    var rspPdu: Pdu
    var hasCtrl: bool
    var ctrlPdu: Pdu
    const queue: L2capTxQueue
    var selected: Source
    var rxPdu: Pdu
    var rxPending: bool
    var bcAcked: bool
    var bcNew: bool
    var phase: Phase

    ghost predicate Valid()
      reads this, queue, queue.q
    {
      && queue.Valid()
      && (hasRsp ==> rspPdu.header.llid == Control)
      && (hasCtrl ==> ctrlPdu.header.llid == Control)
    }

    ghost function State(): Conn
      reads this, queue
    {
      Conn(txSn, nextRxSn, unacked, txPdu, lastPdu,
           if hasRsp then Some(rspPdu.payload) else None,
           if hasCtrl then Some(ctrlPdu.payload) else None,
           queue.contents, selected, rxPdu, rxPending, bcAcked, bcNew, phase)
    }

    /** A link just prepared: the transmit buffers keep whatever they held. */
    constructor (oldTx: Pdu, oldLast: Pdu)
      ensures Valid() && connected && fresh(queue) && fresh(queue.q)
      ensures State() == Conn(0, 0, false, oldTx, oldLast, None, None, [], NoSource, EMPTY_RX, false, false, false, Idle)
    {
      connected := true;
      txSn, nextRxSn, unacked := 0, 0, false;
      txPdu, lastPdu := oldTx, oldLast;
      hasRsp, hasCtrl, rspPdu, ctrlPdu := false, false, EMPTY_RX, EMPTY_RX;
      queue := new L2capTxQueue();
      selected, rxPdu, rxPending := NoSource, EMPTY_RX, false;
      bcAcked, bcNew, phase := false, false, Idle;
    }

    method ConnHeader(llid: Llid) returns (h: Header)
      ensures h == Header(llid, nextRxSn, txSn)
    {
      h := Header(llid, nextRxSn, txSn);
    }

    method QueueControlResponse(payload: seq<byte>) returns (ok: bool)
      requires Valid()
      modifies this
      ensures Valid() && connected == old(connected)
      ensures ok == (connected && ControlFits(payload) && !old(hasRsp))
      ensures State() == if connected then QueueRsp(old(State()), payload) else old(State())
    {
      if payload == [] || !connected || |payload| > DATA_PAYLOAD_MAX || hasRsp { return false; }
      var h := ConnHeader(Control);
      rspPdu, hasRsp := Pdu(h, payload), true;
      return true;
    }

    method QueueControl(payload: seq<byte>) returns (ok: bool)
      requires Valid()
      modifies this
      ensures Valid() && connected == old(connected)
      ensures ok == (connected && ControlFits(payload) && !old(hasCtrl))
      ensures State() == if connected then QueueCtrl(old(State()), payload) else old(State())
    {
      if payload == [] || !connected || |payload| > DATA_PAYLOAD_MAX || hasCtrl { return false; }
      var h := ConnHeader(Control);
      ctrlPdu, hasCtrl := Pdu(h, payload), true;
      return true;
    }

    method QueueL2capPayload(cid: u16, payload: seq<byte>) returns (ok: bool)
      requires Valid() && |payload| + L2CAP_HDR_LEN < 0x1_0000
      modifies this, queue, queue.q
      ensures Valid() && connected == old(connected)
      ensures ok == (connected && L2capAccepts(old(State()), payload))
      ensures State() == if connected then QueueL2cap(old(State()), cid, payload) else old(State())
    {
      if payload == [] || !connected { return false; }
      if |payload| + L2CAP_HDR_LEN > DATA_PAYLOAD_MAX { return false; }
      if queue.count >= L2CAP_QUEUE_DEPTH { return false; }
      var h := ConnHeader(StartL2cap);
      queue.Push(h, Frame(cid, payload));
      return true;
    }

    method ClearConsumedPendingSource(source: Source)
      requires Valid()
      modifies this`hasRsp, this`hasCtrl, queue
      ensures Valid()
      ensures State() == Consume(old(State()), source)
    {
      if source == RspSource {
        hasRsp := false;
      } else if source == CtrlSource {
        hasCtrl := false;
      } else if source == L2capSource {
        queue.Pop();
      }
    }

    method LoadPendingTxPdu(nextRx: bit, sn: bit) returns (found: bool)
      requires Valid() && selected == NoSource
      modifies this`txPdu, this`selected
      ensures Valid() && found == (BestSource(old(State())) != NoSource)
      ensures State() == if found then Load(old(State()), nextRx, sn) else old(State())
    {
      if hasRsp {
        txPdu := Pdu(Header(rspPdu.header.llid, nextRx, sn), rspPdu.payload);
        selected := RspSource;
        return true;
      }
      if hasCtrl {
        txPdu := Pdu(Header(ctrlPdu.header.llid, nextRx, sn), ctrlPdu.payload);
        selected := CtrlSource;
        return true;
      }
      if queue.count != 0 {
        var pending := queue.Peek();
        txPdu := Pdu(Header(pending.header.llid, nextRx, sn), pending.payload);
        selected := L2capSource;
        return true;
      }
      return false;
    }

    /** What both roles do for a new PDU: the best pending one, or an empty continuation. */
    method LoadPendingOrEmpty(nextRx: bit, sn: bit)
      requires Valid() && selected == NoSource
      modifies this`txPdu, this`selected
      ensures Valid()
      ensures State() == Load(old(State()), nextRx, sn)
    {
      var found := LoadPendingTxPdu(nextRx, sn);
      if !found {
        txPdu := Pdu(Header(Continuation, nextRx, sn), []);
      }
    }

    /** Returns the PDU the radio is pointed at, which is the stored one afterwards in either case. */
    method StageConnResponse(isNew: bool) returns (onAir: Pdu)
      requires Valid()
      modifies this`lastPdu, this`unacked, this`hasRsp, this`hasCtrl, queue
      ensures Valid()
      ensures State() == Stage(old(State()), isNew)
      ensures onAir == State().lastPdu
    {
      onAir := if isNew then txPdu else lastPdu;
      if isNew {
        lastPdu := txPdu;
        unacked := true;
        if selected != NoSource {
          ClearConsumedPendingSource(selected);
        }
      }
    }

    method CentralStartEvent() returns (onAir: Pdu)
      requires Valid()
      modifies this, queue
      ensures Valid()
      ensures State() == CentralStart(old(State()))
      ensures onAir == State().lastPdu
    {
      hide Load;
      hide Stage;
      rxPdu := EMPTY_RX;
      rxPending := false;
      selected := NoSource;
      phase := WaitTx;
      var isNew := !unacked;
      if isNew {
        LoadPendingOrEmpty(nextRxSn, txSn);
      }
      onAir := StageConnResponse(isNew);
    }

    /** What an acknowledgement and a new PDU do to the sequence numbers, in either role. */
    method CommitSequence(acked: bool, isNew: bool)
      requires Valid()
      modifies this`unacked, this`txSn, this`nextRxSn, this`rxPending
      ensures Valid()
      ensures State() == Commit(old(State()), acked, isNew)
    {
      if acked {
        unacked := false;
        txSn := Flip(txSn);
      }
      if isNew {
        nextRxSn := Flip(nextRxSn);
      }
      rxPending := isNew;
    }

    method CentralHandlePacket(rx: Pdu)
      requires Valid()
      modifies this`rxPdu, this`unacked, this`txSn, this`nextRxSn, this`rxPending, this`selected
      ensures Valid()
      ensures State() == CentralPacket(old(State()), rx)
    {
      rxPdu := rx;
      var acked := unacked && rx.header.nesn != txSn;
      var isNew := rx.header.sn == nextRxSn;
      CommitSequence(acked, isNew);
      selected := NoSource;
    }

    method CentralHandleCrcError(garbage: Pdu)
      requires Valid()
      modifies this
      ensures Valid()
      ensures State() == CentralCrcError(old(State()), garbage)
    {
      rxPdu := garbage;
      rxPending := false;
      selected := NoSource;
    }

    method ResetBcmatch()
      requires Valid()
      modifies this`bcAcked, this`bcNew, this`selected
      ensures Valid()
      ensures State() == old(State()).(bcAcked := false, bcNew := false, selected := NoSource)
    {
      bcAcked := false;
      bcNew := false;
      selected := NoSource;
    }

    method PeripheralStartEvent()
      requires Valid()
      modifies this
      ensures Valid()
      ensures State() == PeripheralStart(old(State()))
    {
      rxPdu := EMPTY_RX;
      rxPending := false;
      ResetBcmatch();
      phase := WaitRx;
    }

    method PrestageConnResponseFromHeader()
      requires Valid() && phase != Idle
      modifies this
      ensures Valid()
      ensures State() == PeripheralBcmatch(old(State()), old(rxPdu))
    {
      var acked := unacked && rxPdu.header.nesn != txSn;
      var isNew := rxPdu.header.sn == nextRxSn;
      ResetBcmatch();
      bcAcked := acked;
      bcNew := isNew;
      if unacked && !acked { return; }
      var nextRx := if isNew then Flip(nextRxSn) else nextRxSn;
      var sn := if acked then Flip(txSn) else txSn;
      LoadPendingOrEmpty(nextRx, sn);
    }

    /** The radio has written the header, and will write the payload, of rx into the receive buffer. */
    method PeripheralHandleBcmatch(rx: Pdu)
      requires Valid()
      modifies this
      ensures Valid()
      ensures State() == PeripheralBcmatch(old(State()), rx)
    {
      rxPdu := rx;
      if phase == Idle { return; }
      PrestageConnResponseFromHeader();
    }

    method PeripheralHandlePacket() returns (onAir: Pdu)
      requires Valid()
      modifies this, queue
      ensures Valid()
      ensures State() == PeripheralPacket(old(State()))
      ensures onAir == State().lastPdu
    {
      CommitSequence(bcAcked, bcNew);
      var isNew := !unacked;
      onAir := StageConnResponse(isNew);
      ResetBcmatch();
    }

    method PeripheralHandleCrcError() returns (onAir: Pdu)
      requires Valid()
      modifies this, queue
      ensures Valid()
      ensures State() == PeripheralCrcError(old(State()))
      ensures onAir == State().lastPdu
    {
      ResetBcmatch();
      rxPending := false;
      var isNew := !unacked;
      if isNew {
        var h := ConnHeader(Continuation);
        txPdu := Pdu(h, []);
      }
      onAir := StageConnResponse(isNew);
    }

    /** answer is what ll_control_process leaves in its response buffer, None when it leaves nothing. */
    method ProcessPending(answer: Option<seq<byte>>)
      requires Valid() && connected
      modifies this
      ensures Valid() && connected && State() == Process(old(State()), answer)
      ensures old(State()).rsp.None? ==>
        State().rsp == if old(rxPending) && old(rxPdu).header.llid == Control && old(rxPdu).payload != []
                          && answer.Some? && 0 < |answer.value| <= 251 then answer else None
    {
      if rxPending {
        rxPending := false;
        if rxPdu.header.llid == Control && rxPdu.payload != [] && answer.Some? {
          var accepted := QueueControlResponse(answer.value);
        }
      }
    }

    method CentralHandleDisabled(answer: Option<seq<byte>>)
      requires Valid() && connected
      modifies this
      ensures Valid() && connected && State() == CentralDisabled(old(State()), answer)
    {
      if phase == Idle { return; }
      if phase == WaitTx {
        phase := WaitRx;
        return;
      }
      phase := Idle;
      ProcessPending(answer);
    }

    method PeripheralHandleDisabled(answer: Option<seq<byte>>)
      requires Valid() && connected
      modifies this
      ensures Valid() && connected && State() == PeripheralDisabled(old(State()), answer)
    {
      if phase == Idle { return; }
      if phase == WaitRx {
        phase := WaitTx;
        return;
      }
      phase := Idle;
      ResetBcmatch();
      ProcessPending(answer);
    }
  }
}
