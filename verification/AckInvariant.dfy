/**
 * What every step of AckSystem keeps: the counters of both directions, conservation of queued
 * payloads, what each stage of an event guarantees, and when the exchange can still make progress.
 */
module AckInvariant {
  import opened Bytes
  import opened ConnSpec
  import opened AckSystem
  import opened Seqs

  // ---- invariant -------------------------------------------------------------------------------------

  /** The counters of one direction, tied to the sequence bits and to the stored header. */
  ghost predicate Direction(tx: Node, rx: Node) {
    && tx.log.acked <= rx.log.accepted <= |tx.log.sent| == tx.log.acked + (if tx.conn.unacked then 1 else 0)
    && tx.conn.txSn == tx.log.acked % 2
    && rx.conn.nextRxSn == rx.log.accepted % 2
    && (if tx.log.sent == [] then rx.log.acked == 0
        else rx.log.acked <= tx.log.nesnCount <= tx.log.accepted && StoredHeader(tx))
    && Delivered(tx, rx)
  }

  ghost predicate StoredHeader(tx: Node)
    requires tx.log.sent != []
  {
    && tx.conn.lastPdu == tx.log.sent[|tx.log.sent| - 1]
    && tx.conn.lastPdu.header.sn == (|tx.log.sent| - 1) % 2
    && tx.conn.lastPdu.header.nesn == tx.log.nesnCount % 2
  }

  /** The receiver has processed the first PDUs its peer staged, in order, and holds at most one more. */
  ghost predicate Delivered(tx: Node, rx: Node) {
    && rx.log.accepted <= |tx.log.sent|
    && rx.log.accepted == |rx.log.processed| + (if rx.conn.rxPending then 1 else 0)
    && rx.log.processed == tx.log.sent[..|rx.log.processed|]
    && (rx.conn.rxPending ==> rx.conn.rxPdu == tx.log.sent[rx.log.accepted - 1])
  }

  /** The payloads of the PDUs staged from one source, in staging order. */
  function Staged(log: Log, source: Source): seq<seq<byte>> {
    StagedFrom(log.sent, log.from, source)
  }

  function StagedFrom(sent: seq<Pdu>, from: seq<Source>, source: Source): seq<seq<byte>> {
    if sent == [] || |sent| != |from| then []
    else
      var n := |sent| - 1;
      StagedFrom(sent[..n], from[..n], source) + if from[n] == source then [sent[n].payload] else []
  }

  function Accepted(log: Log, source: Source): seq<seq<byte>> {
    match source
    case NoSource => []
    case RspSource => log.rspIn
    case CtrlSource => log.ctrlIn
    case L2capSource => log.l2capIn
  }

  /** Nothing accepted for sending from a source is lost, repeated or reordered. */
  ghost predicate ConservedIn(n: Node, source: Source) {
    Staged(n.log, source) + Pending(n.conn, source) == Accepted(n.log, source)
  }

  ghost predicate Conserved(n: Node) {
    && |n.log.from| == |n.log.sent|
    && (forall i :: 0 <= i < |n.log.sent| ==> n.log.sent[i].header.llid == SourceLlid(n.log.from[i]))
    && ConservedIn(n, RspSource) && ConservedIn(n, CtrlSource) && ConservedIn(n, L2capSource)
    && |n.conn.l2cap| <= L2CAP_QUEUE_DEPTH
  }

  /** What PeripheralBcmatch prepared still holds when the CRC result arrives. */
  ghost predicate Prepared(n: Node, rx: Pdu) {
    && n.conn.rxPdu == rx
    && n.conn.bcAcked == Acks(n.conn, rx.header)
    && n.conn.bcNew == IsNew(n.conn, rx.header)
    && (!n.conn.unacked || n.conn.bcAcked ==>
          && n.conn.txPdu == Pdu(Header(SourceLlid(n.conn.selected),
                                        if n.conn.bcNew then Flip(n.conn.nextRxSn) else n.conn.nextRxSn,
                                        if n.conn.bcAcked then Flip(n.conn.txSn) else n.conn.txSn),
                                 Head(n.conn, n.conn.selected))
          && (n.conn.selected != NoSource ==> Pending(n.conn, n.conn.selected) != [])
          && (n.conn.rsp.Some? ==> n.conn.selected == RspSource))
  }

  ghost predicate StageInv(s: Sys) {
    match s.stage
    case Between => !s.c.conn.rxPending && !s.p.conn.rxPending
    case CentralSent(base) =>
      && base == s.c.log.acked
      && s.c.conn.unacked && !s.c.conn.rxPending && !s.p.conn.rxPending
      && s.c.conn.phase == WaitRx && s.p.conn.phase == WaitRx
    case Matched(base, crcOk) =>
      && base == s.c.log.acked
      && s.c.conn.unacked && !s.c.conn.rxPending && !s.p.conn.rxPending
      && s.c.conn.phase == WaitRx && s.p.conn.phase == WaitRx
      && (crcOk ==> Prepared(s.p, s.c.conn.lastPdu))
    case PeripheralSent(base, crcOk) =>
      && base == s.c.log.acked
      && s.c.conn.unacked && s.p.conn.unacked && !s.c.conn.rxPending
      && s.c.conn.phase == WaitRx && s.p.conn.phase == WaitTx
      && (crcOk ==> s.p.log.accepted == s.c.log.acked + 1)
    case Heard(base, clean) =>
      && (s.c.conn.rxPending ==> s.c.conn.phase == WaitRx)
      && (s.p.conn.rxPending ==> s.p.conn.phase == WaitTx)
      && base <= s.c.log.acked <= base + 1
  }

  // The central's PDU was accepted and the answer is on its way.
  ghost predicate AwaitingAnswer(c: Node, p: Node) {
    && c.conn.unacked
    && p.log.nesnCount == p.log.accepted == c.log.acked + 1
    && c.log.nesnCount == c.log.accepted == p.log.acked
  }

  // The central's PDU is new to the peripheral, and acknowledges the peripheral's.
  ghost predicate AwaitingDelivery(c: Node, p: Node) {
    && c.conn.unacked
    && p.log.nesnCount == p.log.accepted == c.log.acked
    && c.log.nesnCount == c.log.accepted == p.log.acked + 1
  }

  // The central has nothing outstanding and has accepted all the peripheral staged.
  ghost predicate Resynchronised(c: Node, p: Node) {
    && !c.conn.unacked && p.conn.unacked
    && p.log.nesnCount == p.log.accepted == c.log.acked
    && c.log.accepted == p.log.acked + 1
  }

  // Both ends hold an outstanding PDU whose stored header acknowledges nothing.
  ghost predicate Stuck(c: Node, p: Node) {
    && |c.log.sent| == 1 && |p.log.sent| == 1
    && c.conn.unacked && p.conn.unacked
    && c.log.acked == c.log.nesnCount == 0 && p.log.acked == p.log.nesnCount == 0
  }

  ghost predicate ProgressInv(s: Sys) {
    match s.first
    case Nothing =>
      && s.p.log.sent == [] && s.p.log.accepted == 0 && s.c.log.accepted == 0
      && s.c.log.nesnCount == 0 && s.c.log.acked == 0 && s.p.log.acked == 0 && s.clean == 0
      && !s.p.conn.unacked
      && !s.stage.PeripheralSent? && (s.stage.Heard? ==> !s.stage.clean)
    case CrcOk =>
      && s.p.conn.unacked
      && (AwaitingAnswer(s.c, s.p) || AwaitingDelivery(s.c, s.p) || Resynchronised(s.c, s.p))
      && s.clean <= s.c.log.acked
      && (s.stage.PeripheralSent? && s.stage.crcOk ==> AwaitingAnswer(s.c, s.p))
      && (s.stage.Heard? && s.c.conn.rxPending ==> Resynchronised(s.c, s.p))
      && (s.stage.Heard? && s.stage.clean ==> Resynchronised(s.c, s.p) && s.c.log.acked == s.stage.base + 1)
    case CrcError => Stuck(s.c, s.p)
  }

  /** The response slot is empty whenever an accepted PDU waits to be processed. */
  ghost predicate ResponseInv(s: Sys) {
    && s.c.log.refused == 0 && s.p.log.refused == 0
    && (s.c.conn.rsp.Some? ==> |s.c.log.processed| > 0 && (s.first == CrcOk ==> !s.c.conn.unacked))
    && (s.p.conn.rsp.Some? ==> |s.p.log.processed| > 0)
    && (s.c.conn.rxPending ==> s.c.conn.rsp.None?)
    && (s.p.conn.rxPending ==> s.p.conn.rsp.None?)
  }

  /** Everything but conservation. */
  ghost predicate Numbers(s: Sys) {
    Direction(s.c, s.p) && Direction(s.p, s.c) && StageInv(s) && ProgressInv(s) && ResponseInv(s)
  }

  ghost predicate Inv(s: Sys) { Numbers(s) && Conserved(s.c) && Conserved(s.p) }

  lemma {:induction false} InitialInv(s: Sys)
    requires Initial(s)
    ensures Inv(s)
  {
  }

  // ---- conservation, one end at a time -------------------------------------------------------

  lemma {:induction false} StagedAppend(sent: seq<Pdu>, from: seq<Source>, pdu: Pdu, chosen: Source, source: Source)
    requires |sent| == |from|
    ensures StagedFrom(sent + [pdu], from + [chosen], source)
         == StagedFrom(sent, from, source) + if chosen == source then [pdu.payload] else []
  {
    assert (sent + [pdu])[..|sent|] == sent && (from + [chosen])[..|from|] == from;
  }

  // A transmit buffer filled from the source it names, ready to be staged as a new PDU.
  ghost predicate Loaded(s: Conn) {
    && s.txPdu.header.llid == SourceLlid(s.selected)
    && s.txPdu.payload == Head(s, s.selected)
    && (s.selected != NoSource ==> Pending(s, s.selected) != [])
  }

  lemma {:induction false} ConsumeSplits(s: Conn, source: Source)
    requires source != NoSource && Loaded(s)
    ensures Pending(s, source)
         == (if s.selected == source then [s.txPdu.payload] else []) + Pending(Consume(s, s.selected), source)
  {
    assert [] + Pending(s, source) == Pending(s, source);
    if s.selected == source && source == L2capSource {
      assert s.l2cap == [s.l2cap[0]] + s.l2cap[1..];
    }
  }

  lemma {:induction false} StagingConservesIn(log: Log, before: Conn, after: Conn, source: Source)
    requires |log.sent| == |log.from| && source != NoSource
    requires ConservedIn(Node(before, log), source) && Loaded(before)
    requires Pending(after, source) == Pending(Consume(before, before.selected), source)
    ensures ConservedIn(Node(after, LogStaged(log, before, true)), source)
  {
    var moved := if before.selected == source then [before.txPdu.payload] else [];
    ConsumeSplits(before, source);
    Regroup(Staged(log, source), moved, Pending(after, source));
    StagedAppend(log.sent, log.from, before.txPdu, before.selected, source);
  }

  lemma {:induction false} StagingConserves(log: Log, before: Conn, after: Conn)
    requires Conserved(Node(before, log)) && Loaded(before)
    requires after.rsp == Consume(before, before.selected).rsp
    requires after.ctrl == Consume(before, before.selected).ctrl
    requires after.l2cap == Consume(before, before.selected).l2cap
    ensures Conserved(Node(after, LogStaged(log, before, true)))
  {
    StagingConservesIn(log, before, after, RspSource);
    StagingConservesIn(log, before, after, CtrlSource);
    StagingConservesIn(log, before, after, L2capSource);
  }

  lemma {:induction false} QueuesConserves(n: Node, a: Action)
    requires Conserved(n) && (a.QueueControl? || a.QueueData?)
    ensures Conserved(Queues(n, a))
  {
  }

  // A central event that stages a new PDU, in one expression; one that repeats the old PDU.
  lemma {:induction false} StartStages(s: Conn)
    ensures !s.unacked ==>
      var l := Load(s, s.nextRxSn, s.txSn);
      CentralDisabled(CentralStart(s), None)
      == Consume(l, l.selected).(lastPdu := l.txPdu, unacked := true, rxPdu := EMPTY_RX, rxPending := false, phase := WaitRx)
    ensures s.unacked ==>
      CentralDisabled(CentralStart(s), None)
      == s.(rxPdu := EMPTY_RX, rxPending := false, selected := NoSource, phase := WaitRx)
  {
    match BestSource(s)
    case NoSource =>
    case RspSource =>
    case CtrlSource =>
    case L2capSource =>
  }

  lemma {:induction false} LoadIsLoaded(s: Conn, nextRxSn: bit, txSn: bit)
    ensures Loaded(Load(s, nextRxSn, txSn))
  {
  }

  lemma {:induction false} BeginsConserves(n: Node)
    requires Conserved(n)
    ensures Conserved(CentralBegins(n))
  {
    StartStages(n.conn);
    hide CentralStart;
    hide CentralDisabled;
    if !n.conn.unacked {
      var l := Load(n.conn, n.conn.nextRxSn, n.conn.txSn);
      LoadIsLoaded(n.conn, n.conn.nextRxSn, n.conn.txSn);
      assert Conserved(Node(l, n.log));
      hide Conserved;
      hide Consume;
      StagingConserves(n.log, l, CentralBegins(n).conn);
      return;
    }
  }

  // Staging in the peripheral's handlers touches the pending payloads only through Consume.
  lemma {:induction false} AnswersConsume(s: Conn, crcOk: bool)
    requires s.phase == WaitRx
    ensures var t := PeripheralDisabled(if crcOk then PeripheralPacket(s) else PeripheralCrcError(s), None);
            var u := if crcOk && (!s.unacked || s.bcAcked) then Consume(s, s.selected) else s;
            t.rsp == u.rsp && t.ctrl == u.ctrl && t.l2cap == u.l2cap
  {
    if crcOk {
      PacketConsumes(s);
    } else {
      ErrorConsumesNothing(s);
    }
    hide PeripheralPacket;
    hide PeripheralCrcError;
    hide Consume;
  }

  lemma {:induction false} PacketConsumes(s: Conn)
    ensures var t := PeripheralPacket(s);
            var u := if !s.unacked || s.bcAcked then Consume(s, s.selected) else s;
            t.rsp == u.rsp && t.ctrl == u.ctrl && t.l2cap == u.l2cap && t.phase == s.phase
  {
    match s.selected
    case NoSource =>
    case RspSource =>
    case CtrlSource =>
    case L2capSource =>
  }

  lemma {:induction false} ErrorConsumesNothing(s: Conn)
    ensures var t := PeripheralCrcError(s);
            t.rsp == s.rsp && t.ctrl == s.ctrl && t.l2cap == s.l2cap && t.phase == s.phase
  {
  }

  lemma {:induction false} AnswersConserves(n: Node, crcOk: bool)
    requires Conserved(n) && n.conn.phase == WaitRx
    requires crcOk && (!n.conn.unacked || n.conn.bcAcked) ==> Loaded(n.conn)
    ensures Conserved(PeripheralAnswers(n, crcOk))
  {
    var after := PeripheralAnswers(n, crcOk).conn;
    AnswersConsume(n.conn, crcOk);
    if crcOk {
      var log := LogHeard(n.log, n.conn.bcAcked, n.conn.bcNew);
      assert Conserved(Node(n.conn, log));
      if !n.conn.unacked || n.conn.bcAcked {
        StagingConserves(log, n.conn, after);
      }
    } else if !n.conn.unacked {
      var empty := n.conn.(txPdu := Pdu(Header(Continuation, n.conn.nextRxSn, n.conn.txSn), []),
                           selected := NoSource);
      assert Conserved(Node(empty, n.log));
      StagingConserves(n.log, empty, after);
    }
  }

  // ---- the other invariants, step by step --------------------------------------------------------

  // What the beginning of an event does to the numbers of the central.
  ghost predicate Began(n: Node, m: Node) {
    && m.conn.unacked && !m.conn.rxPending && m.conn.phase == WaitRx
    && m.conn.txSn == n.conn.txSn && m.conn.nextRxSn == n.conn.nextRxSn
    && m.log.acked == n.log.acked && m.log.accepted == n.log.accepted
    && m.log.processed == n.log.processed && m.log.refused == n.log.refused
    && (if n.conn.unacked
        then m.log == n.log && m.conn.lastPdu == n.conn.lastPdu && m.conn.rsp == n.conn.rsp
        else m.log.sent == n.log.sent + [m.conn.lastPdu] && m.log.nesnCount == n.log.accepted
             && m.conn.lastPdu.header.sn == n.conn.txSn && m.conn.lastPdu.header.nesn == n.conn.nextRxSn
             && m.conn.rsp.None?)
  }

  lemma {:induction false} BeginsFacts(n: Node)
    ensures Began(n, CentralBegins(n))
  {
    StartStages(n.conn);
    hide CentralStart;
    hide CentralDisabled;
  }

  lemma {:induction false} BeganDirections(n: Node, m: Node, p: Node)
    requires Direction(n, p) && Direction(p, n) && Began(n, m) && !n.conn.rxPending
    ensures Direction(m, p) && Direction(p, m)
  {
  }

  lemma {:induction false} WindowOpens(c: Node, p: Node)
    requires Direction(c, p) && Direction(p, c) && !p.conn.rxPending
    ensures var q := p.(conn := PeripheralStart(p.conn)); Direction(c, q) && Direction(q, c)
  {
  }

  lemma {:induction false} BeganProgress(s: Sys, t: Sys)
    requires Direction(s.c, s.p) && Direction(s.p, s.c) && StageInv(s) && ProgressInv(s) && ResponseInv(s)
    requires s.stage == Between && Began(s.c, t.c)
    requires t == s.(c := t.c, p := s.p.(conn := PeripheralStart(s.p.conn)), stage := CentralSent(s.c.log.acked))
    ensures StageInv(t) && ProgressInv(t) && ResponseInv(t)
  {
  }

  lemma {:induction false} StartNumbers(s: Sys)
    requires Numbers(s) && s.stage == Between
    ensures Numbers(Step(s, Start))
  {
    var t := Step(s, Start);
    BeginsFacts(s.c);
    hide CentralBegins;
    hide Direction;
    hide ProgressInv;
    hide ResponseInv;
    hide Began;
    hide PeripheralStart;
    BeganDirections(s.c, t.c, s.p);
    WindowOpens(t.c, s.p);
    BeganProgress(s, t);
  }

  // BCMATCH prepares a response and touches no number.
  ghost predicate Matching(n: Node, m: Node, rx: Pdu) {
    && m.log == n.log
    && m.conn == n.conn.(rxPdu := rx, bcAcked := m.conn.bcAcked, bcNew := m.conn.bcNew,
                         selected := m.conn.selected, txPdu := m.conn.txPdu)
  }

  lemma {:induction false} MatchingFacts(n: Node, rx: Pdu)
    requires n.conn.phase == WaitRx
    ensures var m := n.(conn := PeripheralBcmatch(n.conn, rx)); Matching(n, m, rx) && Prepared(m, rx)
  {
  }

  lemma {:induction false} MatchingDirections(c: Node, n: Node, m: Node, rx: Pdu)
    requires Direction(c, n) && Direction(n, c) && Matching(n, m, rx) && !n.conn.rxPending
    ensures Direction(c, m) && Direction(m, c)
  {
  }

  lemma {:induction false} MatchingProgress(s: Sys, t: Sys, rx: Pdu)
    requires StageInv(s) && ProgressInv(s) && ResponseInv(s) && s.stage.CentralSent?
    requires Matching(s.p, t.p, rx) && Prepared(t.p, rx)
    requires t.stage.Matched? && (t.stage.crcOk ==> rx == s.c.conn.lastPdu)
    requires t == s.(p := t.p, stage := Matched(s.stage.base, t.stage.crcOk))
    ensures StageInv(t) && ProgressInv(t) && ResponseInv(t)
  {
    hide Prepared;
  }

  lemma {:induction false} MissedProgress(s: Sys, t: Sys)
    requires StageInv(s) && ProgressInv(s) && ResponseInv(s) && s.stage.CentralSent?
    requires t == s.(stage := Heard(s.stage.base, false))
    ensures StageInv(t) && ProgressInv(t) && ResponseInv(t)
  {
  }

  lemma {:induction false} HeaderNumbers(s: Sys, fate: Fate)
    requires Numbers(s) && s.stage.CentralSent?
    ensures Numbers(Step(s, PeripheralHeader(fate)))
  {
    var t := Step(s, PeripheralHeader(fate));
    if fate.Lost? {
      MissedProgress(s, t);
    } else {
      var rx := if fate.Intact? then s.c.conn.lastPdu else fate.garbage;
      MatchingFacts(s.p, rx);
      hide PeripheralBcmatch;
      MatchingDirections(s.c, s.p, t.p, rx);
      MatchingProgress(s, t, rx);
    }
    hide Direction;
    hide StageInv;
    hide ProgressInv;
    hide ResponseInv;
  }

  // What PeripheralAnswers does to the numbers: m answers an intact packet, or a corrupted one.
  ghost predicate AnsweredOk(n: Node, m: Node) {
    && m.conn.unacked && m.conn.phase == WaitTx && m.conn.rxPending == n.conn.bcNew
    && m.conn.rxPdu == n.conn.rxPdu
    && m.conn.txSn == (if n.conn.bcAcked then Flip(n.conn.txSn) else n.conn.txSn)
    && m.conn.nextRxSn == (if n.conn.bcNew then Flip(n.conn.nextRxSn) else n.conn.nextRxSn)
    && m.log.acked == n.log.acked + (if n.conn.bcAcked then 1 else 0)
    && m.log.accepted == n.log.accepted + (if n.conn.bcNew then 1 else 0)
    && m.log.processed == n.log.processed && m.log.refused == n.log.refused
    && (if n.conn.unacked && !n.conn.bcAcked
        then m.log.sent == n.log.sent && m.log.nesnCount == n.log.nesnCount
             && m.conn.lastPdu == n.conn.lastPdu && m.conn.rsp == n.conn.rsp
        else m.log.sent == n.log.sent + [m.conn.lastPdu] && m.log.nesnCount == m.log.accepted
             && m.conn.lastPdu == n.conn.txPdu
             && m.conn.rsp == if n.conn.selected == RspSource then None else n.conn.rsp)
  }

  ghost predicate AnsweredError(n: Node, m: Node) {
    && m.conn.unacked && m.conn.phase == WaitTx && !m.conn.rxPending
    && m.conn.txSn == n.conn.txSn && m.conn.nextRxSn == n.conn.nextRxSn
    && m.log.acked == n.log.acked && m.log.accepted == n.log.accepted
    && m.log.processed == n.log.processed && m.log.refused == n.log.refused
    && m.conn.rsp == n.conn.rsp
    && (if n.conn.unacked
        then m.log == n.log && m.conn.lastPdu == n.conn.lastPdu
        else m.log.sent == n.log.sent + [m.conn.lastPdu] && m.log.nesnCount == n.log.accepted
             && m.conn.lastPdu == Pdu(Header(Continuation, n.conn.nextRxSn, n.conn.txSn), []))
  }

  lemma {:induction false} AnswersFacts(n: Node)
    requires n.conn.phase == WaitRx && !n.conn.rxPending
    ensures (n.conn.bcAcked ==> n.conn.unacked) ==> AnsweredOk(n, PeripheralAnswers(n, true))
    ensures AnsweredError(n, PeripheralAnswers(n, false))
  {
  }

  lemma {:induction false} OkDirections(c: Node, n: Node, m: Node)
    requires Direction(c, n) && Direction(n, c) && AnsweredOk(n, m) && Prepared(n, c.conn.lastPdu)
    requires c.conn.unacked && !n.conn.rxPending
    ensures Direction(c, m) && Direction(m, c)
  {
  }

  lemma {:induction false} ErrorDirections(c: Node, n: Node, m: Node)
    requires Direction(c, n) && Direction(n, c) && AnsweredError(n, m)
    requires !n.conn.rxPending
    ensures Direction(c, m) && Direction(m, c)
  {
  }

  lemma {:induction false} OkProgress(s: Sys, t: Sys)
    requires Direction(s.c, s.p) && Direction(s.p, s.c) && StageInv(s) && ProgressInv(s) && ResponseInv(s)
    requires s.stage.Matched? && s.stage.crcOk && AnsweredOk(s.p, t.p)
    requires t == s.(p := t.p, first := if s.first != Nothing then s.first else CrcOk,
                     stage := PeripheralSent(s.stage.base, true))
    ensures StageInv(t) && ProgressInv(t) && ResponseInv(t)
  {
  }

  lemma {:induction false} ErrorProgress(s: Sys, t: Sys)
    requires Direction(s.c, s.p) && Direction(s.p, s.c) && StageInv(s) && ProgressInv(s) && ResponseInv(s)
    requires s.stage.Matched? && !s.stage.crcOk && AnsweredError(s.p, t.p)
    requires t == s.(p := t.p, first := if s.first != Nothing then s.first else CrcError,
                     stage := PeripheralSent(s.stage.base, false))
    ensures StageInv(t) && ProgressInv(t) && ResponseInv(t)
  {
  }

  lemma {:induction false} CrcNumbers(s: Sys)
    requires Numbers(s) && s.stage.Matched?
    ensures Numbers(Step(s, PeripheralCrc))
  {
    var t := Step(s, PeripheralCrc);
    hide Direction;
    hide ProgressInv;
    hide AnsweredOk;
    hide AnsweredError;
    hide PeripheralAnswers;
    AnswersFacts(s.p);
    if s.stage.crcOk {
      OkDirections(s.c, s.p, t.p);
      OkProgress(s, t);
    } else {
      ErrorDirections(s.c, s.p, t.p);
      ErrorProgress(s, t);
    }
  }

  ghost predicate HeardIntact(n: Node, m: Node, packet: Pdu) {
    var acks := Acks(n.conn, packet.header);
    var isNew := IsNew(n.conn, packet.header);
    && m.conn == Commit(n.conn, acks, isNew).(rxPdu := packet, selected := NoSource)
    && m.log == n.log.(acked := n.log.acked + (if acks then 1 else 0),
                       accepted := n.log.accepted + (if isNew then 1 else 0))
  }

  lemma {:induction false} IntactDirections(n: Node, m: Node, p: Node)
    requires Direction(n, p) && Direction(p, n) && HeardIntact(n, m, p.conn.lastPdu)
    requires n.conn.unacked && p.conn.unacked && !n.conn.rxPending
    ensures Direction(m, p) && Direction(p, m)
  {
  }

  lemma {:induction false} IntactProgress(s: Sys, t: Sys)
    requires Direction(s.c, s.p) && Direction(s.p, s.c) && StageInv(s) && ProgressInv(s) && ResponseInv(s)
    requires s.stage.PeripheralSent? && HeardIntact(s.c, t.c, s.p.conn.lastPdu)
    requires t == s.(c := t.c, stage := Heard(s.stage.base, s.stage.crcOk),
                     clean := s.clean + if s.stage.crcOk then 1 else 0)
    ensures StageInv(t) && ProgressInv(t) && ResponseInv(t)
  {
  }

  lemma {:induction false} HearsIntact(s: Sys)
    requires Numbers(s) && s.stage.PeripheralSent?
    ensures Numbers(Step(s, CentralHears(Intact)))
  {
    var t := Step(s, CentralHears(Intact));
    hide Direction;
    hide ProgressInv;
    hide ResponseInv;
    IntactDirections(s.c, t.c, s.p);
    IntactProgress(s, t);
  }

  lemma {:induction false} HearsNothing(s: Sys, fate: Fate)
    requires Numbers(s) && s.stage.PeripheralSent? && fate != Intact
    ensures Numbers(Step(s, CentralHears(fate)))
  {
  }

  lemma {:induction false} HearsNumbers(s: Sys, fate: Fate)
    requires Numbers(s) && s.stage.PeripheralSent?
    ensures Numbers(Step(s, CentralHears(fate)))
  {
    hide Numbers;
    hide Step;
    if fate == Intact {
      HearsIntact(s);
    } else {
      HearsNothing(s, fate);
    }
  }

  ghost predicate Ended(n: Node, m: Node) {
    && !m.conn.rxPending && m.conn.unacked == n.conn.unacked
    && m.conn.txSn == n.conn.txSn && m.conn.nextRxSn == n.conn.nextRxSn && m.conn.lastPdu == n.conn.lastPdu
    && m.log.sent == n.log.sent && m.log.acked == n.log.acked && m.log.accepted == n.log.accepted
    && m.log.nesnCount == n.log.nesnCount
    && m.log.processed == n.log.processed + (if n.conn.rxPending then [n.conn.rxPdu] else [])
    && (n.conn.rsp.None? || !n.conn.rxPending ==> m.log.refused == n.log.refused)
    && (m.conn.rsp.Some? ==> n.conn.rsp.Some? || n.conn.rxPending)
  }

  lemma {:induction false} CentralEnds(n: Node, answer: Option<seq<byte>>)
    requires n.conn.rxPending ==> n.conn.phase == WaitRx
    ensures Ended(n, Ends(n, CentralDisabled(n.conn, answer), answer))
  {
  }

  lemma {:induction false} PeripheralEnds(n: Node, answer: Option<seq<byte>>)
    requires n.conn.rxPending ==> n.conn.phase == WaitTx
    ensures Ended(n, Ends(n, PeripheralDisabled(n.conn, answer), answer))
  {
  }

  lemma {:induction false} EndedDirection(tx: Node, rx: Node, tx': Node, rx': Node)
    requires Direction(tx, rx) && Ended(tx, tx') && Ended(rx, rx')
    ensures Direction(tx', rx')
  {
  }

  lemma {:induction false} EndedProgress(s: Sys, t: Sys)
    requires Direction(s.c, s.p) && Direction(s.p, s.c) && StageInv(s) && ProgressInv(s) && ResponseInv(s)
    requires s.stage.Heard? && Ended(s.c, t.c) && Ended(s.p, t.p)
    requires t == s.(c := t.c, p := t.p, stage := Between)
    ensures StageInv(t) && ProgressInv(t) && ResponseInv(t)
  {
  }

  lemma {:induction false} FinishNumbers(s: Sys, answerP: Option<seq<byte>>, answerC: Option<seq<byte>>)
    requires Numbers(s) && s.stage.Heard?
    ensures Numbers(Step(s, Finish(answerP, answerC)))
  {
    var t := Step(s, Finish(answerP, answerC));
    CentralEnds(s.c, answerC);
    PeripheralEnds(s.p, answerP);
    EndedDirection(s.c, s.p, t.c, t.p);
    EndedDirection(s.p, s.c, t.p, t.c);
    EndedProgress(s, t);
  }

  ghost predicate Queued(n: Node, m: Node) {
    && m.conn == n.conn.(ctrl := m.conn.ctrl, l2cap := m.conn.l2cap)
    && m.log == n.log.(ctrlIn := m.log.ctrlIn, l2capIn := m.log.l2capIn)
    && (n.conn.ctrl.Some? ==> m.conn.ctrl == n.conn.ctrl)
    && n.conn.l2cap <= m.conn.l2cap
  }

  lemma {:induction false} QueuedDirection(tx: Node, rx: Node, tx': Node, rx': Node)
    requires Direction(tx, rx) && Queued(tx, tx') && Queued(rx, rx')
    ensures Direction(tx', rx')
  {
  }

  lemma {:induction false} QueuedFacts(n: Node, a: Action)
    requires a.QueueControl? || a.QueueData?
    ensures Queued(n, Queues(n, a))
  {
  }

  lemma {:induction false} QueuedProgress(s: Sys, t: Sys)
    requires Direction(s.c, s.p) && Direction(s.p, s.c) && StageInv(s) && ProgressInv(s) && ResponseInv(s)
    requires Queued(s.c, t.c) && Queued(s.p, t.p) && t == s.(c := t.c, p := t.p)
    ensures StageInv(t) && ProgressInv(t) && ResponseInv(t)
  {
    if s.stage.Matched? && s.stage.crcOk {
      assert Prepared(t.p, t.c.conn.lastPdu);
    }
  }

  lemma {:induction false} QueueNumbers(s: Sys, a: Action)
    requires Numbers(s) && (a.QueueControl? || a.QueueData?)
    ensures Numbers(Step(s, a))
  {
    var t := Step(s, a);
    QueuedFacts(s.c, a);
    QueuedFacts(s.p, a);
    assert Queued(s.c, s.c) && Queued(s.p, s.p);
    hide Direction;
    hide StageInv;
    hide ProgressInv;
    hide ResponseInv;
    hide Queued;
    hide Queues;
    QueuedDirection(s.c, s.p, t.c, t.p);
    QueuedDirection(s.p, s.c, t.p, t.c);
    QueuedProgress(s, t);
  }

  lemma {:induction false} EndsConserves(n: Node, after: Conn, answer: Option<seq<byte>>)
    requires Conserved(n) && (n.conn.rxPending ==> n.conn.rsp.None?)
    requires after.ctrl == n.conn.ctrl && after.l2cap == n.conn.l2cap
    requires after.rsp == if n.conn.rxPending && IsControl(n.conn.rxPdu) && answer.Some? && ControlFits(answer.value)
                          then answer else n.conn.rsp
    ensures Conserved(Ends(n, after, answer))
  {
  }

  lemma {:induction false} PreparedIsLoaded(s: Sys)
    requires Numbers(s) && s.stage.Matched? && s.stage.crcOk
    ensures s.p.conn.phase == WaitRx && (!s.p.conn.unacked || s.p.conn.bcAcked ==> Loaded(s.p.conn))
  {
  }

  lemma {:induction false} CentralEndConserves(n: Node, answer: Option<seq<byte>>)
    requires Conserved(n) && (n.conn.rxPending ==> n.conn.rsp.None? && n.conn.phase == WaitRx)
    ensures Conserved(Ends(n, CentralDisabled(n.conn, answer), answer))
  {
    EndsConserves(n, CentralDisabled(n.conn, answer), answer);
    hide Conserved;
  }

  lemma {:induction false} PeripheralEndConserves(n: Node, answer: Option<seq<byte>>)
    requires Conserved(n) && (n.conn.rxPending ==> n.conn.rsp.None? && n.conn.phase == WaitTx)
    ensures Conserved(Ends(n, PeripheralDisabled(n.conn, answer), answer))
  {
    EndsConserves(n, PeripheralDisabled(n.conn, answer), answer);
    hide Conserved;
  }

  lemma {:induction false} FinishConserves(s: Sys, answerP: Option<seq<byte>>, answerC: Option<seq<byte>>)
    requires Conserved(s.c) && Conserved(s.p) && StageInv(s) && ResponseInv(s) && s.stage.Heard?
    ensures Conserved(Ends(s.c, CentralDisabled(s.c.conn, answerC), answerC))
    ensures Conserved(Ends(s.p, PeripheralDisabled(s.p.conn, answerP), answerP))
  {
    hide Conserved;
    hide Ends;
    hide CentralDisabled;
    hide PeripheralDisabled;
    CentralEndConserves(s.c, answerC);
    PeripheralEndConserves(s.p, answerP);
  }

  // The other handlers leave the pending payloads and the logs of what was queued alone.
  lemma {:induction false} ReceivingConserves(n: Node, rx: Pdu, fate: Fate)
    requires Conserved(n)
    ensures Conserved(n.(conn := PeripheralStart(n.conn)))
    ensures Conserved(n.(conn := PeripheralBcmatch(n.conn, rx)))
    ensures Conserved(CentralHearing(n, fate, rx))
  {
  }

  lemma {:induction false} StepConserves(s: Sys, a: Action)
    requires Inv(s)
    ensures Conserved(Step(s, a).c) && Conserved(Step(s, a).p)
  {
    hide Conserved;
    hide Direction;
    hide ProgressInv;
    hide Ends;
    hide Queues;
    hide CentralBegins;
    hide CentralHearing;
    hide PeripheralAnswers;
    hide PeripheralStart;
    hide PeripheralBcmatch;
    hide CentralDisabled;
    hide PeripheralDisabled;
    hide Loaded;
    match a
    case QueueControl(_, _) => QueuesConserves(s.c, a); QueuesConserves(s.p, a);
    case QueueData(_, _, _) => QueuesConserves(s.c, a); QueuesConserves(s.p, a);
    case Start => BeginsConserves(s.c); ReceivingConserves(s.p, EMPTY_RX, Lost);
    case PeripheralHeader(fate) =>
      if !fate.Lost? { ReceivingConserves(s.p, if fate.Intact? then s.c.conn.lastPdu else fate.garbage, fate); }
    case PeripheralCrc =>
      if s.stage.Matched? {
        if s.stage.crcOk { PreparedIsLoaded(s); }
        AnswersConserves(s.p, s.stage.crcOk);
      }
    case CentralHears(fate) => ReceivingConserves(s.c, s.p.conn.lastPdu, fate);
    case Finish(answerP, answerC) => if s.stage.Heard? { FinishConserves(s, answerP, answerC); }
  }

  lemma {:induction false} StepInv(s: Sys, a: Action)
    requires Inv(s)
    ensures Inv(Step(s, a))
  {
    StepConserves(s, a);
    match a
    case QueueControl(_, _) => QueueNumbers(s, a);
    case QueueData(_, _, _) => QueueNumbers(s, a);
    case Start => if s.stage == Between { StartNumbers(s); }
    case PeripheralHeader(fate) => if s.stage.CentralSent? { HeaderNumbers(s, fate); }
    case PeripheralCrc => if s.stage.Matched? { CrcNumbers(s); }
    case CentralHears(fate) => if s.stage.PeripheralSent? { HearsNumbers(s, fate); }
    case Finish(answerP, answerC) => if s.stage.Heard? { FinishNumbers(s, answerP, answerC); }
  }

  lemma {:induction false} ReachesInv(s: Sys, actions: seq<Action>, t: Sys)
    requires Inv(s) && Reaches(s, actions, t)
    ensures Inv(t)
    decreases |actions|
  {
    if actions != [] {
      StepInv(s, actions[0]);
      ReachesInv(Step(s, actions[0]), actions[1..], t);
    }
  }

  lemma {:induction false} ReachableInv(t: Sys)
    requires Reachable(t)
    ensures Inv(t)
  {
    var s, actions :| Initial(s) && Reaches(s, actions, t);
    InitialInv(s);
    ReachesInv(s, actions, t);
  }
}
