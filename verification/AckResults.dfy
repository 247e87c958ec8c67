/** The results about every reachable state and every run of AckSystem. */
module AckResults {
  import opened Bytes
  import opened ConnSpec
  import opened AckSystem
  import opened AckInvariant

  /** What rx has processed is, in order and once each, what tx staged, except at most the last PDU
      (and the one waiting to be processed). */
  ghost predicate InOrder(tx: Log, rx: Log, waiting: bool) {
    && rx.processed <= tx.sent
    && |tx.sent| <= |rx.processed| + 1 + (if waiting then 1 else 0)
  }

  lemma {:induction false} ExactlyOnceInOrder(t: Sys)
    requires Reachable(t)
    ensures InOrder(t.c.log, t.p.log, t.p.conn.rxPending)
    ensures InOrder(t.p.log, t.c.log, t.c.conn.rxPending)
  {
    ReachableInv(t);
  }

  /** Every acknowledgement stands for an acceptance, though a retransmission repeats an old NESN. */
  ghost predicate AcksAreGenuine(tx: Log, rx: Log) {
    && tx.acked <= rx.accepted <= tx.acked + 1
    && (rx.sent != [] ==> tx.acked <= rx.nesnCount <= rx.accepted)
  }

  lemma {:induction false} NoFalseAcknowledgement(t: Sys)
    requires Reachable(t)
    ensures AcksAreGenuine(t.c.log, t.p.log) && AcksAreGenuine(t.p.log, t.c.log)
  {
    ReachableInv(t);
  }

  /** The response slot is free whenever a received PDU is processed, so no answer is ever refused. */
  lemma {:induction false} NoResponseRefused(t: Sys)
    requires Reachable(t)
    ensures t.c.log.refused == 0 && t.p.log.refused == 0
    ensures t.c.conn.rxPending ==> t.c.conn.rsp.None?
    ensures t.p.conn.rxPending ==> t.p.conn.rsp.None?
  {
    ReachableInv(t);
  }

  /** An event in which both packets arrive acknowledges exactly one central PDU, unless the very
      first packet the peripheral heard failed its CRC. */
  lemma {:induction false} CleanEventAcknowledgesOne(t: Sys)
    requires Reachable(t) && t.stage.Heard? && t.stage.clean && t.first != CrcError
    ensures t.c.log.acked == t.stage.base + 1 && Resynchronised(t.c, t.p)
  {
    ReachableInv(t);
  }

  /** k clean events acknowledge at least k central PDUs exactly when the first packet passed. */
  lemma {:induction false} ProgressExactly(t: Sys)
    requires Reachable(t)
    ensures t.clean <= t.c.log.acked <==> t.first != CrcError || t.clean == 0
    ensures t.first == CrcError ==> t.c.log.acked == 0 && t.p.log.acked == 0
  {
    ReachableInv(t);
  }

  lemma {:induction false} StuckStep(s: Sys, a: Action)
    requires Inv(s) && s.first == CrcError
    ensures var t := Step(s, a);
            && t.first == CrcError && t.clean >= s.clean
            && t.c.conn.lastPdu == s.c.conn.lastPdu && t.p.conn.lastPdu == s.p.conn.lastPdu
            && t.c.log.sent == s.c.log.sent && t.p.log.sent == s.p.log.sent
  {
    hide Direction;
    hide Conserved;
    hide ResponseInv;
    hide PeripheralAnswers;
    hide CentralBegins;
    hide CentralDisabled;
    hide PeripheralDisabled;
    hide Ends;
    match a
    case PeripheralCrc => if s.stage.Matched? { StepInv(s, a); AnswersFacts(s.p); }
    case Start => BeginsFacts(s.c);
    case Finish(answerP, answerC) =>
      if s.stage.Heard? { CentralEnds(s.c, answerC); PeripheralEnds(s.p, answerP); }
    case _ =>
  }

  /** A CRC error on that first packet is absorbing: the two stored PDUs are all that is ever sent. */
  lemma {:induction false} StuckForever(s: Sys, actions: seq<Action>, t: Sys)
    requires Reachable(s) && s.first == CrcError && Reaches(s, actions, t)
    ensures t.c.log.acked == 0 && t.p.log.acked == 0
    ensures t.c.log.sent == s.c.log.sent && t.p.log.sent == s.p.log.sent
    ensures t.c.conn.lastPdu == s.c.conn.lastPdu && t.p.conn.lastPdu == s.p.conn.lastPdu
    ensures |t.c.log.processed| <= 1 && |t.p.log.processed| <= 1
  {
    ReachableInv(s);
    StuckRun(s, actions, t);
  }

  lemma {:induction false} StuckRun(s: Sys, actions: seq<Action>, t: Sys)
    requires Inv(s) && s.first == CrcError && Reaches(s, actions, t)
    ensures Inv(t) && t.first == CrcError
    ensures t.c.log.sent == s.c.log.sent && t.p.log.sent == s.p.log.sent
    ensures t.c.conn.lastPdu == s.c.conn.lastPdu && t.p.conn.lastPdu == s.p.conn.lastPdu
    decreases |actions|
  {
    if actions != [] {
      StepInv(s, actions[0]);
      StuckStep(s, actions[0]);
      StuckRun(Step(s, actions[0]), actions[1..], t);
    }
  }

  /** One event without queueing, with the given fate of the central's packet. */
  function Event(fate: Fate): seq<Action> {
    [Start, PeripheralHeader(fate), PeripheralCrc, CentralHears(Intact), Finish(None, None)]
  }

  function After(s: Sys, actions: seq<Action>): (t: Sys)
    ensures Reaches(s, actions, t)
    decreases |actions|
  {
    if actions == [] then s else After(Step(s, actions[0]), actions[1..])
  }

  lemma {:induction false} ReachesOnward(s: Sys, first: seq<Action>, t: Sys, second: seq<Action>, u: Sys)
    requires Reaches(s, first, t) && Reaches(t, second, u)
    ensures Reaches(s, first + second, u)
    decreases |first|
  {
    if first == [] {
      assert first + second == second;
    } else {
      assert (first + second)[0] == first[0] && (first + second)[1..] == first[1..] + second;
      ReachesOnward(Step(s, first[0]), first[1..], t, second, u);
    }
  }

  lemma {:induction false} EventTurns(s: Sys, fate: Fate)
    requires s.stage == Between && !fate.Lost?
    ensures var t := After(s, Event(fate));
            && t.stage == Between
            && t.clean == s.clean + (if fate.Intact? then 1 else 0)
            && t.first == if s.first != Nothing then s.first else if fate.Intact? then CrcOk else CrcError
  {
    var s1 := Step(s, Start);
    var s2 := Step(s1, PeripheralHeader(fate));
    var s3 := Step(s2, PeripheralCrc);
    var s4 := Step(s3, CentralHears(Intact));
    var a := Event(fate);
    assert a[1..][0] == a[1] && a[1..][1..][0] == a[2] && a[1..][1..][1..][0] == a[3] && a[1..][1..][1..][1..][0] == a[4];
    assert a[1..][1..][1..][1..][1..] == [];
    assert After(s, a) == After(s1, a[1..]);
    assert After(s1, a[1..]) == After(s2, a[1..][1..]);
    assert After(s2, a[1..][1..]) == After(s3, a[1..][1..][1..]);
    assert After(s3, a[1..][1..][1..]) == After(s4, a[1..][1..][1..][1..]);
  }

  /** The livelock is reachable: after one corrupted packet, any number of clean events may follow
      without a single acknowledgement. */
  lemma {:induction false} LivelockReachable(s: Sys, garbage: Pdu, n: nat) returns (actions: seq<Action>, t: Sys)
    requires Initial(s)
    ensures Reaches(s, actions, t) && Reachable(t)
    ensures t.stage == Between && t.clean == n && t.c.log.acked == 0 && t.first == CrcError
  {
    if n == 0 {
      actions := Event(Corrupt(garbage));
      t := After(s, actions);
      EventTurns(s, Corrupt(garbage));
    } else {
      var before, u := LivelockReachable(s, garbage, n - 1);
      t := After(u, Event(Intact));
      EventTurns(u, Intact);
      ReachesOnward(s, before, u, Event(Intact), t);
      actions := before + Event(Intact);
    }
    ProgressExactly(t);
  }

  // ---- from one end's queue to the other end's L2CAP layer -------------------------------------------

  /** Nothing accepted for sending is lost, repeated or reordered within its source: it has been staged
      as a new PDU, once, or it is still pending. */
  lemma {:induction false} NothingLostOrRepeated(t: Sys)
    requires Reachable(t)
    ensures Staged(t.c.log, RspSource) + Pending(t.c.conn, RspSource) == t.c.log.rspIn
    ensures Staged(t.c.log, CtrlSource) + Pending(t.c.conn, CtrlSource) == t.c.log.ctrlIn
    ensures Staged(t.c.log, L2capSource) + Pending(t.c.conn, L2capSource) == t.c.log.l2capIn
    ensures Staged(t.p.log, RspSource) + Pending(t.p.conn, RspSource) == t.p.log.rspIn
    ensures Staged(t.p.log, CtrlSource) + Pending(t.p.conn, CtrlSource) == t.p.log.ctrlIn
    ensures Staged(t.p.log, L2capSource) + Pending(t.p.conn, L2capSource) == t.p.log.l2capIn
  {
    ReachableInv(t);
  }

  /** The payloads that PDUs of one kind carry. */
  function Carried(pdus: seq<Pdu>, llid: Llid): seq<seq<byte>> {
    if pdus == [] then []
    else
      var n := |pdus| - 1;
      Carried(pdus[..n], llid) + if pdus[n].header.llid == llid then [pdus[n].payload] else []
  }

  lemma {:induction false} CarriedPrefix(a: seq<Pdu>, b: seq<Pdu>, llid: Llid)
    requires a <= b
    ensures Carried(a, llid) <= Carried(b, llid) && |Carried(b, llid)| <= |Carried(a, llid)| + |b| - |a|
    decreases |b|
  {
    if |a| < |b| {
      CarriedPrefix(a, b[..|b| - 1], llid);
    } else {
      assert a == b;
    }
  }

  lemma {:induction false} FramesAreStaged(sent: seq<Pdu>, from: seq<Source>)
    requires |sent| == |from| && forall i :: 0 <= i < |sent| ==> sent[i].header.llid == SourceLlid(from[i])
    ensures Carried(sent, StartL2cap) == StagedFrom(sent, from, L2capSource)
    decreases |sent|
  {
    if sent != [] {
      FramesAreStaged(sent[..|sent| - 1], from[..|sent| - 1]);
    }
  }

  ghost predicate DataDelivered(tx: Node, rx: Node) {
    var frames := Carried(rx.log.processed, StartL2cap);
    && frames <= tx.log.l2capIn
    && |tx.log.l2capIn| <= |frames| + |tx.conn.l2cap| + 1 + (if rx.conn.rxPending then 1 else 0)
  }

  /** The L2CAP frames one end's L2CAP layer is given are the first ones the other end's queue accepted, in
      order; at most the queue, the stored PDU and the PDU being handed over hold the rest. */
  lemma {:induction false} DataExactlyOnceInOrder(t: Sys)
    requires Reachable(t)
    ensures DataDelivered(t.c, t.p) && DataDelivered(t.p, t.c)
  {
    ReachableInv(t);
    DataOneWay(t.c, t.p);
    DataOneWay(t.p, t.c);
  }

  lemma {:induction false} DataOneWay(tx: Node, rx: Node)
    requires Direction(tx, rx) && Conserved(tx)
    ensures DataDelivered(tx, rx)
  {
    CarriedPrefix(rx.log.processed, tx.log.sent, StartL2cap);
    FramesAreStaged(tx.log.sent, tx.log.from);
  }

  // ---- and to its link layer ---------------------------------------------------------------------------

  /** The payloads staged from the two control sources, in staging order. */
  function ControlStaged(sent: seq<Pdu>, from: seq<Source>): seq<seq<byte>>
    requires |sent| == |from|
  {
    if sent == [] then []
    else
      var n := |sent| - 1;
      ControlStaged(sent[..n], from[..n])
      + if from[n] == RspSource || from[n] == CtrlSource then [sent[n].payload] else []
  }

  lemma {:induction false} ControlIsStaged(sent: seq<Pdu>, from: seq<Source>)
    requires |sent| == |from| && forall i :: 0 <= i < |sent| ==> sent[i].header.llid == SourceLlid(from[i])
    ensures Carried(sent, Control) == ControlStaged(sent, from)
    decreases |sent|
  {
    if sent != [] {
      ControlIsStaged(sent[..|sent| - 1], from[..|sent| - 1]);
    }
  }

  ghost predicate ControlDelivered(tx: Node, rx: Node) {
    && |tx.log.from| == |tx.log.sent|
    && var staged := ControlStaged(tx.log.sent, tx.log.from);
       var taken := Carried(rx.log.processed, Control);
       && taken <= staged
       && |staged| <= |taken| + 1 + (if rx.conn.rxPending then 1 else 0)
  }

  /** The control PDUs among what one end has processed are, in order and once each, the payloads the other
      end staged from its response slot and its control slot. */
  lemma {:induction false} ControlExactlyOnceInOrder(t: Sys)
    requires Reachable(t)
    ensures ControlDelivered(t.c, t.p) && ControlDelivered(t.p, t.c)
  {
    ReachableInv(t);
    ControlOneWay(t.c, t.p);
    ControlOneWay(t.p, t.c);
  }

  lemma {:induction false} ControlOneWay(tx: Node, rx: Node)
    requires Direction(tx, rx) && Conserved(tx)
    ensures ControlDelivered(tx, rx)
  {
    CarriedPrefix(rx.log.processed, tx.log.sent, Control);
    ControlIsStaged(tx.log.sent, tx.log.from);
  }

  /** A PDU waiting to be processed is processed, and the answer the handler leaves goes to the response slot,
      exactly when it was a control PDU with a payload and the answer has 1 to 251 octets. */
  ghost predicate Answered(n: Node, answer: Option<seq<byte>>, m: Node) {
    var taken := && n.conn.rxPending && n.conn.rxPdu.header.llid == Control && n.conn.rxPdu.payload != []
                 && answer.Some? && 0 < |answer.value| <= 251;
    && m.log.processed == n.log.processed + (if n.conn.rxPending then [n.conn.rxPdu] else [])
    && m.conn.rsp == (if taken then answer else n.conn.rsp)
    && m.log.rspIn == n.log.rspIn + (if taken then [answer.value] else [])
    && !m.conn.rxPending && m.conn.ctrl == n.conn.ctrl && m.conn.l2cap == n.conn.l2cap
  }

  lemma {:induction false} EndAnswers(n: Node, answer: Option<seq<byte>>)
    requires n.conn.rxPending ==> n.conn.rsp.None?
    ensures (n.conn.rxPending ==> n.conn.phase == WaitRx) ==>
      Answered(n, answer, Ends(n, CentralDisabled(n.conn, answer), answer))
    ensures (n.conn.rxPending ==> n.conn.phase == WaitTx) ==>
      Answered(n, answer, Ends(n, PeripheralDisabled(n.conn, answer), answer))
  {
  }

  /** At the end of an event, in every reachable state and at both ends. */
  lemma {:induction false} ControlIsAnswered(s: Sys, answerP: Option<seq<byte>>, answerC: Option<seq<byte>>)
    requires Reachable(s) && s.stage.Heard?
    ensures var t := Step(s, Finish(answerP, answerC));
            Answered(s.c, answerC, t.c) && Answered(s.p, answerP, t.p)
  {
    ReachableInv(s);
    EndAnswers(s.c, answerC);
    EndAnswers(s.p, answerP);
    hide Direction;
    hide Conserved;
    hide ProgressInv;
    hide Ends;
    hide Answered;
    hide CentralDisabled;
    hide PeripheralDisabled;
  }

  // ---- selection order --------------------------------------------------------------------------------

  function Rank(source: Source): nat {
    match source
    case RspSource => 0
    case CtrlSource => 1
    case L2capSource => 2
    case NoSource => 3
  }

  lemma {:induction false} BestSourceIsFirst(s: Conn, source: Source)
    requires source != NoSource && Rank(source) < Rank(BestSource(s))
    ensures Pending(s, source) == []
  {
  }

  lemma {:induction false} BeginsConsume(n: Node)
    requires !n.conn.unacked
    ensures var m := CentralBegins(n);
            var u := Consume(n.conn, BestSource(n.conn));
            && m.conn.rsp == u.rsp && m.conn.ctrl == u.ctrl && m.conn.l2cap == u.l2cap
            && m.conn.lastPdu.payload == Head(n.conn, BestSource(n.conn))
            && m.log.from == n.log.from + [BestSource(n.conn)]
  {
    StartStages(n.conn);
    hide CentralStart;
    hide CentralDisabled;
    match BestSource(n.conn)
    case NoSource =>
    case RspSource =>
    case CtrlSource =>
    case L2capSource =>
  }

  /** A new central PDU is the oldest payload of the first non-empty source, which alone loses it. */
  lemma {:induction false} CentralStagesInPriorityOrder(s: Sys, source: Source)
    requires s.stage == Between && !s.c.conn.unacked && source != NoSource
    ensures var t := Step(s, Start).c;
            && |t.log.from| == |s.c.log.from| + 1
            && var chosen := t.log.from[|s.c.log.from|];
               && (Rank(source) < Rank(chosen) ==> Pending(s.c.conn, source) == [])
               && Pending(s.c.conn, source)
                  == (if source == chosen then [t.conn.lastPdu.payload] else []) + Pending(t.conn, source)
  {
    BeginsConsume(s.c);
    hide CentralBegins;
    hide PeripheralStart;
    var chosen := BestSource(s.c.conn);
    if Rank(source) < Rank(chosen) { BestSourceIsFirst(s.c.conn, source); }
    LoadIsLoaded(s.c.conn, s.c.conn.nextRxSn, s.c.conn.txSn);
    hide Loaded;
    ConsumeSplits(Load(s.c.conn, s.c.conn.nextRxSn, s.c.conn.txSn), source);
    assert Pending(Step(s, Start).c.conn, source) == Pending(Consume(s.c.conn, chosen), source);
  }

  lemma {:induction false} HeaderChooses(s: Conn, rx: Pdu, source: Source)
    requires s.phase == WaitRx && source != NoSource
    ensures var n := PeripheralBcmatch(s, rx);
            && Pending(n, source) == Pending(s, source) && n.unacked == s.unacked && n.bcAcked == Acks(s, rx.header)
            && if n.unacked && !n.bcAcked then n.selected == NoSource
               else n.selected == BestSource(s) && n.txPdu.payload == Head(s, n.selected)
  {
  }

  lemma {:induction false} ListensFirst(s: Sys)
    requires Reachable(s) && s.stage.CentralSent?
    ensures s.p.conn.phase == WaitRx
  {
    ReachableInv(s);
    hide Direction;
    hide Conserved;
    hide ProgressInv;
    hide ResponseInv;
  }

  /** When the header arrives the peripheral chooses the first non-empty source, unless it must repeat. */
  lemma {:induction false} PeripheralChoosesInPriorityOrder(s: Sys, fate: Fate, source: Source)
    requires Reachable(s) && s.stage.CentralSent? && !fate.Lost? && source != NoSource
    ensures var n := Step(s, PeripheralHeader(fate)).p.conn;
            && Pending(n, source) == Pending(s.p.conn, source)
            && if n.unacked && !n.bcAcked then n.selected == NoSource
               else
                 && (Rank(source) < Rank(n.selected) ==> Pending(s.p.conn, source) == [])
                 && (source == n.selected ==> Pending(s.p.conn, source) != [] && n.txPdu.payload == Pending(s.p.conn, source)[0])
  {
    ListensFirst(s);
    hide Reachable;
    HeaderChooses(s.p.conn, if fate.Intact? then s.c.conn.lastPdu else fate.garbage, source);
    hide PeripheralBcmatch;
    if Rank(source) < Rank(BestSource(s.p.conn)) {
      BestSourceIsFirst(s.p.conn, source);
    }
  }

  /** What is queued after that joins the end of its source and does not change the choice. */
  lemma {:induction false} QueueingKeepsTheChoice(s: Sys, a: Action, source: Source)
    requires a.QueueControl? || a.QueueData?
    ensures var n := Step(s, a).p.conn;
            && n.selected == s.p.conn.selected && n.txPdu == s.p.conn.txPdu
            && Pending(s.p.conn, source) <= Pending(n, source)
  {
    hide ControlFits;
    hide L2capAccepts;
    hide Frame;
  }

  /** What an end may queue, as octets: the source it joins and what is sent, if the size allows it. */
  function Offered(a: Action): Option<(Source, seq<byte>)>
    requires a.QueueControl? || a.QueueData?
  {
    match a
    case QueueControl(_, payload) => if 1 <= |payload| <= 251 then Some((CtrlSource, payload)) else None
    case QueueData(_, cid, payload) =>
      if 1 <= |payload| <= 247 then Some((L2capSource, U16Encode(|payload|) + U16Encode(cid) + payload)) else None
  }

  /** It is taken exactly if its size allows it and there is room, one control payload and four frames. */
  predicate Takes(n: Conn, a: Action, source: Source)
    requires a.QueueControl? || a.QueueData?
  {
    && Offered(a).Some? && Offered(a).value.0 == source
    && |Pending(n, source)| < (if source == CtrlSource then 1 else 4)
  }

  lemma {:induction false} QueuesTakes(n: Node, a: Action, source: Source)
    requires (a.QueueControl? || a.QueueData?) && |n.conn.l2cap| <= 4
    ensures var m := Queues(n, a);
            && Pending(m.conn, source) == Pending(n.conn, source) + (if Takes(n.conn, a, source) then [Offered(a).value.1] else [])
            && |m.conn.l2cap| <= 4
            && m.conn.(ctrl := n.conn.ctrl, l2cap := n.conn.l2cap) == n.conn
  {
    hide U16Encode;
  }

  /** What is taken joins the end of its own source at its own end, never beyond four; nothing else changes. */
  lemma {:induction false} QueueTakesExactly(s: Sys, a: Action, source: Source)
    requires Reachable(s) && (a.QueueControl? || a.QueueData?)
    ensures var t := Step(s, a);
            var (n, m) := if a.atCentral then (s.c, t.c) else (s.p, t.p);
            && t == (if a.atCentral then s.(c := m) else s.(p := m))
            && Pending(m.conn, source) == Pending(n.conn, source) + (if Takes(n.conn, a, source) then [Offered(a).value.1] else [])
            && |m.conn.l2cap| <= 4
            && m.conn.(ctrl := n.conn.ctrl, l2cap := n.conn.l2cap) == n.conn
  {
    hide Queues;
    hide Takes;
    hide Offered;
    hide Pending;
    hide Reachable;
    hide Direction;
    hide ProgressInv;
    hide ResponseInv;
    hide ConservedIn;
    ReachableInv(s);
    QueuesTakes(if a.atCentral then s.c else s.p, a, source);
  }

  /** The peripheral's early choice is consumed only by a new PDU behind a passing CRC, and its header is
      the one the committed SN/NESN would give. */
  lemma {:induction false} PeripheralCommitsItsChoice(s: Sys, source: Source)
    requires Reachable(s) && s.stage.Matched? && source != NoSource
    ensures var m := Step(s, PeripheralCrc).p;
            var stagesPending := s.stage.crcOk && (!s.p.conn.unacked || s.p.conn.bcAcked);
            && Pending(s.p.conn, source)
               == (if stagesPending && source == s.p.conn.selected then [m.conn.lastPdu.payload] else [])
                  + Pending(m.conn, source)
            && (stagesPending ==>
                  && m.conn.lastPdu.header == Header(SourceLlid(s.p.conn.selected), m.conn.nextRxSn, m.conn.txSn)
                  && m.log.from == s.p.log.from + [s.p.conn.selected]
                  && (s.p.conn.rsp.Some? ==> s.p.conn.selected == RspSource))
  {
    hide Reachable;
    hide Direction;
    hide Conserved;
    hide ProgressInv;
    hide ResponseInv;
    ReachableInv(s);
    AnswersFacts(s.p);
    AnswersConsume(s.p.conn, s.stage.crcOk);
    hide PeripheralPacket;
    hide PeripheralCrcError;
    hide PeripheralDisabled;
    if s.stage.crcOk && (!s.p.conn.unacked || s.p.conn.bcAcked) {
      ConsumeSplits(s.p.conn, source);
    }
  }
}
