/** Which requests the automatic sequence sends: features, data length and PHY, in that order and once each. */
module CtrlOrder {
  import opened Bytes
  import opened ClockSpec
  import opened CtrlSpec

  /** As they are on the air. */
  function AutomaticRequests(): (r: seq<seq<byte>>)
    ensures |r| == 3
  {
    [[0x08, 0x20, 0x01, 0, 0, 0, 0, 0, 0],
     [0x14, 0xFB, 0x00, 0x48, 0x08, 0xFB, 0x00, 0x48, 0x08],
     [0x16, 0x03, 0x03]]
  }

  /** The requests that have left the slot, and the one in it. */
  function Requests(c: Ctrl): seq<seq<byte>> { c.sent + if c.slot.Some? then [c.slot.value] else [] }

  /** No update of the application's own, and no answer before the request has left. */
  predicate Orderly(c: Ctrl, a: Action) {
    && !a.DoInitiate?
    && (a.DoFeatureRsp? || a.DoLengthRsp? || a.DoPhyRsp? || a.DoUnknownRsp? ==> c.slot.None?)
  }

  /** alone: no PHY update of the peer's own so far, so a pending one is the answer to the central's request. */
  predicate InOrder(c: Ctrl, alone: bool) {
    var r := Requests(c);
    if !c.clock.connected then r <= AutomaticRequests()
    else
      && (c.procedure == NoProcedure <==> c.progress == Idle) && (c.progress == WaitInstant ==> c.procedure == PhyChange)
      && (alone && c.clock.phyUpdate.Some? ==> c.procedure == PhyChange && c.progress == WaitInstant)
      && (c.progress == WaitInstant ==> c.slot.None?)
      && match c.stage
         case WaitFeatures => r == AutomaticRequests()[..1] && c.procedure == FeatureExchange
         case WaitDataLength => r == AutomaticRequests()[..2] && c.procedure == DataLengthUpdate
         case WaitPhy =>
           || (r == AutomaticRequests() && c.procedure == PhyChange)
           || (!alone && r == AutomaticRequests()[..2] && c.procedure == NoProcedure && c.slot.None?)
         case Done =>
           || (r == AutomaticRequests() && (alone ==> c.slot.None?) && (c.procedure == NoProcedure || (!alone && c.procedure == PhyChange)))
           || (!alone && r == AutomaticRequests()[..2] && c.procedure == NoProcedure && c.slot.None?)
  }

  lemma {:induction false} OneMoreRequest(c: Ctrl, p: Procedure, k: nat)
    requires k < 3 && c.slot.None? && Requests(c) == AutomaticRequests()[..k]
    requires p == if k == 0 then FeatureExchange else if k == 1 then DataLengthUpdate else PhyChange
    ensures Requests(Request(c, p)) == AutomaticRequests()[..k + 1]
  {
    assert RequestPdu(p) == AutomaticRequests()[k];
    assert c.sent == AutomaticRequests()[..k];
  }

  lemma {:induction false} StartInOrder(clock: Clock)
    requires clock.connected
    ensures InOrder(Start(clock), clock.phyUpdate.None?)
  {
    OneMoreRequest(Ctrl(clock, NoProcedure, Idle, WaitFeatures, None, []), FeatureExchange, 0);
    hide Requests;
    hide AutomaticRequests;
    hide RequestPdu;
  }

  // An answered stage moves on to the next.
  lemma {:induction false} CompletesInOrder(c: Ctrl, p: Procedure, alone: bool)
    requires InOrder(c, alone) && c.clock.connected && c.slot.None?
    requires c.procedure == p && p != NoProcedure && c.progress == WaitRsp
    ensures InOrder(AutoComplete(Reset(c), p), alone)
  {
    assert Requests(c) == Requests(Reset(c));
    if c.stage == WaitFeatures {
      OneMoreRequest(Reset(c).(stage := WaitDataLength), DataLengthUpdate, 1);
    } else if c.stage == WaitDataLength {
      OneMoreRequest(Reset(c).(stage := WaitPhy), PhyChange, 2);
      assert AutomaticRequests()[..3] == AutomaticRequests();
    }
    hide RequestPdu;
    hide AutomaticRequests;
  }

  lemma {:induction false} ResponseInOrder(c: Ctrl, p: Procedure, alone: bool)
    requires InOrder(c, alone) && c.clock.connected && c.slot.None? && (p == FeatureExchange || p == DataLengthUpdate)
    ensures InOrder(ResponseComplete(c, p), alone)
  {
    hide Requests;
    hide AutomaticRequests;
    if c.procedure == p {
      assert c.progress == WaitRsp;
      CompletesInOrder(c, p, alone);
      hide AutoComplete;
    }
  }

  lemma {:induction false} TimerPhyUpdate(k: Clock)
    requires k.connected && Timer(k).connected
    ensures Timer(k).phyUpdate == if PhyUpdateDue(k) then None else k.phyUpdate
  {
  }

  lemma {:induction false} TimerInOrder(c: Ctrl, alone: bool)
    requires InOrder(c, alone) && c.clock.connected
    ensures InOrder(OnTimer(c), alone)
  {
    if Timer(c.clock).connected {
      TimerPhyUpdate(c.clock);
    }
    hide Timer;
    hide ConnUpdateDue;
    hide PhyUpdateDue;
    hide AutomaticRequests;
  }

  lemma {:induction false} PrefixStays(c: Ctrl, alone: bool)
    requires InOrder(c, alone)
    ensures c.sent <= AutomaticRequests() && Requests(c) <= AutomaticRequests()
  {
    assert c.sent <= Requests(c);
    assert Requests(c) <= AutomaticRequests();
  }

  lemma {:induction false} PhyRspInOrder(c: Ctrl, pdu: seq<byte>, alone: bool)
    requires InOrder(c, alone) && c.clock.connected && c.slot.None?
    ensures InOrder(PhyRsp(c, pdu).0, alone)
  {
    hide AutomaticRequests;
    hide PhyUpdateInd;
  }

  lemma {:induction false} PeerPhyInOrder(c: Ctrl, pdu: seq<byte>, alone: bool)
    requires InOrder(c, alone) && c.clock.connected
    ensures InOrder(PeerPhyUpdate(c, pdu), false)
  {
    PrefixStays(c, alone);
    hide AutomaticRequests;
    hide U16Decode;
  }

  lemma {:induction false} HearingKeepsPhy(k: Clock, pdu: seq<byte>)
    ensures GoodPacket(k, 0).phyUpdate == BadPacket(k, 0).phyUpdate == ScheduleConnUpdate(k, pdu).phyUpdate == k.phyUpdate
    ensures GoodPacket(k, 0).connected == BadPacket(k, 0).connected == ScheduleConnUpdate(k, pdu).connected == k.connected
  {
    hide U16Decode;
  }

  lemma {:induction false} OthersInOrder(c: Ctrl, a: Action, alone: bool)
    requires InOrder(c, alone) && c.clock.connected
    requires a.DoHear? || a.DoSlotTaken? || a.DoPeerConnUpdate? || a.DoDisconnect?
    ensures InOrder(Act(c, a), alone)
  {
    PrefixStays(c, alone);
    HearingKeepsPhy(c.clock, if a.DoPeerConnUpdate? then a.pdu else []);
    hide AutomaticRequests;
    hide GoodPacket;
    hide BadPacket;
    hide ScheduleConnUpdate;
    if a.DoSlotTaken? {
      assert Requests(SlotTaken(c)) == Requests(c);
    }
  }

  lemma {:induction false} ActInOrder(c: Ctrl, a: Action, alone: bool)
    requires InOrder(c, alone) && Orderly(c, a)
    ensures InOrder(Act(c, a), alone && !a.DoPeerPhyUpdate?)
  {
    hide InOrder;
    if !c.clock.connected {
      DeadInOrder(c, alone);
      return;
    }
    match a
    case DoTimer => TimerInOrder(c, alone);
    case DoFeatureRsp => ResponseInOrder(c, FeatureExchange, alone);
    case DoLengthRsp(pdu) => if |pdu| >= 9 { ResponseInOrder(c, DataLengthUpdate, alone); }
    case DoUnknownRsp(pdu) =>
      if |pdu| >= 2 && c.progress == WaitRsp && pdu[1] == RequestOpcode(c.procedure) {
        WaitsForSomething(c, alone);
        CompletesInOrder(c, c.procedure, alone);
      }
    case DoPhyRsp(pdu) => PhyRspInOrder(c, pdu, alone);
    case DoPeerPhyUpdate(pdu) => PeerPhyInOrder(c, pdu, alone);
    case _ => OthersInOrder(c, a, alone);
  }

  lemma {:induction false} WaitsForSomething(c: Ctrl, alone: bool)
    requires InOrder(c, alone) && c.clock.connected && c.progress == WaitRsp
    ensures c.procedure != NoProcedure
  {
  }

  lemma {:induction false} DeadInOrder(c: Ctrl, alone: bool)
    requires InOrder(c, alone) && !c.clock.connected
    ensures InOrder(c, false)
  {
  }

  predicate Alone(actions: seq<Action>, n: nat)
    requires n <= |actions|
  {
    forall i :: 0 <= i < n ==> !actions[i].DoPeerPhyUpdate?
  }

  ghost predicate AllOrderly(clock: Clock, actions: seq<Action>, n: nat)
    requires n <= |actions|
  {
    forall i :: 0 <= i < n ==> Orderly(Run(Start(clock), actions, i), actions[i])
  }

  lemma {:induction false} RunInOrder(clock: Clock, actions: seq<Action>, n: nat)
    requires clock.connected && clock.phyUpdate.None? && n <= |actions| && AllOrderly(clock, actions, n)
    ensures InOrder(Run(Start(clock), actions, n), Alone(actions, n))
  {
    hide InOrder;
    hide Act;
    if n == 0 {
      StartInOrder(clock);
    } else {
      RunInOrder(clock, actions, n - 1);
      var c := Run(Start(clock), actions, n - 1);
      ActInOrder(c, actions[n - 1], Alone(actions, n - 1));
    }
  }

  /**
   * In every run of a new link whose requests are answered only once they have left, the requests are the
   * feature, the data-length and the PHY request, in that order and once each: what has been asked for is
   * always a beginning of the three, and when the sequence is done, all of them, unless the peer has changed
   * the PHY itself.
   */
  lemma {:induction false} AsksInOrder(clock: Clock, actions: seq<Action>, n: nat)
    requires clock.connected && clock.phyUpdate.None? && n <= |actions| && AllOrderly(clock, actions, n)
    ensures var c := Run(Start(clock), actions, n);
            && Requests(c) <= AutomaticRequests()
            && (c.clock.connected ==>
                  && |Requests(c)| >= (match c.stage case WaitFeatures => 1 case WaitDataLength => 2 case WaitPhy => 2 case Done => 2)
                  && (c.stage == Done && Alone(actions, n) ==> c.sent == AutomaticRequests()))
  {
    hide Run;
    hide AutomaticRequests;
    hide AllOrderly;
    hide Alone;
    RunInOrder(clock, actions, n);
    PrefixStays(Run(Start(clock), actions, n), Alone(actions, n));
  }

  // ---- not while a PHY change is pending ---------------------------------------------------------------------

  const PHY_REQUEST: seq<byte> := [0x16, 0x03, 0x03]

  lemma {:induction false} AdvanceNeedsQuiet(c: Ctrl)
    requires c.slot != Some(PHY_REQUEST)
    ensures Advance(c).clock == c.clock
    ensures Advance(c).slot == Some(PHY_REQUEST) ==> c.clock.phyUpdate.None?
    decreases 3 - Rank(c.stage)
  {
    if c.clock.connected && c.stage != Done && !CanRequest(c, StageProcedure(c.stage))
       && c.procedure == NoProcedure && !(c.stage == WaitPhy && c.clock.phyUpdate.Some?) {
      AdvanceNeedsQuiet(c.(stage := NextStage(c.stage)));
    }
  }

  lemma {:induction false} CompletionNeedsQuiet(c: Ctrl, p: Procedure)
    requires c.slot != Some(PHY_REQUEST)
    ensures AutoComplete(c, p).clock == c.clock
    ensures AutoComplete(c, p).slot == Some(PHY_REQUEST) ==> c.clock.phyUpdate.None?
  {
    AdvanceNeedsQuiet(c.(stage := NextStage(c.stage)));
  }

  /** Whatever happens, a PHY request enters the slot only while no PHY change is pending. */
  lemma {:induction false} PhyRequestNeedsQuiet(c: Ctrl, a: Action)
    requires c.slot != Some(PHY_REQUEST)
    ensures Act(c, a).slot == Some(PHY_REQUEST) ==> Act(c, a).clock.phyUpdate.None?
  {
    match a
    case DoTimer =>
      var c1 := if ConnUpdateDue(c.clock) then InstantComplete(c, ConnUpdate) else c;
      CompletionNeedsQuiet(InstantComplete(c1.(clock := Timer(c.clock)), PhyChange), PhyChange);
    case DoFeatureRsp => ResponseNeedsQuiet(c, FeatureExchange);
    case DoLengthRsp(pdu) => ResponseNeedsQuiet(c, DataLengthUpdate);
    case DoUnknownRsp(pdu) => CompletionNeedsQuiet(Reset(c), c.procedure);
    case _ =>
    hide AutoComplete;
    hide Timer;
    hide ScheduleConnUpdate;
    hide SchedulePhyUpdate;
    hide U16Encode;
  }

  lemma {:induction false} ResponseNeedsQuiet(c: Ctrl, p: Procedure)
    requires c.slot != Some(PHY_REQUEST)
    ensures ResponseComplete(c, p).slot == Some(PHY_REQUEST) ==> ResponseComplete(c, p).clock.phyUpdate.None?
  {
    CompletionNeedsQuiet(c, p);
    CompletionNeedsQuiet(Reset(c), p);
  }

  /** Once the data length is settled either way, it is asked for at once if and only if none is pending. */
  lemma {:induction false} PhyRequestFollows(c: Ctrl, a: Action)
    requires c.clock.connected && c.stage == WaitDataLength && c.procedure == DataLengthUpdate && c.progress == WaitRsp
    requires c.slot.None?
    requires (a.DoLengthRsp? && |a.pdu| >= 9) || (a.DoUnknownRsp? && |a.pdu| >= 2 && a.pdu[1] == 0x14)
    ensures var e := Act(c, a);
            && e.clock == c.clock && e.sent == c.sent
            && e.slot == (if c.clock.phyUpdate.None? then Some(PHY_REQUEST) else None)
            && e.stage == WaitPhy && (c.clock.phyUpdate.Some? ==> e.procedure == NoProcedure)
  {
  }

  // ---- until it is answered --------------------------------------------------------------------------------------

  /** The response to the request of procedure p, or its refusal. */
  predicate Answers(p: Procedure, a: Action) {
    match a
    case DoFeatureRsp => p == FeatureExchange
    case DoLengthRsp(pdu) => p == DataLengthUpdate && |pdu| >= 9
    case DoPhyRsp(pdu) => p == PhyChange && |pdu| >= 3
    case DoUnknownRsp(pdu) =>
      |pdu| >= 2 && pdu[1] == (match p case FeatureExchange => 0x08 case DataLengthUpdate => 0x14 case _ => 0x16)
    case _ => false
  }

  predicate Awaits(c: Ctrl, p: Procedure) { c.procedure == p && c.progress == WaitRsp }

  /** While the link is up, a request waits on until exactly its own answer or refusal, whatever else happens. */
  lemma {:induction false} WaitsUntilAnswered(c: Ctrl, a: Action)
    requires c.clock.connected && c.progress == WaitRsp && c.procedure != NoProcedure && c.procedure != ConnUpdate
    ensures Act(c, a).clock.connected ==> (Awaits(Act(c, a), c.procedure) <==> !Answers(c.procedure, a))
  {
    hide Timer;
    hide ScheduleConnUpdate;
    hide SchedulePhyUpdate;
    hide PhyUpdateInd;
    hide U16Encode;
    hide RequestPdu;
    hide GoodPacket;
    hide BadPacket;
    match a
    case DoFeatureRsp => CompletionMoves(c);
    case DoLengthRsp(pdu) => CompletionMoves(c);
    case DoUnknownRsp(pdu) => CompletionMoves(c);
    case _ =>
  }

  lemma {:induction false} CompletionMoves(c: Ctrl)
    requires c.clock.connected && c.progress == WaitRsp && c.procedure != NoProcedure && c.procedure != ConnUpdate
    ensures !Awaits(AutoComplete(Reset(c), c.procedure), c.procedure)
    ensures forall p :: Awaits(AutoComplete(c, p), c.procedure)
  {
    hide RequestPdu;
    if (c.stage == WaitFeatures || c.stage == WaitDataLength) && c.procedure == StageProcedure(c.stage) {
      NeverAgain(Reset(c).(stage := NextStage(c.stage)), c.stage);
    }
  }

  lemma {:induction false} NeverAgain(c: Ctrl, s: Stage)
    requires Rank(s) < Rank(c.stage) && c.procedure == NoProcedure
    ensures !Awaits(Advance(c), StageProcedure(s))
    decreases 3 - Rank(c.stage)
  {
    hide RequestPdu;
    if c.clock.connected && c.stage != Done && !CanRequest(c, StageProcedure(c.stage))
       && !(c.stage == WaitPhy && c.clock.phyUpdate.Some?) {
      NeverAgain(c.(stage := NextStage(c.stage)), s);
    }
  }
}
