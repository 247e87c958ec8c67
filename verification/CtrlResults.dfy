/** The central's control procedures over every run: nothing is ever waited for that is not on its way. */
module CtrlResults {
  import opened Bytes
  import opened ClockSpec
  import opened ClockResults
  import opened CtrlSpec

  /** The request is in the slot, or it is the last one that left it. */
  ghost predicate Outstanding(c: Ctrl, p: Procedure) {
    || c.slot == Some(RequestPdu(p))
    || (c.slot == None && c.sent != [] && c.sent[|c.sent| - 1] == RequestPdu(p))
  }

  ghost predicate ProcedureSound(c: Ctrl) {
    && (c.procedure == NoProcedure <==> c.progress == Idle)
    && (c.progress == WaitRsp ==> c.procedure != ConnUpdate && Outstanding(c, c.procedure))
    && (c.progress == WaitInstant ==> c.procedure == ConnUpdate || (c.procedure == PhyChange && c.clock.phyUpdate.Some?))
  }

  /** The last stage may also rest on a PHY update the peer has announced. */
  ghost predicate StageSound(c: Ctrl) {
    match c.stage
    case Done => true
    case WaitPhy => c.procedure == PhyChange || c.clock.phyUpdate.Some?
    case _ => c.procedure == StageProcedure(c.stage) && c.progress == WaitRsp
  }

  ghost predicate Inv(c: Ctrl) {
    && c.clock.role.Central? && ProcedureSound(c) && StageSound(c)
    && (!c.clock.connected ==> c.procedure == NoProcedure && c.stage == Done && c.slot == None)
  }

  lemma {:induction false} AdvanceSound(c: Ctrl)
    requires ProcedureSound(c) && c.clock.connected && c.procedure == NoProcedure && c.clock.role.Central?
    ensures Inv(Advance(c)) && Rank(Advance(c).stage) >= Rank(c.stage)
    decreases 3 - Rank(c.stage)
  {
    if c.stage != Done && !CanRequest(c, StageProcedure(c.stage))
       && !(c.stage == WaitPhy && c.clock.phyUpdate.Some?) {
      AdvanceSound(c.(stage := NextStage(c.stage)));
    }
  }

  lemma {:induction false} StartSound(clock: Clock)
    requires clock.connected && clock.role.Central?
    ensures Inv(Start(clock))
    ensures Start(clock).stage == WaitFeatures && Start(clock).procedure == FeatureExchange
  {
  }

  // A procedure has ended; if the sequence waited for it, it goes on.
  lemma {:induction false} EndedSound(c: Ctrl, p: Procedure)
    requires Inv(c) && c.clock.connected && c.procedure == p && p != NoProcedure
    ensures Inv(AutoComplete(Reset(c), p)) && Rank(AutoComplete(Reset(c), p).stage) >= Rank(c.stage)
  {
    if c.stage != Done && p == StageProcedure(c.stage) && c.stage != WaitPhy {
      AdvanceSound(Reset(c).(stage := NextStage(c.stage)));
    }
  }

  lemma {:induction false} ResponseSound(c: Ctrl, p: Procedure)
    requires Inv(c) && c.clock.connected && (p == FeatureExchange || p == DataLengthUpdate)
    ensures Inv(ResponseComplete(c, p)) && Rank(ResponseComplete(c, p).stage) >= Rank(c.stage)
  {
    if c.procedure == p && c.progress == WaitRsp {
      EndedSound(c, p);
    }
  }

  lemma {:induction false} UnknownSound(c: Ctrl, pdu: seq<byte>)
    requires Inv(c) && c.clock.connected
    ensures Inv(UnknownRsp(c, pdu)) && Rank(UnknownRsp(c, pdu).stage) >= Rank(c.stage)
  {
    if c.progress == WaitRsp {
      EndedSound(c, c.procedure);
    }
  }

  lemma {:induction false} TimerPhy(k: Clock)
    requires k.connected
    ensures Timer(k).role == k.role
    ensures Timer(k).connected ==> Timer(k).phyUpdate == if PhyUpdateDue(k) then None else k.phyUpdate
  {
  }

  lemma {:induction false} TimerSound(c: Ctrl)
    requires Inv(c)
    ensures Inv(OnTimer(c)) && Rank(OnTimer(c).stage) >= Rank(c.stage)
    ensures OnTimer(c).clock.role == c.clock.role
  {
    if c.clock.connected {
      TimerPhy(c.clock);
      hide Timer;
      hide ConnUpdateDue;
      hide PhyUpdateDue;
    }
  }
  /** Every action keeps the invariant, and the automatic sequence never goes back. */
  lemma {:induction false} ActSound(c: Ctrl, a: Action)
    requires Inv(c)
    ensures Inv(Act(c, a)) && Rank(Act(c, a).stage) >= Rank(c.stage)
  {
    if c.clock.connected {
      match a
      case DoTimer => TimerSound(c);
      case DoFeatureRsp => ResponseSound(c, FeatureExchange);
      case DoLengthRsp(pdu) => ResponseSound(c, DataLengthUpdate);
      case DoUnknownRsp(pdu) => UnknownSound(c, pdu);
      case _ =>
    }
  }

  /** In every run from a new link: no procedure without progress, no stage without its request. */
  lemma {:induction false} NeverWaitsOnNothing(clock: Clock, actions: seq<Action>, m: nat, n: nat)
    requires clock.connected && clock.role.Central? && m <= n <= |actions|
    ensures Inv(Run(Start(clock), actions, n))
    ensures Rank(Run(Start(clock), actions, m).stage) <= Rank(Run(Start(clock), actions, n).stage)
  {
    hide Inv;
    hide Act;
    if n == 0 {
      StartSound(clock);
    } else {
      NeverWaitsOnNothing(clock, actions, if m == n then m - 1 else m, n - 1);
      ActSound(Run(Start(clock), actions, n - 1), actions[n - 1]);
    }
  }

  /** Answered, whether supported or not, the request of a stage moves the sequence on. */
  lemma {:induction false} AnswerMovesOn(c: Ctrl, pdu: seq<byte>)
    requires Inv(c) && c.clock.connected && c.stage != Done
    requires c.progress == WaitRsp && c.procedure == StageProcedure(c.stage)
    ensures c.stage == WaitFeatures ==> Rank(FeatureRsp(c).stage) > Rank(c.stage)
    ensures c.stage == WaitDataLength && |pdu| >= 9 ==> Rank(LengthRsp(c, pdu).stage) > Rank(c.stage)
    ensures |pdu| >= 2 && pdu[1] == RequestOpcode(c.procedure) ==> Rank(UnknownRsp(c, pdu).stage) > Rank(c.stage)
    ensures c.stage == WaitPhy && |pdu| >= 3 ==>
      PhyRsp(c, pdu).0.progress == WaitInstant && PhyRsp(c, pdu).0.clock.phyUpdate.Some?
  {
    if c.stage != WaitPhy {
      AdvanceSound(Reset(c).(stage := NextStage(c.stage)));
    }
  }

  /** At the instant of a PHY update the sequence is over, if it had come that far. */
  lemma {:induction false} PhyInstantEndsSequence(c: Ctrl)
    requires Inv(c) && c.clock.connected && c.stage == WaitPhy && PhyUpdateDue(c.clock)
    ensures OnTimer(c).stage == Done && !(OnTimer(c).procedure == PhyChange && OnTimer(c).progress == WaitInstant)
  {
    TimerPhy(c.clock);
    hide Timer;
  }

  // ---- connection updates -------------------------------------------------------------------------------

  /** A connection update in progress has its instant ahead. */
  ghost predicate UpdateAhead(c: Ctrl) {
    c.procedure == ConnUpdate ==> c.clock.update.Some?
  }

  /** The timeout of 327.68 s is 0 ms in sixteen bits, so the update is void before it starts. */
  lemma {:induction false} VoidTimeout(timeout: u16)
    requires timeout != 0
    ensures TensToMs(timeout) == 0 <==> timeout == 32768
  {
  }

  predicate VoidUpdate(pdu: seq<byte>) {
    |pdu| >= 12 && (U16Decode(pdu[4..]) == 0 || TensToMs(U16Decode(pdu[8..])) == 0)
  }

  /** The two ways to lose the pending update of a procedure in progress. */
  predicate Voids(c: Ctrl, a: Action) {
    c.clock.connected
    && match a
       case DoInitiate(p) => Initiates(c, p) && p.timeout == 32768
       case DoPeerConnUpdate(pdu) => c.procedure == ConnUpdate && VoidUpdate(pdu)
       case _ => false
  }

  lemma {:induction false} InitiateSchedules(c: Ctrl, p: ConnParams)
    requires Initiates(c, p)
    ensures InitiateConnUpdate(c, p).clock.update.Some? <==> p.timeout != 32768
  {
    var pdu := ConnUpdateInd(0, p.minInterval, p.latency, p.timeout, InstantFor(c.clock.counter));
    hide U16Encode;
    assert pdu[4..][0] == U16Encode(p.minInterval)[0] && pdu[4..][1] == U16Encode(p.minInterval)[1];
    assert pdu[8..][0] == U16Encode(p.timeout)[0] && pdu[8..][1] == U16Encode(p.timeout)[1];
    VoidTimeout(p.timeout);
  }

  lemma {:induction false} TimerUpdate(k: Clock)
    requires k.connected && Timer(k).connected
    ensures Timer(k).update == if ConnUpdateDue(k) then None else k.update
  {
  }

  lemma {:induction false} AutoCompleteKeeps(c: Ctrl, p: Procedure)
    ensures AutoComplete(c, p).clock == c.clock
    ensures AutoComplete(c, p).procedure == ConnUpdate <==> c.procedure == ConnUpdate
  {
    if c.clock.connected && c.stage != Done && p == StageProcedure(c.stage) && c.stage != WaitPhy {
      AdvanceKeepsUpdate(c.(stage := NextStage(c.stage)));
    }
  }

  lemma {:induction false} AdvanceKeepsUpdate(c: Ctrl)
    ensures Advance(c).clock == c.clock
    ensures Advance(c).procedure == ConnUpdate <==> c.procedure == ConnUpdate
    decreases 3 - Rank(c.stage)
  {
    if c.clock.connected && c.stage != Done {
      AdvanceKeepsUpdate(c.(stage := NextStage(c.stage)));
    }
  }

  lemma {:induction false} TimerKeepsUpdate(c: Ctrl)
    requires Inv(c) && c.clock.connected && UpdateAhead(c)
    ensures UpdateAhead(OnTimer(c))
  {
    if Timer(c.clock).connected {
      TimerUpdate(c.clock);
      hide Timer;
      var c1 := if ConnUpdateDue(c.clock) then InstantComplete(c, ConnUpdate) else c;
      var c2 := c1.(clock := Timer(c.clock));
      AutoCompleteKeeps(InstantComplete(c2, PhyChange), PhyChange);
    }
  }

  /** Every other action keeps a connection update's instant ahead of it, and those two always lose it. */
  lemma {:induction false} UpdateLostExactly(c: Ctrl, a: Action)
    requires Inv(c) && UpdateAhead(c)
    ensures UpdateAhead(Act(c, a)) <==> !Voids(c, a)
  {
    if c.clock.connected {
      match a
      case DoTimer => TimerKeepsUpdate(c);
      case DoFeatureRsp => KeepsOnResponse(c, FeatureExchange);
      case DoLengthRsp(pdu) => KeepsOnResponse(c, DataLengthUpdate);
      case DoUnknownRsp(pdu) => AutoCompleteKeeps(Reset(c), c.procedure);
      case DoInitiate(p) => if Initiates(c, p) { InitiateSchedules(c, p); }
      case DoPeerConnUpdate(pdu) => if c.procedure == ConnUpdate { PeerUpdateVoids(c.clock, pdu); }
      case _ =>
    }
  }

  lemma {:induction false} KeepsOnResponse(c: Ctrl, p: Procedure)
    requires p != ConnUpdate
    ensures ResponseComplete(c, p).clock == c.clock
    ensures ResponseComplete(c, p).procedure == ConnUpdate <==> c.procedure == ConnUpdate
  {
    AutoCompleteKeeps(if c.procedure == p && c.progress == WaitRsp then Reset(c) else c, p);
  }

  lemma {:induction false} PeerUpdateVoids(k: Clock, pdu: seq<byte>)
    requires k.update.Some?
    ensures ScheduleConnUpdate(k, pdu).update.None? <==> VoidUpdate(pdu)
  {
  }

  /** The procedure waits for an instant that will not come. */
  ghost predicate Stuck(c: Ctrl) {
    c.clock.connected && c.procedure == ConnUpdate && c.progress == WaitInstant && c.clock.update.None?
  }

  lemma {:induction false} StuckStays(c: Ctrl, a: Action)
    requires Inv(c) && Stuck(c) && !a.DoPeerConnUpdate?
    ensures Stuck(Act(c, a)) || !Act(c, a).clock.connected
  {
    match a
    case DoTimer =>
      if Timer(c.clock).connected {
        TimerUpdate(c.clock);
        hide Timer;
      }
    case DoFeatureRsp => KeepsOnResponse(c, FeatureExchange);
    case DoLengthRsp(pdu) => KeepsOnResponse(c, DataLengthUpdate);
    case _ =>
  }

  lemma {:induction false} InitiateSound(c: Ctrl, p: ConnParams)
    requires Inv(c) && c.clock.connected
    ensures Inv(InitiateConnUpdate(c, p)) && InitiateConnUpdate(c, p).clock.connected
  {
  }

  /**
   * Asking for a supervision timeout of 32768 units is accepted and blocks all later procedures until the
   * link ends: the instant never comes, whatever happens short of an update from the peer.
   */
  lemma {:induction false} StuckForGood(c: Ctrl, p: ConnParams, actions: seq<Action>, n: nat)
    requires Inv(c) && Initiates(c, p) && p.timeout == 32768 && n <= |actions|
    requires forall i :: 0 <= i < n ==> !actions[i].DoPeerConnUpdate?
    ensures var e := Run(InitiateConnUpdate(c, p), actions, n); Inv(e) && (Stuck(e) || !e.clock.connected)
    ensures forall q :: !Initiates(Run(InitiateConnUpdate(c, p), actions, n), q)
  {
    hide Act;
    if n == 0 {
      InitiateSchedules(c, p);
      InitiateSound(c, p);
    } else {
      StuckForGood(c, p, actions, n - 1);
      var e := Run(InitiateConnUpdate(c, p), actions, n - 1);
      ActSound(e, actions[n - 1]);
      if e.clock.connected {
        StuckStays(e, actions[n - 1]);
      } else {
        DeadStays(e, actions[n - 1]);
      }
    }
  }

  lemma {:induction false} DeadStays(c: Ctrl, a: Action)
    requires !c.clock.connected
    ensures Act(c, a) == c
  {
  }

  // ---- over whole runs -----------------------------------------------------------------------------------

  /** Up to the n-th action, a connection update in progress always has its instant ahead. */
  ghost predicate AheadThroughout(clock: Clock, actions: seq<Action>, n: nat)
    requires clock.connected && n <= |actions|
  {
    forall k :: 0 <= k <= n ==> UpdateAhead(Run(Start(clock), actions, k))
  }

  /** None of the first n actions is one that loses the pending update of a procedure in progress. */
  ghost predicate NeverVoided(clock: Clock, actions: seq<Action>, n: nat)
    requires clock.connected && n <= |actions|
  {
    forall k :: 0 <= k < n ==> !Voids(Run(Start(clock), actions, k), actions[k])
  }

  /** In every run from a new link the one holds exactly as long as the other. */
  lemma {:induction false} UpdatesStayAheadExactly(clock: Clock, actions: seq<Action>, n: nat)
    requires clock.connected && clock.role.Central? && n <= |actions|
    ensures AheadThroughout(clock, actions, n) <==> NeverVoided(clock, actions, n)
  {
    hide UpdateAhead;
    hide Voids;
    hide Act;
    hide Run;
    if n == 0 {
      StartAhead(clock);
      assert Run(Start(clock), actions, 0) == Start(clock) by { RunNone(Start(clock), actions); }
    } else {
      UpdatesStayAheadExactly(clock, actions, n - 1);
      RunStep(Start(clock), actions, n - 1);
      NeverWaitsOnNothing(clock, actions, n - 1, n - 1);
      var c := Run(Start(clock), actions, n - 1);
      if UpdateAhead(c) {
        UpdateLostExactly(c, actions[n - 1]);
      }
      assert AheadThroughout(clock, actions, n) <==>
        AheadThroughout(clock, actions, n - 1) && UpdateAhead(Run(Start(clock), actions, n));
      assert NeverVoided(clock, actions, n) <==> NeverVoided(clock, actions, n - 1) && !Voids(c, actions[n - 1]);
      assert AheadThroughout(clock, actions, n - 1) ==> UpdateAhead(c);
    }
  }

  lemma {:induction false} RunNone(c: Ctrl, actions: seq<Action>)
    ensures Run(c, actions, 0) == c
  {
  }

  lemma {:induction false} StartAhead(clock: Clock)
    requires clock.connected && clock.role.Central?
    ensures UpdateAhead(Start(clock))
  {
    StartSound(clock);
  }

  /** An answer to every automatic request: the peer knows none of them. */
  function Refusals(): seq<Action> {
    [DoSlotTaken, DoUnknownRsp([0x07, FEATURE_REQ]), DoSlotTaken, DoUnknownRsp([0x07, LENGTH_REQ]),
     DoSlotTaken, DoUnknownRsp([0x07, PHY_REQ])]
  }

  lemma {:induction false} RunStep(c: Ctrl, actions: seq<Action>, n: nat)
    requires n < |actions|
    ensures Run(c, actions, n + 1) == Act(Run(c, actions, n), actions[n])
  {
  }

  /** A peer that answers that it knows none of the requests leaves the central idle, its slot free. */
  lemma {:induction false} RefusalsEndSequence(clock: Clock)
    requires clock.connected && clock.phyUpdate.None?
    ensures var e := Run(Start(clock), Refusals(), 6);
            e.clock == clock && e.procedure == NoProcedure && e.stage == Done && e.slot == None
  {
    var c := Start(clock);
    assert c.slot == Some(RequestPdu(FeatureExchange)) && c.stage == WaitFeatures;
    var c1 := Act(c, DoSlotTaken);
    var c2 := Act(c1, DoUnknownRsp([0x07, FEATURE_REQ]));
    assert c2.stage == WaitDataLength && c2.procedure == DataLengthUpdate && c2.slot.Some? && c2.clock == clock;
    var c3 := Act(c2, DoSlotTaken);
    var c4 := Act(c3, DoUnknownRsp([0x07, LENGTH_REQ]));
    assert c4.stage == WaitPhy && c4.procedure == PhyChange && c4.slot.Some? && c4.clock == clock;
    var c5 := Act(c4, DoSlotTaken);
    var c6 := Act(c5, DoUnknownRsp([0x07, PHY_REQ]));
    hide Act;
    forall n | 0 <= n < 6 ensures Run(c, Refusals(), n + 1) == Act(Run(c, Refusals(), n), Refusals()[n]) {
      RunStep(c, Refusals(), n);
    }
    assert Run(c, Refusals(), 0) == c;
    assert Run(c, Refusals(), 1) == c1 && Run(c, Refusals(), 2) == c2 && Run(c, Refusals(), 3) == c3;
    assert Run(c, Refusals(), 4) == c4 && Run(c, Refusals(), 5) == c5 && Run(c, Refusals(), 6) == c6;
  }

  /**
   * The blocking timeout can be asked for on every new link: after the automatic sequence the request is
   * accepted, and the procedure is stuck.
   */
  lemma {:induction false} StuckIsReachable(clock: Clock, p: ConnParams)
    requires clock.connected && clock.role.Central? && clock.phyUpdate.None? && clock.update.None?
    requires 0 < p.minInterval <= p.maxInterval && p.timeout == 32768
    ensures var actions := Refusals() + [DoInitiate(p)];
            && Initiates(Run(Start(clock), actions, 6), p) && Stuck(Run(Start(clock), actions, 7))
  {
    var actions := Refusals() + [DoInitiate(p)];
    RefusalsEndSequence(clock);
    hide Act;
    SamePrefix(Start(clock), Refusals(), actions, 6);
    RunStep(Start(clock), actions, 6);
    var c := Run(Start(clock), actions, 6);
    InitiateSchedules(c, p);
    InitiateActs(c, p);
  }

  lemma {:induction false} InitiateActs(c: Ctrl, p: ConnParams)
    requires Initiates(c, p)
    ensures Act(c, DoInitiate(p)) == InitiateConnUpdate(c, p)
    ensures Act(c, DoInitiate(p)).procedure == ConnUpdate && Act(c, DoInitiate(p)).progress == WaitInstant
    ensures Act(c, DoInitiate(p)).clock.connected
  {
  }

  lemma {:induction false} SamePrefix(c: Ctrl, a: seq<Action>, b: seq<Action>, n: nat)
    requires n <= |a| && a <= b
    ensures Run(c, a, n) == Run(c, b, n)
  {
    hide Act;
    if n > 0 {
      SamePrefix(c, a, b, n - 1);
    }
  }

  // ---- both ends, from the procedure that announces ------------------------------------------------------

  lemma {:induction false} AnnouncedUpdate(offset: u16, interval: u16, latency: u16, timeout: u16, instant: u16)
    ensures var pdu := ConnUpdateInd(offset, interval, latency, timeout, instant);
            && pdu[..2] == [0x00, 0x01] && U16Decode(pdu[2..]) == offset && U16Decode(pdu[4..]) == interval
            && U16Decode(pdu[6..]) == latency && U16Decode(pdu[8..]) == timeout && U16Decode(pdu[10..]) == instant
  {
    var pdu := ConnUpdateInd(offset, interval, latency, timeout, instant);
    hide U16Encode;
    assert pdu[2..][0] == U16Encode(offset)[0] && pdu[2..][1] == U16Encode(offset)[1];
    assert pdu[4..][0] == U16Encode(interval)[0] && pdu[4..][1] == U16Encode(interval)[1];
    assert pdu[6..][0] == U16Encode(latency)[0] && pdu[6..][1] == U16Encode(latency)[1];
    assert pdu[8..][0] == U16Encode(timeout)[0] && pdu[8..][1] == U16Encode(timeout)[1];
    assert pdu[10..][0] == U16Encode(instant)[0] && pdu[10..][1] == U16Encode(instant)[1];
  }

  /**
   * A started connection update announces, six events ahead, exactly the parameters asked for, with the
   * smallest interval, and is in force on both ends in the same event if it is processed in time.
   */
  lemma {:induction false} StartedUpdateTogether(c: Ctrl, params: ConnParams, p: Clock,
                                                 heard: seq<Heard>, before: seq<Heard>, after: seq<Heard>)
    requires Initiates(c, params) && params.timeout != 32768
    requires p.connected && c.clock.counter == p.counter && c.clock.params == p.params && p.update == None
    requires |heard| == |before| + |after| < COUNTS && |before| <= 6
    ensures var s := InitiateConnUpdate(c, params);
            var c' := Events(s.clock, heard, |heard|);
            && s.slot.Some? && |s.slot.value| == 12 && s.slot.value[..2] == [0x00, 0x01] && U16Decode(s.slot.value[2..]) == 0
            && U16Decode(s.slot.value[4..]) == params.minInterval && U16Decode(s.slot.value[6..]) == params.latency
            && U16Decode(s.slot.value[8..]) == params.timeout
            && U16Decode(s.slot.value[10..]) == (c.clock.counter + 6) % 0x1_0000
            && var p' := HearsOfUpdate(p, s.slot.value, before, after);
               c'.connected && Events(p, before, |before|).connected && p'.connected ==>
                 && c'.counter == p'.counter && c'.params == p'.params
                 && c'.params == if |heard| <= 6 then c.clock.params
                                 else ParamsOf(params.minInterval, params.latency, params.timeout)
  {
    hide ConnUpdateInd;
    hide ScheduleConnUpdate;
    hide Events;
    hide HearsOfUpdate;
    assert TensToMs(params.timeout) != 0 by { VoidTimeout(params.timeout); }
    ConnUpdateTogether(c.clock, p, params.minInterval, params.latency, params.timeout, heard, before, after);
    AnnouncedUpdate(0, params.minInterval, params.latency, params.timeout, InstantFor(c.clock.counter));
  }

  lemma {:induction false} AnnouncedPhy(phys: Phys, instant: u16)
    ensures var pdu := PhyUpdateInd(phys, instant);
            pdu[0] == 0x18 && pdu[1] == phys.rx && pdu[2] == phys.tx && U16Decode(pdu[3..]) == instant
  {
    var pdu := PhyUpdateInd(phys, instant);
    hide U16Encode;
    assert pdu[3..][0] == U16Encode(instant)[0] && pdu[3..][1] == U16Encode(instant)[1];
  }

  /** 2M when both directions of the response name it, else 1M. */
  function FastestOf(rsp: seq<byte>): byte
    requires |rsp| >= 3
  {
    if rsp[1] / 2 % 2 == 1 && rsp[2] / 2 % 2 == 1 then 2 else 1
  }

  /** And so is the PHY update by which the central answers a PHY response. */
  lemma {:induction false} AnsweredPhyTogether(c: Ctrl, rsp: seq<byte>, p: Clock,
                                               heard: seq<Heard>, before: seq<Heard>, after: seq<Heard>)
    requires c.procedure == PhyChange && c.progress == WaitRsp && |rsp| >= 3
    requires c.clock.connected && p.connected && c.clock.counter == p.counter && c.clock.phys == p.phys
    requires p.phyUpdate == None && |heard| == |before| + |after| < COUNTS && |before| <= 6
    ensures var (s, pdu) := PhyRsp(c, rsp);
            var phy := FastestOf(rsp);
            var c' := Events(s.clock, heard, |heard|);
            var p' := HearsOfPhyUpdate(p, pdu, before, after);
            && |pdu| == 5 && pdu[0] == 0x18 && pdu[1] == pdu[2] == phy
            && U16Decode(pdu[3..]) == (c.clock.counter + 6) % 0x1_0000
            && (c'.connected && Events(p, before, |before|).connected && p'.connected ==>
                  && c'.phys == p'.phys == if |heard| <= 6 then c.clock.phys else Phys(phy, phy))
  {
    hide PhyUpdateInd;
    hide Events;
    hide HearsOfPhyUpdate;
    var phy := FastestOf(rsp);
    PhyUpdateTogether(c.clock, p, phy, heard, before, after);
    AnnouncedPhy(Phys(phy, phy), InstantFor(c.clock.counter));
  }
}
