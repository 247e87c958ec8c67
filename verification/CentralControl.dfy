/** The central's control-procedure object: fields updated in place as CtrlSpec says. */
module CentralControl {
  import opened Bytes
  import opened ClockSpec
  import opened ConnClock
  import opened CtrlSpec

  class CentralControl {
    const clock: ConnClock
    var procedure: Procedure
    var progress: Progress
    var stage: Stage
    var slot: Option<seq<byte>>
    var sent: seq<seq<byte>>

    function State(): Ctrl reads this, clock {
      Ctrl(clock.State(), procedure, progress, stage, slot, sent)
    }

    constructor (k: ConnClock)
      requires k.connected
      ensures clock == k && State() == Start(k.State())
    {
      clock := k;
      procedure, progress, stage, slot, sent := NoProcedure, Idle, Done, None, [];
      new;
      stage := WaitFeatures;
      AutoAdvance();
    }

    method ProcedureReset()
      modifies this`procedure, this`progress
      ensures State() == Reset(old(State()))
    {
      procedure, progress := NoProcedure, Idle;
    }

    method QueueControl(pdu: seq<byte>) returns (ok: bool)
      modifies this`slot
      ensures ok == old(slot).None?
      ensures slot == if ok then Some(pdu) else old(slot)
    {
      ok := slot.None?;
      if ok {
        slot := Some(pdu);
      }
    }

    method RequestProcedure(p: Procedure) returns (ok: bool)
      requires p == FeatureExchange || p == DataLengthUpdate || p == PhyChange
      modifies this`procedure, this`progress, this`slot
      ensures ok == CanRequest(old(State()), p)
      ensures State() == if ok then Request(old(State()), p) else old(State())
    {
      if !clock.connected || procedure != NoProcedure || (p == PhyChange && clock.phyUpdateValid) {
        return false;
      }
      ok := QueueControl(RequestPdu(p));
      if ok {
        procedure, progress := p, WaitRsp;
      }
    }

    method AutoAdvance()
      modifies this`procedure, this`progress, this`slot, this`stage
      ensures State() == Advance(old(State()))
      decreases 3 - Rank(stage)
    {
      if !clock.connected || stage == Done {
        stage := Done;
        return;
      }
      var ok := RequestProcedure(StageProcedure(stage));
      if !ok {
        if procedure != NoProcedure || (stage == WaitPhy && clock.phyUpdateValid) {
          return;
        }
        stage := NextStage(stage);
        AutoAdvance();
      }
    }

    method AutoCompleteWith(p: Procedure)
      modifies this`procedure, this`progress, this`slot, this`stage
      ensures State() == AutoComplete(old(State()), p)
    {
      if !clock.connected {
        stage := Done;
        return;
      }
      if p == FeatureExchange && stage == WaitFeatures {
        stage := WaitDataLength;
        AutoAdvance();
      } else if p == DataLengthUpdate && stage == WaitDataLength {
        stage := WaitPhy;
        AutoAdvance();
      } else if p == PhyChange && stage == WaitPhy {
        stage := Done;
      }
    }

    method OnResponseComplete(p: Procedure)
      modifies this`procedure, this`progress, this`slot, this`stage
      ensures State() == ResponseComplete(old(State()), p)
    {
      if procedure == p && progress == WaitRsp {
        ProcedureReset();
      }
      AutoCompleteWith(p);
    }

    method OnFeatureRsp()
      modifies this`procedure, this`progress, this`slot, this`stage
      ensures State() == FeatureRsp(old(State()))
    {
      OnResponseComplete(FeatureExchange);
    }

    method OnLengthRsp(pdu: seq<byte>)
      modifies this`procedure, this`progress, this`slot, this`stage
      ensures State() == LengthRsp(old(State()), pdu)
    {
      if |pdu| >= 9 {
        OnResponseComplete(DataLengthUpdate);
      }
    }

    method OnUnknownRsp(pdu: seq<byte>)
      modifies this`procedure, this`progress, this`slot, this`stage
      ensures State() == UnknownRsp(old(State()), pdu)
    {
      if |pdu| < 2 || progress != WaitRsp || pdu[1] != RequestOpcode(procedure) {
        return;
      }
      var p := procedure;
      ProcedureReset();
      AutoCompleteWith(p);
    }

    method OnPhyRsp(pdu: seq<byte>) returns (rsp: seq<byte>)
      modifies this`progress, clock
      ensures (State(), rsp) == PhyRsp(old(State()), pdu)
    {
      if procedure != PhyChange || progress != WaitRsp || |pdu| < 3 {
        return [];
      }
      var phy := if Names2M(pdu[1]) && Names2M(pdu[2]) then PHY_2M else PHY_1M;
      var instant := InstantFor(clock.counter);
      rsp := PhyUpdateInd(Phys(phy, phy), instant);
      clock.phyUpdatePhys, clock.phyUpdateInstant, clock.phyUpdateValid := Phys(phy, phy), instant, true;
      progress := WaitInstant;
    }

    method StartConnUpdate(p: ConnParams) returns (ok: bool)
      modifies this`procedure, this`progress, this`slot, clock
      ensures ok == Initiates(old(State()), p)
      ensures State() == InitiateConnUpdate(old(State()), p)
    {
      if !clock.connected || p.minInterval == 0 || p.maxInterval == 0 || p.minInterval > p.maxInterval
         || p.timeout == 0 || procedure != NoProcedure || clock.updateValid {
        return false;
      }
      var pdu := ConnUpdateInd(0, p.minInterval, p.latency, p.timeout, InstantFor(clock.counter));
      ok := QueueControl(pdu);
      if ok {
        clock.OnConnUpdate(pdu);
        procedure, progress := ConnUpdate, WaitInstant;
      }
    }

    method OnInstantComplete(p: Procedure)
      modifies this`procedure, this`progress
      ensures State() == InstantComplete(old(State()), p)
    {
      if procedure == p && progress == WaitInstant {
        ProcedureReset();
      }
    }

    method OnTimerEvent()
      modifies this, clock
      ensures State() == OnTimer(old(State()))
    {
      if !clock.connected {
        return;
      }
      var connDue := clock.updateValid && clock.counter == clock.updateInstant && Succ(clock.counter) != clock.updateInstant;
      var phyDue := clock.phyUpdateValid && clock.phyUpdateInstant == clock.counter;
      hide Timer;
      clock.OnTimer();
      if connDue {
        OnInstantComplete(ConnUpdate);
      }
      if !clock.connected {
        procedure, progress, stage, slot := NoProcedure, Idle, Done, None;
        return;
      }
      if phyDue {
        OnInstantComplete(PhyChange);
        AutoCompleteWith(PhyChange);
      }
    }

    method OnSlotTaken()
      modifies this`slot, this`sent
      ensures State() == SlotTaken(old(State()))
    {
      if slot.Some? {
        sent := sent + [slot.value];
        slot := None;
      }
    }
  }
}
