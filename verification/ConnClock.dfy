/** The connection clock in place: every handler leaves the fields as ClockSpec says. */
module ConnClock {
  import opened Bytes
  import opened ClockSpec

  class ConnClock {
    var role: Role
    var connected: bool
    var params: Params
    var updateValid: bool
    var updateInstant: u16
    var updateOffsetUs: u32
    var updateParams: Params
    var phys: Phys
    var phyUpdateValid: bool
    var phyUpdateInstant: u16
    var phyUpdatePhys: Phys
    var started: bool
    var rxSeen: bool
    var missed: u16
    var counter: u16
    var tick: u32

    function State(): Clock reads this {
      Clock(role, connected, params,
            if updateValid then Some(Update(updateInstant, updateOffsetUs, updateParams)) else None,
            phys,
            if phyUpdateValid then Some(PhyUpdate(phyUpdateInstant, phyUpdatePhys)) else None,
            started, rxSeen, missed, counter, tick)
    }

    /** A fresh link: the parameters of the connection request, and the delay to its first event. */
    constructor (r: Role, interval: u16, latency: u16, timeout: u16, firstDelayUs: u32)
      ensures State() == Clock(r, true, ParamsOf(interval, latency, timeout), None, Phys(PHY_1M, PHY_1M), None,
                               false, false, 0, 0, firstDelayUs)
    {
      role, connected := r, true;
      params := ParamsOf(interval, latency, timeout);
      updateValid, updateInstant, updateOffsetUs, updateParams := false, 0, 0, Params(0, 0, 0, 0);
      phys := Phys(PHY_1M, PHY_1M);
      phyUpdateValid, phyUpdateInstant, phyUpdatePhys := false, 0, Phys(0, 0);
      started, rxSeen, missed, counter, tick := false, false, 0, 0, firstDelayUs;
    }

    method NextEventTick(current: u32, eventCounter: u16) returns (next: u32)
      modifies this`params, this`updateValid, this`missed
      ensures next == NextTick(old(State()), current, eventCounter)
      ensures State() == AtEvent(old(State()), eventCounter)
    {
      next := AddTicks(current, params.intervalUs);
      if updateValid && Succ(eventCounter) == updateInstant {
        next := AddTicks(next, updateOffsetUs);
      } else if updateValid && eventCounter == updateInstant {
        params := updateParams;
        next := AddTicks(current, params.intervalUs);
        updateValid := false;
        missed := 0;
      }
    }

    method Disconnect()
      modifies this`connected, this`params, this`updateValid, this`phyUpdateValid, this`tick
      ensures State() == Disconnected(old(State()))
    {
      connected := false;
      params := params.(intervalUs := 0);
      updateValid, phyUpdateValid, tick := false, false, 0;
    }

    method OnTimer()
      modifies this
      ensures State() == Timer(old(State()))
    {
      if !connected {
        return;
      }
      hide NextTick;
      var next := NextEventTick(tick, counter);
      if started {
        if rxSeen {
          missed := 0;
        } else {
          missed := Succ(missed);
          if missed * params.intervalMs >= params.timeoutMs {
            Disconnect();
            return;
          }
        }
      }
      rxSeen := false;
      tick := next;
      if phyUpdateValid && counter == phyUpdateInstant {
        phys := phyUpdatePhys;
        phyUpdateValid := false;
      }
      counter := Succ(counter);
    }

    method OnGoodPacket(anchor: u32)
      modifies this
      ensures State() == GoodPacket(old(State()), anchor)
    {
      if !connected {
        return;
      }
      rxSeen := true;
      if role.Peripheral? {
        tick := NextEventTick(anchor, Pred(counter));
      }
      started := true;
    }

    method OnBadPacket(anchor: u32)
      modifies this
      ensures State() == BadPacket(old(State()), anchor)
    {
      if !connected {
        return;
      }
      if role.Peripheral? {
        tick := NextEventTick(anchor, Pred(counter));
      }
      started := true;
    }

    method OnConnUpdate(pdu: seq<byte>)
      modifies this
      ensures State() == ScheduleConnUpdate(old(State()), pdu)
    {
      if |pdu| < 12 {
        return;
      }
      updateOffsetUs := UnitsToUs(U16Decode(pdu[2..]));
      updateParams := ParamsOf(U16Decode(pdu[4..]), U16Decode(pdu[6..]), U16Decode(pdu[8..]));
      updateInstant := U16Decode(pdu[10..]);
      updateValid := updateParams.intervalUs != 0 && updateParams.timeoutMs != 0;
    }

    method OnPhyUpdate(pdu: seq<byte>)
      modifies this
      ensures State() == SchedulePhyUpdate(old(State()), pdu)
    {
      if |pdu| < 5 {
        return;
      }
      var rx, tx := pdu[1], pdu[2];
      if rx == 0 {
        rx := phys.rx;
      }
      if tx == 0 {
        tx := phys.tx;
      }
      if !Supported(rx) || !Supported(tx) {
        return;
      }
      if rx != tx {
        Disconnect();
        return;
      }
      phyUpdatePhys, phyUpdateInstant, phyUpdateValid := Phys(tx, rx), U16Decode(pdu[3..]), true;
    }
  }
}
