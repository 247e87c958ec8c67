/**
 * The connection-event clock as values: anchor ticks, connection and PHY updates that take effect at an
 * instant, and link supervision (stack/controller/ble_controller_common.c).
 */
module ClockSpec {
  import opened Bytes

  const TICKS: nat := 0x1_0000_0000
  const COUNTS: nat := 0x1_0000

  datatype Params = Params(intervalUs: u32, intervalMs: u16, latency: u16, timeoutMs: u16)
  datatype Phys = Phys(tx: byte, rx: byte)
  datatype Update = Update(instant: u16, offsetUs: u32, params: Params)
  datatype PhyUpdate = PhyUpdate(instant: u16, phys: Phys)
  datatype Role = Central | Peripheral

  /** tick is where the next event is due; counter is the number of the next event. */
  datatype Clock = Clock(
    role: Role, connected: bool,
    params: Params, update: Option<Update>,
    phys: Phys, phyUpdate: Option<PhyUpdate>,
    started: bool, rxSeen: bool, missed: u16,
    counter: u16, tick: u32)

  function AddTicks(tick: u32, delta: nat): u32 { (tick + delta) % TICKS }

  function Succ(n: u16): u16 { (n + 1) % COUNTS }

  function Pred(n: u16): u16 { if n == 0 then 0xFFFF else n - 1 }

  // ---- parameters as they travel ---------------------------------------------------------------

  const CONN_UPDATE_IND: byte := 0x00
  const PHY_UPDATE_IND: byte := 0x18
  const WIN_SIZE_UNITS: byte := 1
  const INSTANT_OFFSET_EVENTS: nat := 6
  const PHY_1M: byte := 1
  const PHY_2M: byte := 2

  /** The instant a central chooses for an update it announces now. */
  function InstantFor(counter: u16): u16 { (counter + INSTANT_OFFSET_EVENTS) % COUNTS }

  function UnitsToUs(units: u16): u32 { units * 1250 }

  function UnitsToMs(units: u16): u16 { (units * 125 / 100) % COUNTS }

  function TensToMs(units: u16): u16 { (units * 10) % COUNTS }

  function ParamsOf(interval: u16, latency: u16, timeout: u16): Params {
    Params(UnitsToUs(interval), UnitsToMs(interval), latency, TensToMs(timeout))
  }

  function ConnUpdateInd(offset: u16, interval: u16, latency: u16, timeout: u16, instant: u16): (pdu: seq<byte>)
    ensures |pdu| == 12
  {
    [CONN_UPDATE_IND, WIN_SIZE_UNITS] + U16Encode(offset) + U16Encode(interval) + U16Encode(latency)
    + U16Encode(timeout) + U16Encode(instant)
  }

  function PhyUpdateInd(phys: Phys, instant: u16): (pdu: seq<byte>)
    ensures |pdu| == 5
  {
    [PHY_UPDATE_IND, phys.rx, phys.tx] + U16Encode(instant)
  }

  /** A zero interval or timeout makes the update void, and withdraws one already pending. */
  function ScheduleConnUpdate(s: Clock, pdu: seq<byte>): Clock {
    if |pdu| < 12 then s
    else
      var params := ParamsOf(U16Decode(pdu[4..]), U16Decode(pdu[6..]), U16Decode(pdu[8..]));
      s.(update :=
        if params.intervalUs != 0 && params.timeoutMs != 0 then
          Some(Update(U16Decode(pdu[10..]), UnitsToUs(U16Decode(pdu[2..])), params))
        else None)
  }

  predicate Supported(phy: byte) { phy == PHY_1M || phy == PHY_2M }

  /** What is left of the clock when the link goes down. */
  function Disconnected(s: Clock): Clock {
    s.(connected := false, params := s.params.(intervalUs := 0), update := None, phyUpdate := None, tick := 0)
  }

  /** 0 keeps the current PHY; a PHY this stack cannot use is ignored, an asymmetric pair drops the link. */
  function SchedulePhyUpdate(s: Clock, pdu: seq<byte>): Clock {
    if |pdu| < 5 then s
    else
      var rx := if pdu[1] == 0 then s.phys.rx else pdu[1];
      var tx := if pdu[2] == 0 then s.phys.tx else pdu[2];
      if !Supported(rx) || !Supported(tx) then s
      else if rx != tx then Disconnected(s)
      else s.(phyUpdate := Some(PhyUpdate(U16Decode(pdu[3..]), Phys(tx, rx))))
  }

  // ---- the next event -----------------------------------------------------------------------------

  /** When event number counter is at tick current, the one after it is at this tick. */
  function NextTick(s: Clock, current: u32, counter: u16): u32 {
    if s.update.Some? && Succ(counter) == s.update.value.instant then
      AddTicks(AddTicks(current, s.params.intervalUs), s.update.value.offsetUs)
    else if s.update.Some? && counter == s.update.value.instant then
      AddTicks(current, s.update.value.params.intervalUs)
    else AddTicks(current, s.params.intervalUs)
  }

  /** At the instant the new parameters are in force and supervision starts counting afresh. */
  function AtEvent(s: Clock, counter: u16): Clock {
    if s.update.Some? && Succ(counter) != s.update.value.instant && counter == s.update.value.instant then
      s.(params := s.update.value.params, update := None, missed := 0)
    else s
  }

  predicate TimedOut(s: Clock) {
    s.started && !s.rxSeen && Succ(s.missed) * s.params.intervalMs >= s.params.timeoutMs
  }

  function Counted(s: Clock): u16 {
    if !s.started then s.missed else if s.rxSeen then 0 else Succ(s.missed)
  }

  /** The timer handler of event s.counter. */
  function Timer(s: Clock): Clock {
    if !s.connected then s
    else
      var s' := AtEvent(s, s.counter);
      if TimedOut(s') then Disconnected(s'.(missed := Succ(s'.missed)))
      else
        var due := s'.phyUpdate.Some? && s'.phyUpdate.value.instant == s.counter;
        s'.(missed := Counted(s'), rxSeen := false, tick := NextTick(s, s.tick, s.counter),
            phys := if due then s'.phyUpdate.value.phys else s'.phys,
            phyUpdate := if due then None else s'.phyUpdate,
            counter := Succ(s.counter))
  }

  /** A peripheral takes the time of the received packet as the anchor of the current event. */
  function Anchored(s: Clock, anchor: u32): Clock {
    if s.role.Central? then s
    else AtEvent(s, Pred(s.counter)).(tick := NextTick(s, anchor, Pred(s.counter)))
  }

  function GoodPacket(s: Clock, anchor: u32): Clock {
    if !s.connected then s else Anchored(s, anchor).(rxSeen := true, started := true)
  }

  function BadPacket(s: Clock, anchor: u32): Clock {
    if !s.connected then s else Anchored(s, anchor).(started := true)
  }

  // ---- whole events --------------------------------------------------------------------------------

  /** What the radio hears in an event, and when. */
  datatype Heard = Silence | Good(anchor: u32) | Bad(anchor: u32)

  function Event(s: Clock, h: Heard): Clock {
    match h
    case Silence => Timer(s)
    case Good(anchor) => GoodPacket(Timer(s), anchor)
    case Bad(anchor) => BadPacket(Timer(s), anchor)
  }

  /** The clock after the first n events. */
  function Events(s: Clock, heard: seq<Heard>, n: nat): Clock
    requires n <= |heard|
  {
    if n == 0 then s else Event(Events(s, heard, n - 1), heard[n - 1])
  }
}
