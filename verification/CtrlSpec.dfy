/**
 * The central's link-layer control procedures as values: the procedure in progress, the automatic
 * sequence after connecting, and the one-PDU slot its requests wait in
 * (stack/controller/ble_controller_central.c).
 */
module CtrlSpec {
  import opened Bytes
  import opened ClockSpec

  datatype Procedure = NoProcedure | FeatureExchange | DataLengthUpdate | PhyChange | ConnUpdate
  datatype Progress = Idle | WaitRsp | WaitInstant
  datatype Stage = Done | WaitFeatures | WaitDataLength | WaitPhy

  /** sent lists the requests handed to the radio so far, latest last. */
  datatype Ctrl = Ctrl(clock: Clock, procedure: Procedure, progress: Progress, stage: Stage,
                       slot: Option<seq<byte>>, sent: seq<seq<byte>>)

  const FEATURE_REQ: byte := 0x08
  const LENGTH_REQ: byte := 0x14
  const PHY_REQ: byte := 0x16
  const MAX_OCTETS: u16 := 251
  const MAX_TIME_US: u16 := 2120
  const BOTH_PHYS: byte := 3

  /** The opcode a procedure waits for an answer to; 0 when it waits for none. */
  function RequestOpcode(p: Procedure): byte {
    match p
    case FeatureExchange => FEATURE_REQ
    case DataLengthUpdate => LENGTH_REQ
    case PhyChange => PHY_REQ
    case ConnUpdate => 0
    case NoProcedure => 0
  }

  function RequestPdu(p: Procedure): seq<byte> {
    match p
    case FeatureExchange => [FEATURE_REQ, 0x20, 0x01, 0, 0, 0, 0, 0, 0]
    case DataLengthUpdate =>
      [LENGTH_REQ] + U16Encode(MAX_OCTETS) + U16Encode(MAX_TIME_US) + U16Encode(MAX_OCTETS) + U16Encode(MAX_TIME_US)
    case PhyChange => [PHY_REQ, BOTH_PHYS, BOTH_PHYS]
    case ConnUpdate => []
    case NoProcedure => []
  }

  function Reset(c: Ctrl): Ctrl { c.(procedure := NoProcedure, progress := Idle) }

  // ---- the automatic sequence ----------------------------------------------------------------------

  predicate CanRequest(c: Ctrl, p: Procedure) {
    c.clock.connected && c.procedure == NoProcedure && c.slot.None? && (p == PhyChange ==> c.clock.phyUpdate.None?)
  }

  function Request(c: Ctrl, p: Procedure): Ctrl {
    c.(procedure := p, progress := WaitRsp, slot := Some(RequestPdu(p)))
  }

  function Rank(s: Stage): nat {
    match s
    case WaitFeatures => 0
    case WaitDataLength => 1
    case WaitPhy => 2
    case Done => 3
  }

  function StageProcedure(s: Stage): Procedure {
    match s
    case WaitFeatures => FeatureExchange
    case WaitDataLength => DataLengthUpdate
    case WaitPhy => PhyChange
    case Done => NoProcedure
  }

  function NextStage(s: Stage): Stage {
    match s
    case WaitFeatures => WaitDataLength
    case WaitDataLength => WaitPhy
    case WaitPhy => Done
    case Done => Done
  }

  /** Start the request of the stage; wait when something else is going on; else skip the stage. */
  function Advance(c: Ctrl): Ctrl
    decreases 3 - Rank(c.stage)
  {
    if !c.clock.connected || c.stage == Done then c.(stage := Done)
    else if CanRequest(c, StageProcedure(c.stage)) then Request(c, StageProcedure(c.stage))
    else if c.procedure != NoProcedure || (c.stage == WaitPhy && c.clock.phyUpdate.Some?) then c
    else Advance(c.(stage := NextStage(c.stage)))
  }

  /** A procedure that ends moves the sequence on when it is the one waited for. */
  function AutoComplete(c: Ctrl, p: Procedure): Ctrl {
    if !c.clock.connected then c.(stage := Done)
    else if c.stage == Done || p != StageProcedure(c.stage) then c
    else if c.stage == WaitPhy then c.(stage := Done)
    else Advance(c.(stage := NextStage(c.stage)))
  }

  /** A new link: nothing in progress, nothing queued, and the automatic sequence begins. */
  function Start(clock: Clock): Ctrl {
    Advance(Ctrl(clock, NoProcedure, Idle, WaitFeatures, None, []))
  }

  // ---- what happens to it --------------------------------------------------------------------------

  function ResponseComplete(c: Ctrl, p: Procedure): Ctrl {
    AutoComplete(if c.procedure == p && c.progress == WaitRsp then Reset(c) else c, p)
  }

  function FeatureRsp(c: Ctrl): Ctrl { ResponseComplete(c, FeatureExchange) }

  /** A short length response is ignored. */
  function LengthRsp(c: Ctrl, pdu: seq<byte>): Ctrl {
    if |pdu| >= 9 then ResponseComplete(c, DataLengthUpdate) else c
  }

  function UnknownRsp(c: Ctrl, pdu: seq<byte>): Ctrl {
    if |pdu| < 2 || c.progress != WaitRsp || pdu[1] != RequestOpcode(c.procedure) then c
    else AutoComplete(Reset(c), c.procedure)
  }

  predicate Names2M(b: byte) { b / 2 % 2 == 1 }

  /** The central picks the fastest PHY both directions allow and announces when it changes. */
  function PhyRsp(c: Ctrl, pdu: seq<byte>): (r: (Ctrl, seq<byte>)) {
    if c.procedure != PhyChange || c.progress != WaitRsp || |pdu| < 3 then (c, [])
    else
      var phy := if Names2M(pdu[1]) && Names2M(pdu[2]) then PHY_2M else PHY_1M;
      var u := PhyUpdate(InstantFor(c.clock.counter), Phys(phy, phy));
      (c.(clock := c.clock.(phyUpdate := Some(u)), progress := WaitInstant), PhyUpdateInd(u.phys, u.instant))
  }

  datatype ConnParams = ConnParams(minInterval: u16, maxInterval: u16, latency: u16, timeout: u16)

  predicate Initiates(c: Ctrl, p: ConnParams) {
    && c.clock.connected && p.minInterval != 0 && p.maxInterval != 0 && p.minInterval <= p.maxInterval && p.timeout != 0
    && c.procedure == NoProcedure && c.clock.update.None? && c.slot.None?
  }

  function InitiateConnUpdate(c: Ctrl, p: ConnParams): Ctrl {
    if !Initiates(c, p) then c
    else
      var pdu := ConnUpdateInd(0, p.minInterval, p.latency, p.timeout, InstantFor(c.clock.counter));
      c.(clock := ScheduleConnUpdate(c.clock, pdu), procedure := ConnUpdate, progress := WaitInstant, slot := Some(pdu))
  }

  /** The instant of an update ends the procedure that announced it. */
  function InstantComplete(c: Ctrl, p: Procedure): Ctrl {
    if c.procedure == p && c.progress == WaitInstant then Reset(c) else c
  }

  function Lost(c: Ctrl): Ctrl { c.(procedure := NoProcedure, progress := Idle, stage := Done, slot := None) }

  predicate ConnUpdateDue(k: Clock) {
    k.update.Some? && k.counter == k.update.value.instant && Succ(k.counter) != k.update.value.instant
  }

  predicate PhyUpdateDue(k: Clock) { k.phyUpdate.Some? && k.phyUpdate.value.instant == k.counter }

  function OnTimer(c: Ctrl): Ctrl {
    if !c.clock.connected then c
    else
      var c1 := if ConnUpdateDue(c.clock) then InstantComplete(c, ConnUpdate) else c;
      var c2 := c1.(clock := Timer(c.clock));
      if !c2.clock.connected then Lost(c2)
      else if PhyUpdateDue(c.clock) then AutoComplete(InstantComplete(c2, PhyChange), PhyChange)
      else c2
  }

  /** The radio takes the request out of the slot. */
  function SlotTaken(c: Ctrl): Ctrl {
    if c.slot.Some? then c.(slot := None, sent := c.sent + [c.slot.value]) else c
  }

  function PeerPhyUpdate(c: Ctrl, pdu: seq<byte>): Ctrl {
    var k := SchedulePhyUpdate(c.clock, pdu);
    if k.connected then c.(clock := k) else Lost(c.(clock := k))
  }

  // ---- runs ---------------------------------------------------------------------------------------------

  datatype Action =
    | DoTimer | DoHear(good: bool) | DoSlotTaken
    | DoFeatureRsp | DoLengthRsp(pdu: seq<byte>) | DoPhyRsp(pdu: seq<byte>) | DoUnknownRsp(pdu: seq<byte>)
    | DoPeerConnUpdate(pdu: seq<byte>) | DoPeerPhyUpdate(pdu: seq<byte>)
    | DoInitiate(params: ConnParams) | DoDisconnect

  /** Nothing happens any more once the link is down. */
  function Act(c: Ctrl, a: Action): Ctrl {
    if !c.clock.connected then c
    else
      match a
      case DoTimer => OnTimer(c)
      case DoHear(good) => c.(clock := if good then GoodPacket(c.clock, 0) else BadPacket(c.clock, 0))
      case DoSlotTaken => SlotTaken(c)
      case DoFeatureRsp => FeatureRsp(c)
      case DoLengthRsp(pdu) => LengthRsp(c, pdu)
      case DoPhyRsp(pdu) => PhyRsp(c, pdu).0
      case DoUnknownRsp(pdu) => UnknownRsp(c, pdu)
      case DoPeerConnUpdate(pdu) => c.(clock := ScheduleConnUpdate(c.clock, pdu))
      case DoPeerPhyUpdate(pdu) => PeerPhyUpdate(c, pdu)
      case DoInitiate(params) => InitiateConnUpdate(c, params)
      case DoDisconnect => Lost(c.(clock := Disconnected(c.clock)))
  }

  function Run(c: Ctrl, actions: seq<Action>, n: nat): Ctrl
    requires n <= |actions|
  {
    if n == 0 then c else Act(Run(c, actions, n - 1), actions[n - 1])
  }
}
