/**
 * Scanning and the decision to connect, as values: filter, candidate, scan-request target, radio phase,
 * and a log of what was installed, heard and decided (stack/controller/ble_controller_central.c).
 */
module ScanSpec {
  import opened Bytes
  import opened Uuids
  import opened AdData
  import opened AdRuntime

  type Octets6 = s: seq<byte> | |s| == 6 witness seq(6, _ => 0)
  datatype Addr = Addr(random: bool, octets: Octets6)

  datatype AdvKind = AdvInd | AdvDirectInd | AdvNonconnInd | AdvScanInd | OtherPdu
  datatype Advert = Advert(kind: AdvKind, addr: Addr, data: seq<byte>)

  predicate Connectable(k: AdvKind) { k == AdvInd || k == AdvDirectInd }
  predicate Scannable(k: AdvKind) { k == AdvInd || k == AdvScanInd }

  datatype Filter = Filter(addr: Option<Addr>, name: Option<seq<byte>>, uuid16: Option<u16>, uuid128: Option<uuid128>)

  /** What set-scan-filter accepts: something to match, a usable name, no zero UUID. */
  predicate Acceptable(f: Filter) {
    && (f.addr.Some? || f.name.Some? || f.uuid16.Some? || f.uuid128.Some?)
    && (f.name.Some? ==> 0 < |f.name.value| <= ADV_DATA_MAX)
    && f.uuid16 != Some(0)
  }

  /** Everything the filter asks for holds of the sender and its data. */
  ghost predicate Matches(f: Filter, addr: Addr, data: seq<byte>) {
    && (f.addr.Some? ==> f.addr.value == addr)
    && (f.name.Some? ==> HasName(Parse(data), f.name.value))
    && (f.uuid16.Some? ==> HasUuid(Parse(data), INCOMPLETE_UUID16, COMPLETE_UUID16, U16Encode(f.uuid16.value)))
    && (f.uuid128.Some? ==> HasUuid(Parse(data), INCOMPLETE_UUID128, COMPLETE_UUID128, f.uuid128.value))
  }

  datatype Phase = Idle | WaitRx | WaitScanReqTx | WaitScanRsp | WaitConnectTx

  /** Installing or clearing a filter, hearing a peer, making a connection request pending, stopping. */
  datatype Entry =
    | FilterSet(filter: Option<Filter>)
    | Advertised(advert: Advert)
    | Responded(responder: Addr, data: seq<byte>)
    | Connecting(to: Addr)
    | Stopped

  datatype Scan = Scan(
    filter: Option<Filter>, active: bool, scanning: bool, phase: Phase,
    candidate: Option<Addr>,
    target: Option<Addr>, targetConnectable: bool, scanReqPending: bool,
    connectPending: bool, connectTarget: Option<Addr>,
    peer: Option<Addr>,
    log: seq<Entry>)

  function Init(active: bool): Scan {
    Scan(None, active, false, Idle, None, None, false, false, false, None, None, [])
  }

  function ResetScan(s: Scan): Scan {
    s.(scanReqPending := false, connectPending := false, target := None, targetConnectable := false, phase := Idle)
  }

  // ---- the application's calls -------------------------------------------------------------------

  function SetFilter(s: Scan, f: Filter): Scan {
    if !Acceptable(f) then s
    else s.(filter := Some(f), candidate := None, log := s.log + [FilterSet(Some(f))])
  }

  function ClearFilter(s: Scan): Scan {
    s.(filter := None, candidate := None, log := s.log + [FilterSet(None)])
  }

  function ScanTimer(s: Scan): Scan {
    if s.peer.Some? || !s.scanning || s.phase != Idle then s else s.(phase := WaitRx)
  }

  function StartScanning(s: Scan): Scan {
    if s.peer.Some? || s.scanning then s else ScanTimer(s.(scanning := true))
  }

  function StopScanning(s: Scan): Scan {
    ResetScan(s.(scanning := false, candidate := None, log := s.log + [Stopped]))
  }

  function StartConnecting(s: Scan): Scan {
    if s.filter.None? || s.peer.Some? then s else StartScanning(s)
  }

  function FilterFor(addr: Addr): Filter { Filter(Some(addr), None, None, None) }

  /** Connecting to an address is scanning with a filter for it. */
  function Connect(s: Scan, addr: Addr): Scan {
    StartConnecting(SetFilter(s, FilterFor(addr)))
  }

  // ---- what the radio brings -----------------------------------------------------------------------

  /** Scanning ends, and a CONNECT_REQ to addr follows when the receiver is off. */
  function Decide(s: Scan, addr: Addr): Scan {
    s.(connectTarget := Some(addr), scanning := false, connectPending := true, candidate := None,
       log := s.log + [Connecting(addr)])
  }

  ghost function OnAdvert(s: Scan, p: Advert): Scan {
    if p.kind == OtherPdu then s
    else
      var s' := s.(log := s.log + [Advertised(p)]);
      if s.candidate == Some(p.addr) && Connectable(p.kind) then Decide(s', p.addr)
      else if s.filter.Some? && Matches(s.filter.value, p.addr, p.data) && Connectable(p.kind) then Decide(s', p.addr)
      else if s.active && Scannable(p.kind) then
        s'.(target := Some(p.addr), targetConnectable := Connectable(p.kind), scanReqPending := true)
      else s'
  }

  /** Only the response that was asked for counts. */
  ghost function OnScanRsp(s: Scan, from: Addr, data: seq<byte>): Scan {
    if s.target != Some(from) then s
    else
      var s' := s.(log := s.log + [Responded(from, data)]);
      if s.targetConnectable && s.filter.Some? && Matches(s.filter.value, from, data) then s'.(candidate := Some(from))
      else s'
  }

  function OnDisabled(s: Scan): Scan {
    match s.phase
    case Idle => s
    case WaitRx =>
      if s.connectPending then s.(connectPending := false, phase := WaitConnectTx)
      else if s.scanReqPending then s.(scanReqPending := false, phase := WaitScanReqTx)
      else ResetScan(s)
    case WaitScanReqTx => s.(phase := WaitScanRsp)
    case WaitScanRsp => ResetScan(s)
    case WaitConnectTx => ResetScan(s.(peer := s.connectTarget, scanning := false, candidate := None))
  }

  /** The window closes on a receiver that has nothing to finish. */
  function WindowTimeout(s: Scan, quiet: bool): Scan {
    if s.scanning && s.peer.None? && (s.phase == WaitRx || s.phase == WaitScanRsp) && quiet then ResetScan(s) else s
  }

  // ---- runs --------------------------------------------------------------------------------------------

  datatype Action =
    | DoSetFilter(f: Filter) | DoClearFilter | DoConnect(addr: Addr)
    | DoStart | DoStartConnecting | DoStop | DoTimer | DoTimeout(quiet: bool)
    | DoReceive(advert: Advert) | DoReceiveRsp(from: Addr, data: seq<byte>) | DoDisabled

  /** The scanner and its receiver, which takes one packet and then switches itself off. */
  datatype World = World(scan: Scan, heard: bool)

  function Start(active: bool): World { World(Init(active), false) }

  predicate Listening(w: World, phase: Phase) { w.scan.peer.None? && w.scan.phase == phase && !w.heard }

  predicate Receives(w: World, a: Action) {
    (a.DoReceive? && Listening(w, WaitRx)) || (a.DoReceiveRsp? && Listening(w, WaitScanRsp))
  }

  /** Receptions matter in the phase that waits for them; a connected link has its own handlers. */
  ghost function Effect(w: World, a: Action): Scan {
    var s := w.scan;
    match a
    case DoSetFilter(f) => SetFilter(s, f)
    case DoClearFilter => ClearFilter(s)
    case DoConnect(addr) => Connect(s, addr)
    case DoStart => StartScanning(s)
    case DoStartConnecting => StartConnecting(s)
    case DoStop => StopScanning(s)
    case DoTimer => ScanTimer(s)
    case DoTimeout(quiet) => WindowTimeout(s, quiet)
    case DoReceive(advert) => if Receives(w, a) then OnAdvert(s, advert) else s
    case DoReceiveRsp(from, data) => if Receives(w, a) then OnScanRsp(s, from, data) else s
    case DoDisabled => if s.peer.None? then OnDisabled(s) else s
  }

  ghost function Act(w: World, a: Action): World {
    var s := Effect(w, a);
    World(s, Receives(w, a) || (w.heard && s.phase == w.scan.phase))
  }

  ghost function Run(w: World, actions: seq<Action>, n: nat): World
    requires n <= |actions|
  {
    if n == 0 then w else Act(Run(w, actions, n - 1), actions[n - 1])
  }
}
