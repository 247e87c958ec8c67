/** The scanning central: fields updated in place as ScanSpec says. */
module Scanner {
  import opened Bytes
  import opened Uuids
  import opened AdData
  import opened AdRuntime
  import opened ScanSpec

  class Scanner {
    var filterEnabled: bool
    var filter: Filter
    var active: bool
    var scanning: bool
    var phase: Phase
    var candidateValid: bool
    var candidate: Addr
    var targetValid: bool
    var target: Addr
    var targetConnectable: bool
    var scanReqPending: bool
    var connectPending: bool
    var connectTarget: Option<Addr>
    var peer: Option<Addr>
    var log: seq<Entry>

    function State(): Scan reads this {
      Scan(if filterEnabled then Some(filter) else None, active, scanning, phase,
           if candidateValid then Some(candidate) else None,
           if targetValid then Some(target) else None, targetConnectable, scanReqPending,
           connectPending, connectTarget, peer, log)
    }

    constructor (isActive: bool)
      ensures State() == Init(isActive)
    {
      var noAddr := Addr(false, seq(6, _ => 0));
      filterEnabled, filter, active := false, Filter(None, None, None, None), isActive;
      scanning, phase, candidateValid, candidate := false, Idle, false, noAddr;
      targetValid, target, targetConnectable, scanReqPending := false, noAddr, false, false;
      connectPending, connectTarget, peer, log := false, None, None, [];
    }

    method ResetScanState()
      modifies this`scanReqPending, this`connectPending, this`targetValid, this`targetConnectable, this`phase
      ensures State() == ResetScan(old(State()))
    {
      scanReqPending, connectPending, targetValid, targetConnectable, phase := false, false, false, false, Idle;
    }

    /** The four tests of the filter, each only if it is asked for. */
    method FilterMatches(addr: Addr, data: seq<byte>) returns (ok: bool)
      requires |data| <= 0xFF
      ensures ok == (filterEnabled && Matches(filter, addr, data))
    {
      if !filterEnabled || (filter.addr.Some? && filter.addr.value != addr) {
        return false;
      }
      hide HasName;
      hide HasUuid;
      hide Parse;
      if filter.name.Some? {
        ok := MatchesName(data, filter.name.value);
        if !ok { return; }
      }
      if filter.uuid16.Some? {
        ok := ContainsUuid(data, U16Encode(filter.uuid16.value), INCOMPLETE_UUID16, COMPLETE_UUID16);
        if !ok { return; }
      }
      if filter.uuid128.Some? {
        ok := ContainsUuid(data, filter.uuid128.value, INCOMPLETE_UUID128, COMPLETE_UUID128);
        if !ok { return; }
      }
      ok := true;
    }

    method SetScanFilter(f: Filter) returns (ok: bool)
      modifies this
      ensures ok == Acceptable(f)
      ensures State() == SetFilter(old(State()), f)
    {
      if f.addr.None? && f.name.None? && f.uuid16.None? && f.uuid128.None? {
        return false;
      }
      if f.name.Some? && (|f.name.value| == 0 || |f.name.value| > ADV_DATA_MAX) {
        return false;
      }
      if f.uuid16.Some? && f.uuid16.value == 0 {
        return false;
      }
      filter, filterEnabled, candidateValid := f, true, false;
      log := log + [FilterSet(Some(f))];
      ok := true;
    }

    method ClearScanFilter()
      modifies this
      ensures State() == ClearFilter(old(State()))
    {
      filterEnabled, filter, candidateValid := false, Filter(None, None, None, None), false;
      log := log + [FilterSet(None)];
    }

    method OnScanTimer()
      modifies this
      ensures State() == ScanTimer(old(State()))
    {
      if peer.Some? || !scanning || phase != Idle {
        return;
      }
      phase := WaitRx;
    }

    method Start()
      modifies this
      ensures State() == StartScanning(old(State()))
    {
      if peer.Some? || scanning {
        return;
      }
      scanning := true;
      OnScanTimer();
    }

    method Stop()
      modifies this
      ensures State() == StopScanning(old(State()))
    {
      scanning, candidateValid := false, false;
      log := log + [Stopped];
      ResetScanState();
    }

    method ConnectTo(addr: Addr) returns (ok: bool)
      modifies this
      ensures ok == old(peer).None?
      ensures State() == Connect(old(State()), addr)
    {
      ok := SetScanFilter(Filter(Some(addr), None, None, None));
      if !filterEnabled || peer.Some? {
        return false;
      }
      Start();
      ok := true;
    }

    method DecideOn(addr: Addr)
      modifies this`connectTarget, this`candidateValid, this`scanning, this`connectPending, this`log
      ensures State() == Decide(old(State()), addr)
    {
      connectTarget, candidateValid, scanning, connectPending := Some(addr), false, false, true;
      log := log + [Connecting(addr)];
    }

    method OnCrcOk(p: Advert)
      requires |p.data| <= 0xFF
      modifies this
      ensures State() == OnAdvert(old(State()), p)
    {
      hide Decide;
      if p.kind == OtherPdu {
        return;
      }
      log := log + [Advertised(p)];
      if candidateValid && candidate == p.addr && Connectable(p.kind) {
        DecideOn(p.addr);
        return;
      }
      hide Matches;
      var matches := FilterMatches(p.addr, p.data);
      if matches && Connectable(p.kind) {
        DecideOn(p.addr);
        return;
      }
      if active && Scannable(p.kind) {
        RequestScan(p);
      }
    }

    method RequestScan(p: Advert)
      modifies this`target, this`targetValid, this`targetConnectable, this`scanReqPending
      ensures State() == old(State()).(target := Some(p.addr), targetConnectable := Connectable(p.kind),
                                       scanReqPending := true)
    {
      target, targetValid, targetConnectable, scanReqPending := p.addr, true, Connectable(p.kind), true;
    }

    method OnScanRspCrcOk(from: Addr, data: seq<byte>)
      requires |data| <= 0xFF
      modifies this
      ensures State() == OnScanRsp(old(State()), from, data)
    {
      if !targetValid || target != from {
        return;
      }
      log := log + [Responded(from, data)];
      if targetConnectable {
        var matches := FilterMatches(from, data);
        hide Matches;
        if matches {
          candidate, candidateValid := target, true;
        }
      }
    }

    method Enter(next: Phase)
      modifies this`phase, this`connectPending, this`scanReqPending
      ensures State() == old(State()).(phase := next,
        connectPending := if next == WaitConnectTx then false else old(connectPending),
        scanReqPending := if next == WaitScanReqTx then false else old(scanReqPending))
    {
      phase := next;
      if next == WaitConnectTx {
        connectPending := false;
      } else if next == WaitScanReqTx {
        scanReqPending := false;
      }
    }

    method OnRadioDisabled()
      modifies this
      ensures State() == OnDisabled(old(State()))
    {
      hide ResetScan;
      match phase {
        case Idle =>
        case WaitRx =>
          if connectPending {
            Enter(WaitConnectTx);
          } else if scanReqPending {
            Enter(WaitScanReqTx);
          } else {
            ResetScanState();
          }
        case WaitScanReqTx =>
          Enter(WaitScanRsp);
        case WaitScanRsp =>
          ResetScanState();
        case WaitConnectTx =>
          peer, scanning, candidateValid := connectTarget, false, false;
          ResetScanState();
      }
    }

    method OnWindowTimeout(quiet: bool)
      modifies this
      ensures State() == WindowTimeout(old(State()), quiet)
    {
      if scanning && peer.None? && (phase == WaitRx || phase == WaitScanRsp) && quiet {
        ResetScanState();
      }
    }
  }
}
