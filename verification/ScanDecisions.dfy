/**
 * When the central does decide to connect, over every run: exactly on a connectable advertisement that matches
 * the filter in force, or whose sender is the last one to have matched it in a scan response.
 */
module ScanDecisions {
  import opened Bytes
  import opened Uuids
  import opened AdData
  import opened AdRuntime
  import opened ScanSpec
  import opened ScanResults

  /**
   * The j-th entry qualifies addr under f, and up to the k-th nothing has come after it that makes it void: no
   * other filter, no decision, no stop, and no response that qualifies somebody else.
   */
  ghost predicate Standing(log: seq<Entry>, j: nat, k: nat, addr: Addr, f: Filter)
    requires j < k <= |log|
  {
    && Qualified(log, j, k, addr, f)
    && (forall m :: j < m < k ==> !log[m].Connecting? && !log[m].Stopped?)
    && (forall m :: j < m < k && log[m].Responded? && log[m].responder != addr ==>
          !Qualified(log, m, k, log[m].responder, f))
  }

  /** What the log says about a connectable advertisement heard now: whether to connect to its sender. */
  ghost predicate Entitled(log: seq<Entry>, p: Advert) {
    InForce(log, |log|).Some?
    && var f := InForce(log, |log|).value;
       || Matches(f, p.addr, p.data)
       || exists j :: 0 <= j < |log| && Standing(log, j, |log|, p.addr, f)
  }

  /** The candidate is the peer whose qualification stands. */
  ghost predicate CandidateExact(s: Scan) {
    && (s.candidate.Some? ==>
          s.filter.Some? && exists j :: 0 <= j < |s.log| && Standing(s.log, j, |s.log|, s.candidate.value, s.filter.value))
    && (s.filter.Some? ==> forall j ::
          0 <= j < |s.log| && s.log[j].Responded? && Standing(s.log, j, |s.log|, s.log[j].responder, s.filter.value) ==>
          s.candidate == Some(s.log[j].responder))
  }

  // ---- a growing log ----------------------------------------------------------------------------------

  lemma {:induction false} QualifiedExactly(log: seq<Entry>, e: Entry, j: nat, addr: Addr, f: Filter)
    requires j < |log|
    ensures Qualified(log + [e], j, |log| + 1, addr, f) <==> Qualified(log, j, |log|, addr, f) && !e.FilterSet?
  {
    hide Matches;
    hide Solicits;
    LatestStay(log, e, j);
    var more := log + [e];
    assert forall i :: 0 <= i < |log| ==> more[i] == log[i];
    assert more[|log|] == e;
  }

  /** e makes a qualification of addr void. */
  ghost predicate Supersedes(log: seq<Entry>, e: Entry, addr: Addr, f: Filter) {
    || e.FilterSet? || e.Connecting? || e.Stopped?
    || (e.Responded? && e.responder != addr && Qualified(log + [e], |log|, |log| + 1, e.responder, f))
  }

  lemma {:induction false} StandingKept(log: seq<Entry>, e: Entry, j: nat, addr: Addr, f: Filter)
    requires j < |log| && Standing(log, j, |log|, addr, f) && !Supersedes(log, e, addr, f)
    ensures Standing(log + [e], j, |log| + 1, addr, f)
  {
    hide Qualified;
    QualifiedExactly(log, e, j, addr, f);
    var more := log + [e];
    forall m | j < m < |log| + 1 && more[m].Responded? && more[m].responder != addr
      ensures !Qualified(more, m, |log| + 1, more[m].responder, f)
    {
      if m < |log| {
        QualifiedExactly(log, e, m, log[m].responder, f);
      }
    }
  }

  lemma {:induction false} StandingBefore(log: seq<Entry>, e: Entry, j: nat, addr: Addr, f: Filter)
    requires j < |log| && Standing(log + [e], j, |log| + 1, addr, f)
    ensures Standing(log, j, |log|, addr, f) && !Supersedes(log, e, addr, f)
  {
    hide Qualified;
    QualifiedExactly(log, e, j, addr, f);
    var more := log + [e];
    assert more[|log|] == e;
    forall m | j < m < |log| && log[m].Responded? && log[m].responder != addr
      ensures !Qualified(log, m, |log|, log[m].responder, f)
    {
      assert more[m] == log[m];
      QualifiedExactly(log, e, m, log[m].responder, f);
    }
    assert forall m :: j < m < |log| ==> log[m] == more[m];
  }

  /** An entry that voids every qualification leaves no candidate. */
  lemma {:induction false} ExactAfterVoid(s: Scan, e: Entry, s': Scan)
    requires e.FilterSet? || e.Connecting? || e.Stopped?
    requires s'.log == s.log + [e] && s'.candidate.None?
    ensures CandidateExact(s')
  {
    hide Qualified;
    if s'.filter.Some? {
      forall j | 0 <= j < |s'.log| && s'.log[j].Responded?
        ensures !Standing(s'.log, j, |s'.log|, s'.log[j].responder, s'.filter.value)
      {
        if Standing(s'.log, j, |s'.log|, s'.log[j].responder, s'.filter.value) {
          StandingBefore(s.log, e, j, s'.log[j].responder, s'.filter.value);
        }
      }
    }
  }

  /** An entry that qualifies nobody leaves the candidate. */
  lemma {:induction false} ExactAfterNote(s: Scan, e: Entry, s': Scan)
    requires CandidateExact(s) && !e.FilterSet? && !e.Connecting? && !e.Stopped?
    requires s'.log == s.log + [e] && s'.candidate == s.candidate && s'.filter == s.filter
    requires e.Responded? && s.filter.Some? ==> !Qualified(s'.log, |s.log|, |s'.log|, e.responder, s.filter.value)
    ensures CandidateExact(s')
  {
    hide Qualified;
    if s.candidate.Some? {
      var j :| 0 <= j < |s.log| && Standing(s.log, j, |s.log|, s.candidate.value, s.filter.value);
      StandingKept(s.log, e, j, s.candidate.value, s.filter.value);
    }
    if s.filter.Some? {
      forall j | 0 <= j < |s'.log| && s'.log[j].Responded?
                 && Standing(s'.log, j, |s'.log|, s'.log[j].responder, s'.filter.value)
        ensures s'.candidate == Some(s'.log[j].responder)
      {
        if j < |s.log| {
          StandingBefore(s.log, e, j, s'.log[j].responder, s.filter.value);
          assert s.log[j] == s'.log[j];
        }
      }
    }
  }

  /** A response that qualifies its sender makes it the candidate. */
  lemma {:induction false} ExactAfterMatch(s: Scan, e: Entry, s': Scan)
    requires e.Responded? && s.filter.Some? && s'.filter == s.filter
    requires s'.log == s.log + [e] && s'.candidate == Some(e.responder)
    requires Qualified(s'.log, |s.log|, |s'.log|, e.responder, s.filter.value)
    ensures CandidateExact(s')
  {
    hide Qualified;
    assert s'.log[|s.log|] == e;
    assert Standing(s'.log, |s.log|, |s'.log|, e.responder, s.filter.value);
    forall j | 0 <= j < |s'.log| && s'.log[j].Responded?
               && Standing(s'.log, j, |s'.log|, s'.log[j].responder, s'.filter.value)
      ensures s'.candidate == Some(s'.log[j].responder)
    {
      if j < |s.log| {
        StandingBefore(s.log, e, j, s'.log[j].responder, s.filter.value);
      }
    }
  }

  lemma {:induction false} ExactUnchanged(s: Scan, s': Scan)
    requires CandidateExact(s) && s'.log == s.log && s'.candidate == s.candidate && s'.filter == s.filter
    ensures CandidateExact(s')
  {
    hide Standing;
  }

  // ---- steps ---------------------------------------------------------------------------------------------

  /** A response is awaited only from somebody, and no candidate waits beside a request. */
  predicate Awaits(s: Scan) {
    && (s.scanReqPending || s.phase == WaitScanReqTx || s.phase == WaitScanRsp ==> s.target.Some?)
    && (s.connectPending || s.phase == WaitConnectTx ==> s.candidate.None?)
  }

  ghost predicate Exact(w: World) { Inv(w.scan) && Tidy(w) && Awaits(w.scan) && CandidateExact(w.scan) }

  lemma {:induction false} DecideExact(s: Scan, p: Advert)
    requires CandidateExact(s)
    ensures CandidateExact(Decide(s, p.addr))
  {
    ExactAfterVoid(s, Connecting(p.addr), Decide(s, p.addr));
  }

  lemma {:induction false} AdvertExact(s: Scan, p: Advert)
    requires CandidateExact(s)
    ensures CandidateExact(OnAdvert(s, p))
  {
    hide CandidateExact;
    hide Matches;
    if p.kind == OtherPdu {
      return;
    }
    var s' := s.(log := s.log + [Advertised(p)]);
    ExactAfterNote(s, Advertised(p), s');
    if OnAdvert(s, p) == Decide(s', p.addr) {
      DecideExact(s', p);
    } else {
      ExactUnchanged(s', OnAdvert(s, p));
    }
  }

  lemma {:induction false} QualifiesNow(s: Scan, from: Addr, data: seq<byte>)
    requires TargetSound(s) && s.target == Some(from) && s.filter.Some?
    ensures Qualified(s.log + [Responded(from, data)], |s.log|, |s.log| + 1, from, s.filter.value)
      <==> s.targetConnectable && Matches(s.filter.value, from, data)
  {
    hide Matches;
    LatestStay(s.log, Responded(from, data), |s.log|);
  }

  lemma {:induction false} ResponseExact(s: Scan, from: Addr, data: seq<byte>)
    requires CandidateExact(s) && TargetSound(s)
    ensures CandidateExact(OnScanRsp(s, from, data))
  {
    hide CandidateExact;
    hide Matches;
    hide Qualified;
    hide TargetSound;
    var e := Responded(from, data);
    if s.target != Some(from) {
      return;
    }
    if s.filter.Some? {
      QualifiesNow(s, from, data);
    }
    if s.filter.Some? && s.targetConnectable && Matches(s.filter.value, from, data) {
      ExactAfterMatch(s, e, OnScanRsp(s, from, data));
    } else {
      ExactAfterNote(s, e, OnScanRsp(s, from, data));
    }
  }

  lemma {:induction false} FilterExact(s: Scan, f: Filter)
    requires CandidateExact(s)
    ensures CandidateExact(SetFilter(s, f)) && CandidateExact(ClearFilter(s))
  {
    hide CandidateExact;
    if Acceptable(f) {
      ExactAfterVoid(s, FilterSet(Some(f)), SetFilter(s, f));
    }
    ExactAfterVoid(s, FilterSet(None), ClearFilter(s));
  }

  lemma {:induction false} CallsExact(s: Scan)
    requires CandidateExact(s)
    ensures CandidateExact(StartScanning(s)) && CandidateExact(StartConnecting(s)) && CandidateExact(ScanTimer(s))
    ensures CandidateExact(StopScanning(s))
  {
    hide CandidateExact;
    ExactUnchanged(s, StartScanning(s));
    ExactUnchanged(s, StartConnecting(s));
    ExactUnchanged(s, ScanTimer(s));
    ExactAfterVoid(s, Stopped, StopScanning(s));
  }

  lemma {:induction false} RadioExact(s: Scan, quiet: bool)
    requires CandidateExact(s) && Awaits(s)
    ensures CandidateExact(OnDisabled(s)) && CandidateExact(WindowTimeout(s, quiet))
  {
    hide CandidateExact;
    ExactUnchanged(s, OnDisabled(s));
    ExactUnchanged(s, WindowTimeout(s, quiet));
  }

  lemma {:induction false} EffectExact(w: World, a: Action)
    requires CandidateExact(w.scan) && TargetSound(w.scan) && Awaits(w.scan)
    ensures CandidateExact(Effect(w, a))
  {
    hide CandidateExact;
    hide TargetSound;
    hide Awaits;
    hide OnAdvert;
    hide OnScanRsp;
    hide SetFilter;
    hide ClearFilter;
    hide StartScanning;
    hide StartConnecting;
    hide StopScanning;
    hide ScanTimer;
    hide OnDisabled;
    hide WindowTimeout;
    var s := w.scan;
    match a
    case DoReceive(p) => AdvertExact(s, p);
    case DoReceiveRsp(from, data) => ResponseExact(s, from, data);
    case DoSetFilter(f) => FilterExact(s, f);
    case DoClearFilter => FilterExact(s, Filter(None, None, None, None));
    case DoConnect(addr) =>
      FilterExact(s, FilterFor(addr));
      CallsExact(SetFilter(s, FilterFor(addr)));
    case DoTimeout(quiet) => RadioExact(s, quiet);
    case DoDisabled => RadioExact(s, false);
    case _ => CallsExact(s);
  }

  // ---- no candidate beside a request -----------------------------------------------------------------

  lemma {:induction false} ReceptionAwaits(w: World, p: Advert, from: Addr, data: seq<byte>)
    requires Awaits(w.scan) && Tidy(w)
    ensures Listening(w, WaitRx) ==> Awaits(OnAdvert(w.scan, p))
    ensures Listening(w, WaitScanRsp) ==> Awaits(OnScanRsp(w.scan, from, data))
  {
    hide Matches;
  }

  lemma {:induction false} FilterAwaits(s: Scan, f: Filter)
    requires Awaits(s)
    ensures Awaits(SetFilter(s, f)) && Awaits(ClearFilter(s)) && Awaits(StopScanning(s))
  {
    hide Acceptable;
  }

  lemma {:induction false} StartAwaits(s: Scan)
    requires Awaits(s)
    ensures Awaits(StartScanning(s)) && Awaits(StartConnecting(s)) && Awaits(ScanTimer(s))
  {
  }

  lemma {:induction false} RadioAwaits(s: Scan, quiet: bool)
    requires Awaits(s)
    ensures Awaits(OnDisabled(s)) && Awaits(WindowTimeout(s, quiet))
  {
  }

  lemma {:induction false} EffectAwaits(w: World, a: Action)
    requires Awaits(w.scan) && Tidy(w)
    ensures Awaits(Effect(w, a))
  {
    hide Awaits;
    hide Tidy;
    hide OnAdvert;
    hide OnScanRsp;
    hide SetFilter;
    hide ClearFilter;
    hide StartScanning;
    hide StartConnecting;
    hide StopScanning;
    hide ScanTimer;
    hide OnDisabled;
    hide WindowTimeout;
    var s := w.scan;
    match a
    case DoReceive(p) => ReceptionAwaits(w, p, p.addr, []);
    case DoReceiveRsp(from, data) => ReceptionAwaits(w, Advert(OtherPdu, from, []), from, data);
    case DoSetFilter(f) => FilterAwaits(s, f);
    case DoClearFilter => FilterAwaits(s, Filter(None, None, None, None));
    case DoStop => FilterAwaits(s, Filter(None, None, None, None));
    case DoConnect(addr) =>
      FilterAwaits(s, FilterFor(addr));
      StartAwaits(SetFilter(s, FilterFor(addr)));
    case DoTimeout(quiet) => RadioAwaits(s, quiet);
    case DoDisabled => RadioAwaits(s, false);
    case _ => StartAwaits(s);
  }

  lemma {:induction false} ActExact(w: World, a: Action)
    requires Exact(w)
    ensures Exact(Act(w, a))
  {
    hide Inv;
    hide Tidy;
    hide Awaits;
    hide CandidateExact;
    hide Effect;
    assert TargetSound(w.scan) by { InvTarget(w.scan); }
    ActSound(w, a);
    EffectExact(w, a);
    EffectAwaits(w, a);
  }

  lemma {:induction false} InvTarget(s: Scan)
    requires Inv(s)
    ensures TargetSound(s) && s.filter == InForce(s.log, |s.log|)
  {
  }

  lemma {:induction false} RunExact(active: bool, actions: seq<Action>, n: nat)
    requires n <= |actions|
    ensures Exact(Run(Start(active), actions, n))
  {
    if n > 0 {
      RunExact(active, actions, n - 1);
      hide Act;
      hide Exact;
      ActExact(Run(Start(active), actions, n - 1), actions[n - 1]);
    }
  }

  // ---- decisions -------------------------------------------------------------------------------------------

  lemma {:induction false} CandidateIsEntitled(s: Scan, p: Advert)
    requires CandidateExact(s) && s.filter == InForce(s.log, |s.log|)
    ensures Entitled(s.log, p) <==>
      s.candidate == Some(p.addr) || (s.filter.Some? && Matches(s.filter.value, p.addr, p.data))
  {
    hide Matches;
    hide Standing;
    if s.filter.Some? && exists j :: 0 <= j < |s.log| && Standing(s.log, j, |s.log|, p.addr, s.filter.value) {
      var j :| 0 <= j < |s.log| && Standing(s.log, j, |s.log|, p.addr, s.filter.value);
      StandingIsResponse(s.log, j, p.addr, s.filter.value);
    }
  }

  lemma {:induction false} StandingIsResponse(log: seq<Entry>, j: nat, addr: Addr, f: Filter)
    requires j < |log| && Standing(log, j, |log|, addr, f)
    ensures log[j].Responded? && log[j].responder == addr
  {
  }

  ghost predicate Decides(s: Scan, p: Advert) {
    && (p.kind == AdvInd || p.kind == AdvDirectInd)
    && (s.candidate == Some(p.addr) || (s.filter.Some? && Matches(s.filter.value, p.addr, p.data)))
  }

  lemma {:induction false} AdvertConnects(s: Scan, p: Advert)
    requires Decides(s, p)
    ensures var s' := OnAdvert(s, p);
            && s'.log == s.log + [Advertised(p)] + [Connecting(p.addr)]
            && s'.connectPending && s'.connectTarget == Some(p.addr) && s'.phase == s.phase && !s'.scanning
            && s'.peer == s.peer
  {
    hide Matches;
  }

  lemma {:induction false} AdvertPasses(s: Scan, p: Advert)
    requires !Decides(s, p)
    ensures var s' := OnAdvert(s, p);
            && s'.log == s.log + (if p.kind == OtherPdu then [] else [Advertised(p)])
            && s'.connectPending == s.connectPending && s'.phase == s.phase && s'.scanning == s.scanning
            && s'.scanReqPending == (s.scanReqPending || (s.active && (p.kind == AdvInd || p.kind == AdvScanInd)))
            && s'.peer == s.peer
  {
    hide Matches;
  }

  /**
   * In every run, an advertisement heard while listening is followed at once by the decision to connect to its
   * sender exactly if it is connectable and either matches the filter in force or comes from the peer whose
   * qualifying scan response still stands. When the radio has switched off, the request is on the air; or an
   * active scanner asks a scannable advertiser that was not decided on; or it has finished.
   */
  lemma {:induction false} ConnectsExactlyToMatches(active: bool, actions: seq<Action>, n: nat)
    requires n + 1 < |actions| && actions[n].DoReceive? && actions[n + 1].DoDisabled?
    requires Listening(Run(Start(active), actions, n), WaitRx)
    ensures var log := Run(Start(active), actions, n).scan.log;
            var s := Run(Start(active), actions, n + 1).scan;
            var off := Run(Start(active), actions, n + 2).scan;
            var p := actions[n].advert;
            var decides := (p.kind == AdvInd || p.kind == AdvDirectInd) && Entitled(log, p);
            && s.log == log + (if p.kind == OtherPdu then [] else [Advertised(p)])
                        + (if decides then [Connecting(p.addr)] else [])
            && off.log == s.log
            && (decides ==> !s.scanning && off.phase == WaitConnectTx && off.connectTarget == Some(p.addr))
            && (!decides ==>
                  && s.scanning == Run(Start(active), actions, n).scan.scanning
                  && off.phase == if active && (p.kind == AdvInd || p.kind == AdvScanInd) then WaitScanReqTx else Idle)
  {
    var w := Run(Start(active), actions, n);
    RunExact(active, actions, n);
    StaysActive(active, actions, n);
    assert Run(Start(active), actions, n + 1) == Act(w, actions[n]);
    assert Run(Start(active), actions, n + 2) == Act(Act(w, actions[n]), DoDisabled);
    hide Run;
    assert CandidateExact(w.scan) && w.scan.filter == InForce(w.scan.log, |w.scan.log|) by { InvTarget(w.scan); }
    assert !w.scan.scanReqPending && !w.scan.connectPending && w.scan.peer.None?;
    hide Exact;
    hide CandidateExact;
    hide Entitled;
    hide OnAdvert;
    hide Matches;
    var p := actions[n].advert;
    CandidateIsEntitled(w.scan, p);
    if Decides(w.scan, p) {
      AdvertConnects(w.scan, p);
    } else {
      AdvertPasses(w.scan, p);
    }
  }

  lemma {:induction false} StaysActive(active: bool, actions: seq<Action>, n: nat)
    requires n <= |actions|
    ensures Run(Start(active), actions, n).scan.active == active
  {
    if n > 0 {
      StaysActive(active, actions, n - 1);
      hide Matches;
      hide Parse;
      hide Acceptable;
      EffectKeepsActive(Run(Start(active), actions, n - 1), actions[n - 1]);
      hide Effect;
    }
  }

  lemma {:induction false} EffectKeepsActive(w: World, a: Action)
    ensures Effect(w, a).active == w.scan.active
  {
    hide Acceptable;
    hide Receives;
    hide OnAdvert;
    hide OnScanRsp;
    match a
    case DoReceive(p) => ReceptionKeepsActive(w.scan, p, p.addr, []);
    case DoReceiveRsp(from, data) => ReceptionKeepsActive(w.scan, Advert(OtherPdu, from, []), from, data);
    case _ =>
  }

  lemma {:induction false} ReceptionKeepsActive(s: Scan, p: Advert, from: Addr, data: seq<byte>)
    ensures OnAdvert(s, p).active == s.active && OnScanRsp(s, from, data).active == s.active
  {
    hide Matches;
  }

  /** A scan response heard while listening for one is noted exactly if it comes from the last advertiser heard. */
  lemma {:induction false} NotesExactlyTheResponse(active: bool, actions: seq<Action>, n: nat)
    requires n < |actions| && actions[n].DoReceiveRsp?
    requires Listening(Run(Start(active), actions, n), WaitScanRsp)
    ensures var log := Run(Start(active), actions, n).scan.log;
            var a := actions[n];
            && LastAdvert(log, |log|).Some?
            && Run(Start(active), actions, n + 1).scan.log
               == log + (if LastAdvert(log, |log|).value.addr == a.from then [Responded(a.from, a.data)] else [])
  {
    var w := Run(Start(active), actions, n);
    RunExact(active, actions, n);
    assert Run(Start(active), actions, n + 1) == Act(w, actions[n]);
    hide Run;
    hide Matches;
    assert TargetSound(w.scan) && Awaits(w.scan) by { InvTarget(w.scan); }
    hide Exact;
    hide LastAdvert;
  }

  // ---- from a scan response to a link ------------------------------------------------------------------

  /** Hearing a, asking it, hearing its response, and hearing it again. */
  function AskAndConnect(f: Filter, a: Addr, first: seq<byte>, response: seq<byte>, again: seq<byte>): seq<Action> {
    [DoSetFilter(f), DoStart, DoReceive(Advert(AdvInd, a, first)), DoDisabled, DoDisabled,
     DoReceiveRsp(a, response), DoDisabled, DoTimer, DoReceive(Advert(AdvInd, a, again)), DoDisabled, DoDisabled]
  }

  lemma {:induction false} HearsFirst(f: Filter, a: Addr, first: seq<byte>)
    requires Acceptable(f) && !Matches(f, a, first)
    ensures var w2 := Act(Act(Start(true), DoSetFilter(f)), DoStart);
            var w := Act(w2, DoReceive(Advert(AdvInd, a, first)));
            && w.scan.peer.None? && w.scan.phase == WaitRx && w.scan.scanReqPending && !w.scan.connectPending
            && w.scan.target == Some(a) && w.scan.targetConnectable && w.scan.filter == Some(f) && w.scan.scanning
  {
    hide Matches;
    hide Acceptable;
    assert Listening(Act(Act(Start(true), DoSetFilter(f)), DoStart), WaitRx);
  }

  lemma {:induction false} AsksFor(f: Filter, a: Addr, first: seq<byte>, response: seq<byte>, again: seq<byte>)
    requires Acceptable(f) && !Matches(f, a, first)
    ensures var w := Run(Start(true), AskAndConnect(f, a, first, response, again), 5);
            && Listening(w, WaitScanRsp) && w.scan.target == Some(a) && w.scan.targetConnectable
            && w.scan.filter == Some(f) && w.scan.scanning && !w.scan.connectPending
  {
    HearsFirst(f, a, first);
    hide Matches;
    hide Acceptable;
    hide SetFilter;
    hide StartScanning;
    hide OnAdvert;
    var actions := AskAndConnect(f, a, first, response, again);
    assert Run(Start(true), actions, 1) == Act(Start(true), DoSetFilter(f));
    assert Run(Start(true), actions, 2) == Act(Run(Start(true), actions, 1), DoStart);
    assert Run(Start(true), actions, 3) == Act(Run(Start(true), actions, 2), actions[2]);
    assert Run(Start(true), actions, 4) == Act(Run(Start(true), actions, 3), DoDisabled);
    assert Run(Start(true), actions, 5) == Act(Run(Start(true), actions, 4), DoDisabled);
  }

  lemma {:induction false} Remembers(w: World, f: Filter, a: Addr, response: seq<byte>)
    requires Listening(w, WaitScanRsp) && w.scan.target == Some(a) && w.scan.targetConnectable
    requires w.scan.filter == Some(f) && w.scan.scanning && !w.scan.connectPending && Matches(f, a, response)
    ensures var v := Act(Act(Act(w, DoReceiveRsp(a, response)), DoDisabled), DoTimer);
            Listening(v, WaitRx) && v.scan.candidate == Some(a) && !v.scan.connectPending
  {
    hide Matches;
    assert Act(w, DoReceiveRsp(a, response)).scan.candidate == Some(a);
  }

  lemma {:induction false} Connects(w: World, a: Addr, again: seq<byte>)
    requires Listening(w, WaitRx) && w.scan.candidate == Some(a)
    ensures Act(Act(Act(w, DoReceive(Advert(AdvInd, a, again))), DoDisabled), DoDisabled).scan.peer == Some(a)
  {
    hide Matches;
    var v := Act(w, DoReceive(Advert(AdvInd, a, again)));
    assert v.scan.connectPending && v.scan.phase == WaitRx && v.scan.connectTarget == Some(a);
  }

  /** A peer that matches only in its scan response is asked for it and connected to when heard again. */
  lemma {:induction false} ResponseLeadsToLink(
    f: Filter, a: Addr, first: seq<byte>, response: seq<byte>, again: seq<byte>)
    requires Acceptable(f) && !Matches(f, a, first) && Matches(f, a, response)
    ensures Run(Start(true), AskAndConnect(f, a, first, response, again), 11).scan.peer == Some(a)
  {
    hide Matches;
    hide Acceptable;
    hide Act;
    AsksFor(f, a, first, response, again);
    var actions := AskAndConnect(f, a, first, response, again);
    Remembers(Run(Start(true), actions, 5), f, a, response);
    assert Run(Start(true), actions, 6) == Act(Run(Start(true), actions, 5), actions[5]);
    assert Run(Start(true), actions, 7) == Act(Run(Start(true), actions, 6), DoDisabled);
    assert Run(Start(true), actions, 8) == Act(Run(Start(true), actions, 7), DoTimer);
    Connects(Run(Start(true), actions, 8), a, again);
    assert Run(Start(true), actions, 9) == Act(Run(Start(true), actions, 8), actions[8]);
    assert Run(Start(true), actions, 10) == Act(Run(Start(true), actions, 9), DoDisabled);
    assert Run(Start(true), actions, 11) == Act(Run(Start(true), actions, 10), DoDisabled);
  }

  // ---- starting and stopping ---------------------------------------------------------------------------

  /** What can open the receiver again. */
  predicate Starts(a: Action) { a.DoStart? || a.DoStartConnecting? || a.DoConnect? }

  lemma {:induction false} StaysStopped(w: World, a: Action)
    requires w.scan.phase == Idle && !w.scan.scanning && !Starts(a)
    ensures var s := Act(w, a).scan; s.phase == Idle && !s.scanning && s.peer == w.scan.peer
    ensures forall i :: |w.scan.log| <= i < |Act(w, a).scan.log| ==>
      Act(w, a).scan.log[i].FilterSet? || Act(w, a).scan.log[i].Stopped?
  {
    hide OnAdvert;
    hide OnScanRsp;
    hide Acceptable;
  }

  /** Once stopped, whatever else happens, nothing is heard or decided until it is started again. */
  lemma {:induction false} StopsForGood(w: World, actions: seq<Action>, n: nat)
    requires n <= |actions| && forall i :: 0 <= i < n ==> !Starts(actions[i])
    ensures var v := Act(w, DoStop);
            var s := Run(v, actions, n).scan;
            && s.phase == Idle && !s.scanning && s.peer == w.scan.peer && v.scan.log <= s.log
            && forall i :: |v.scan.log| <= i < |s.log| ==> s.log[i].FilterSet? || s.log[i].Stopped?
  {
    if n == 0 {
      assert Act(w, DoStop).scan.phase == Idle && !Act(w, DoStop).scan.scanning;
    } else {
      StopsForGood(w, actions, n - 1);
      hide Act;
      LogGrows(Run(Act(w, DoStop), actions, n - 1), actions[n - 1]);
      StaysStopped(Run(Act(w, DoStop), actions, n - 1), actions[n - 1]);
    }
  }

  /**
   * Without a link, a resting scanner listens as soon as it is started, to connect only if there is a filter,
   * and at each interval while it scans; a window that passes quietly ends what it was waiting for.
   */
  lemma {:induction false} ListensWhenStarted(w: World, quiet: bool)
    requires w.scan.peer.None?
    ensures w.scan.phase == Idle ==>
      && (!w.scan.scanning ==> Act(w, DoStart).scan.phase == WaitRx && Act(w, DoStart).scan.scanning)
      && (!w.scan.scanning ==> (Act(w, DoStartConnecting).scan.phase == WaitRx <==> w.scan.filter.Some?))
      && (Act(w, DoTimer).scan.phase == WaitRx <==> w.scan.scanning)
    ensures w.scan.phase != Idle ==>
      Act(w, DoStart).scan.phase == Act(w, DoStartConnecting).scan.phase == Act(w, DoTimer).scan.phase == w.scan.phase
    ensures Act(w, DoTimeout(quiet)).scan.phase
         == if w.scan.scanning && (w.scan.phase == WaitRx || w.scan.phase == WaitScanRsp) && quiet then Idle else w.scan.phase
    ensures Act(w, DoTimeout(quiet)).scan.scanning == w.scan.scanning
  {
  }

  /** Connecting to an address installs a filter for it and starts, unless there is a link. */
  lemma {:induction false} ConnectsTo(w: World, addr: Addr)
    ensures var s := Act(w, DoConnect(addr)).scan;
            && s.filter == Some(Filter(Some(addr), None, None, None))
            && s.log == w.scan.log + [FilterSet(s.filter)]
            && (w.scan.peer.None? && !w.scan.scanning && w.scan.phase == Idle ==> s.phase == WaitRx && s.scanning)
  {
  }

  // ---- filters -----------------------------------------------------------------------------------------

  /** A filter is installed exactly if it asks for something, a name of 1 to 31 octets and no UUID of 0. */
  lemma {:induction false} InstallsExactly(w: World, f: Filter)
    ensures var usable := && (f.addr.Some? || f.name.Some? || f.uuid16.Some? || f.uuid128.Some?)
                          && (f.name.Some? ==> 1 <= |f.name.value| <= 31) && f.uuid16 != Some(0);
            Act(w, DoSetFilter(f)).scan
            == if usable then w.scan.(filter := Some(f), candidate := None, log := w.scan.log + [FilterSet(Some(f))])
               else w.scan
  {
  }

  /** Some structure of the data names the sender so. */
  ghost predicate Names(data: seq<byte>, name: seq<byte>) {
    exists s :: s in Parse(data) && (s.kind == 0x08 || s.kind == 0x09) && s.value == name
  }

  /** Some list of 16-bit UUIDs in the data has this one as its k-th entry. */
  ghost predicate Lists16(data: seq<byte>, short: u16) {
    exists s, k: nat :: s in Parse(data) && (s.kind == 0x02 || s.kind == 0x03) && |s.value| % 2 == 0
                        && Entry16(s.value, k, short)
  }

  predicate Entry16(list: seq<byte>, k: nat, short: u16) { 2 * k + 2 <= |list| && U16Decode(list[2 * k..]) == short }

  ghost predicate Lists128(data: seq<byte>, uuid: seq<byte>) {
    exists s, k: nat :: s in Parse(data) && (s.kind == 0x06 || s.kind == 0x07) && |s.value| % 16 == 0
                        && Entry128(s.value, k, uuid)
  }

  predicate Entry128(list: seq<byte>, k: nat, uuid: seq<byte>) {
    16 * k + 16 <= |list| && list[16 * k..16 * k + 16] == uuid
  }

  lemma {:induction false} ListEntries16(list: seq<byte>, short: u16)
    ensures ListHas(list, U16Encode(short)) <==> exists k: nat :: Entry16(list, k, short)
  {
    var uuid := U16Encode(short);
    if ListHas(list, uuid) {
      var i :| 0 <= i <= |list| - 2 && i % 2 == 0 && list[i..i + 2] == uuid;
      assert i == 2 * (i / 2);
      assert list[i..][0] == list[i..i + 2][0] && list[i..][1] == list[i..i + 2][1];
      assert Entry16(list, i / 2, short);
    }
    if exists k: nat :: Entry16(list, k, short) {
      var k: nat :| Entry16(list, k, short);
      var octets := list[2 * k..2 * k + 2];
      assert octets[0] == list[2 * k..][0] && octets[1] == list[2 * k..][1];
      EncodeDecode(octets);
      assert (2 * k) % 2 == 0 && list[2 * k..2 * k + |uuid|] == uuid;
    }
  }

  lemma {:induction false} ListEntries128(list: seq<byte>, uuid: uuid128)
    ensures ListHas(list, uuid) <==> exists k: nat :: Entry128(list, k, uuid)
  {
    if ListHas(list, uuid) {
      var i :| 0 <= i <= |list| - 16 && i % 16 == 0 && list[i..i + 16] == uuid;
      assert i == 16 * (i / 16);
      assert Entry128(list, i / 16, uuid);
    }
    if exists k: nat :: Entry128(list, k, uuid) {
      var k: nat :| Entry128(list, k, uuid);
      assert (16 * k) % 16 == 0 && list[16 * k..16 * k + |uuid|] == uuid;
    }
  }

  lemma {:induction false} Has16(data: seq<byte>, short: u16)
    ensures HasUuid(Parse(data), INCOMPLETE_UUID16, COMPLETE_UUID16, U16Encode(short)) <==> Lists16(data, short)
  {
    hide ListHas;
    hide U16Encode;
    hide Parse;
    hide Entry16;
    if HasUuid(Parse(data), INCOMPLETE_UUID16, COMPLETE_UUID16, U16Encode(short)) {
      var s :| s in Parse(data) && IsListWith(s, INCOMPLETE_UUID16, COMPLETE_UUID16, U16Encode(short));
      ListEntries16(s.value, short);
    }
    if Lists16(data, short) {
      var s, k: nat :| s in Parse(data) && (s.kind == 0x02 || s.kind == 0x03) && |s.value| % 2 == 0 && Entry16(s.value, k, short);
      ListEntries16(s.value, short);
      assert IsListWith(s, INCOMPLETE_UUID16, COMPLETE_UUID16, U16Encode(short));
    }
  }

  lemma {:induction false} Has128(data: seq<byte>, uuid: uuid128)
    ensures HasUuid(Parse(data), INCOMPLETE_UUID128, COMPLETE_UUID128, uuid) <==> Lists128(data, uuid)
  {
    hide ListHas;
    hide Parse;
    hide Entry128;
    if HasUuid(Parse(data), INCOMPLETE_UUID128, COMPLETE_UUID128, uuid) {
      var s :| s in Parse(data) && IsListWith(s, INCOMPLETE_UUID128, COMPLETE_UUID128, uuid);
      ListEntries128(s.value, uuid);
    }
    if Lists128(data, uuid) {
      var s, k: nat :| s in Parse(data) && (s.kind == 0x06 || s.kind == 0x07) && |s.value| % 16 == 0 && Entry128(s.value, k, uuid);
      ListEntries128(s.value, uuid);
      assert IsListWith(s, INCOMPLETE_UUID128, COMPLETE_UUID128, uuid);
    }
  }

  lemma {:induction false} HasNamed(data: seq<byte>, name: seq<byte>)
    ensures HasName(Parse(data), name) <==> name != [] && Names(data, name)
  {
    hide Parse;
    if name != [] && Names(data, name) {
      var s :| s in Parse(data) && (s.kind == 0x08 || s.kind == 0x09) && s.value == name;
      assert IsName(s, name);
    }
  }

  /** What a filter asks for, in the octets of the advertising data: all of it, and nothing else. */
  lemma {:induction false} FilterAsks(f: Filter, addr: Addr, data: seq<byte>)
    ensures Matches(f, addr, data) <==>
      && (f.addr.Some? ==> addr == f.addr.value)
      && (f.name.Some? ==> f.name.value != [] && Names(data, f.name.value))
      && (f.uuid16.Some? ==> Lists16(data, f.uuid16.value))
      && (f.uuid128.Some? ==> Lists128(data, f.uuid128.value))
  {
    hide HasName;
    hide HasUuid;
    hide Names;
    hide Lists16;
    hide Lists128;
    hide Parse;
    hide U16Encode;
    if f.name.Some? { HasNamed(data, f.name.value); }
    if f.uuid16.Some? { Has16(data, f.uuid16.value); }
    if f.uuid128.Some? { Has128(data, f.uuid128.value); }
  }

  // ---- from an advertiser's configuration to a scanner's filter ----------------------------------------

  /** The filter that asks for a service UUID as it is on the air. */
  function UuidFilter(u: Uuid, base: Option<uuid128>): Filter
    requires IsValid(u, base)
  {
    var octets := Uuids.Encode(u, base);
    if |octets| == 2 then Filter(None, None, Some(U16Decode(octets)), None) else Filter(None, None, None, Some(octets))
  }

  /** A service UUID that fitted into the advertising data matches a scanner's filter for it. */
  lemma {:induction false} AdvertisedUuidMatches(wanted: seq<Structure>, u: Uuid, h: Host, addr: Addr)
    requires IsValid(u, h.base) && UuidStructures(u, h)[0] in Fitted(wanted, 0)
    ensures Matches(UuidFilter(u, h.base), addr, AdData.Encode(Fitted(wanted, 0)))
  {
    AdvertisedRoundTrip(wanted);
    var uuid := Uuids.Encode(u, h.base);
    var s := UuidStructures(u, h)[0];
    assert s.value[0..0 + |uuid|] == uuid && 0 % |uuid| == 0;
    assert ListHas(s.value, uuid);
    if |uuid| == 2 {
      EncodeDecode(uuid);
      assert IsListWith(s, INCOMPLETE_UUID16, COMPLETE_UUID16, U16Encode(U16Decode(uuid)));
    } else {
      assert IsListWith(s, INCOMPLETE_UUID128, COMPLETE_UUID128, uuid);
    }
  }

  /** And so does the name, in full or as short as it was asked to be. */
  lemma {:induction false} AdvertisedNameMatches(wanted: seq<Structure>, style: NameStyle, h: Host, addr: Addr)
    requires NameStructures(style, h) != [] && NameStructures(style, h)[0] in Fitted(wanted, 0)
    ensures var shown := if style.Short? && style.length < |h.name| then h.name[..style.length] else h.name;
            Matches(Filter(None, Some(shown), None, None), addr, AdData.Encode(Fitted(wanted, 0)))
  {
    AdvertisedRoundTrip(wanted);
    var shown := if style.Short? && style.length < |h.name| then h.name[..style.length] else h.name;
    assert IsName(NameStructures(style, h)[0], shown);
  }
}
