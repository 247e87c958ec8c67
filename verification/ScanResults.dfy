/**
 * Whom the central connects to, over every run: only peers that have satisfied the filter in force; and what
 * replacing or clearing the filter revokes.
 */
module ScanResults {
  import opened Bytes
  import opened AdData
  import opened ScanSpec

  /** The filter in force before the n-th entry. */
  function InForce(log: seq<Entry>, n: nat): Option<Filter>
    requires n <= |log|
  {
    if n == 0 then None else if log[n - 1].FilterSet? then log[n - 1].filter else InForce(log, n - 1)
  }

  /** The last advertisement heard before the n-th entry. */
  function LastAdvert(log: seq<Entry>, n: nat): Option<Advert>
    requires n <= |log|
  {
    if n == 0 then None else if log[n - 1].Advertised? then Some(log[n - 1].advert) else LastAdvert(log, n - 1)
  }

  /** Whom the last decision before the n-th entry was for. */
  function LastDecision(log: seq<Entry>, n: nat): Option<Addr>
    requires n <= |log|
  {
    if n == 0 then None else if log[n - 1].Connecting? then Some(log[n - 1].to) else LastDecision(log, n - 1)
  }

  predicate Solicits(last: Option<Advert>, addr: Addr) {
    last.Some? && last.value.addr == addr && Connectable(last.value.kind) && Scannable(last.value.kind)
  }

  /**
   * The j-th entry is a scan response by which addr satisfied f; the advertisement it answers, the last one
   * before it, was that peer's and connectable; and no filter was set or cleared between it and the k-th.
   */
  ghost predicate Qualified(log: seq<Entry>, j: nat, k: nat, addr: Addr, f: Filter)
    requires j < k <= |log|
  {
    && log[j].Responded? && log[j].responder == addr && Matches(f, addr, log[j].data)
    && (forall i :: j < i < k ==> !log[i].FilterSet?)
    && Solicits(LastAdvert(log, j), addr)
  }

  /**
   * A decision to connect follows a connectable advertisement of the same address, and that address has
   * satisfied the filter in force, in the advertisement itself or in an earlier scan response.
   */
  ghost predicate Justified(log: seq<Entry>, k: nat)
    requires k < |log|
  {
    log[k].Connecting? ==>
      && k > 0 && log[k - 1].Advertised? && log[k - 1].advert.addr == log[k].to && Connectable(log[k - 1].advert.kind)
      && InForce(log, k).Some?
      && var f := InForce(log, k).value;
         || Matches(f, log[k].to, log[k - 1].advert.data)
         || exists j :: 0 <= j < k && Qualified(log, j, k, log[k].to, f)
  }

  ghost predicate AllJustified(log: seq<Entry>) {
    forall k :: 0 <= k < |log| ==> Justified(log, k)
  }

  // ---- a growing log ----------------------------------------------------------------------------------

  lemma {:induction false} LatestStay(log: seq<Entry>, e: Entry, n: nat)
    requires n <= |log|
    ensures InForce(log + [e], n) == InForce(log, n)
    ensures LastAdvert(log + [e], n) == LastAdvert(log, n)
    ensures LastDecision(log + [e], n) == LastDecision(log, n)
  {
    if n > 0 {
      LatestStay(log, e, n - 1);
    }
  }

  lemma {:induction false} QualifiedStays(log: seq<Entry>, e: Entry, j: nat, k: nat, addr: Addr, f: Filter)
    requires j < k <= |log| && Qualified(log, j, k, addr, f)
    ensures Qualified(log + [e], j, k, addr, f)
    ensures k == |log| && !e.FilterSet? ==> Qualified(log + [e], j, k + 1, addr, f)
  {
    hide Matches;
    hide Solicits;
    LatestStay(log, e, j);
  }

  lemma {:induction false} JustifiedStays(log: seq<Entry>, e: Entry, k: nat)
    requires k < |log| && Justified(log, k)
    ensures Justified(log + [e], k)
  {
    hide Matches;
    hide Qualified;
    if log[k].Connecting? {
      LatestStay(log, e, k);
      var f := InForce(log, k).value;
      if !Matches(f, log[k].to, log[k - 1].advert.data) {
        var j :| 0 <= j < k && Qualified(log, j, k, log[k].to, f);
        QualifiedStays(log, e, j, k, log[k].to, f);
      }
    }
  }

  lemma {:induction false} AllJustifiedGrows(log: seq<Entry>, e: Entry)
    requires AllJustified(log) && Justified(log + [e], |log|)
    ensures AllJustified(log + [e])
  {
    hide Justified;
    forall k | 0 <= k < |log + [e]| ensures Justified(log + [e], k) {
      if k < |log| {
        JustifiedStays(log, e, k);
      }
    }
  }

  // ---- the invariant -----------------------------------------------------------------------------------

  ghost predicate CandidateSound(s: Scan) {
    s.candidate.Some? ==>
      s.filter.Some? && exists j :: 0 <= j < |s.log| && Qualified(s.log, j, |s.log|, s.candidate.value, s.filter.value)
  }

  /** The response awaited is one to the last advertisement heard. */
  predicate TargetSound(s: Scan) {
    s.target.Some? ==>
      && LastAdvert(s.log, |s.log|).Some? && LastAdvert(s.log, |s.log|).value.addr == s.target.value
      && Scannable(LastAdvert(s.log, |s.log|).value.kind)
      && s.targetConnectable == Connectable(LastAdvert(s.log, |s.log|).value.kind)
  }

  ghost predicate Inv(s: Scan) {
    && s.filter == InForce(s.log, |s.log|) && AllJustified(s.log)
    && CandidateSound(s) && TargetSound(s)
    && s.connectTarget == LastDecision(s.log, |s.log|)
  }

  /** Where a request may be waiting, and where none can. */
  predicate Tidy(w: World) {
    var s := w.scan;
    && (s.phase == Idle || (s.phase == WaitRx && !w.heard) ==> s.target.None?)
    && (s.connectPending ==> s.phase == WaitRx && w.heard)
    && (s.connectPending || s.phase == WaitConnectTx ==> s.connectTarget.Some?)
    && (s.peer.Some? ==> s.phase == Idle && !s.scanning && s.peer == s.connectTarget)
  }

  // An entry that decides nothing; an advertisement is heard while none is being asked about.
  lemma {:induction false} InvNotes(s: Scan, e: Entry)
    requires Inv(s) && !e.Connecting? && !e.FilterSet? && (e.Advertised? ==> s.target.None?)
    ensures Inv(s.(log := s.log + [e]))
  {
    var s' := s.(log := s.log + [e]);
    hide Qualified;
    LatestStay(s.log, e, |s.log|);
    AllJustifiedGrows(s.log, e);
    if s.candidate.Some? {
      var j :| 0 <= j < |s.log| && Qualified(s.log, j, |s.log|, s.candidate.value, s.filter.value);
      QualifiedStays(s.log, e, j, |s.log|, s.candidate.value, s.filter.value);
    }
  }

  lemma {:induction false} InvFilterSet(s: Scan, f: Option<Filter>)
    requires Inv(s)
    ensures Inv(s.(filter := f, candidate := None, log := s.log + [FilterSet(f)]))
  {
    LatestStay(s.log, FilterSet(f), |s.log|);
    AllJustifiedGrows(s.log, FilterSet(f));
  }

  // The decision about an advertisement just logged, by its own data or by the candidate.
  lemma {:induction false} InvDecide(s: Scan, p: Advert)
    requires Inv(s) && s.target.None? && Connectable(p.kind) && s.filter.Some?
    requires Matches(s.filter.value, p.addr, p.data) || s.candidate == Some(p.addr)
    ensures Inv(Decide(s.(log := s.log + [Advertised(p)]), p.addr))
  {
    InvNotes(s, Advertised(p));
    var s' := s.(log := s.log + [Advertised(p)]);
    var log := s'.log + [Connecting(p.addr)];
    hide Matches;
    LatestStay(s'.log, Connecting(p.addr), |s'.log|);
    assert Justified(log, |s'.log|) by {
      if !Matches(s.filter.value, p.addr, p.data) {
        var j :| 0 <= j < |s'.log| && Qualified(s'.log, j, |s'.log|, p.addr, s.filter.value);
        QualifiedStays(s'.log, Connecting(p.addr), j, |s'.log|, p.addr, s.filter.value);
      }
    }
    hide Qualified;
    hide Justified;
    AllJustifiedGrows(s'.log, Connecting(p.addr));
  }

  lemma {:induction false} InvAdvert(s: Scan, p: Advert)
    requires Inv(s) && s.target.None?
    ensures Inv(OnAdvert(s, p))
  {
    hide Matches;
    if p.kind != OtherPdu {
      if Connectable(p.kind) && (s.candidate == Some(p.addr) || (s.filter.Some? && Matches(s.filter.value, p.addr, p.data))) {
        InvDecide(s, p);
      } else {
        InvNotes(s, Advertised(p));
        hide Qualified;
      }
    }
  }

  lemma {:induction false} InvScanRsp(s: Scan, from: Addr, data: seq<byte>)
    requires Inv(s)
    ensures Inv(OnScanRsp(s, from, data))
  {
    hide Matches;
    if s.target == Some(from) {
      InvNotes(s, Responded(from, data));
      var s' := s.(log := s.log + [Responded(from, data)]);
      if s.targetConnectable && s.filter.Some? && Matches(s.filter.value, from, data) {
        LatestStay(s.log, Responded(from, data), |s.log|);
        assert Qualified(s'.log, |s.log|, |s'.log|, from, s.filter.value);
      }
    }
  }

  // A step that records nothing may only forget.
  lemma {:induction false} InvQuiet(s: Scan, s': Scan)
    requires Inv(s) && s'.log == s.log && s'.filter == s.filter && s'.connectTarget == s.connectTarget
    requires s'.candidate == s.candidate || s'.candidate == None
    requires (s'.target == s.target && s'.targetConnectable == s.targetConnectable) || s'.target == None
    ensures Inv(s')
  {
    hide AllJustified;
    hide Qualified;
  }

  lemma {:induction false} InvSetFilter(s: Scan, f: Filter)
    requires Inv(s)
    ensures Inv(SetFilter(s, f))
  {
    InvFilterSet(s, Some(f));
    hide Inv;
  }

  lemma {:induction false} InvStart(s: Scan)
    requires Inv(s)
    ensures Inv(StartScanning(s)) && Inv(StartConnecting(s)) && Inv(ScanTimer(s))
  {
    hide Inv;
    InvQuiet(s, ScanTimer(s));
    InvQuiet(s, StartScanning(s));
  }

  lemma {:induction false} InvStop(s: Scan)
    requires Inv(s)
    ensures Inv(StopScanning(s))
  {
    hide Inv;
    InvNotes(s, Stopped);
    InvQuiet(s.(log := s.log + [Stopped]), StopScanning(s));
  }

  lemma {:induction false} InvRadio(s: Scan, quiet: bool)
    requires Inv(s)
    ensures Inv(OnDisabled(s)) && Inv(WindowTimeout(s, quiet))
  {
    hide Inv;
    InvQuiet(s, OnDisabled(s));
    InvQuiet(s, WindowTimeout(s, quiet));
  }

  lemma {:induction false} EffectSound(w: World, a: Action)
    requires Inv(w.scan) && Tidy(w)
    ensures Inv(Effect(w, a))
  {
    hide Inv;
    hide OnAdvert;
    hide OnScanRsp;
    hide OnDisabled;
    hide WindowTimeout;
    hide SetFilter;
    hide StartScanning;
    hide StartConnecting;
    hide StopScanning;
    hide ScanTimer;
    var s := w.scan;
    match a
    case DoSetFilter(f) => InvSetFilter(s, f);
    case DoConnect(addr) =>
      InvSetFilter(s, FilterFor(addr));
      InvStart(SetFilter(s, FilterFor(addr)));
    case DoClearFilter => InvFilterSet(s, None);
    case DoReceive(advert) => if Receives(w, a) { InvAdvert(s, advert); }
    case DoReceiveRsp(from, data) => InvScanRsp(s, from, data);
    case DoTimeout(quiet) => InvRadio(s, quiet);
    case DoDisabled => InvRadio(s, false);
    case DoStop => InvStop(s);
    case _ => InvStart(s);
  }

  // A step without a reception.
  predicate TidyTo(w: World, s: Scan) { Tidy(World(s, w.heard && s.phase == w.scan.phase)) }

  lemma {:induction false} ReceptionTidy(w: World, p: Advert, from: Addr, data: seq<byte>)
    requires Tidy(w)
    ensures Listening(w, WaitRx) ==> Tidy(World(OnAdvert(w.scan, p), true))
    ensures Listening(w, WaitScanRsp) ==> Tidy(World(OnScanRsp(w.scan, from, data), true))
  {
    hide Matches;
  }

  lemma {:induction false} FilterTidy(w: World, f: Filter)
    requires Tidy(w)
    ensures TidyTo(w, SetFilter(w.scan, f)) && TidyTo(w, ClearFilter(w.scan)) && TidyTo(w, StopScanning(w.scan))
  {
    hide Acceptable;
  }

  lemma {:induction false} StartTidy(w: World)
    requires Tidy(w)
    ensures TidyTo(w, StartScanning(w.scan)) && TidyTo(w, StartConnecting(w.scan)) && TidyTo(w, ScanTimer(w.scan))
  {
  }

  lemma {:induction false} RadioTidy(w: World, quiet: bool)
    requires Tidy(w)
    ensures w.scan.peer.None? ==> TidyTo(w, OnDisabled(w.scan))
    ensures TidyTo(w, WindowTimeout(w.scan, quiet))
  {
  }

  lemma {:induction false} ActTidy(w: World, a: Action)
    requires Tidy(w)
    ensures Tidy(Act(w, a))
  {
    hide OnAdvert;
    hide OnScanRsp;
    hide ClearFilter;
    hide StartScanning;
    hide StartConnecting;
    hide StopScanning;
    hide ScanTimer;
    hide OnDisabled;
    hide WindowTimeout;
    hide Acceptable;
    var s := w.scan;
    match a
    case DoReceive(p) => ReceptionTidy(w, p, p.addr, []);
    case DoReceiveRsp(from, data) => ReceptionTidy(w, Advert(OtherPdu, from, []), from, data);
    case DoTimeout(quiet) => RadioTidy(w, quiet);
    case DoDisabled => RadioTidy(w, false);
    case DoConnect(addr) =>
      var f := FilterFor(addr);
      FilterTidy(w, f);
      StartTidy(World(SetFilter(s, f), w.heard));
    case DoSetFilter(f) => FilterTidy(w, f);
    case DoClearFilter => FilterTidy(w, Filter(None, None, None, None));
    case DoStop => FilterTidy(w, Filter(None, None, None, None));
    case _ => StartTidy(w);
  }

  /** Every call and radio event keeps the invariant. */
  lemma {:induction false} ActSound(w: World, a: Action)
    requires Inv(w.scan) && Tidy(w)
    ensures Inv(Act(w, a).scan) && Tidy(Act(w, a))
  {
    hide Inv;
    hide Tidy;
    hide Effect;
    EffectSound(w, a);
    ActTidy(w, a);
  }

  lemma {:induction false} RunSound(active: bool, actions: seq<Action>, n: nat)
    requires n <= |actions|
    ensures Inv(Run(Start(active), actions, n).scan) && Tidy(Run(Start(active), actions, n))
  {
    if n > 0 {
      RunSound(active, actions, n - 1);
      hide Act;
      hide Inv;
      ActSound(Run(Start(active), actions, n - 1), actions[n - 1]);
    }
  }

  predicate IsLastDecision(log: seq<Entry>, k: nat)
    requires k < |log|
  {
    log[k].Connecting? && forall i :: k < i < |log| ==> !log[i].Connecting?
  }

  lemma {:induction false} LastDecisionAt(log: seq<Entry>, n: nat) returns (k: nat)
    requires n <= |log| && LastDecision(log, n).Some?
    ensures k < n && log[k] == Connecting(LastDecision(log, n).value)
    ensures forall i :: k < i < n ==> !log[i].Connecting?
  {
    if log[n - 1].Connecting? {
      k := n - 1;
    } else {
      k := LastDecisionAt(log, n - 1);
    }
  }

  /**
   * In every run, whatever is installed and received: each decision to connect is justified by the filter
   * in force when it was made, and a connection is to the peer last decided on.
   */
  lemma {:induction false} ConnectsOnlyToMatches(active: bool, actions: seq<Action>, n: nat)
    requires n <= |actions|
    ensures var s := Run(Start(active), actions, n).scan;
            && AllJustified(s.log)
            && (s.peer.Some? ==> exists k :: 0 <= k < |s.log| && IsLastDecision(s.log, k)
                                             && s.peer == Some(s.log[k].to) && Justified(s.log, k))
            && (s.peer.Some? ==> !s.scanning && s.phase == Idle)
  {
    RunSound(active, actions, n);
    hide Run;
    hide Justified;
    var s := Run(Start(active), actions, n).scan;
    if s.peer.Some? {
      var k := LastDecisionAt(s.log, |s.log|);
      assert IsLastDecision(s.log, k);
    }
  }

  // ---- a new filter revokes ------------------------------------------------------------------------------

  lemma {:induction false} InForceSince(log: seq<Entry>, q: nat, k: nat)
    requires q < k <= |log| && log[q].FilterSet?
    requires forall i :: q < i < k ==> !log[i].FilterSet?
    ensures InForce(log, k) == log[q].filter
  {
    if k > q + 1 {
      InForceSince(log, q, k - 1);
    }
  }

  /** The j-th entry is something addr sent that satisfies f. */
  ghost predicate Satisfies(log: seq<Entry>, j: nat, addr: Addr, f: Filter)
    requires j < |log|
  {
    || (log[j].Advertised? && log[j].advert.addr == addr && Matches(f, addr, log[j].advert.data))
    || (log[j].Responded? && log[j].responder == addr && Matches(f, addr, log[j].data))
  }

  lemma {:induction false} JustifiedSince(log: seq<Entry>, q: nat, k: nat)
    requires q < k < |log| && log[q].FilterSet? && log[k].Connecting? && Justified(log, k)
    requires forall i :: q < i < k ==> !log[i].FilterSet?
    ensures log[q].filter.Some?
    ensures exists j :: q < j < k && Satisfies(log, j, log[k].to, log[q].filter.value)
  {
    InForceSince(log, q, k);
    hide Matches;
    var f := log[q].filter.value;
    if Matches(f, log[k].to, log[k - 1].advert.data) {
      assert Satisfies(log, k - 1, log[k].to, f);
    } else {
      var j :| 0 <= j < k && Qualified(log, j, k, log[k].to, f);
      assert Satisfies(log, j, log[k].to, f);
    }
  }

  /**
   * In every run, a decision made after a filter was installed rests on something its peer sent since then;
   * and after the filter was cleared there is none until another is installed.
   */
  lemma {:induction false} NewFilterRevokes(active: bool, actions: seq<Action>, n: nat, q: nat, k: nat)
    requires n <= |actions| && q < k < |Run(Start(active), actions, n).scan.log|
    requires var log := Run(Start(active), actions, n).scan.log;
             && log[q].FilterSet? && log[k].Connecting? && forall i :: q < i < k ==> !log[i].FilterSet?
    ensures var log := Run(Start(active), actions, n).scan.log;
            && log[q].filter.Some?
            && exists j :: q < j < k && Satisfies(log, j, log[k].to, log[q].filter.value)
  {
    ConnectsOnlyToMatches(active, actions, n);
    hide Run;
    hide Justified;
    JustifiedSince(Run(Start(active), actions, n).scan.log, q, k);
  }

  // ---- and what it does not: a request already decided on ----------------------------------------------

  /** How many times the radio has yet to switch off until a request decided on has been sent. */
  function Owed(s: Scan): nat {
    if s.phase == WaitConnectTx then 1 else if s.connectPending then 2 else 0
  }

  /** A stop, or a window closing on the receiver: what makes the scanner forget a request. */
  predicate Interrupts(s: Scan, a: Action) {
    a.DoStop? || (a.DoTimeout? && a.quiet && s.scanning && s.phase == WaitRx)
  }

  function Disablings(actions: seq<Action>, n: nat): nat
    requires n <= |actions|
  {
    if n == 0 then 0 else Disablings(actions, n - 1) + if actions[n - 1].DoDisabled? then 1 else 0
  }

  ghost predicate Undisturbed(w: World, actions: seq<Action>, n: nat)
    requires n <= |actions|
  {
    forall i :: 0 <= i < n ==> !Interrupts(Run(w, actions, i).scan, actions[i])
  }

  ghost predicate SentBy(w: World, actions: seq<Action>, m: nat)
    requires m <= |actions|
  {
    Disablings(actions, m) == Owed(w.scan) && Undisturbed(w, actions, m)
  }

  /** The radio switches off as often as is owed before anything interrupts. */
  ghost predicate GoesOut(w: World, actions: seq<Action>, n: nat)
    requires n <= |actions|
  {
    exists m :: 0 <= m <= n && SentBy(w, actions, m)
  }

  /** From the n-th entry on, no decision to connect. */
  predicate NoDecision(log: seq<Entry>, n: nat) {
    forall i :: n <= i < |log| ==> !log[i].Connecting?
  }

  // ---- one step ----------------------------------------------------------------------------------------

  lemma {:induction false} StartsLogNothing(s: Scan)
    ensures StartScanning(s).log == s.log && StartConnecting(s).log == s.log
  {
  }

  lemma {:induction false} AdvertOnlyLogs(s: Scan, p: Advert)
    ensures s.log <= OnAdvert(s, p).log
  {
    hide Matches;
    var noted := s.log + [Advertised(p)];
    assert s.log <= noted && noted <= noted + [Connecting(p.addr)];
  }

  lemma {:induction false} ResponseOnlyLogs(s: Scan, from: Addr, data: seq<byte>)
    ensures s.log <= OnScanRsp(s, from, data).log
  {
    hide Matches;
  }

  lemma {:induction false} LogGrows(w: World, a: Action)
    ensures w.scan.log <= Act(w, a).scan.log
  {
    hide OnAdvert;
    hide OnScanRsp;
    hide StartConnecting;
    hide StartScanning;
    var s := w.scan;
    match a
    case DoConnect(addr) => StartsLogNothing(SetFilter(s, FilterFor(addr)));
    case DoStart => StartsLogNothing(s);
    case DoStartConnecting => StartsLogNothing(s);
    case DoReceive(p) => AdvertOnlyLogs(s, p);
    case DoReceiveRsp(from, data) => ResponseOnlyLogs(s, from, data);
    case _ =>
  }

  /** Nobody new is decided on, and no request appears. */
  predicate Undecided(s: Scan, s': Scan) {
    && s'.connectTarget == s.connectTarget
    && (s.peer.None? && Owed(s) == 0 ==> s'.peer.None? && Owed(s') == 0)
  }

  lemma {:induction false} AdvertUndecided(s: Scan, p: Advert)
    requires NoDecision(OnAdvert(s, p).log, |s.log|)
    ensures Undecided(s, OnAdvert(s, p))
  {
    hide Matches;
    var log := s.log + [Advertised(p)] + [Connecting(p.addr)];
    assert log[|s.log| + 1].Connecting?;
  }

  lemma {:induction false} ResponseUndecided(s: Scan, from: Addr, data: seq<byte>)
    ensures Undecided(s, OnScanRsp(s, from, data))
  {
    hide Matches;
  }

  lemma {:induction false} CallsUndecided(s: Scan, f: Filter)
    ensures Undecided(s, SetFilter(s, f)) && Undecided(s, ClearFilter(s)) && Undecided(s, StopScanning(s))
    ensures Undecided(s, StartScanning(s)) && Undecided(s, StartConnecting(s)) && Undecided(s, ScanTimer(s))
  {
    hide Acceptable;
  }

  lemma {:induction false} RadioUndecided(s: Scan, quiet: bool)
    ensures Undecided(s, OnDisabled(s)) && Undecided(s, WindowTimeout(s, quiet))
  {
  }

  lemma {:induction false} UndecidedStep(w: World, a: Action)
    requires NoDecision(Act(w, a).scan.log, |w.scan.log|)
    ensures Undecided(w.scan, Act(w, a).scan)
  {
    hide OnAdvert;
    hide OnScanRsp;
    hide SetFilter;
    hide ClearFilter;
    hide StartScanning;
    hide StartConnecting;
    hide StopScanning;
    hide ScanTimer;
    hide OnDisabled;
    hide WindowTimeout;
    var s := w.scan;
    match a
    case DoReceive(p) => if Receives(w, a) { AdvertUndecided(s, p); }
    case DoReceiveRsp(from, data) => ResponseUndecided(s, from, data);
    case DoTimeout(quiet) => RadioUndecided(s, quiet);
    case DoDisabled => RadioUndecided(s, false);
    case DoSetFilter(f) => CallsUndecided(s, f);
    case DoConnect(addr) =>
      CallsUndecided(s, FilterFor(addr));
      CallsUndecided(SetFilter(s, FilterFor(addr)), FilterFor(addr));
    case _ => CallsUndecided(s, Filter(None, None, None, None));
  }

  lemma {:induction false} SomethingOwed(w: World, a: Action)
    requires Tidy(w) && w.scan.peer.None? && Owed(w.scan) > 0
    ensures var s := Act(w, a).scan;
            if Interrupts(w.scan, a) then s.peer.None? && Owed(s) == 0
            else if a.DoDisabled? then
              Owed(s) == Owed(w.scan) - 1 && s.peer == if Owed(w.scan) == 1 then w.scan.connectTarget else None
            else s.peer.None? && Owed(s) == Owed(w.scan)
  {
    hide Matches;
  }

  lemma {:induction false} LinkKept(w: World, a: Action)
    requires Tidy(w) && w.scan.peer.Some?
    ensures Act(w, a).scan.peer == w.scan.peer
  {
    hide Matches;
  }

  // ---- a run -------------------------------------------------------------------------------------------

  /** Where the run stands after n actions. */
  ghost predicate Stands(w: World, actions: seq<Action>, n: nat)
    requires n <= |actions|
  {
    var s := Run(w, actions, n).scan;
    && Tidy(Run(w, actions, n)) && s.connectTarget == w.scan.connectTarget
    && (if Owed(w.scan) > 0 && GoesOut(w, actions, n) then s.peer.Some?
        else
          && s.peer.None?
          && Owed(s) == (if Owed(w.scan) > 0 && Undisturbed(w, actions, n) then Owed(w.scan) - Disablings(actions, n) else 0)
          && (Owed(w.scan) > 0 && Undisturbed(w, actions, n) ==> Disablings(actions, n) < Owed(w.scan)))
  }

  lemma {:induction false} UndisturbedStep(w: World, actions: seq<Action>, n: nat)
    requires n < |actions|
    ensures Undisturbed(w, actions, n + 1)
      <==> Undisturbed(w, actions, n) && !Interrupts(Run(w, actions, n).scan, actions[n])
  {
    hide Run;
    hide Interrupts;
  }

  lemma {:induction false} GoesOutStep(w: World, actions: seq<Action>, n: nat)
    requires n < |actions|
    ensures GoesOut(w, actions, n + 1) <==> GoesOut(w, actions, n) || SentBy(w, actions, n + 1)
  {
    hide SentBy;
    if GoesOut(w, actions, n + 1) {
      var m :| 0 <= m <= n + 1 && SentBy(w, actions, m);
    }
    if GoesOut(w, actions, n) {
      var m :| 0 <= m <= n && SentBy(w, actions, m);
    }
  }

  // The step from where the run stands, with what makes up the standing kept apart.
  lemma {:induction false} StandsAfter(w: World, actions: seq<Action>, n: nat, v: World, v': World)
    requires n < |actions| && Stands(w, actions, n) && v == Run(w, actions, n) && v' == Run(w, actions, n + 1)
    requires Tidy(v') && v'.scan.connectTarget == v.scan.connectTarget
    requires Undisturbed(w, actions, n + 1) <==> Undisturbed(w, actions, n) && !Interrupts(v.scan, actions[n])
    requires GoesOut(w, actions, n + 1) <==> GoesOut(w, actions, n) || SentBy(w, actions, n + 1)
    requires v.scan.peer.Some? ==> v'.scan.peer == v.scan.peer
    requires v.scan.peer.None? && Owed(v.scan) == 0 ==> v'.scan.peer.None? && Owed(v'.scan) == 0
    requires v.scan.peer.None? && Owed(v.scan) > 0 ==>
      if Interrupts(v.scan, actions[n]) then v'.scan.peer.None? && Owed(v'.scan) == 0
      else if actions[n].DoDisabled? then
        && Owed(v'.scan) == Owed(v.scan) - 1
        && v'.scan.peer == if Owed(v.scan) == 1 then v.scan.connectTarget else None
      else v'.scan.peer.None? && Owed(v'.scan) == Owed(v.scan)
    requires Owed(v.scan) == 1 ==> v.scan.connectTarget.Some?
    ensures Stands(w, actions, n + 1)
  {
    hide Run;
    hide Act;
    hide Interrupts;
    hide Undisturbed;
    hide GoesOut;
    hide Tidy;
    hide Owed;
  }

  lemma {:induction false} StandsStep(w: World, actions: seq<Action>, n: nat)
    requires n < |actions| && Stands(w, actions, n)
    requires NoDecision(Run(w, actions, n + 1).scan.log, |Run(w, actions, n).scan.log|)
    ensures Stands(w, actions, n + 1)
  {
    hide Act;
    hide Interrupts;
    hide Undisturbed;
    hide GoesOut;
    hide NoDecision;
    hide SentBy;
    hide Disablings;
    var v := Run(w, actions, n);
    var a := actions[n];
    assert Run(w, actions, n + 1) == Act(v, a);
    hide Run;
    ActTidy(v, a);
    UndecidedStep(v, a);
    UndisturbedStep(w, actions, n);
    GoesOutStep(w, actions, n);
    if v.scan.peer.Some? {
      LinkKept(v, a);
    } else if Owed(v.scan) > 0 {
      SomethingOwed(v, a);
    }
    StandsAfter(w, actions, n, v, Act(v, a));
  }

  lemma {:induction false} StandsAtFirst(w: World, actions: seq<Action>)
    requires Tidy(w) && w.scan.peer.None?
    ensures Stands(w, actions, 0)
  {
    hide Tidy;
    hide Owed;
    assert Disablings(actions, 0) == 0 && Undisturbed(w, actions, 0);
    assert GoesOut(w, actions, 0) ==> SentBy(w, actions, 0);
  }

  lemma {:induction false} LogGrowsAt(w: World, actions: seq<Action>, n: nat)
    requires 0 < n <= |actions|
    ensures Run(w, actions, n - 1).scan.log <= Run(w, actions, n).scan.log
  {
    LogGrows(Run(w, actions, n - 1), actions[n - 1]);
    hide Act;
  }

  lemma {:induction false} StandsThroughout(w: World, actions: seq<Action>, n: nat)
    requires n <= |actions| && Tidy(w) && w.scan.peer.None?
    requires NoDecision(Run(w, actions, n).scan.log, |w.scan.log|)
    ensures Stands(w, actions, n)
    ensures w.scan.log <= Run(w, actions, n).scan.log
  {
    hide Stands;
    if n == 0 {
      StandsAtFirst(w, actions);
      return;
    }
    LogGrowsAt(w, actions, n);
    hide Run;
    StandsThroughout(w, actions, n - 1);
    StandsStep(w, actions, n - 1);
  }

  /** Installing a filter, clearing it, or asking to connect to an address. */
  predicate Revokes(a: Action) {
    a.DoClearFilter? || (a.DoSetFilter? && Acceptable(a.f)) || a.DoConnect?
  }

  lemma {:induction false} RevokingOwes(w: World, a: Action)
    requires Revokes(a) && w.scan.peer.None? && Tidy(w)
    ensures var s := Act(w, a).scan; s.peer.None? && s.connectTarget == w.scan.connectTarget && Owed(s) == Owed(w.scan)
  {
    hide Tidy;
    match a
    case DoClearFilter =>
    case DoSetFilter(f) =>
    case DoConnect(addr) =>
      var s := SetFilter(w.scan, FilterFor(addr));
      assert s.peer.None? && s.connectTarget == w.scan.connectTarget && Owed(s) == Owed(w.scan);
  }

  /**
   * After any run and a call that changes the filter: as long as nothing is decided afterwards, a link comes up
   * if and only if a request was already pending or on the air at the call, and the radio finished it before a
   * stop or a closing window; and it is a link to the peer chosen before the call.
   */
  lemma {:induction false} OnlyAPendingRequestGoesOut(
    active: bool, before: seq<Action>, call: Action, after: seq<Action>, n: nat)
    requires n <= |after| && Revokes(call)
    requires var w := Run(Start(active), before, |before|);
             && w.scan.peer.None?
             && NoDecision(Run(Act(w, call), after, n).scan.log, |Act(w, call).scan.log|)
    ensures var w := Run(Start(active), before, |before|);
            var s := Run(Act(w, call), after, n).scan;
            && (s.peer.Some? <==> (w.scan.connectPending || w.scan.phase == WaitConnectTx) && GoesOut(Act(w, call), after, n))
            && (s.peer.Some? ==> s.peer == w.scan.connectTarget)
  {
    var w := Run(Start(active), before, |before|);
    RunSound(active, before, |before|);
    ActTidy(w, call);
    RevokingOwes(w, call);
    hide Act;
    StandsThroughout(Act(w, call), after, n);
  }

  /** Deciding on a, and installing a filter for b before the radio has switched off, or after it has once. */
  function Decided(a: Addr): seq<Action> { [DoSetFilter(FilterFor(a)), DoStart, DoReceive(Advert(AdvInd, a, []))] }
  function BeforeSending(a: Addr, b: Addr): seq<Action> {
    Decided(a) + [DoSetFilter(FilterFor(b)), DoDisabled, DoDisabled]
  }
  function WhileSending(a: Addr, b: Addr): seq<Action> {
    Decided(a) + [DoDisabled, DoSetFilter(FilterFor(b)), DoDisabled]
  }

  lemma {:induction false} DecidesOn(a: Addr, actions: seq<Action>)
    requires 3 <= |actions| && actions[..3] == Decided(a)
    ensures var w := Run(Start(false), actions, 3);
            w.scan.peer.None? && w.scan.phase == WaitRx && w.scan.connectPending && w.scan.connectTarget == Some(a)
  {
    var p := Advert(AdvInd, a, []);
    assert actions[0] == actions[..3][0] && actions[1] == actions[..3][1] && actions[2] == actions[..3][2];
    var w1 := Act(Start(false), DoSetFilter(FilterFor(a)));
    var w2 := Act(w1, DoStart);
    assert Run(Start(false), actions, 1) == w1;
    assert Run(Start(false), actions, 2) == w2;
    assert Matches(FilterFor(a), a, []);
  }

  /** Both kinds occur: in each of these runs a link to a comes up although the filter asks for b. */
  lemma {:induction false} OldRequestGoesOut(a: Addr, b: Addr)
    ensures Run(Start(false), BeforeSending(a, b), 3).scan.connectPending
    ensures Run(Start(false), BeforeSending(a, b), 6).scan.peer == Some(a)
    ensures Run(Start(false), BeforeSending(a, b), 6).scan.filter == Some(FilterFor(b))
    ensures Run(Start(false), WhileSending(a, b), 4).scan.phase == WaitConnectTx
    ensures Run(Start(false), WhileSending(a, b), 6).scan.peer == Some(a)
    ensures Run(Start(false), WhileSending(a, b), 6).scan.filter == Some(FilterFor(b))
  {
    var x, y := BeforeSending(a, b), WhileSending(a, b);
    DecidesOn(a, x);
    DecidesOn(a, y);
    hide Decided;
    assert Run(Start(false), x, 4) == Act(Run(Start(false), x, 3), DoSetFilter(FilterFor(b)));
    assert Run(Start(false), x, 5) == Act(Run(Start(false), x, 4), DoDisabled);
    assert Run(Start(false), x, 6) == Act(Run(Start(false), x, 5), DoDisabled);
    assert Run(Start(false), y, 4) == Act(Run(Start(false), y, 3), DoDisabled);
    assert Run(Start(false), y, 5) == Act(Run(Start(false), y, 4), DoSetFilter(FilterFor(b)));
    assert Run(Start(false), y, 6) == Act(Run(Start(false), y, 5), DoDisabled);
  }
}
