/**
 * Supervision: in every run of events and parameter updates, the link is given up exactly when the misses
 * in a row add up to the timeout.
 */
module Supervision {
  import opened Bytes
  import opened ClockSpec
  import opened ClockResults

  /** A connection event, or a CONN_UPDATE_IND announced by the central or received by the peripheral. */
  datatype Happening = Elapse(heard: Heard) | Announce(pdu: seq<byte>)

  function Happens(s: Clock, h: Happening): Clock {
    match h
    case Elapse(heard) => Event(s, heard)
    case Announce(pdu) => if s.connected then ScheduleConnUpdate(s, pdu) else s
  }

  function Run(s: Clock, run: seq<Happening>, n: nat): Clock
    requires n <= |run|
  {
    if n == 0 then s else Happens(Run(s, run, n - 1), run[n - 1])
  }

  // ---- what the announcements alone determine ----------------------------------------------------------

  /** Parameters in force, the update ahead and the number of the next event, whatever is heard. */
  datatype Plan = Plan(params: Params, update: Option<Update>, counter: u16)

  function PlanOf(s: Clock): Plan { Plan(s.params, s.update, s.counter) }

  predicate Due(p: Plan) { p.update.Some? && p.update.value.instant == p.counter }

  /** The parameters the timer of the next event goes by. */
  function InForce(p: Plan): Params { if Due(p) then p.update.value.params else p.params }

  function Planned(p: Plan, h: Happening): Plan {
    match h
    case Elapse(_) => Plan(InForce(p), if Due(p) then None else p.update, Succ(p.counter))
    case Announce(pdu) =>
      if |pdu| < 12 then p
      else
        var params := ParamsOf(U16Decode(pdu[4..]), U16Decode(pdu[6..]), U16Decode(pdu[8..]));
        p.(update := if params.intervalUs == 0 || params.timeoutMs == 0 then None
                     else Some(Update(U16Decode(pdu[10..]), UnitsToUs(U16Decode(pdu[2..])), params)))
  }

  function PlanAfter(s: Clock, run: seq<Happening>, n: nat): Plan
    requires n <= |run|
  {
    if n == 0 then PlanOf(s) else Planned(PlanAfter(s, run, n - 1), run[n - 1])
  }

  // ---- what is heard ------------------------------------------------------------------------------------

  /** Something, perhaps damaged, has been heard in the first n happenings. */
  predicate StartedBy(s: Clock, run: seq<Happening>, n: nat)
    requires n <= |run|
  {
    s.started || exists k :: 0 <= k < n && run[k].Elapse? && !run[k].heard.Silence?
  }

  /** The last event, if there was one, brought a valid packet. */
  predicate HeardLast(s: Clock, run: seq<Happening>, n: nat)
    requires n <= |run|
  {
    if n == 0 then s.rxSeen
    else if run[n - 1].Elapse? then run[n - 1].heard.Good?
    else HeardLast(s, run, n - 1)
  }

  /**
   * Misses in a row as the timers have found them in the first n happenings: a timer misses when the event
   * before it brought no valid packet; a valid packet ends the row, and the instant of an update begins a
   * new one.
   */
  function Misses(s: Clock, run: seq<Happening>, n: nat): nat
    requires n <= |run|
  {
    if n == 0 then s.missed
    else if run[n - 1].Announce? then Misses(s, run, n - 1)
    else if !StartedBy(s, run, n - 1) || HeardLast(s, run, n - 1) then 0
    else (if Due(PlanAfter(s, run, n - 1)) then 0 else Misses(s, run, n - 1)) + 1
  }

  /** The n-th happening is an event whose timer finds a miss, and the row amounts to the timeout in force. */
  predicate Expired(s: Clock, run: seq<Happening>, n: nat)
    requires n < |run|
  {
    && run[n].Elapse? && Misses(s, run, n + 1) > 0
    && Misses(s, run, n + 1) * InForce(PlanAfter(s, run, n)).intervalMs >= InForce(PlanAfter(s, run, n)).timeoutMs
  }

  // ---- one happening -------------------------------------------------------------------------------------

  /** Misses are counted only once something has been heard; below a full count unless each counts for 0 ms. */
  ghost predicate Counting(s: Clock) {
    && s.connected && (s.missed > 0 ==> s.started) && (s.rxSeen ==> s.started)
    && (s.params.intervalMs > 0 ==> s.missed < 0xFFFF)
  }

  /** What the clock e after n happenings knows of them. */
  ghost predicate Tracks(s: Clock, run: seq<Happening>, n: nat, e: Clock)
    requires n <= |run|
  {
    && Counting(e) && PlanOf(e) == PlanAfter(s, run, n)
    && e.missed == Misses(s, run, n) % COUNTS
    && (e.params.intervalMs > 0 ==> e.missed == Misses(s, run, n))
    && e.started == StartedBy(s, run, n) && e.rxSeen == HeardLast(s, run, n)
  }

  lemma {:induction false} Dead(s: Clock, h: Happening)
    requires !s.connected
    ensures Happens(s, h) == s
  {
  }

  lemma {:induction false} DueAtEvent(e: Clock)
    ensures AtEvent(e, e.counter).params == InForce(PlanOf(e))
    ensures AtEvent(e, e.counter).update == if Due(PlanOf(e)) then None else e.update
    ensures AtEvent(e, e.counter).missed == if Due(PlanOf(e)) then 0 else e.missed
  {
  }

  // The timer's count is the number of misses in a row, unless it has wrapped at an interval of 0 ms.
  lemma {:induction false} CountIsMisses(s: Clock, run: seq<Happening>, n: nat, e: Clock)
    requires n < |run| && run[n].Elapse? && Tracks(s, run, n, e)
    ensures TimedOut(AtEvent(e, e.counter)) <==> Expired(s, run, n)
    ensures Counted(AtEvent(e, e.counter)) == Misses(s, run, n + 1) % COUNTS
    ensures InForce(PlanAfter(s, run, n)).intervalMs > 0 ==> Misses(s, run, n + 1) < COUNTS
  {
    DueAtEvent(e);
    MissesStep(s, run, n);
    hide Misses;
    hide StartedBy;
    hide HeardLast;
    hide PlanAfter;
    hide InForce;
    hide Due;
    var k := AtEvent(e, e.counter);
    assert k.started == e.started && k.rxSeen == e.rxSeen && (!Due(PlanOf(e)) ==> k.params == e.params);
    hide AtEvent;
    var m := Misses(s, run, n + 1);
    assert k.params.intervalMs == 0 ==> m * k.params.intervalMs == 0 && Succ(k.missed) * k.params.intervalMs == 0;
  }

  lemma {:induction false} MissesStep(s: Clock, run: seq<Happening>, n: nat)
    requires n < |run| && run[n].Elapse?
    ensures Misses(s, run, n + 1)
         == if !StartedBy(s, run, n) || HeardLast(s, run, n) then 0
            else (if Due(PlanAfter(s, run, n)) then 0 else Misses(s, run, n)) + 1
  {
  }

  lemma {:induction false} NoWrap(misses: nat, interval: nat, limit: u16)
    requires interval > 0 && (misses > 0 ==> misses * interval < limit)
    ensures misses < 0xFFFF
  {
    if misses > 0 {
      assert misses * interval >= misses;
    }
  }

  lemma {:induction false} EventCounts(e: Clock, h: Heard)
    requires e.connected
    ensures Event(e, h).connected <==> !TimedOut(AtEvent(e, e.counter))
    ensures Event(e, h).connected ==>
      && Event(e, h).missed == Counted(AtEvent(e, e.counter))
      && Event(e, h).started == (e.started || !h.Silence?) && Event(e, h).rxSeen == h.Good?
      && PlanOf(Event(e, h)) == Planned(PlanOf(e), Elapse(h))
  {
    DueAtEvent(e);
    if Timer(e).connected {
      EventFacts(e, h);
    }
  }

  lemma {:induction false} StartedGrows(s: Clock, run: seq<Happening>, n: nat)
    requires n < |run|
    ensures StartedBy(s, run, n + 1) <==> StartedBy(s, run, n) || (run[n].Elapse? && !run[n].heard.Silence?)
  {
  }

  lemma {:induction false} ElapsedStep(s: Clock, run: seq<Happening>, n: nat, e: Clock)
    requires n < |run| && run[n].Elapse? && Tracks(s, run, n, e)
    ensures Happens(e, run[n]).connected <==> !Expired(s, run, n)
    ensures Happens(e, run[n]).connected ==> Tracks(s, run, n + 1, Happens(e, run[n]))
  {
    CountIsMisses(s, run, n, e);
    EventCounts(e, run[n].heard);
    StartedGrows(s, run, n);
    if Happens(e, run[n]).connected && InForce(PlanAfter(s, run, n)).intervalMs > 0 {
      NoWrap(Misses(s, run, n + 1), InForce(PlanAfter(s, run, n)).intervalMs, InForce(PlanAfter(s, run, n)).timeoutMs);
    }
  }

  lemma {:induction false} AnnouncedStep(s: Clock, run: seq<Happening>, n: nat, e: Clock)
    requires n < |run| && run[n].Announce? && Tracks(s, run, n, e)
    ensures Tracks(s, run, n + 1, Happens(e, run[n]))
  {
    StartedGrows(s, run, n);
  }

  /**
   * In every run of events and announced updates, however many, whatever is heard: the link is still up
   * after n happenings exactly when at no event among them the misses in a row amounted to the timeout in
   * force; until then the 16-bit counter is the true count, or what is left of it modulo 2^16 while the
   * interval in force is 0 ms in sixteen bits.
   */
  lemma {:induction false} SupervisionExact(s: Clock, run: seq<Happening>, n: nat)
    requires Counting(s) && n <= |run|
    ensures Run(s, run, n).connected <==> forall k :: 0 <= k < n ==> !Expired(s, run, k)
    ensures Run(s, run, n).connected ==> Tracks(s, run, n, Run(s, run, n))
  {
    hide Tracks;
    hide Expired;
    hide Happens;
    hide Counting;
    if n == 0 {
      TracksAtFirst(s, run);
      return;
    }
    SupervisionExact(s, run, n - 1);
    var e := Run(s, run, n - 1);
    if !e.connected {
      Dead(e, run[n - 1]);
    } else if run[n - 1].Elapse? {
      ElapsedStep(s, run, n - 1, e);
    } else {
      AnnouncedStep(s, run, n - 1, e);
      AnnouncingExpiresNothing(s, run, n - 1);
      AnnouncingKeepsLink(e, run[n - 1]);
    }
  }

  lemma {:induction false} TracksAtFirst(s: Clock, run: seq<Happening>)
    requires Counting(s)
    ensures s.connected && Tracks(s, run, 0, s)
  {
  }

  lemma {:induction false} AnnouncingExpiresNothing(s: Clock, run: seq<Happening>, n: nat)
    requires n < |run| && run[n].Announce?
    ensures !Expired(s, run, n)
  {
  }

  lemma {:induction false} AnnouncingKeepsLink(e: Clock, h: Happening)
    requires h.Announce?
    ensures Happens(e, h).connected == e.connected
  {
  }

  /** The clock of a link just made. */
  function NewLink(role: Role, interval: u16, latency: u16, timeout: u16, delay: u32): Clock {
    Clock(role, true, ParamsOf(interval, latency, timeout), None, Phys(PHY_1M, PHY_1M), None,
          false, false, 0, 0, delay)
  }

  /** In every run from a new link, whatever was asked for in its CONNECT_REQ. */
  lemma {:induction false} SupervisedFromTheStart(role: Role, interval: u16, latency: u16, timeout: u16, delay: u32,
                                                  run: seq<Happening>, n: nat)
    requires n <= |run|
    ensures var s := NewLink(role, interval, latency, timeout, delay);
            var e := Run(s, run, n);
            && (e.connected <==> forall k :: 0 <= k < n ==> !Expired(s, run, k))
            && (e.connected ==> e.missed == Misses(s, run, n) % COUNTS)
            && (e.connected && e.params.intervalMs > 0 ==> e.missed == Misses(s, run, n))
  {
    SupervisionExact(NewLink(role, interval, latency, timeout, delay), run, n);
  }
}
