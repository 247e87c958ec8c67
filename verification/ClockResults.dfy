/**
 * When events happen, when updates take effect and when the link is given up: results over whole runs of
 * connection events, whatever the radio hears in them.
 */
module ClockResults {
  import opened Bytes
  import opened ClockSpec

  // ---- counters modulo 2^16 ----------------------------------------------------------------------

  /** How many events from now the instant is: 0 means the very next event. */
  function Distance(instant: u16, counter: u16): (d: nat)
    ensures d < COUNTS && (counter + d) % COUNTS == instant
  {
    if instant >= counter then instant - counter else instant + COUNTS - counter
  }

  function CounterAfter(counter: u16, n: nat): u16 { (counter + n) % COUNTS }

  // A sum may be reduced early.
  lemma {:induction false} ReduceCount(x: nat, y: nat)
    ensures (x + y) % 0x1_0000 == (x % 0x1_0000 + y) % 0x1_0000
  {
    var r := x % 0x1_0000 + y;
    assert x + y == 0x1_0000 * (x / 0x1_0000 + r / 0x1_0000) + r % 0x1_0000;
  }

  lemma {:induction false} ReduceTick(x: nat, y: nat)
    ensures (x + y) % 0x1_0000_0000 == (x % 0x1_0000_0000 + y) % 0x1_0000_0000
  {
    var r := x % 0x1_0000_0000 + y;
    assert x + y == 0x1_0000_0000 * (x / 0x1_0000_0000 + r / 0x1_0000_0000) + r % 0x1_0000_0000;
  }

  lemma {:induction false} CounterStep(counter: u16, n: nat)
    ensures CounterAfter(counter, n + 1) == Succ(CounterAfter(counter, n))
    ensures Pred(Succ(counter)) == counter
  {
    ReduceCount(counter + n, 1);
  }

  // Before the instant has passed, the counter says exactly how far it is.
  lemma {:induction false} CounterHits(instant: u16, counter: u16, n: nat)
    requires n <= Distance(instant, counter)
    ensures CounterAfter(counter, n) == instant <==> n == Distance(instant, counter)
    ensures Succ(CounterAfter(counter, n)) == instant && n < Distance(instant, counter) <==> n + 1 == Distance(instant, counter)
  {
  }

  lemma {:induction false} AddTwice(tick: u32, a: nat, b: nat)
    ensures AddTicks(AddTicks(tick, a), b) == AddTicks(tick, a + b)
  {
    ReduceTick(tick + a, b);
  }

  // ---- the peripheral's second look at the clock ---------------------------------------------------

  /** The distance from the next event to the one after it. */
  function Step(s: Clock): nat {
    if s.update.Some? && Succ(s.counter) == s.update.value.instant then s.params.intervalUs + s.update.value.offsetUs
    else if s.update.Some? && s.counter == s.update.value.instant then s.update.value.params.intervalUs
    else s.params.intervalUs
  }

  /**
   * After the timer of an event, a packet moves the anchor of that event: the next event keeps its
   * distance from the anchor, window offset included, and no update is applied a second time.
   */
  lemma {:induction false} SecondCallAgrees(s: Clock, anchor: u32)
    requires s.connected && Timer(s).connected
    ensures Timer(s).tick == AddTicks(s.tick, Step(s))
    ensures Anchored(Timer(s), anchor)
         == Timer(s).(tick := if s.role.Central? then Timer(s).tick else AddTicks(anchor, Step(s)))
  {
    CounterStep(s.counter, 0);
    if s.update.Some? {
      AddTwice(s.tick, s.params.intervalUs, s.update.value.offsetUs);
      AddTwice(anchor, s.params.intervalUs, s.update.value.offsetUs);
    }
  }

  lemma {:induction false} EventFacts(s: Clock, h: Heard)
    requires Event(s, h).connected
    ensures s.connected && Timer(s).connected
    ensures Event(s, h).params == AtEvent(s, s.counter).params
    ensures Event(s, h).update == AtEvent(s, s.counter).update
    ensures Event(s, h).counter == Succ(s.counter) && Event(s, h).role == s.role
    ensures Event(s, h).tick == if h.Silence? || s.role.Central? then AddTicks(s.tick, Step(s)) else AddTicks(h.anchor, Step(s))
  {
    match h
    case Silence =>
      if s.connected { SecondCallAgrees(s, 0); }
    case Good(anchor) => SecondCallAgrees(s, anchor);
    case Bad(anchor) => SecondCallAgrees(s, anchor);
  }

  // ---- updates take effect at their instant ------------------------------------------------------------

  /** Whatever is heard, an update is in force after exactly the events up to and including its instant. */
  lemma {:induction false} UpdateTimeline(s: Clock, u: Update, heard: seq<Heard>, n: nat)
    requires s.connected && s.update == Some(u) && n <= |heard| && Events(s, heard, n).connected
    ensures var e := Events(s, heard, n);
            var d := Distance(u.instant, s.counter);
            && e.role == s.role && e.counter == CounterAfter(s.counter, n)
            && e.params == (if n <= d then s.params else u.params)
            && e.update == (if n <= d then Some(u) else None)
  {
    hide Event;
    if n == 0 {
      assert CounterAfter(s.counter, 0) == s.counter;
    } else {
      hide CounterAfter;
      hide Distance;
      EventFacts(Events(s, heard, n - 1), heard[n - 1]);
      UpdateTimeline(s, u, heard, n - 1);
      CounterStep(s.counter, n - 1);
      if n - 1 <= Distance(u.instant, s.counter) {
        CounterHits(u.instant, s.counter, n - 1);
      }
      return;
    }
  }

  lemma {:induction false} NoUpdateTimeline(s: Clock, heard: seq<Heard>, n: nat)
    requires s.connected && s.update == None && n <= |heard| && Events(s, heard, n).connected
    ensures var e := Events(s, heard, n);
            e.role == s.role && e.counter == CounterAfter(s.counter, n) && e.params == s.params && e.update == None
  {
    if n > 0 {
      EventFacts(Events(s, heard, n - 1), heard[n - 1]);
      NoUpdateTimeline(s, heard, n - 1);
      CounterStep(s.counter, n - 1);
      hide Event;
    }
  }

  /** Microseconds from now to the n-th event from now, with an update d events ahead. */
  function Elapsed(s: Clock, u: Update, d: nat, n: nat): nat {
    if n < d then n * s.params.intervalUs
    else d * s.params.intervalUs + (if d == 0 then 0 else u.offsetUs) + (n - d) * u.params.intervalUs
  }

  lemma {:induction false} ElapsedStep(s: Clock, u: Update, d: nat, n: nat)
    ensures Elapsed(s, u, d, n + 1) == Elapsed(s, u, d, n)
      + (if n + 1 < d then s.params.intervalUs
         else if n + 1 == d then s.params.intervalUs + u.offsetUs
         else u.params.intervalUs)
  {
    var old', new' := s.params.intervalUs, u.params.intervalUs;
    assert (n + 1) * old' == n * old' + old';
    if n >= d {
      assert (n + 1 - d) * new' == (n - d) * new' + new';
    }
  }

  lemma {:induction false} StepIsElapsed(s: Clock, u: Update, heard: seq<Heard>, n: nat)
    requires s.connected && s.update == Some(u) && n < |heard| && Events(s, heard, n).connected
    ensures Elapsed(s, u, Distance(u.instant, s.counter), n + 1)
         == Elapsed(s, u, Distance(u.instant, s.counter), n) + Step(Events(s, heard, n))
  {
    var d := Distance(u.instant, s.counter);
    UpdateTimeline(s, u, heard, n);
    ElapsedStep(s, u, d, n);
    hide Elapsed;
    hide Events;
    if n <= d {
      CounterHits(u.instant, s.counter, n);
    }
  }

  /** No event moves the anchor: a central never does, a peripheral only by what it hears. */
  predicate Unanchored(role: Role, heard: seq<Heard>, n: nat)
    requires n <= |heard|
  {
    role.Central? || forall k :: 0 <= k < n ==> heard[k].Silence?
  }

  lemma {:induction false} UnanchoredTick(s: Clock, heard: seq<Heard>, n: nat)
    requires n < |heard| && Unanchored(s.role, heard, n + 1)
    requires Events(s, heard, n).role == s.role && Events(s, heard, n + 1).connected
    ensures Events(s, heard, n).connected
    ensures Events(s, heard, n + 1).tick == AddTicks(Events(s, heard, n).tick, Step(Events(s, heard, n)))
  {
    EventFacts(Events(s, heard, n), heard[n]);
  }

  /**
   * Without re-anchoring, events are spaced by the old interval up to the instant, shifted there by the
   * window offset, and spaced by the new one from then on. Only an update learned in the last event
   * before its instant loses its offset.
   */
  lemma {:induction false} TickClosedForm(s: Clock, u: Update, heard: seq<Heard>, n: nat)
    requires s.connected && s.update == Some(u) && n <= |heard| && Unanchored(s.role, heard, n)
    requires Events(s, heard, n).connected
    ensures Events(s, heard, n).tick == AddTicks(s.tick, Elapsed(s, u, Distance(u.instant, s.counter), n))
  {
    hide Event;
    hide Step;
    hide AddTicks;
    if n == 0 {
      assert AddTicks(s.tick, 0) == s.tick by { TickZero(s.tick); }
    } else {
      hide Elapsed;
      EventFacts(Events(s, heard, n - 1), heard[n - 1]);
      UpdateTimeline(s, u, heard, n - 1);
      UnanchoredTick(s, heard, n - 1);
      TickClosedForm(s, u, heard, n - 1);
      StepIsElapsed(s, u, heard, n - 1);
      AddTwice(s.tick, Elapsed(s, u, Distance(u.instant, s.counter), n - 1), Step(Events(s, heard, n - 1)));
      return;
    }
  }

  lemma TickZero(tick: u32)
    ensures AddTicks(tick, 0) == tick
  {
  }

  // ---- both ends ------------------------------------------------------------------------------------

  lemma {:induction false} InstantIsAhead(counter: u16)
    ensures Distance(InstantFor(counter), counter) == INSTANT_OFFSET_EVENTS
  {
  }

  /** The receiver of the announcement schedules what its sender scheduled. */
  lemma {:induction false} ConnUpdateRoundTrip(s: Clock, offset: u16, interval: u16, latency: u16, timeout: u16,
                                               instant: u16)
    requires interval != 0 && TensToMs(timeout) != 0
    ensures ScheduleConnUpdate(s, ConnUpdateInd(offset, interval, latency, timeout, instant))
         == s.(update := Some(Update(instant, UnitsToUs(offset), ParamsOf(interval, latency, timeout))))
  {
    var pdu := ConnUpdateInd(offset, interval, latency, timeout, instant);
    hide U16Encode;
    assert pdu[2..][0] == U16Encode(offset)[0] && pdu[2..][1] == U16Encode(offset)[1];
    assert pdu[4..][0] == U16Encode(interval)[0] && pdu[4..][1] == U16Encode(interval)[1];
    assert pdu[6..][0] == U16Encode(latency)[0] && pdu[6..][1] == U16Encode(latency)[1];
    assert pdu[8..][0] == U16Encode(timeout)[0] && pdu[8..][1] == U16Encode(timeout)[1];
    assert pdu[10..][0] == U16Encode(instant)[0] && pdu[10..][1] == U16Encode(instant)[1];
  }

  lemma {:induction false} PhyUpdateRoundTrip(s: Clock, phy: byte, instant: u16)
    requires Supported(phy)
    ensures SchedulePhyUpdate(s, PhyUpdateInd(Phys(phy, phy), instant))
         == s.(phyUpdate := Some(PhyUpdate(instant, Phys(phy, phy))))
  {
    var pdu := PhyUpdateInd(Phys(phy, phy), instant);
    assert pdu[3..][0] == U16Encode(instant)[0] && pdu[3..][1] == U16Encode(instant)[1];
  }

  lemma {:induction false} LearnedLate(counter: u16, m: nat)
    requires m < COUNTS
    ensures Distance(InstantFor(counter), CounterAfter(counter, m))
         == if m <= INSTANT_OFFSET_EVENTS then INSTANT_OFFSET_EVENTS - m else COUNTS + INSTANT_OFFSET_EVENTS - m
  {
  }

  /** A peripheral that processes an announcement between the events before and after. */
  function HearsOfUpdate(p: Clock, pdu: seq<byte>, before: seq<Heard>, after: seq<Heard>): Clock {
    Events(ScheduleConnUpdate(Events(p, before, |before|), pdu), after, |after|)
  }

  /**
   * As long as both ends stay connected, an update the peripheral processes within the six events before
   * the instant is in force on both ends in the same event, whatever either end hears; one processed later
   * leaves them with different parameters.
   */
  lemma {:induction false} ConnUpdateTogether(c: Clock, p: Clock, interval: u16, latency: u16, timeout: u16,
                                              heard: seq<Heard>, before: seq<Heard>, after: seq<Heard>)
    requires c.connected && p.connected && c.counter == p.counter && c.params == p.params
    requires c.update == None && p.update == None && interval != 0 && TensToMs(timeout) != 0
    requires |heard| == |before| + |after| < COUNTS
    ensures var pdu := ConnUpdateInd(0, interval, latency, timeout, InstantFor(c.counter));
            var c' := Events(ScheduleConnUpdate(c, pdu), heard, |heard|);
            var p' := HearsOfUpdate(p, pdu, before, after);
            c'.connected && Events(p, before, |before|).connected && p'.connected ==>
              && c'.counter == p'.counter
              && c'.params == (if |heard| <= INSTANT_OFFSET_EVENTS then c.params else ParamsOf(interval, latency, timeout))
              && (|before| <= INSTANT_OFFSET_EVENTS ==> c'.params == p'.params)
              && (|before| > INSTANT_OFFSET_EVENTS && c.params != ParamsOf(interval, latency, timeout) ==>
                    c'.params != p'.params)
  {
    var instant := InstantFor(c.counter);
    var u := Update(instant, 0, ParamsOf(interval, latency, timeout));
    var m := Events(p, before, |before|);
    ConnUpdateRoundTrip(c, 0, interval, latency, timeout, instant);
    ConnUpdateRoundTrip(m, 0, interval, latency, timeout, instant);
    InstantIsAhead(c.counter);
    LearnedLate(c.counter, |before|);
    hide ConnUpdateInd;
    hide ScheduleConnUpdate;
    hide InstantFor;
    hide Distance;
    hide ParamsOf;
    hide Events;
    var c' := Events(c.(update := Some(u)), heard, |heard|);
    var p' := Events(m.(update := Some(u)), after, |after|);
    if c'.connected && m.connected && p'.connected {
      NoUpdateTimeline(p, before, |before|);
      UpdateTimeline(c.(update := Some(u)), u, heard, |heard|);
      UpdateTimeline(m.(update := Some(u)), u, after, |after|);
      CounterAdds(c.counter, |before|, |after|);
    }
  }

  lemma {:induction false} CounterAdds(counter: u16, m: nat, n: nat)
    ensures CounterAfter(CounterAfter(counter, m), n) == CounterAfter(counter, m + n)
  {
    ReduceCount(counter + m, n);
  }

  lemma {:induction false} PhyOfEvent(s: Clock, h: Heard)
    requires Event(s, h).connected
    ensures var due := s.phyUpdate.Some? && s.phyUpdate.value.instant == s.counter;
            && Event(s, h).phys == (if due then s.phyUpdate.value.phys else s.phys)
            && Event(s, h).phyUpdate == (if due then None else s.phyUpdate)
            && Event(s, h).counter == Succ(s.counter)
  {
    EventFacts(s, h);
    hide NextTick;
    hide TimedOut;
    hide Counted;
  }

  lemma {:induction false} PhyTimeline(s: Clock, u: PhyUpdate, heard: seq<Heard>, n: nat)
    requires s.connected && s.phyUpdate == Some(u) && n <= |heard| && Events(s, heard, n).connected
    ensures var e := Events(s, heard, n);
            var d := Distance(u.instant, s.counter);
            && e.counter == CounterAfter(s.counter, n)
            && e.phys == (if n <= d then s.phys else u.phys)
            && e.phyUpdate == (if n <= d then Some(u) else None)
  {
    hide Event;
    if n == 0 {
      assert CounterAfter(s.counter, 0) == s.counter;
    } else {
      hide CounterAfter;
      hide Distance;
      EventFacts(Events(s, heard, n - 1), heard[n - 1]);
      PhyOfEvent(Events(s, heard, n - 1), heard[n - 1]);
      PhyTimeline(s, u, heard, n - 1);
      CounterStep(s.counter, n - 1);
      if n - 1 <= Distance(u.instant, s.counter) {
        CounterHits(u.instant, s.counter, n - 1);
      }
      return;
    }
  }

  lemma {:induction false} NoPhyTimeline(s: Clock, heard: seq<Heard>, n: nat)
    requires s.connected && s.phyUpdate == None && n <= |heard| && Events(s, heard, n).connected
    ensures Events(s, heard, n).counter == CounterAfter(s.counter, n)
    ensures Events(s, heard, n).phys == s.phys && Events(s, heard, n).phyUpdate == None
  {
    hide Event;
    if n > 0 {
      EventFacts(Events(s, heard, n - 1), heard[n - 1]);
      PhyOfEvent(Events(s, heard, n - 1), heard[n - 1]);
      NoPhyTimeline(s, heard, n - 1);
      CounterStep(s.counter, n - 1);
    }
  }

  function HearsOfPhyUpdate(p: Clock, pdu: seq<byte>, before: seq<Heard>, after: seq<Heard>): Clock {
    Events(SchedulePhyUpdate(Events(p, before, |before|), pdu), after, |after|)
  }

  /** The same for a change of PHY: both ends use the old one up to the instant and the new one from it on. */
  lemma {:induction false} PhyUpdateTogether(c: Clock, p: Clock, phy: byte,
                                             heard: seq<Heard>, before: seq<Heard>, after: seq<Heard>)
    requires c.connected && p.connected && c.counter == p.counter && c.phys == p.phys && Supported(phy)
    requires p.phyUpdate == None && |heard| == |before| + |after| < COUNTS
    ensures var u := PhyUpdate(InstantFor(c.counter), Phys(phy, phy));
            var c' := Events(c.(phyUpdate := Some(u)), heard, |heard|);
            var p' := HearsOfPhyUpdate(p, PhyUpdateInd(u.phys, u.instant), before, after);
            c'.connected && Events(p, before, |before|).connected && p'.connected ==>
              && c'.phys == (if |heard| <= INSTANT_OFFSET_EVENTS then c.phys else u.phys)
              && (|before| <= INSTANT_OFFSET_EVENTS ==> c'.phys == p'.phys)
              && (|before| > INSTANT_OFFSET_EVENTS && c.phys != u.phys ==> c'.phys != p'.phys)
  {
    var u := PhyUpdate(InstantFor(c.counter), Phys(phy, phy));
    var m := Events(p, before, |before|);
    PhyUpdateRoundTrip(m, phy, u.instant);
    InstantIsAhead(c.counter);
    LearnedLate(c.counter, |before|);
    hide PhyUpdateInd;
    hide SchedulePhyUpdate;
    hide InstantFor;
    hide Distance;
    hide Events;
    var c' := Events(c.(phyUpdate := Some(u)), heard, |heard|);
    var p' := Events(m.(phyUpdate := Some(u)), after, |after|);
    if c'.connected && m.connected && p'.connected {
      NoPhyTimeline(p, before, |before|);
      PhyTimeline(c.(phyUpdate := Some(u)), u, heard, |heard|);
      PhyTimeline(m.(phyUpdate := Some(u)), u, after, |after|);
    }
  }
}
