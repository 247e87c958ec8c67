/**
 * Time in the units it is asked for in: intervals in 1.25 ms, window offsets in 1.25 ms and timeouts in 10 ms,
 * from a CONNECT_REQ and from the octets of CONN_UPDATE_INDs to the anchors and the loss of the link.
 */
module Timing {
  import opened Bytes
  import opened ClockSpec
  import opened ClockResults
  import opened Supervision

  /** What a CONNECT_REQ or an update asks for, in its own units. */
  datatype Asked = Asked(interval: u16, latency: u16, timeout: u16)
  datatype Terms = Terms(asked: Asked, ahead: Option<(u16, Asked)>, counter: u16)

  /** In milliseconds, as far as sixteen bits hold them. */
  function IntervalMs(a: Asked): nat { (a.interval * 125 / 100) % 0x1_0000 }
  function TimeoutMs(a: Asked): nat { (10 * a.timeout) % 0x1_0000 }

  predicate IsDue(t: Terms) { t.ahead.Some? && t.ahead.value.0 == t.counter }

  function TermsInForce(t: Terms): Asked { if IsDue(t) then t.ahead.value.1 else t.asked }

  function AskedBy(pdu: seq<byte>): Asked
    requires |pdu| >= 12
  {
    Asked(U16Decode(pdu[4..]), U16Decode(pdu[6..]), U16Decode(pdu[8..]))
  }

  /** An update without an interval, or whose timeout is 0 ms, withdraws the one ahead. */
  predicate IsVoid(a: Asked) { a.interval == 0 || TimeoutMs(a) == 0 }

  function Then(t: Terms, h: Happening): Terms {
    match h
    case Elapse(_) => Terms(TermsInForce(t), if IsDue(t) then None else t.ahead, (t.counter + 1) % 0x1_0000)
    case Announce(pdu) =>
      if |pdu| < 12 then t
      else t.(ahead := if IsVoid(AskedBy(pdu)) then None else Some((U16Decode(pdu[10..]), AskedBy(pdu))))
  }

  /** The terms of a link asked for with a, after n happenings. */
  function TermsAfter(a: Asked, run: seq<Happening>, n: nat): Terms
    requires n <= |run|
  {
    if n == 0 then Terms(a, None, 0) else Then(TermsAfter(a, run, n - 1), run[n - 1])
  }

  function LinkFor(role: Role, a: Asked, delay: u32): Clock { NewLink(role, a.interval, a.latency, a.timeout, delay) }

  // ---- the clock keeps the terms ---------------------------------------------------------------------------

  predicate Keeps(p: Params, a: Asked) {
    p == Params(1250 * a.interval, IntervalMs(a), a.latency, TimeoutMs(a))
  }

  predicate KeepsAll(p: Plan, t: Terms) {
    && Keeps(p.params, t.asked) && p.counter == t.counter && p.update.Some? == t.ahead.Some?
    && (p.update.Some? ==> p.update.value.instant == t.ahead.value.0 && Keeps(p.update.value.params, t.ahead.value.1))
  }

  lemma {:induction false} PlannedKeeps(p: Plan, t: Terms, h: Happening)
    requires KeepsAll(p, t)
    ensures KeepsAll(Planned(p, h), Then(t, h))
  {
  }

  lemma {:induction false} PlanKeepsTerms(role: Role, a: Asked, delay: u32, run: seq<Happening>, n: nat)
    requires n <= |run|
    ensures KeepsAll(PlanAfter(LinkFor(role, a, delay), run, n), TermsAfter(a, run, n))
  {
    if n > 0 {
      PlanKeepsTerms(role, a, delay, run, n - 1);
      PlannedKeeps(PlanAfter(LinkFor(role, a, delay), run, n - 1), TermsAfter(a, run, n - 1), run[n - 1]);
    }
  }

  // ---- supervision ---------------------------------------------------------------------------------------------

  /** Misses in a row, as Supervision counts them, with the instants of the terms. */
  function MissesInARow(a: Asked, run: seq<Happening>, n: nat): nat
    requires n <= |run|
  {
    if n == 0 then 0
    else if run[n - 1].Announce? then MissesInARow(a, run, n - 1)
    else if Quiet(run, n - 1) || HeardBefore(run, n - 1) then 0
    else (if IsDue(TermsAfter(a, run, n - 1)) then 0 else MissesInARow(a, run, n - 1)) + 1
  }

  /** Nothing at all has been heard in the first n happenings. */
  predicate Quiet(run: seq<Happening>, n: nat)
    requires n <= |run|
  {
    forall k :: 0 <= k < n && run[k].Elapse? ==> run[k].heard.Silence?
  }

  /** The last event among the first n happenings brought a valid packet. */
  predicate HeardBefore(run: seq<Happening>, n: nat)
    requires n <= |run|
  {
    n > 0 && if run[n - 1].Elapse? then run[n - 1].heard.Good? else HeardBefore(run, n - 1)
  }

  lemma {:induction false} CountsAlike(role: Role, a: Asked, delay: u32, run: seq<Happening>, n: nat)
    requires n <= |run|
    ensures HeardLast(LinkFor(role, a, delay), run, n) == HeardBefore(run, n)
    ensures StartedBy(LinkFor(role, a, delay), run, n) == !Quiet(run, n)
    ensures Misses(LinkFor(role, a, delay), run, n) == MissesInARow(a, run, n)
  {
    if n > 0 {
      CountsAlike(role, a, delay, run, n - 1);
      PlanKeepsTerms(role, a, delay, run, n - 1);
    }
  }

  /** The n-th happening is an event that finds the misses in a row worth the timeout asked for. */
  predicate TimesOut(a: Asked, run: seq<Happening>, n: nat)
    requires n < |run|
  {
    && run[n].Elapse? && MissesInARow(a, run, n + 1) > 0
    && MissesInARow(a, run, n + 1) * IntervalMs(TermsInForce(TermsAfter(a, run, n)))
       >= TimeoutMs(TermsInForce(TermsAfter(a, run, n)))
  }

  /**
   * Whatever a link was asked for, whatever updates it learns and whatever it hears: it is up exactly while no
   * event found the misses in a row, at the interval in force, to amount to the timeout in force.
   */
  lemma {:induction false} SupervisedAsAsked(role: Role, a: Asked, delay: u32, run: seq<Happening>, n: nat)
    requires n <= |run|
    ensures Run(LinkFor(role, a, delay), run, n).connected <==> forall k :: 0 <= k < n ==> !TimesOut(a, run, k)
  {
    var s := LinkFor(role, a, delay);
    SupervisedFromTheStart(role, a.interval, a.latency, a.timeout, delay, run, n);
    forall k | 0 <= k < n ensures Expired(s, run, k) <==> TimesOut(a, run, k) {
      CountsAlike(role, a, delay, run, k + 1);
      PlanKeepsTerms(role, a, delay, run, k);
    }
  }

  lemma {:induction false} TermsStay(a: Asked, run: seq<Happening>, n: nat)
    requires n <= |run| && forall k :: 0 <= k < n ==> run[k].Elapse?
    ensures TermsAfter(a, run, n).asked == a && TermsAfter(a, run, n).ahead == None
  {
    if n > 0 {
      TermsStay(a, run, n - 1);
    }
  }

  predicate MissesAmountTo(a: Asked, run: seq<Happening>, n: nat)
    requires n < |run|
  {
    MissesInARow(a, run, n + 1) > 0 && MissesInARow(a, run, n + 1) * (a.interval * 125 / 100) >= 10 * a.timeout
  }

  lemma {:induction false} PlainTimeout(a: Asked, run: seq<Happening>, n: nat)
    requires n < |run| && forall k :: 0 <= k <= n ==> run[k].Elapse?
    requires 1 <= a.interval <= 3200 && 1 <= a.timeout <= 3200
    ensures TimesOut(a, run, n) <==> MissesAmountTo(a, run, n)
  {
    TermsStay(a, run, n);
    hide MissesInARow;
    hide TermsAfter;
    assert TermsInForce(TermsAfter(a, run, n)) == a;
    assert IntervalMs(a) == a.interval * 125 / 100 && TimeoutMs(a) == 10 * a.timeout;
  }

  /** With values that the standard allows and no update: misses times interval against timeout, as asked for. */
  lemma {:induction false} SupervisedWithoutUpdate(role: Role, a: Asked, delay: u32, run: seq<Happening>, n: nat)
    requires n <= |run| && forall k :: 0 <= k < n ==> run[k].Elapse?
    requires 1 <= a.interval <= 3200 && 1 <= a.timeout <= 3200
    ensures Run(LinkFor(role, a, delay), run, n).connected <==> forall k :: 0 <= k < n ==> !MissesAmountTo(a, run, k)
  {
    hide MissesAmountTo;
    hide TimesOut;
    hide Run;
    SupervisedAsAsked(role, a, delay, run, n);
    forall k | 0 <= k < n ensures TimesOut(a, run, k) <==> MissesAmountTo(a, run, k) {
      PlainTimeout(a, run, k);
    }
  }

  // ---- anchors ---------------------------------------------------------------------------------------------------

  lemma {:induction false} LinkParams(role: Role, a: Asked, delay: u32)
    ensures LinkFor(role, a, delay).params.intervalUs == 1250 * a.interval
  {
  }

  lemma {:induction false} LinkStarts(role: Role, a: Asked, delay: u32)
    ensures var s := LinkFor(role, a, delay);
            s.connected && s.role == role && s.counter == 0 && s.tick == delay && s.update == None
  {
  }

  lemma {:induction false} OneMoreInterval(delay: u32, n: nat, step: nat)
    requires n > 0
    ensures AddTicks(AddTicks(delay, (n - 1) * step), step) == AddTicks(delay, n * step)
  {
    AddTwice(delay, (n - 1) * step, step);
    assert n * step == (n - 1) * step + step;
  }

  lemma {:induction false} AnchorsBefore(role: Role, a: Asked, delay: u32, heard: seq<Heard>, n: nat)
    requires n <= |heard| && Unanchored(role, heard, n) && Events(LinkFor(role, a, delay), heard, n).connected
    ensures Events(LinkFor(role, a, delay), heard, n).tick == AddTicks(delay, n * (1250 * a.interval))
  {
    hide Event;
    hide LinkFor;
    hide AddTicks;
    var s := LinkFor(role, a, delay);
    LinkStarts(role, a, delay);
    if n == 0 {
      assert AddTicks(delay, 0) == delay by { TickZero(delay); }
    } else {
      EventFacts(Events(s, heard, n - 1), heard[n - 1]);
      NoUpdateTimeline(s, heard, n - 1);
      AnchorsBefore(role, a, delay, heard, n - 1);
      UnanchoredTick(s, heard, n - 1);
      LinkParams(role, a, delay);
      OneMoreInterval(delay, n, 1250 * a.interval);
      return;
    }
  }

  /** Microseconds from an update of offset units learned d events before its instant to the n-th event after. */
  function Since(a: Asked, b: Asked, offset: u16, d: nat, n: nat): nat {
    if n < d then n * (1250 * a.interval)
    else d * (1250 * a.interval) + (if d == 0 then 0 else 1250 * offset) + (n - d) * (1250 * b.interval)
  }

  /** The clock of a link asked for with a that learns the octets of an update after the events before. */
  function LinkLearning(role: Role, a: Asked, delay: u32, before: seq<Heard>, pdu: seq<byte>): Clock {
    ScheduleConnUpdate(Events(LinkFor(role, a, delay), before, |before|), pdu)
  }

  lemma {:induction false} SchedulesAsAsked(e: Clock, pdu: seq<byte>)
    requires |pdu| >= 12 && !IsVoid(AskedBy(pdu))
    ensures var s := ScheduleConnUpdate(e, pdu);
            && s.update.Some? && s == e.(update := s.update)
            && s.update.value.instant == U16Decode(pdu[10..])
            && s.update.value.offsetUs == 1250 * U16Decode(pdu[2..])
            && s.update.value.params.intervalUs == 1250 * AskedBy(pdu).interval
  {
    hide U16Decode;
  }

  lemma {:induction false} LearningKeeps(role: Role, a: Asked, delay: u32, before: seq<Heard>, pdu: seq<byte>)
    requires |pdu| >= 12 && !IsVoid(AskedBy(pdu))
    requires Unanchored(role, before, |before|) && LinkLearning(role, a, delay, before, pdu).connected
    ensures var s := LinkLearning(role, a, delay, before, pdu);
            && s.role == role && s.tick == AddTicks(delay, |before| * (1250 * a.interval))
            && s.params.intervalUs == 1250 * a.interval && s.update.Some?
            && s.update.value.offsetUs == 1250 * U16Decode(pdu[2..])
            && s.update.value.params.intervalUs == 1250 * AskedBy(pdu).interval
            && Distance(s.update.value.instant, s.counter) == (U16Decode(pdu[10..]) - |before|) % 0x1_0000
  {
    hide Events;
    hide AddTicks;
    hide IsVoid;
    hide AskedBy;
    hide LinkFor;
    hide Unanchored;
    hide U16Decode;
    hide ScheduleConnUpdate;
    hide CounterAfter;
    hide Distance;
    var e := Events(LinkFor(role, a, delay), before, |before|);
    SchedulesAsAsked(e, pdu);
    LinkStarts(role, a, delay);
    LinkParams(role, a, delay);
    NoUpdateTimeline(LinkFor(role, a, delay), before, |before|);
    AnchorsBefore(role, a, delay, before, |before|);
    InstantAhead(U16Decode(pdu[10..]), |before|);
  }

  lemma {:induction false} InstantAhead(instant: u16, n: nat)
    ensures Distance(instant, CounterAfter(0, n)) == (instant - n) % 0x1_0000
  {
  }

  /**
   * As long as nothing re-anchors such a link, its anchors lie 1250 microseconds apart for every unit asked
   * for: the old interval up to the instant, there shifted by the offset, and the new one from then on.
   */
  lemma {:induction false} AnchorsAsAsked(role: Role, a: Asked, delay: u32, before: seq<Heard>, pdu: seq<byte>,
                                          after: seq<Heard>, n: nat)
    requires |pdu| >= 12 && !IsVoid(AskedBy(pdu)) && n <= |after|
    requires Unanchored(role, before, |before|) && Unanchored(role, after, n)
    requires LinkLearning(role, a, delay, before, pdu).connected
    requires Events(LinkLearning(role, a, delay, before, pdu), after, n).connected
    ensures var d := (U16Decode(pdu[10..]) - |before|) % 0x1_0000;
            Events(LinkLearning(role, a, delay, before, pdu), after, n).tick
            == (delay + |before| * (1250 * a.interval) + Since(a, AskedBy(pdu), U16Decode(pdu[2..]), d, n)) % 0x1_0000_0000
  {
    hide LinkLearning;
    hide Events;
    hide IsVoid;
    LearningKeeps(role, a, delay, before, pdu);
    var s := LinkLearning(role, a, delay, before, pdu);
    TickClosedForm(s, s.update.value, after, n);
    var d := Distance(s.update.value.instant, s.counter);
    assert Elapsed(s, s.update.value, d, n) == Since(a, AskedBy(pdu), U16Decode(pdu[2..]), d, n);
    hide Elapsed;
    hide Since;
    AddTwice(delay, |before| * (1250 * a.interval), Since(a, AskedBy(pdu), U16Decode(pdu[2..]), d, n));
  }

  // ---- PHYs, by the octets that announce them ----------------------------------------------------------------

  /** The PHYs a PHY_UPDATE_IND asks for: 0 keeps the one in use, 1 and 2 are what the stack supports. */
  function PhysAskedBy(k: Clock, pdu: seq<byte>): Phys
    requires |pdu| >= 5
  {
    Phys(if pdu[2] == 0 then k.phys.tx else pdu[2], if pdu[1] == 0 then k.phys.rx else pdu[1])
  }

  predicate Usable(phy: byte) { phy == 1 || phy == 2 }

  /**
   * An announcement of PHYs that cannot be used is ignored; of two different ones, it ends the link; any other
   * is in force from the event after its instant on, and the PHYs before it until then.
   */
  lemma {:induction false} PhysAsAnnounced(k: Clock, pdu: seq<byte>, heard: seq<Heard>, n: nat)
    requires |pdu| >= 5 && k.connected && n <= |heard|
    ensures var asked := PhysAskedBy(k, pdu);
            var s := SchedulePhyUpdate(k, pdu);
            if !Usable(asked.tx) || !Usable(asked.rx) then s == k
            else if asked.tx != asked.rx then !s.connected
            else Events(s, heard, n).connected ==>
              Events(s, heard, n).phys == if n <= (U16Decode(pdu[3..]) - k.counter) % 0x1_0000 then k.phys else asked
  {
    hide Events;
    var asked := PhysAskedBy(k, pdu);
    var s := SchedulePhyUpdate(k, pdu);
    if Usable(asked.tx) && asked.tx == asked.rx && Events(s, heard, n).connected {
      PhyTimeline(s, s.phyUpdate.value, heard, n);
    }
  }
}
