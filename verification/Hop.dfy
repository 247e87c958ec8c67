/** Data channel selection: the hop sequence and the remapping of unused channels. */
module Hop {
  import opened Bytes

  const CHANNELS: nat := 37
  const INITIATOR_HOP_INCREMENT: nat := 5

  type channel = x: int | 0 <= x < 37

  /** A channel map, one flag per data channel. */
  type ChannelMap = m: seq<bool> | |m| == 37 witness seq(37, _ => true)

  function PowerOfTwo(n: nat): (p: nat)
    requires n < 8
    ensures p > 0
  {
    if n == 0 then 1 else 2 * PowerOfTwo(n - 1)
  }

  /** Bit i of the five octets of a channel map; what lies beyond 37 bits is masked out. */
  predicate HasChannel(octets: seq<byte>, i: nat)
    requires |octets| == 5 && i < CHANNELS
  {
    octets[i / 8] / PowerOfTwo(i % 8) % 2 == 1
  }

  function MapOf(octets: seq<byte>): ChannelMap
    requires |octets| == 5
  {
    seq(CHANNELS, i requires 0 <= i < CHANNELS => HasChannel(octets, i))
  }

  /** The octets of a map as one number, the first the least significant. */
  function Number(octets: seq<byte>): nat
    requires |octets| == 5
  {
    octets[0] as int + 0x100 * (octets[1] as int + 0x100 * (octets[2] as int + 0x100 * (octets[3] as int + 0x100 * (octets[4] as int))))
  }

  /** Its i-th bit, the least significant being the 0th. */
  predicate BitOf(n: nat, i: nat) { if i == 0 then n % 2 == 1 else BitOf(n / 2, i - 1) }

  lemma {:induction false} Rearrange(p: nat, m: nat, h: nat)
    ensures (2 * (m * h)) * p == (p * m) * (2 * h)
  {
    assert (m * h) * p == (p * m) * h;
  }

  lemma {:induction false} SameParity(q: nat, x: nat)
    ensures (q + 2 * x) % 2 == q % 2
  {
  }

  lemma {:induction false} OctetBit(b: byte, high: nat, p: nat, m: nat)
    requires p > 0 && p * m == 128
    ensures (b as int + 0x100 * high) / p % 2 == b / p % 2
  {
    var q, r, x: nat := b / p, b % p, m * high;
    Rearrange(p, m, high);
    assert b as int == q * p + r;
    assert (q + 2 * x) * p == q * p + (2 * x) * p;
    Quotient(b as int + 0x100 * high, p, q + 2 * x, r);
    SameParity(q, x);
  }

  lemma {:induction false} OctetPowers(i: nat) returns (m: nat)
    requires i < 8
    ensures PowerOfTwo(i) * m == 128
    decreases 8 - i
  {
    if i == 7 {
      assert PowerOfTwo(3) == 8 && PowerOfTwo(5) == 32;
      m := 1;
    } else {
      var half := OctetPowers(i + 1);
      m := 2 * half;
      assert PowerOfTwo(i + 1) == 2 * PowerOfTwo(i);
      assert PowerOfTwo(i) * m == PowerOfTwo(i + 1) * half;
    }
  }

  lemma {:induction false} BitsOfOctet(b: byte, high: nat, i: nat)
    requires i < 8
    ensures BitOf(b as int + 0x100 * high, i) <==> b / PowerOfTwo(i) % 2 == 1
  {
    hide PowerOfTwo;
    hide BitOf;
    var m := OctetPowers(i);
    Halves(b as int + 0x100 * high, i);
    OctetBit(b, high, PowerOfTwo(i), m);
  }

  lemma {:induction false} Halves(n: nat, i: nat)
    requires i < 8
    ensures BitOf(n, i) <==> n / PowerOfTwo(i) % 2 == 1
  {
    if i > 0 {
      Halves(n / 2, i - 1);
      HalfOfQuotient(n, PowerOfTwo(i - 1));
    }
  }

  lemma {:induction false} HalfOfQuotient(n: nat, p: nat)
    requires p > 0
    ensures n / 2 / p == n / (2 * p)
  {
    var q := n / 2 / p;
    assert n / 2 == q * p + n / 2 % p;
    assert n == 2 * (n / 2) + n % 2;
    var r := 2 * (n / 2 % p) + n % 2;
    assert n == q * (2 * p) + r && 0 <= r < 2 * p;
    Quotient(n, 2 * p, q, r);
  }

  lemma {:induction false} AtLeastOne(e: int, d: nat)
    ensures e >= 1 ==> e * d >= d
    ensures e <= -1 ==> e * d + d <= 0
  {
  }

  lemma {:induction false} Quotient(n: nat, d: nat, q: nat, r: nat)
    requires d > 0 && n == q * d + r && r < d
    ensures n / d == q
  {
    assert n == n / d * d + n % d;
    assert (n / d - q) * d == r - n % d;
    AtLeastOne(n / d - q, d);
  }

  lemma {:induction false} NextOctet(b: byte, high: nat, i: nat)
    ensures BitOf(b as int + 0x100 * high, 8 + i) == BitOf(high, i)
  {
    var n: nat := b as int + 0x100 * high;
    assert n / 2 / 2 / 2 / 2 / 2 / 2 / 2 / 2 == high;
    EightHalves(n, i);
  }

  lemma {:induction false} EightHalves(n: nat, i: nat)
    ensures BitOf(n, 8 + i) == BitOf(n / 2 / 2 / 2 / 2 / 2 / 2 / 2 / 2, i)
  {
    assert BitOf(n, 8 + i) == BitOf(n / 2, 7 + i) == BitOf(n / 2 / 2, 6 + i);
    assert BitOf(n / 2 / 2, 6 + i) == BitOf(n / 2 / 2 / 2, 5 + i) == BitOf(n / 2 / 2 / 2 / 2, 4 + i);
    var m := n / 2 / 2 / 2 / 2;
    assert BitOf(m, 4 + i) == BitOf(m / 2, 3 + i) == BitOf(m / 2 / 2, 2 + i);
    assert BitOf(m / 2 / 2, 2 + i) == BitOf(m / 2 / 2 / 2, 1 + i) == BitOf(m / 2 / 2 / 2 / 2, i);
  }

  /** A map uses channel i exactly if bit i of the number its five octets make is set. */
  lemma {:induction false} MapIsNumber(octets: seq<byte>, i: nat)
    requires |octets| == 5 && i < 37
    ensures MapOf(octets)[i] <==> BitOf(Number(octets), i)
  {
    hide BitOf;
    var n4: nat := octets[4] as int + 0x100 * 0;
    var n3: nat := octets[3] as int + 0x100 * n4;
    var n2: nat := octets[2] as int + 0x100 * n3;
    var n1: nat := octets[1] as int + 0x100 * n2;
    assert Number(octets) == octets[0] as int + 0x100 * n1;
    var k, j := i / 8, i % 8;
    if k >= 1 { NextOctet(octets[0], n1, i - 8); } else { BitsOfOctet(octets[0], n1, j); }
    if k >= 2 { NextOctet(octets[1], n2, i - 16); } else if k == 1 { BitsOfOctet(octets[1], n2, j); }
    if k >= 3 { NextOctet(octets[2], n3, i - 24); } else if k == 2 { BitsOfOctet(octets[2], n3, j); }
    if k >= 4 { NextOctet(octets[3], n4, i - 32); } else if k == 3 { BitsOfOctet(octets[3], n4, j); }
    if k == 4 { BitsOfOctet(octets[4], 0, j); }
    hide PowerOfTwo;
  }

  function Used(m: ChannelMap, n: nat): (used: seq<channel>)
    requires n <= CHANNELS
    ensures |used| <= n
  {
    if n == 0 then [] else if m[n - 1] then Used(m, n - 1) + [n - 1] else Used(m, n - 1)
  }

  function AllChannels(): (all: seq<channel>) { seq(37, i requires 0 <= i < 37 => i) }

  /** The channels a map leaves to hop on: the used ones, or all when it has none. */
  function Remap(m: ChannelMap): seq<channel> {
    if Used(m, CHANNELS) == [] then AllChannels() else Used(m, CHANNELS)
  }

  /** The remap table is the used channels in ascending order, each once. */
  lemma {:induction false} UsedIsAscending(m: ChannelMap, n: nat)
    requires n <= CHANNELS
    ensures forall c: channel :: c in Used(m, n) <==> c < n && m[c]
    ensures forall i, j :: 0 <= i < j < |Used(m, n)| ==> Used(m, n)[i] < Used(m, n)[j]
  {
    if n > 0 {
      UsedIsAscending(m, n - 1);
      var before := Used(m, n - 1);
      forall i | 0 <= i < |before| ensures before[i] < n - 1 {
        assert before[i] in before;
      }
    }
  }

  lemma {:induction false} RemapIsChannels(m: ChannelMap)
    ensures 0 < |Remap(m)| <= CHANNELS
    ensures forall c: channel :: c in Remap(m) <==> m[c] || forall d: channel :: !m[d]
    ensures forall i, j :: 0 <= i < j < |Remap(m)| ==> Remap(m)[i] < Remap(m)[j]
  {
    UsedIsAscending(m, CHANNELS);
    if Used(m, CHANNELS) == [] {
      forall c: channel ensures !m[c] {
        assert c !in Used(m, CHANNELS);
      }
      forall c: channel ensures c in AllChannels() {
        assert AllChannels()[c] == c;
      }
    } else {
      var c := Used(m, CHANNELS)[0];
      assert c in Used(m, CHANNELS) && m[c];
    }
  }

  /** The selection state of a link; the increment of a request is five bits wide, and 0 stands for 5. */
  datatype Hopper = Hopper(hop: nat, last: channel, channelMap: ChannelMap)

  function Increment(requested: nat): (hop: nat)
    requires requested < 32
    ensures 0 < hop < CHANNELS && hop == if requested == 0 then 5 else requested
  {
    if requested == 0 then INITIATOR_HOP_INCREMENT else requested
  }

  function Unmapped(s: Hopper): channel { (s.last + s.hop) % CHANNELS }

  /** The channel an event uses: the unmapped one when the map has it, else its place in the remap table. */
  function Tuned(s: Hopper): channel {
    RemapIsChannels(s.channelMap);
    if s.channelMap[Unmapped(s)] then Unmapped(s) else Remap(s.channelMap)[Unmapped(s) % |Remap(s.channelMap)|]
  }

  /** One event; the timer of the following one may put a new channel map in force. */
  function HopEvent(s: Hopper, channelMap: Option<ChannelMap>): Hopper {
    s.(last := Unmapped(s), channelMap := if channelMap.Some? then channelMap.value else s.channelMap)
  }

  function HopEvents(s: Hopper, maps: seq<Option<ChannelMap>>, n: nat): Hopper
    requires n <= |maps|
  {
    if n == 0 then s else HopEvent(HopEvents(s, maps, n - 1), maps[n - 1])
  }

  /** An event never leaves the map in force, and uses any channel when the map has none. */
  lemma {:induction false} TunedInMap(s: Hopper)
    ensures s.channelMap[Tuned(s)] || forall d: channel :: !s.channelMap[d]
    ensures (forall d: channel :: !s.channelMap[d]) ==> Tuned(s) == Unmapped(s)
  {
    RemapIsChannels(s.channelMap);
    var k := Unmapped(s) % |Remap(s.channelMap)|;
    assert Remap(s.channelMap)[k] in Remap(s.channelMap);
    if forall d: channel :: !s.channelMap[d] {
      NoneUsed(s.channelMap, CHANNELS);
    }
  }

  lemma {:induction false} NoneUsed(m: ChannelMap, n: nat)
    requires n <= CHANNELS && forall d: channel :: !m[d]
    ensures Used(m, n) == []
  {
    if n > 0 {
      var d: channel := n - 1;
      assert !m[d];
      NoneUsed(m, n - 1);
    }
  }

  /** How many of the channels below c a map uses. */
  function UsedBelow(m: ChannelMap, c: nat): (n: nat)
    requires c <= CHANNELS
    ensures n <= c
  {
    if c == 0 then 0 else UsedBelow(m, c - 1) + if m[c - 1] then 1 else 0
  }

  /**
   * The remapping rule: a used channel, and any channel when none is used, stands for itself; an unused one
   * for the used channel with as many used ones below it as is left of it modulo the number of used channels.
   */
  predicate StandsFor(m: ChannelMap, unmapped: channel, tuned: channel) {
    var n := UsedBelow(m, CHANNELS);
    if m[unmapped] || n == 0 then tuned == unmapped
    else m[tuned] && UsedBelow(m, tuned) == unmapped % n
  }

  lemma {:induction false} UsedBelowGrows(m: ChannelMap, a: nat, b: nat)
    requires a <= b <= CHANNELS
    ensures UsedBelow(m, a) <= UsedBelow(m, b)
    ensures a < b && m[a] ==> UsedBelow(m, a) < UsedBelow(m, b)
  {
    if a < b {
      UsedBelowGrows(m, a, b - 1);
    }
  }

  /** The rule leaves no choice. */
  lemma {:induction false} StandsForOne(m: ChannelMap, unmapped: channel, a: channel, b: channel)
    requires StandsFor(m, unmapped, a) && StandsFor(m, unmapped, b)
    ensures a == b
  {
    if a <= b {
      UsedBelowGrows(m, a, b);
    } else {
      UsedBelowGrows(m, b, a);
    }
  }

  lemma {:induction false} UsedAt(m: ChannelMap, n: nat, k: nat)
    requires n <= CHANNELS && k < |Used(m, n)|
    ensures |Used(m, n)| == UsedBelow(m, n)
    ensures Used(m, n)[k] < n && m[Used(m, n)[k]] && UsedBelow(m, Used(m, n)[k]) == k
  {
    UsedCounts(m, n - 1);
    if k < |Used(m, n - 1)| {
      UsedAt(m, n - 1, k);
    }
  }

  lemma {:induction false} UsedCounts(m: ChannelMap, n: nat)
    requires n <= CHANNELS
    ensures |Used(m, n)| == UsedBelow(m, n)
  {
    if n > 0 {
      UsedCounts(m, n - 1);
    }
  }

  /** Every event is tuned by the rule. */
  lemma {:induction false} TunedByCounting(s: Hopper)
    ensures StandsFor(s.channelMap, Unmapped(s), Tuned(s))
  {
    var m := s.channelMap;
    UsedCounts(m, CHANNELS);
    RemapIsChannels(m);
    if Used(m, CHANNELS) != [] {
      UsedAt(m, CHANNELS, Unmapped(s) % |Remap(m)|);
    } else {
      TunedInMap(s);
      assert forall d: channel :: !m[d] by {
        UsedIsAscending(m, CHANNELS);
      }
    }
  }

  // ---- the sequence of unmapped channels -------------------------------------------------------------

  // The unmapped channel of the n-th event from now.
  function UnmappedAt(s: Hopper, n: nat): channel { (s.last + (n + 1) * s.hop) % CHANNELS }

  lemma {:induction false} AddMultiple(x: int, k: int)
    ensures (x + 37 * k) % 37 == x % 37
  {
  }

  lemma {:induction false} ReduceFactor(a: int, b: int)
    ensures (a * b) % 37 == ((a % 37) * b) % 37
  {
    assert a == 37 * (a / 37) + a % 37;
    assert a * b == (37 * (a / 37) + a % 37) * b == (a % 37) * b + 37 * ((a / 37) * b);
    AddMultiple((a % 37) * b, (a / 37) * b);
  }

  /** The n-th event uses the n-th multiple of the increment, whatever maps are put in force. */
  lemma {:induction false} UnmappedClosedForm(s: Hopper, maps: seq<Option<ChannelMap>>, n: nat)
    requires n <= |maps|
    ensures HopEvents(s, maps, n).hop == s.hop
    ensures Unmapped(HopEvents(s, maps, n)) == UnmappedAt(s, n)
  {
    if n > 0 {
      UnmappedClosedForm(s, maps, n - 1);
      var x := s.last + n * s.hop;
      assert s.last + (n + 1) * s.hop == x + s.hop;
      AddMultiple(x % 37 + s.hop, x / 37);
    }
  }

  // One of two factors of 37 would be below 7.
  lemma {:induction false} Prime(h: nat)
    requires 2 <= h < CHANNELS
    ensures 37 % h != 0
  {
    var q, r := 37 / h, 37 % h;
    assert 37 == q * h + r;
    if h < 7 {
      assert h == 2 || h == 3 || h == 4 || h == 5 || h == 6;
    } else {
      assert q < 6 by { assert q >= 6 ==> q * h >= 42; }
      assert q == 0 || q == 1 || q == 2 || q == 3 || q == 4 || q == 5;
    }
  }

  lemma {:induction false} Divide(h: nat)
    requires 2 <= h < CHANNELS
    ensures 37 == (37 / h) * h + 37 % h && 0 < 37 % h < h && 37 / h <= 37
  {
    Prime(h);
  }

  lemma {:induction false} Distribute(h: nat, q: nat, r: nat, i: nat)
    requires 37 == q * h + r && q <= 37
    ensures h * ((37 - q) * i) == r * i + 37 * (h * i - i)
  {
    assert h * (37 - q) == 37 * h - 37 + r;
    assert h * ((37 - q) * i) == (h * (37 - q)) * i;
    assert (37 * h - 37 + r) * i == 37 * (h * i) - 37 * i + r * i;
  }

  lemma {:induction false} InverseStep(h: nat, q: nat, r: nat, i: nat) returns (g: nat)
    requires 37 == q * h + r && (r * i) % 37 == 1 && q <= 37
    ensures (h * g) % 37 == 1
  {
    g := (37 - q) * i;
    Distribute(h, q, r, i);
    AddMultiple(r * i, h * i - i);
  }

  /** 37 is prime, so every increment has an inverse. */
  lemma {:induction false} Inverse(h: nat) returns (g: nat)
    requires 0 < h < CHANNELS
    ensures (h * g) % 37 == 1
  {
    if h == 1 {
      g := 1;
    } else {
      Divide(h);
      var i := Inverse(37 % h);
      g := InverseStep(h, 37 / h, 37 % h, i);
    }
  }

  /** Multiples of the increment determine their index modulo 37. */
  lemma {:induction false} MultiplesDiffer(h: nat, x: nat, y: nat)
    requires 0 < h < CHANNELS && (x * h) % 37 == (y * h) % 37
    ensures x % 37 == y % 37
  {
    var g := Inverse(h);
    Undo(h, g, x);
    Undo(h, g, y);
  }

  lemma {:induction false} Undo(h: nat, g: nat, x: nat)
    requires (h * g) % 37 == 1
    ensures (((x * h) % 37) * g) % 37 == x % 37
  {
    ReduceFactor(x * h, g);
    assert (x * h) * g == (h * g) * x;
    ReduceFactor(h * g, x);
  }

  lemma {:induction false} Cancel(a: nat, x: nat, y: nat)
    requires (a + x) % 37 == (a + y) % 37
    ensures x % 37 == y % 37
  {
  }

  lemma {:induction false} Distinct(s: Hopper, m: nat, n: nat)
    requires 0 < s.hop < CHANNELS && m <= n < m + CHANNELS && UnmappedAt(s, m) == UnmappedAt(s, n)
    ensures m == n
  {
    assert (m + 1) % 37 == (n + 1) % 37 by {
      Cancel(s.last, (m + 1) * s.hop, (n + 1) * s.hop);
      MultiplesDiffer(s.hop, m + 1, n + 1);
    }
    hide UnmappedAt;
    SameResidue(m + 1, n + 1);
  }

  lemma {:induction false} SameResidue(x: nat, y: nat)
    requires x % 37 == y % 37 && x <= y < x + 37
    ensures x == y
  {
  }

  lemma {:induction false} Solves(h: nat, g: nat, d: nat, k: int, n: nat)
    requires (h * g) % 37 == 1 && n == d * g + 37 * k && d < 37
    ensures (n * h) % 37 == d
  {
    assert n * h == (d * g + 37 * k) * h == (h * g) * d + 37 * (k * h);
    AddMultiple((h * g) * d, k * h);
    ReduceFactor(h * g, d);
  }

  lemma {:induction false} IndexOf(s: Hopper, start: nat, c: channel) returns (n: nat)
    requires 0 < s.hop < CHANNELS
    ensures start <= n < start + CHANNELS && UnmappedAt(s, n) == c
  {
    var g := Inverse(s.hop);
    var d := (c - s.last) % 37;
    var x := d * g;
    n := start + (x - 1 - start) % 37;
    Solves(s.hop, g, d, (n + 1 - x) / 37, n + 1);
    Lands(s.last, (n + 1) * s.hop, c);
  }

  lemma {:induction false} Lands(a: nat, y: nat, c: channel)
    requires y % 37 == (c - a) % 37
    ensures (a + y) % 37 == c
  {
  }

  /** Any 37 events in a row use each unmapped channel exactly once. */
  lemma {:induction false} EachChannelOnce(s: Hopper, start: nat, c: channel)
    requires 0 < s.hop < CHANNELS
    ensures exists n :: start <= n < start + CHANNELS && UnmappedAt(s, n) == c
    ensures forall m, n :: start <= m <= n < start + CHANNELS && UnmappedAt(s, m) == c && UnmappedAt(s, n) == c ==> m == n
  {
    var n := IndexOf(s, start, c);
    forall m, n | start <= m <= n < start + CHANNELS && UnmappedAt(s, m) == c && UnmappedAt(s, n) == c
      ensures m == n
    {
      Distinct(s, m, n);
    }
  }

  // ---- when a new channel map takes effect -----------------------------------------------------------

  const COUNTS: nat := 0x1_0000

  datatype MapUpdate = MapUpdate(channelMap: ChannelMap, instant: u16)

  /** counter is the number of the next event. */
  datatype Hopping = Hopping(hopper: Hopper, pending: Option<MapUpdate>, counter: u16)

  /** A channel-map announcement too short to hold its fields is ignored; a later one replaces one pending. */
  function LearnMap(l: Hopping, pdu: seq<byte>): Hopping {
    if |pdu| < 8 then l else l.(pending := Some(MapUpdate(MapOf(pdu[1..6]), U16Decode(pdu[6..]))))
  }

  predicate MapDue(l: Hopping) { l.pending.Some? && l.pending.value.instant == l.counter }

  /** The state an event hops from: the timer puts a map in force in the event of its instant. */
  function Ready(l: Hopping): Hopping {
    if MapDue(l) then l.(hopper := l.hopper.(channelMap := l.pending.value.channelMap), pending := None) else l
  }

  function HopOnce(l: Hopping): Hopping {
    Ready(l).(hopper := HopEvent(Ready(l).hopper, None), counter := (l.counter + 1) % COUNTS)
  }

  function HopTimes(l: Hopping, n: nat): Hopping {
    if n == 0 then l else HopOnce(HopTimes(l, n - 1))
  }

  /** Events until the counter reaches instant, the next one being 0. */
  function EventsUntil(counter: u16, instant: u16): nat { (instant - counter) % COUNTS }

  lemma {:induction false} ReachesInstant(counter: u16, instant: u16, n: nat)
    requires n <= EventsUntil(counter, instant)
    ensures (counter + n) % COUNTS == instant <==> n == EventsUntil(counter, instant)
  {
  }

  lemma {:induction false} NextUnmapped(s: Hopper, before: Hopper, n: nat)
    requires n > 0 && before.hop == s.hop && Unmapped(before) == UnmappedAt(s, n - 1)
    ensures Unmapped(HopEvent(before, None)) == UnmappedAt(s, n)
  {
    var x := s.last + n * s.hop;
    assert s.last + (n + 1) * s.hop == x + s.hop;
    AddMultiple(x % 37 + s.hop, x / 37);
  }

  lemma {:induction false} HopsFirst(s: Hopper)
    ensures Unmapped(s) == UnmappedAt(s, 0)
  {
  }

  lemma {:induction false} ReadyHopsAlike(l: Hopping)
    ensures Unmapped(Ready(l).hopper) == Unmapped(l.hopper) && Ready(l).hopper.hop == l.hopper.hop
  {
  }

  lemma {:induction false} HopsOn(l: Hopping, n: nat)
    ensures HopTimes(l, n).hopper.hop == l.hopper.hop
    ensures Unmapped(HopTimes(l, n).hopper) == UnmappedAt(l.hopper, n)
  {
    hide Unmapped;
    hide UnmappedAt;
    hide Ready;
    if n == 0 {
      HopsFirst(l.hopper);
    } else {
      HopsOn(l, n - 1);
      ReadyHopsAlike(HopTimes(l, n - 1));
      NextUnmapped(l.hopper, Ready(HopTimes(l, n - 1)).hopper, n);
    }
  }

  lemma {:induction false} CountsOn(l: Hopping, n: nat)
    ensures HopTimes(l, n).counter == (l.counter + n) % COUNTS
  {
    hide Unmapped;
    if n > 0 {
      CountsOn(l, n - 1);
    }
  }

  predicate Waits(l: Hopping, n: nat) {
    l.pending.Some? && n <= EventsUntil(l.counter, l.pending.value.instant)
  }

  lemma {:induction false} MapWaits(l: Hopping, n: nat)
    requires l.pending.Some?
    ensures var m := HopTimes(l, n);
            if Waits(l, n) then m.pending == l.pending && m.hopper.channelMap == l.hopper.channelMap
            else m.pending == None && m.hopper.channelMap == l.pending.value.channelMap
  {
    if n > 0 {
      MapWaits(l, n - 1);
      CountsOn(l, n - 1);
      hide Unmapped;
      if Waits(l, n - 1) {
        ReachesInstant(l.counter, l.pending.value.instant, n - 1);
      }
      hide EventsUntil;
      return;
    }
  }

  /**
   * Whenever a channel map is learned, every event before the one whose number is its instant hops on the old
   * map, and that event and all after it on the new one, each by the remapping rule; the hop sequence itself is
   * not disturbed.
   */
  lemma {:induction false} MapTimeline(l: Hopping, pdu: seq<byte>, n: nat)
    requires |pdu| >= 8
    ensures var instant := U16Decode(pdu[6..]);
            var h := Ready(HopTimes(LearnMap(l, pdu), n)).hopper;
            && Unmapped(h) == UnmappedAt(l.hopper, n)
            && h.channelMap == (if n < EventsUntil(l.counter, instant) then l.hopper.channelMap else MapOf(pdu[1..6]))
            && StandsFor(h.channelMap, UnmappedAt(l.hopper, n), Tuned(h))
  {
    var learned := LearnMap(l, pdu);
    HopsOn(learned, n);
    CountsOn(learned, n);
    MapWaits(learned, n);
    TunedByCounting(Ready(HopTimes(learned, n)).hopper);
    hide StandsFor;
    hide HopTimes;
    hide Tuned;
    hide UnmappedAt;
    hide MapOf;
    if n <= EventsUntil(l.counter, U16Decode(pdu[6..])) {
      ReachesInstant(l.counter, U16Decode(pdu[6..]), n);
    }
  }

  // ---- in place ---------------------------------------------------------------------------------

  class ChannelSelector {
    var hop: nat
    var last: channel
    var channelMap: ChannelMap
    const channels: array<channel>
    var count: nat
    var pendingValid: bool
    var pendingOctets: seq<byte>
    var pendingInstant: u16
    var counter: u16

    function State(): Hopper reads this { Hopper(hop, last, channelMap) }

    function Link(): Hopping
      requires |pendingOctets| == 5
      reads this
    {
      Hopping(State(), if pendingValid then Some(MapUpdate(MapOf(pendingOctets), pendingInstant)) else None, counter)
    }

    ghost predicate Valid() reads this, channels {
      && channels.Length == CHANNELS && count <= CHANNELS && |pendingOctets| == 5
      && channels[..count] == Remap(channelMap)
    }

    constructor (requested: nat, octets: seq<byte>)
      requires requested < 32 && |octets| == 5
      ensures Valid() && fresh(channels)
      ensures Link() == Hopping(Hopper(Increment(requested), 0, MapOf(octets)), None, 0)
    {
      pendingValid, pendingOctets, pendingInstant, counter := false, octets, 0, 0;
      hop, last := if requested == 0 then INITIATOR_HOP_INCREMENT else requested, 0;
      channels := new channel[CHANNELS];
      channelMap, count := MapOf(octets), 0;
      new;
      ApplyChannelMap(octets);
    }

    method ApplyChannelMap(octets: seq<byte>)
      requires channels.Length == CHANNELS && |octets| == 5 && |pendingOctets| == 5
      modifies this`channelMap, this`count, channels
      ensures Valid()
      ensures State() == old(State()).(channelMap := MapOf(octets))
    {
      channelMap, count := MapOf(octets), 0;
      for i := 0 to CHANNELS
        invariant count <= i && channels[..count] == Used(channelMap, i) && channelMap == MapOf(octets)
      {
        if HasChannel(octets, i) {
          channels[count] := i;
          count := count + 1;
        }
      }
      if count == 0 {
        for i := 0 to CHANNELS
          invariant count == 0 && channelMap == MapOf(octets) && channels[..i] == AllChannels()[..i]
        {
          channels[i] := i;
        }
        count := CHANNELS;
      }
    }

    method HopDataChannel() returns (mapped: channel)
      requires Valid()
      modifies this`last
      ensures Valid() && mapped == Tuned(old(State()))
      ensures State() == HopEvent(old(State()), None)
      ensures last == (old(last) + hop) % CHANNELS && StandsFor(channelMap, last, mapped)
    {
      TunedByCounting(State());
      var unmapped := (last + hop) % CHANNELS;
      last := unmapped;
      RemapIsChannels(channelMap);
      if channelMap[unmapped] {
        mapped := unmapped;
      } else {
        assert channels[..count][unmapped % count] == channels[unmapped % count];
        mapped := channels[unmapped % count];
      }
    }

    method OnChannelMapInd(pdu: seq<byte>)
      requires Valid()
      modifies this`pendingValid, this`pendingOctets, this`pendingInstant
      ensures Valid() && Link() == LearnMap(old(Link()), pdu)
    {
      if |pdu| >= 8 {
        pendingOctets, pendingInstant, pendingValid := pdu[1..6], U16Decode(pdu[6..]), true;
      }
    }

    /** The timer of an event: a map that is due, then the hop. */
    method StartEvent() returns (mapped: channel)
      requires Valid()
      modifies this, channels
      ensures Valid() && mapped == Tuned(Ready(old(Link())).hopper)
      ensures Link() == HopOnce(old(Link())) && StandsFor(channelMap, last, mapped)
    {
      hide Tuned;
      if pendingValid && counter == pendingInstant {
        ApplyChannelMap(pendingOctets);
        pendingValid := false;
      }
      mapped := HopDataChannel();
      counter := (counter + 1) % COUNTS;
    }
  }
}
