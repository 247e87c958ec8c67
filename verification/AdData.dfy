/**
 * Advertising data: how a peripheral fills its 31 octets, how a central takes received data apart, and
 * what its name and UUID filters look for.
 */
module AdData {
  import opened Bytes
  import opened Seqs
  import opened Uuids

  const ADV_DATA_MAX: nat := 31
  const FIELD_DATA_MAX: nat := 27
  const NAME_MAX: nat := 20

  const FLAGS: byte := 0x01
  const INCOMPLETE_UUID16: byte := 0x02
  const COMPLETE_UUID16: byte := 0x03
  const INCOMPLETE_UUID128: byte := 0x06
  const COMPLETE_UUID128: byte := 0x07
  const SHORT_NAME: byte := 0x08
  const COMPLETE_NAME: byte := 0x09
  const TX_POWER: byte := 0x0A
  const SERVICE_DATA_UUID16: byte := 0x16
  const SERVICE_DATA_UUID128: byte := 0x21
  const MANUFACTURER_DATA: byte := 0xFF

  /** An AD structure: on the air, the length of what follows, the type, the value. */
  datatype Structure = Structure(kind: byte, value: seq<byte>)

  predicate Encodable(s: Structure) { |s.value| <= 254 }

  function EncodeOne(s: Structure): (b: seq<byte>)
    requires Encodable(s)
    ensures |b| == |s.value| + 2
  {
    [|s.value| + 1, s.kind] + s.value
  }

  function Encode(ss: seq<Structure>): seq<byte>
    requires forall s :: s in ss ==> Encodable(s)
  {
    if ss == [] then [] else EncodeOne(ss[0]) + Encode(ss[1..])
  }

  // ---- taking data apart --------------------------------------------------------------------------

  /** No structure can be read: the data is over, or a length of 0 or beyond the end follows. */
  predicate Stops(data: seq<byte>) {
    data == [] || data[0] == 0 || data[0] as int + 1 > |data|
  }

  function First(data: seq<byte>): Structure
    requires !Stops(data)
  {
    Structure(data[1], data[2..data[0] as int + 1])
  }

  function Parse(data: seq<byte>): (ss: seq<Structure>)
    ensures forall s :: s in ss ==> Encodable(s)
  {
    if Stops(data) then [] else [First(data)] + Parse(data[data[0] as int + 1..])
  }

  function Tail(data: seq<byte>): seq<byte> {
    if Stops(data) then data else Tail(data[data[0] as int + 1..])
  }

  // One structure in front of the data.
  lemma {:induction false} ParseOne(s: Structure, rest: seq<byte>)
    requires Encodable(s)
    ensures !Stops(EncodeOne(s) + rest)
    ensures First(EncodeOne(s) + rest) == s
    ensures (EncodeOne(s) + rest)[(EncodeOne(s) + rest)[0] as int + 1..] == rest
  {
    var data := EncodeOne(s) + rest;
    assert data[0] as int + 1 == |EncodeOne(s)|;
    assert data[2..|s.value| + 2] == s.value;
  }

  lemma {:induction false} FirstEncoded(data: seq<byte>)
    requires !Stops(data)
    ensures EncodeOne(First(data)) == data[..data[0] as int + 1]
  {
  }

  /** The structures read are those the data starts with, up to where it stops. */
  lemma {:induction false} ParseIsPrefix(data: seq<byte>)
    ensures Encode(Parse(data)) + Tail(data) == data && Stops(Tail(data))
  {
    if Stops(data) {
      assert Encode([]) + data == data;
    } else {
      var rest := data[data[0] as int + 1..];
      ParseIsPrefix(rest);
      FirstEncoded(data);
      hide Stops;
      hide First;
      hide EncodeOne;
      assert Parse(data) == [First(data)] + Parse(rest) && Tail(data) == Tail(rest);
      assert Parse(data)[1..] == Parse(rest);
      Regroup(EncodeOne(First(data)), Encode(Parse(rest)), Tail(rest));
      assert data[..data[0] as int + 1] + rest == data;
      return;
    }
  }

  /** And only those: whatever follows a stop is never read. */
  lemma {:induction false} ParseEncode(ss: seq<Structure>, tail: seq<byte>)
    requires (forall s :: s in ss ==> Encodable(s)) && Stops(tail)
    ensures Parse(Encode(ss) + tail) == ss
  {
    if ss == [] {
      assert Encode(ss) + tail == tail;
    } else {
      ParseOne(ss[0], Encode(ss[1..]) + tail);
      ParseEncode(ss[1..], tail);
      Regroup(EncodeOne(ss[0]), Encode(ss[1..]), tail);
      hide Stops;
      hide First;
      hide EncodeOne;
      hide Encodable;
      assert Encode(ss) + tail == EncodeOne(ss[0]) + (Encode(ss[1..]) + tail);
      return;
    }
  }

  /** Together: parsing finds exactly the structures that make up the data before its first stop. */
  lemma {:induction false} ParseCharacterized(data: seq<byte>, ss: seq<Structure>)
    requires forall s :: s in ss ==> Encodable(s)
    ensures Parse(data) == ss <==> exists tail :: Stops(tail) && data == Encode(ss) + tail
  {
    if Parse(data) == ss {
      ParseIsPrefix(data);
      assert Stops(Tail(data)) && data == Encode(ss) + Tail(data);
    }
    forall tail | Stops(tail) && data == Encode(ss) + tail ensures Parse(data) == ss {
      ParseEncode(ss, tail);
    }
  }

  // ---- what to advertise ---------------------------------------------------------------------------

  datatype NameStyle = Full | Short(length: byte)

  datatype Config = Config(
    name: Option<NameStyle>,
    serviceUuid: Option<Uuid>,
    serviceData: Option<(Uuid, seq<byte>)>,
    manufacturerData: Option<(u16, seq<byte>)>,
    txPower: Option<byte>)

  /** What the rest of the host contributes. */
  datatype Host = Host(name: seq<byte>, services: nat, base: Option<uuid128>)

  predicate ValidHost(h: Host) { |h.name| <= NAME_MAX && 0 !in h.name }

  /** Field data the setters accept. */
  predicate ValidConfig(c: Config) {
    && (c.serviceData.Some? ==> |c.serviceData.value.1| <= FIELD_DATA_MAX)
    && (c.manufacturerData.Some? ==> |c.manufacturerData.value.1| <= FIELD_DATA_MAX)
  }

  function NameStructures(style: NameStyle, h: Host): seq<Structure> {
    match style
    case Full => if h.name == [] then [] else [Structure(COMPLETE_NAME, h.name)]
    case Short(n) =>
      var shown := if n < |h.name| then h.name[..n] else h.name;
      if shown == [] then [] else [Structure(SHORT_NAME, shown)]
  }

  function UuidKind(long: bool, complete: bool): byte {
    if long then if complete then COMPLETE_UUID128 else INCOMPLETE_UUID128
    else if complete then COMPLETE_UUID16 else INCOMPLETE_UUID16
  }

  /** The list is complete when the UUID is of the one service there is. */
  function UuidStructures(u: Uuid, h: Host): seq<Structure> {
    if !IsValid(u, h.base) then []
    else [Structure(UuidKind(EncodedLen(u, h.base) == UUID128_LEN, h.services == 1), Uuids.Encode(u, h.base))]
  }

  function ServiceDataStructures(u: Uuid, data: seq<byte>, h: Host): seq<Structure> {
    if !IsValid(u, h.base) then []
    else [Structure(if EncodedLen(u, h.base) == UUID128_LEN then SERVICE_DATA_UUID128 else SERVICE_DATA_UUID16,
                    Uuids.Encode(u, h.base) + data)]
  }

  function NameAndServices(c: Config, h: Host): seq<Structure> {
    (if c.name.Some? then NameStructures(c.name.value, h) else [])
    + (if c.serviceUuid.Some? then UuidStructures(c.serviceUuid.value, h) else [])
    + (if c.serviceData.Some? then ServiceDataStructures(c.serviceData.value.0, c.serviceData.value.1, h) else [])
  }

  function MakerAndPower(c: Config): seq<Structure> {
    (if c.manufacturerData.Some? then
       [Structure(MANUFACTURER_DATA, U16Encode(c.manufacturerData.value.0) + c.manufacturerData.value.1)] else [])
    + (if c.txPower.Some? then [Structure(TX_POWER, [c.txPower.value])] else [])
  }

  /** Everything the configuration asks for, in the order it is added. */
  function Wanted(c: Config, h: Host): seq<Structure> { NameAndServices(c, h) + MakerAndPower(c) }

  /** Of the wanted structures each is taken that still fits; a later, smaller one may fit after all. */
  function Fitted(wanted: seq<Structure>, used: nat): (fitted: seq<Structure>)
    ensures forall s :: s in fitted ==> s in wanted && Encodable(s)
  {
    if wanted == [] then []
    else if used + |wanted[0].value| + 2 <= ADV_DATA_MAX then
      [wanted[0]] + Fitted(wanted[1..], used + |wanted[0].value| + 2)
    else Fitted(wanted[1..], used)
  }

  lemma {:induction false} FittedFits(wanted: seq<Structure>, used: nat)
    requires used <= ADV_DATA_MAX
    ensures used + |Encode(Fitted(wanted, used))| <= ADV_DATA_MAX
  {
    if wanted != [] {
      var n := |wanted[0].value| + 2;
      if used + n <= ADV_DATA_MAX {
        FittedFits(wanted[1..], used + n);
        assert Fitted(wanted, used)[1..] == Fitted(wanted[1..], used + n);
      } else {
        FittedFits(wanted[1..], used);
      }
    }
  }

  lemma {:induction false} EncodeJoin(ss: seq<Structure>, more: seq<Structure>)
    requires forall s :: s in ss + more ==> Encodable(s)
    ensures (forall s :: s in ss ==> Encodable(s)) && (forall s :: s in more ==> Encodable(s))
    ensures Encode(ss + more) == Encode(ss) + Encode(more)
  {
    assert forall s :: s in ss ==> s in ss + more;
    assert forall s :: s in more ==> s in ss + more;
    if ss == [] {
      assert ss + more == more;
    } else {
      assert (ss + more)[1..] == ss[1..] + more;
      EncodeJoin(ss[1..], more);
    }
  }

  /** What a receiver reads back is what fitted, in order, in at most 31 octets. */
  lemma {:induction false} AdvertisedRoundTrip(wanted: seq<Structure>)
    ensures Parse(Encode(Fitted(wanted, 0))) == Fitted(wanted, 0)
    ensures |Encode(Fitted(wanted, 0))| <= ADV_DATA_MAX
  {
    FittedFits(wanted, 0);
    ParseEncode(Fitted(wanted, 0), []);
    assert Encode(Fitted(wanted, 0)) + [] == Encode(Fitted(wanted, 0));
  }

  lemma {:induction false} FittedJoins(wanted: seq<Structure>, s: Structure, used: nat)
    ensures Fitted(wanted + [s], used)
         == Fitted(wanted, used) + (if used + |Encode(Fitted(wanted, used))| + |s.value| + 2 <= 31 then [s] else [])
  {
    if wanted == [] {
      assert ([] + [s])[1..] == [];
    } else {
      var n := |wanted[0].value| + 2;
      assert (wanted + [s])[1..] == wanted[1..] + [s];
      if used + n <= ADV_DATA_MAX {
        FittedJoins(wanted[1..], s, used + n);
        assert Fitted(wanted, used)[1..] == Fitted(wanted[1..], used + n);
      } else {
        FittedJoins(wanted[1..], s, used);
      }
    }
  }

  /** Each wanted structure is taken exactly if it fits into 31 octets behind those taken before it. */
  lemma {:induction false} FittedIsGreedy(wanted: seq<Structure>, s: Structure)
    ensures Fitted(wanted + [s], 0)
         == Fitted(wanted, 0) + (if |Encode(Fitted(wanted, 0))| + 2 + |s.value| <= 31 then [s] else [])
  {
    FittedJoins(wanted, s, 0);
  }

  // ---- what the structures mean to a receiver ------------------------------------------------------------

  /** A structure by the type octet it has on the air, and what it says about the configuration. */
  predicate Means(s: Structure, c: Config, h: Host) {
    if s.kind == 0x09 then c.name == Some(Full) && s.value == h.name
    else if s.kind == 0x08 then c.name.Some? && c.name.value.Short? && s.value <= h.name
                                && (|s.value| == c.name.value.length || (s.value == h.name && |h.name| < c.name.value.length))
    else if s.kind == 0x02 || s.kind == 0x03 then
      c.serviceUuid.Some? && |s.value| == 2 && MatchesBytes(c.serviceUuid.value, h.base, s.value)
      && (s.kind == 0x03 <==> h.services == 1)
    else if s.kind == 0x06 || s.kind == 0x07 then
      c.serviceUuid.Some? && |s.value| == 16 && MatchesBytes(c.serviceUuid.value, h.base, s.value)
      && (s.kind == 0x07 <==> h.services == 1)
    else if s.kind == 0x16 then
      c.serviceData.Some? && |s.value| >= 2 && MatchesBytes(c.serviceData.value.0, h.base, s.value[..2])
      && s.value[2..] == c.serviceData.value.1
    else if s.kind == 0x21 then
      c.serviceData.Some? && |s.value| >= 16 && MatchesBytes(c.serviceData.value.0, h.base, s.value[..16])
      && s.value[16..] == c.serviceData.value.1
    else if s.kind == 0xFF then
      c.manufacturerData.Some? && |s.value| >= 2 && U16Decode(s.value) == c.manufacturerData.value.0
      && s.value[2..] == c.manufacturerData.value.1
    else s.kind == 0x0A && c.txPower.Some? && s.value == [c.txPower.value]
  }

  /** One structure for everything that is configured and can be said. */
  function Asked(c: Config, h: Host): nat {
    (if c.name.Some? && h.name != [] && c.name.value != Short(0) then 1 else 0)
    + (if c.serviceUuid.Some? && IsValid(c.serviceUuid.value, h.base) then 1 else 0)
    + (if c.serviceData.Some? && IsValid(c.serviceData.value.0, h.base) then 1 else 0)
    + (if c.manufacturerData.Some? then 1 else 0) + (if c.txPower.Some? then 1 else 0)
  }

  lemma {:induction false} NameMeans(c: Config, h: Host)
    requires c.name.Some?
    ensures forall s :: s in NameStructures(c.name.value, h) ==> Means(s, c, h)
    ensures |NameStructures(c.name.value, h)| == if h.name != [] && c.name.value != Short(0) then 1 else 0
  {
  }

  lemma {:induction false} ServicesMean(c: Config, h: Host)
    ensures c.serviceUuid.Some? ==> forall s :: s in UuidStructures(c.serviceUuid.value, h) ==> Means(s, c, h)
    ensures c.serviceData.Some? ==>
      forall s :: s in ServiceDataStructures(c.serviceData.value.0, c.serviceData.value.1, h) ==> Means(s, c, h)
  {
    hide U16Encode;
    if c.serviceData.Some? && IsValid(c.serviceData.value.0, h.base) {
      var octets := Uuids.Encode(c.serviceData.value.0, h.base);
      var value := octets + c.serviceData.value.1;
      assert value[..|octets|] == octets && value[|octets|..] == c.serviceData.value.1;
    }
  }

  lemma {:induction false} MakerMeans(c: Config, h: Host)
    ensures forall s :: s in MakerAndPower(c) ==> Means(s, c, h)
  {
    if c.manufacturerData.Some? {
      var value := U16Encode(c.manufacturerData.value.0) + c.manufacturerData.value.1;
      assert value[0] == U16Encode(c.manufacturerData.value.0)[0] && value[1] == U16Encode(c.manufacturerData.value.0)[1];
      assert value[2..] == c.manufacturerData.value.1;
    }
  }

  /** The order of the types: name, UUID, service data, manufacturer data, power. */
  function Turn(kind: byte): nat {
    if kind == 0x08 || kind == 0x09 then 0
    else if kind == 0x02 || kind == 0x03 || kind == 0x06 || kind == 0x07 then 1
    else if kind == 0x16 || kind == 0x21 then 2
    else if kind == 0xFF then 3
    else 4
  }

  /** The structures come in order of their turns, which begin at first and end before last. */
  predicate Turning(ss: seq<Structure>, first: nat, last: nat) {
    && (forall i :: 0 <= i < |ss| ==> first <= Turn(ss[i].kind) < last)
    && (forall i, j :: 0 <= i < j < |ss| ==> Turn(ss[i].kind) < Turn(ss[j].kind))
  }

  lemma {:induction false} TurningJoins(a: seq<Structure>, b: seq<Structure>, first: nat, middle: nat, last: nat)
    requires Turning(a, first, middle) && Turning(b, middle, last) && first <= middle <= last
    ensures Turning(a + b, first, last)
  {
    hide Turn;
  }

  lemma {:induction false} WantedTakesTurns(c: Config, h: Host)
    ensures Turning(Wanted(c, h), 0, 5)
  {
    var a := if c.name.Some? then NameStructures(c.name.value, h) else [];
    var b := if c.serviceUuid.Some? then UuidStructures(c.serviceUuid.value, h) else [];
    var d := if c.serviceData.Some? then ServiceDataStructures(c.serviceData.value.0, c.serviceData.value.1, h) else [];
    assert Turning(a, 0, 1);
    assert Turning(b, 1, 2);
    assert Turning(d, 2, 3);
    MakerTakesTurns(c);
    hide NameStructures;
    hide UuidStructures;
    hide ServiceDataStructures;
    hide MakerAndPower;
    hide Turning;
    TurningJoins(a, b, 0, 1, 2);
    TurningJoins(a + b, d, 0, 2, 3);
    TurningJoins(a + b + d, MakerAndPower(c), 0, 3, 5);
  }

  lemma {:induction false} MakerTakesTurns(c: Config)
    ensures Turning(MakerAndPower(c), 3, 5)
  {
  }

  /** What is wanted is one structure for everything configured, each with its meaning, in turn. */
  lemma {:induction false} WantedMeans(c: Config, h: Host)
    ensures |Wanted(c, h)| == Asked(c, h)
    ensures forall s :: s in Wanted(c, h) ==> Means(s, c, h)
    ensures Turning(Wanted(c, h), 0, 5)
  {
    WantedTakesTurns(c, h);
    if c.name.Some? { NameMeans(c, h); }
    ServicesMean(c, h);
    MakerMeans(c, h);
    hide Means;
    hide NameStructures;
  }

  /** So a receiver that parses the data learns only what was configured. */
  lemma {:induction false} ReceiverLearns(c: Config, h: Host)
    ensures forall s :: s in Parse(Encode(Fitted(Wanted(c, h), 0))) ==> Means(s, c, h)
  {
    AdvertisedRoundTrip(Wanted(c, h));
    WantedMeans(c, h);
    hide Means;
    hide Wanted;
  }
}
