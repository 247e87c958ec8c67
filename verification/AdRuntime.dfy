/** The advertising-data buffer and the received-data scans, step by step in place. */
module AdRuntime {
  import opened Bytes
  import opened Seqs
  import opened Uuids
  import opened AdData

  // ---- filling the buffer ------------------------------------------------------------------------

  // Adding structures one by one, each if it fits, is adding those that fit.
  lemma {:induction false} FittedJoin(wanted: seq<Structure>, more: seq<Structure>, used: nat)
    requires used <= ADV_DATA_MAX
    ensures used + |AdData.Encode(Fitted(wanted, used))| <= ADV_DATA_MAX
    ensures Fitted(wanted + more, used)
         == Fitted(wanted, used) + Fitted(more, used + |AdData.Encode(Fitted(wanted, used))|)
  {
    FittedFits(wanted, used);
    if wanted == [] {
      assert wanted + more == more;
    } else {
      assert (wanted + more)[1..] == wanted[1..] + more;
      var n := |wanted[0].value| + 2;
      if used + n <= ADV_DATA_MAX {
        FittedJoin(wanted[1..], more, used + n);
        assert Fitted(wanted, used)[1..] == Fitted(wanted[1..], used + n);
      } else {
        FittedJoin(wanted[1..], more, used);
      }
    }
  }

  lemma {:induction false} FittedAppend(wanted: seq<Structure>, more: seq<Structure>)
    ensures |AdData.Encode(Fitted(wanted, 0))| <= ADV_DATA_MAX
    ensures var used := |AdData.Encode(Fitted(wanted, 0))|;
            AdData.Encode(Fitted(wanted + more, 0)) == AdData.Encode(Fitted(wanted, 0)) + AdData.Encode(Fitted(more, used))
  {
    FittedJoin(wanted, more, 0);
    var used := |AdData.Encode(Fitted(wanted, 0))|;
    EncodeJoin(Fitted(wanted, 0), Fitted(more, used));
  }

  lemma {:induction false} FittedSingle(s: Structure, used: nat)
    requires used <= ADV_DATA_MAX
    ensures Encodable(s) || used + |s.value| + 2 > ADV_DATA_MAX
    ensures AdData.Encode(Fitted([s], used)) == if used + |s.value| + 2 <= ADV_DATA_MAX then EncodeOne(s) else []
  {
    var n := used + |s.value| + 2;
    assert [s][1..] == [];
    if n <= ADV_DATA_MAX {
      assert Fitted([s][1..], n) == [] && Fitted([s], used) == [s] + [] == [s];
      assert AdData.Encode([s][1..]) == [] && AdData.Encode([s]) == EncodeOne(s) + [] == EncodeOne(s);
    }
  }

  class AdBuffer {
    const payload: array<byte>
    var len: nat
    /** Everything that was to be added so far. */
    ghost var wanted: seq<Structure>

    ghost predicate Valid() reads this, payload {
      && payload.Length == ADV_DATA_MAX && len <= ADV_DATA_MAX
      && payload[..len] == AdData.Encode(Fitted(wanted, 0))
    }

    constructor ()
      ensures Valid() && fresh(payload) && wanted == []
    {
      payload := new byte[ADV_DATA_MAX];
      len, wanted := 0, [];
    }

    method Write(kind: byte, data: seq<byte>)
      requires payload.Length == ADV_DATA_MAX && len + |data| + 2 <= ADV_DATA_MAX
      modifies this`len, payload
      ensures len == old(len) + |data| + 2
      ensures payload[..len] == old(payload[..len]) + EncodeOne(Structure(kind, data))
    {
      payload[len] := |data| + 1;
      payload[len + 1] := kind;
      forall i | 0 <= i < |data| {
        payload[len + 2 + i] := data[i];
      }
      len := len + |data| + 2;
    }

    method AddStructure(kind: byte, data: seq<byte>) returns (ok: bool)
      requires Valid() && |data| <= 254
      modifies this, payload
      ensures Valid() && wanted == old(wanted) + [Structure(kind, data)]
      ensures ok == (old(len) + |data| + 2 <= ADV_DATA_MAX)
      ensures payload[..len] == old(payload[..len]) + if ok then EncodeOne(Structure(kind, data)) else []
    {
      hide AdData.Encode;
      hide Fitted;
      hide EncodeOne;
      ghost var s := Structure(kind, data);
      FittedAppend(wanted, [s]);
      FittedSingle(s, len);
      wanted := wanted + [s];
      ok := len + |data| + 2 <= ADV_DATA_MAX;
      if ok {
        Write(kind, data);
      }
    }

    method AddName(style: NameStyle, h: Host)
      requires Valid() && ValidHost(h)
      modifies this, payload
      ensures Valid() && wanted == old(wanted) + NameStructures(style, h)
    {
      if h.name == [] {
        return;
      }
      var kind, shown := COMPLETE_NAME, h.name;
      if style.Short? {
        kind := SHORT_NAME;
        if style.length < |h.name| {
          shown := h.name[..style.length];
        }
      }
      if shown == [] {
        return;
      }
      var _ := AddStructure(kind, shown);
    }

    method AddServiceUuid(u: Uuid, h: Host)
      requires Valid()
      modifies this, payload
      ensures Valid() && wanted == old(wanted) + UuidStructures(u, h)
    {
      if IsValid(u, h.base) {
        var long := EncodedLen(u, h.base) == UUID128_LEN;
        var kind := if h.services == 1 then if long then COMPLETE_UUID128 else COMPLETE_UUID16
                    else if long then INCOMPLETE_UUID128 else INCOMPLETE_UUID16;
        var _ := AddStructure(kind, Uuids.Encode(u, h.base));
      }
    }

    method AddServiceData(u: Uuid, data: seq<byte>, h: Host)
      requires Valid() && |data| <= FIELD_DATA_MAX
      modifies this, payload
      ensures Valid() && wanted == old(wanted) + ServiceDataStructures(u, data, h)
    {
      if IsValid(u, h.base) {
        var kind := if EncodedLen(u, h.base) == UUID128_LEN then SERVICE_DATA_UUID128 else SERVICE_DATA_UUID16;
        var _ := AddStructure(kind, Uuids.Encode(u, h.base) + data);
      }
    }

    method AddNameAndServices(c: Config, h: Host)
      requires Valid() && ValidHost(h) && ValidConfig(c)
      modifies this, payload
      ensures Valid()
      ensures wanted == old(wanted) + NameAndServices(c, h)
    {
      hide NameStructures;
      hide UuidStructures;
      hide ServiceDataStructures;
      hide Valid;
      if c.name.Some? {
        AddName(c.name.value, h);
      }
      if c.serviceUuid.Some? {
        AddServiceUuid(c.serviceUuid.value, h);
      }
      if c.serviceData.Some? {
        AddServiceData(c.serviceData.value.0, c.serviceData.value.1, h);
      }
    }

    method AddMakerAndPower(c: Config)
      requires Valid() && ValidConfig(c)
      modifies this, payload
      ensures Valid()
      ensures wanted == old(wanted) + MakerAndPower(c)
    {
      hide Valid;
      if c.manufacturerData.Some? {
        var _ := AddStructure(MANUFACTURER_DATA, U16Encode(c.manufacturerData.value.0) + c.manufacturerData.value.1);
      }
      if c.txPower.Some? {
        var _ := AddStructure(TX_POWER, [c.txPower.value]);
      }
    }

    method AddAdvData(c: Config, h: Host)
      requires Valid() && ValidHost(h) && ValidConfig(c)
      modifies this, payload
      ensures Valid()
      ensures wanted == old(wanted) + Wanted(c, h)
    {
      hide NameAndServices;
      hide MakerAndPower;
      hide Valid;
      AddNameAndServices(c, h);
      AddMakerAndPower(c);
    }
  }

  /** An advertising PDU carries the flags, then what is configured; a scan response has no flags. */
  method BuildAdvData(flags: Option<byte>, c: Config, h: Host) returns (data: seq<byte>)
    requires ValidHost(h) && ValidConfig(c)
    ensures |data| <= ADV_DATA_MAX
    ensures Parse(data) == Fitted((if flags.Some? then [Structure(0x01, [flags.value])] else []) + Wanted(c, h), 0)
  {
    hide Wanted;
    hide Parse;
    hide Fitted;
    var buffer := new AdBuffer();
    if flags.Some? {
      var _ := buffer.AddStructure(FLAGS, [flags.value]);
    }
    buffer.AddAdvData(c, h);
    assert buffer.wanted == (if flags.Some? then [Structure(FLAGS, [flags.value])] else []) + Wanted(c, h);
    data := buffer.payload[..buffer.len];
    AdvertisedRoundTrip(buffer.wanted);
  }

  // ---- looking through received data ---------------------------------------------------------------

  /** Step over one structure. The slices stay inside the data whatever it contains. */
  method NextStructure(data: seq<byte>, offset: nat) returns (ok: bool, next: nat, kind: byte, value: seq<byte>)
    requires offset <= |data| <= 0xFF
    ensures ok == !Stops(data[offset..])
    ensures ok ==> Structure(kind, value) == First(data[offset..])
    ensures ok ==> offset < next <= |data| && next == offset + data[offset] + 1
  {
    if offset >= |data| {
      return false, 0, 0, [];
    }
    var fieldLen := data[offset];
    if fieldLen == 0 || offset + fieldLen + 1 > |data| {
      return false, 0, 0, [];
    }
    kind := data[offset + 1];
    value := data[offset + 2..offset + 2 + (fieldLen - 1)];
    next := offset + fieldLen + 1;
    ok := true;
    assert data[offset..][2..fieldLen + 1] == value;
  }

  ghost predicate Seen(data: seq<byte>, offset: nat, done: seq<Structure>) {
    offset <= |data| && Parse(data) == done + Parse(data[offset..])
  }

  lemma {:induction false} SeenNone(data: seq<byte>)
    ensures Seen(data, 0, [])
  {
    assert data[0..] == data;
  }

  lemma {:induction false} ParseStep(rest: seq<byte>)
    requires !Stops(rest)
    ensures rest[0] as int + 1 <= |rest|
    ensures Parse(rest) == [First(rest)] + Parse(rest[rest[0] as int + 1..])
  {
  }

  lemma {:induction false} SeenOne(data: seq<byte>, offset: nat, done: seq<Structure>, s: Structure)
    requires Seen(data, offset, done) && offset < |data| && !Stops(data[offset..]) && s == First(data[offset..])
    ensures Seen(data, offset + data[offset] + 1, done + [s])
  {
    hide Parse;
    hide First;
    var n := data[offset] as int + 1;
    ParseStep(data[offset..]);
    DropTwice(data, offset, n);
    Regroup(done, [s], Parse(data[offset + n..]));
  }

  lemma {:induction false} SeenAll(data: seq<byte>, offset: nat, done: seq<Structure>)
    requires Seen(data, offset, done) && Stops(data[offset..])
    ensures Parse(data) == done
  {
  }

  lemma {:induction false} SeenThere(data: seq<byte>, offset: nat, done: seq<Structure>, s: Structure)
    requires Seen(data, offset, done + [s])
    ensures s in Parse(data)
  {
    assert (done + [s])[|done|] == s;
    assert Parse(data)[|done|] == s;
  }

  predicate IsName(s: Structure, name: seq<byte>) {
    (s.kind == SHORT_NAME || s.kind == COMPLETE_NAME) && s.value == name
  }

  /** Some name structure holds exactly the filter's name, which is not empty. */
  ghost predicate HasName(ss: seq<Structure>, name: seq<byte>) {
    name != [] && exists s :: s in ss && IsName(s, name)
  }

  method MatchesName(data: seq<byte>, name: seq<byte>) returns (found: bool)
    requires |data| <= 0xFF
    ensures found == HasName(Parse(data), name)
  {
    if name == [] {
      return false;
    }
    ghost var done: seq<Structure> := [];
    var offset := 0;
    SeenNone(data);
    hide Seen;
    hide Parse;
    hide Stops;
    hide First;
    while true
      invariant offset <= |data| && Seen(data, offset, done)
      invariant forall s :: s in done ==> !IsName(s, name)
      decreases |data| - offset
    {
      var ok, next, kind, value := NextStructure(data, offset);
      if !ok {
        SeenAll(data, offset, done);
        return false;
      }
      ghost var s := Structure(kind, value);
      SeenOne(data, offset, done, s);
      if (kind == SHORT_NAME || kind == COMPLETE_NAME) && |value| == |name| && value == name {
        SeenThere(data, next, done, s);
        assert IsName(s, name);
        return true;
      }
      done := done + [s];
      offset := next;
    }
  }

  /** uuid is one of the entries of the list. */
  predicate ListHas(list: seq<byte>, uuid: seq<byte>)
    requires uuid != []
  {
    exists i :: 0 <= i <= |list| - |uuid| && i % |uuid| == 0 && list[i..i + |uuid|] == uuid
  }

  predicate IsListWith(s: Structure, incomplete: byte, complete: byte, uuid: seq<byte>)
    requires uuid != []
  {
    (s.kind == incomplete || s.kind == complete) && |s.value| % |uuid| == 0 && ListHas(s.value, uuid)
  }

  /** Some well-formed list of such UUIDs has the one looked for. */
  ghost predicate HasUuid(ss: seq<Structure>, incomplete: byte, complete: byte, uuid: seq<byte>)
    requires uuid != []
  {
    exists s :: s in ss && IsListWith(s, incomplete, complete, uuid)
  }

  lemma {:induction false} NextMultiple(i: nat, k: nat, n: nat)
    requires (n == 2 || n == 16) && i % n == 0 && k % n == 0
    ensures (i + n) % n == 0
    ensures i < k ==> i + n <= k
  {
    if n == 2 {
      assert (i + 2) % 2 == 0;
    } else {
      assert (i + 16) % 16 == 0;
    }
  }

  /** No entry of the list before i is the one looked for. */
  ghost predicate NotBefore(list: seq<byte>, uuid: seq<byte>, i: nat)
    requires uuid != []
  {
    forall k :: 0 <= k < i && k <= |list| - |uuid| && k % |uuid| == 0 ==> list[k..k + |uuid|] != uuid
  }

  lemma {:induction false} NotBeforeNext(list: seq<byte>, uuid: seq<byte>, i: nat)
    requires (|uuid| == 2 || |uuid| == 16) && i % |uuid| == 0 && i + |uuid| <= |list|
    requires NotBefore(list, uuid, i) && list[i..i + |uuid|] != uuid
    ensures NotBefore(list, uuid, i + |uuid|) && (i + |uuid|) % |uuid| == 0
  {
    NextMultiple(i, i, |uuid|);
    forall k | 0 <= k < i + |uuid| && k <= |list| - |uuid| && k % |uuid| == 0
      ensures list[k..k + |uuid|] != uuid
    {
      NextMultiple(i, k, |uuid|);
      assert k < i || k == i;
    }
  }

  method SearchList(list: seq<byte>, uuid: seq<byte>) returns (found: bool)
    requires |uuid| == UUID16_LEN || |uuid| == UUID128_LEN
    ensures found == ListHas(list, uuid)
  {
    var i := 0;
    while i + |uuid| <= |list|
      invariant i % |uuid| == 0 && NotBefore(list, uuid, i)
    {
      if list[i..i + |uuid|] == uuid {
        return true;
      }
      NotBeforeNext(list, uuid, i);
      hide NotBefore;
      i := i + |uuid|;
    }
    found := false;
  }

  method ContainsUuid(data: seq<byte>, uuid: seq<byte>, incomplete: byte, complete: byte) returns (found: bool)
    requires |data| <= 0xFF && (|uuid| == UUID16_LEN || |uuid| == UUID128_LEN)
    ensures found == HasUuid(Parse(data), incomplete, complete, uuid)
  {
    ghost var done: seq<Structure> := [];
    var offset := 0;
    SeenNone(data);
    hide Seen;
    hide Parse;
    hide Stops;
    hide First;
    hide ListHas;
    while true
      invariant offset <= |data| && Seen(data, offset, done)
      invariant forall s :: s in done ==> !IsListWith(s, incomplete, complete, uuid)
      decreases |data| - offset
    {
      var ok, next, kind, value := NextStructure(data, offset);
      if !ok {
        SeenAll(data, offset, done);
        return false;
      }
      ghost var s := Structure(kind, value);
      SeenOne(data, offset, done, s);
      if (kind == incomplete || kind == complete) && |value| != 0 && |value| % |uuid| == 0 {
        var listed := SearchList(value, uuid);
        if listed {
          SeenThere(data, next, done, s);
          assert IsListWith(s, incomplete, complete, uuid);
          return true;
        }
      } else {
        EmptyListHasNone(uuid);
      }
      done := done + [s];
      offset := next;
    }
  }

  lemma {:induction false} EmptyListHasNone(uuid: seq<byte>)
    requires uuid != []
    ensures !ListHas([], uuid)
  {
  }
}
