/** Client and server exchanging PDUs until the procedure ends, and what the client has reported then. */
module DiscoveryRun {
  import opened Bytes
  import opened Seqs
  import opened Uuids
  import opened GattTable
  import opened AttSpec
  import opened ClientSpec
  import opened Discovery

  /** The query a client procedure puts to the server. */
  function QueryOf(c: Client, base: Base): Query
    requires CanAsk(c, base)
  {
    match c.procedure
    case PrimaryServices => Services
    case PrimaryServicesByUuid => ServicesWith(Encode(c.serviceUuid, base))
    case Characteristics => Typed(U16Encode(CHARACTERISTIC.short))
    case Descriptors => Everything
  }

  /** What a client ought to report about a table entry. */
  function EventOf(c: Client, db: Db, a: Attr): Event
    requires db.attrs != [] && CanAsk(c, db.base) && IsValid(a.uuid, db.base)
    requires c.procedure == Characteristics ==> |a.value| >= 3
  {
    match c.procedure
    case PrimaryServices => ServiceFound(a.handle, EndHandle(db.attrs, a.handle), FromBytes(a.value))
    case PrimaryServicesByUuid => ServiceFound(a.handle, EndHandle(db.attrs, a.handle), c.serviceUuid)
    case Characteristics =>
      CharacteristicFound(a.handle, a.value[0], U16Decode(a.value[1..]), FromBytes(a.value[3..]))
    case Descriptors => DescriptorFound(a.handle, FromBytes(Encode(a.uuid, db.base)))
  }

  /** A service's value is a UUID, a declaration's is properties, handle and UUID. */
  predicate Presentable(p: Procedure, a: Attr) {
    match p
    case PrimaryServices => |a.value| == UUID16_LEN || |a.value| == UUID128_LEN
    case Characteristics => |a.value| == 3 + UUID16_LEN || |a.value| == 3 + UUID128_LEN
    case _ => true
  }

  ghost predicate AllPresentable(c: Client, db: Db)
    requires CanAsk(c, db.base)
  {
    forall i :: 0 <= i < |db.attrs| && Matches(QueryOf(c, db.base), db.attrs[i], db.base) ==>
      Presentable(c.procedure, db.attrs[i])
  }

  function EventsOf(c: Client, db: Db, page: seq<Attr>): (events: seq<Event>)
    requires db.attrs != [] && CanAsk(c, db.base)
    requires forall a :: a in page ==> IsValid(a.uuid, db.base) && Presentable(c.procedure, a)
    ensures |events| == |page|
  {
    if page == [] then [] else
      assert page[0] in page && Presentable(c.procedure, page[0]);
      [EventOf(c, db, page[0])] + EventsOf(c, db, page[1..])
  }

  // ---- the request arrives as it was meant ---------------------------------------------------------

  lemma {:induction false} AnswerToRequest(c: Client, db: Db, max: nat)
    requires AllValid(db) && CanAsk(c, db.base)
    ensures Answer(db, Request(c, db.base), max)
         == Respond(QueryOf(c, db.base), db, c.rangeStart, c.rangeEnd, max)
  {
    hide Respond;
    var pdu := Request(c, db.base);
    var start := U16Encode(c.rangeStart);
    var end := U16Encode(c.rangeEnd);
    assert pdu[1] == start[0] && pdu[2] == start[1] && pdu[3] == end[0] && pdu[4] == end[1];
    match c.procedure
    case PrimaryServices =>
      assert pdu[5..] == U16Encode(PRIMARY_SERVICE.short);
    case PrimaryServicesByUuid =>
      var uuid := Encode(c.serviceUuid, db.base);
      assert pdu[7..] == uuid;
      assert pdu[5] == U16Encode(PRIMARY_SERVICE.short)[0] && pdu[6] == U16Encode(PRIMARY_SERVICE.short)[1];
    case Characteristics =>
      assert pdu[5..] == U16Encode(CHARACTERISTIC.short);
    case Descriptors =>
  }

  // ---- the client parses what the server prints ---------------------------------------------------------

  lemma {:induction false} DecodeEntry(c: Client, db: Db, a: Attr)
    requires db.attrs != [] && CanAsk(c, db.base) && IsValid(a.uuid, db.base) && Presentable(c.procedure, a)
    ensures EntryLen(QueryOf(c, db.base), a, db.base) >= MinItem(c.procedure)
    ensures Decode(c, Entry(QueryOf(c, db.base), a, db)) == EventOf(c, db, a)
  {
    hide EndHandle;
    hide Encode;
    hide FromBytes;
    var e := Entry(QueryOf(c, db.base), a, db);
    var h := U16Encode(a.handle);
    assert e[0] == h[0] && e[1] == h[1];
    match c.procedure
    case PrimaryServices =>
      assert e[2] == U16Encode(EndHandle(db.attrs, a.handle))[0] && e[3] == U16Encode(EndHandle(db.attrs, a.handle))[1];
      assert e[4..] == a.value;
    case PrimaryServicesByUuid =>
      assert e[2] == U16Encode(EndHandle(db.attrs, a.handle))[0] && e[3] == U16Encode(EndHandle(db.attrs, a.handle))[1];
    case Characteristics =>
      assert e[2] == a.value[0] && e[3] == a.value[1] && e[4] == a.value[2];
      assert e[5..] == a.value[3..];
    case Descriptors =>
      assert e[2..] == Encode(a.uuid, db.base);
  }

  lemma {:induction false} EntriesCons(q: Query, db: Db, page: seq<Attr>)
    requires db.attrs != [] && page != [] && forall a :: a in page ==> IsValid(a.uuid, db.base)
    ensures Entries(q, db, page) == Entry(q, page[0], db) + Entries(q, db, page[1..])
    decreases |page|
  {
    hide Entry;
    var n := |page| - 1;
    if n == 0 {
      assert page[1..] == [] && page[..0] == [];
    } else {
      EntriesCons(q, db, page[..n]);
      assert page[..n][1..] == page[1..][..n - 1] && page[1..][n - 1] == page[n];
      var middle := Entries(q, db, page[1..][..n - 1]);
      Regroup(Entry(q, page[0], db), middle, Entry(q, page[n], db));
    }
  }

  lemma {:induction false} ParsePage(c: Client, db: Db, before: seq<byte>, page: seq<Attr>, len: nat)
    requires db.attrs != [] && CanAsk(c, db.base) && len >= MinItem(c.procedure) && len > 0
    requires forall a :: a in page ==> IsValid(a.uuid, db.base) && Presentable(c.procedure, a)
    requires forall a :: a in page ==> EntryLen(QueryOf(c, db.base), a, db.base) == len
    ensures Parse(c, before + Entries(QueryOf(c, db.base), db, page), |before|, len) == EventsOf(c, db, page)
    decreases |page|
  {
    hide Entry;
    hide Decode;
    hide EventOf;
    var q := QueryOf(c, db.base);
    var rsp := before + Entries(q, db, page);
    if page != [] {
      assert page[0] in page;
      EntriesCons(q, db, page);
      var e := Entry(q, page[0], db);
      var rest := Entries(q, db, page[1..]);
      assert rsp == (before + e) + rest;
      assert rsp[|before|..|before| + len] == e;
      DecodeEntry(c, db, page[0]);
      ParsePage(c, db, before + e, page[1..], len);
    }
  }

  // ---- one request, one response ---------------------------------------------------------------------------

  /** A client in the middle of a procedure, with its request on the way. */
  ghost predicate Asking(c: Client, db: Db) {
    CanAsk(c, db.base) && 1 <= c.rangeStart && Sound(db) && AllPresentable(c, db)
  }

  function Remaining(c: Client, db: Db): seq<Attr>
    requires CanAsk(c, db.base) && 1 <= c.rangeStart
  {
    Beyond(QueryOf(c, db.base), db, c.rangeEnd, c.rangeStart - 1)
  }

  /** The handle a client goes on from after the entry a. */
  function Resume(c: Client, db: Db, a: Attr): u16
    requires db.attrs != []
  {
    if c.procedure == PrimaryServices || c.procedure == PrimaryServicesByUuid then EndHandle(db.attrs, a.handle)
    else a.handle
  }

  lemma {:induction false} RemainingFacts(c: Client, db: Db, max: nat)
    requires Asking(c, db) && max >= ATT_MTU_DEFAULT
    ensures var found := Remaining(c, db);
            && Found(QueryOf(c, db.base), db, c.rangeStart, c.rangeEnd, 0) == found
            && (forall a :: a in found ==> IsValid(a.uuid, db.base) && Presentable(c.procedure, a) && a in db.attrs)
            && RoomForOne(QueryOf(c, db.base), db.base, found, max)
  {
    var q := QueryOf(c, db.base);
    var found := Remaining(c, db);
    FoundIsBeyond(q, db, c.rangeStart, c.rangeEnd);
    FoundAscends(q, db, c.rangeStart, c.rangeEnd, 0);
    forall a | a in found
      ensures a in db.attrs && IsValid(a.uuid, db.base) && Presentable(c.procedure, a)
      ensures EntryLen(q, a, db.base) + HeaderLen(q) <= max
    {
      var k :| 0 <= k < |found| && found[k] == a;
      var i :| 0 <= i < |db.attrs| && db.attrs[i] == a;
    }
  }

  lemma {:induction false} LastOfEvents(c: Client, db: Db, page: seq<Attr>)
    requires Asking(c, db) && page != []
    requires forall a :: a in page ==> IsValid(a.uuid, db.base) && Presentable(c.procedure, a)
    ensures LastHandle(EventsOf(c, db, page)) == Resume(c, db, page[|page| - 1])
    decreases |page|
  {
    hide EndHandle;
    if |page| > 1 {
      LastOfEvents(c, db, page[1..]);
    } else {
      assert page[0] in page;
    }
  }

  // The header tells the client the length of the items.
  lemma {:induction false} HeaderIsUnderstood(c: Client, base: Base, a: Attr, entries: seq<byte>)
    requires CanAsk(c, base) && IsValid(a.uuid, base) && Presentable(c.procedure, a)
    requires |entries| >= EntryLen(QueryOf(c, base), a, base)
    requires c.procedure == PrimaryServicesByUuid ==> |entries| % 4 == 0
    ensures var q := QueryOf(c, base);
            var len := EntryLen(q, a, base);
            && 2 <= len < 0x100 && len >= MinItem(c.procedure)
            && var rsp := ResponseHeader(q, len) + entries;
               |rsp| >= 2 && rsp[0] == ResponseFor(c.procedure) && ItemLen(c, rsp) == len
    ensures |ResponseHeader(QueryOf(c, base), EntryLen(QueryOf(c, base), a, base))| == FirstItem(c)
  {
  }

  /** The response is parsed into the events of its page. */
  lemma {:induction false} ItemsOfPage(c: Client, db: Db, page: seq<Attr>, len: nat)
    requires Asking(c, db) && page != []
    requires forall a :: a in page ==> IsValid(a.uuid, db.base) && Presentable(c.procedure, a)
    requires forall a :: a in page ==> EntryLen(QueryOf(c, db.base), a, db.base) == len
    ensures 2 <= len < 0x100
    ensures var q := QueryOf(c, db.base);
            var rsp := ResponseHeader(q, len) + Entries(q, db, page);
            && |rsp| >= 2 && rsp[0] == ResponseFor(c.procedure) && ItemLen(c, rsp) == len
            && len >= MinItem(c.procedure)
            && Parse(c, rsp, FirstItem(c), len) == EventsOf(c, db, page)
  {
    var q := QueryOf(c, db.base);
    assert page[0] in page;
    EntriesLen(q, db, page, len);
    assert |page| * len >= len;
    assert c.procedure == PrimaryServicesByUuid ==> (|page| * 4) % 4 == 0;
    HeaderIsUnderstood(c, db.base, page[0], Entries(q, db, page));
    hide Entries;
    hide Parse;
    hide EventsOf;
    hide ItemLen;
    hide ResponseHeader;
    hide FirstItem;
    ParsePage(c, db, ResponseHeader(q, len), page, len);
  }

  lemma {:induction false} EntriesLen(q: Query, db: Db, page: seq<Attr>, len: nat)
    requires db.attrs != [] && forall a :: a in page ==> IsValid(a.uuid, db.base) && EntryLen(q, a, db.base) == len
    ensures |Entries(q, db, page)| == |page| * len
    decreases |page|
  {
    hide Entry;
    hide EntryLen;
    if page != [] {
      var n := |page| - 1;
      assert page[n] in page;
      EntriesLen(q, db, page[..n], len);
      Multiples(n, len);
    }
  }

  lemma {:induction false} Multiples(n: nat, len: nat)
    ensures (n + 1) * len == n * len + len
  {
  }

  /** One exchange: the server's answer to the outstanding request, and the client's reaction to it. */
  function Exchange(c: Client, db: Db, max: nat): Reaction
    requires AllValid(db) && CanAsk(c, db.base)
  {
    var rsp := Answer(db, Request(c, db.base), max);
    if rsp == [] then Reaction(c, [], None) else React(c, db.base, rsp, true)
  }

  // The attributes of the response to the outstanding request, and those left for later requests.
  function PageOf(c: Client, db: Db, max: nat): seq<Attr>
    requires Asking(c, db) && max >= ATT_MTU_DEFAULT
  {
    RemainingFacts(c, db, max);
    Page(QueryOf(c, db.base), db.base, Remaining(c, db), max)
  }

  function LeftOf(c: Client, db: Db, max: nat): seq<Attr>
    requires Asking(c, db) && max >= ATT_MTU_DEFAULT
  {
    var q := QueryOf(c, db.base);
    var found := Remaining(c, db);
    if found == [] then []
    else
      RemainingFacts(c, db, max);
      assert found[0] in found;
      var len := EntryLen(q, found[0], db.base);
      RestAfter(q, db.base, found, len, Room(q, len, max))
  }

  lemma {:induction false} PageFacts(c: Client, db: Db, max: nat)
    requires Asking(c, db) && max >= ATT_MTU_DEFAULT && Remaining(c, db) != []
    ensures var q := QueryOf(c, db.base);
            var found := Remaining(c, db);
            var page := PageOf(c, db, max);
            var left := LeftOf(c, db, max);
            && page != []
            && (forall a :: a in page ==> IsValid(a.uuid, db.base) && Presentable(c.procedure, a) && a in db.attrs)
            && (forall a :: a in page ==> EntryLen(q, a, db.base) == EntryLen(q, found[0], db.base))
            && |left| < |found| && left == found[|found| - |left|..]
            && (forall a :: a in found ==> IsValid(a.uuid, db.base)) && (forall a :: a in left ==> a in found)
            && page[|page| - 1] == found[|found| - |left| - 1]
  {
    var q := QueryOf(c, db.base);
    var found := Remaining(c, db);
    RemainingFacts(c, db, max);
    assert found[0] in found;
    var len := EntryLen(q, found[0], db.base);
    var room := Room(q, len, max);
    RoomPositive(q, len, max);
    TakeSameMembers(q, db.base, found, len, room);
    TakesFirst(q, db.base, found, room);
    hide TakeSame;
    hide RestAfter;
    hide Remaining;
    LastOfPage(q, db.base, found, len, room);
    RestIsSuffix(q, db.base, found, len, room);
  }

  lemma {:induction false} TakesFirst(q: Query, base: Base, found: seq<Attr>, room: nat)
    requires found != [] && room > 0
    ensures TakeSame(q, base, found, EntryLen(q, found[0], base), room) != []
  {
  }

  /** What all the requests report is this page and what the later ones report. */
  lemma {:induction false} ReportedByPages(c: Client, db: Db, max: nat)
    requires Asking(c, db) && max >= ATT_MTU_DEFAULT && Remaining(c, db) != []
    ensures var q := QueryOf(c, db.base);
            && (forall a :: a in Remaining(c, db) ==> IsValid(a.uuid, db.base))
            && (forall a :: a in LeftOf(c, db, max) ==> IsValid(a.uuid, db.base))
            && Reported(q, db.base, Remaining(c, db), max)
               == PageOf(c, db, max) + Reported(q, db.base, LeftOf(c, db, max), max)
  {
    var q := QueryOf(c, db.base);
    var found := Remaining(c, db);
    RemainingFacts(c, db, max);
    assert found[0] in found;
    RoomPositive(q, EntryLen(q, found[0], db.base), max);
    hide Reported;
    hide Page;
    hide Remaining;
    hide RestAfter;
    ReportedUnfolds(q, db.base, found, max);
  }

  lemma {:induction false} ExchangeEmpty(c: Client, db: Db, max: nat)
    requires Asking(c, db) && ATT_MTU_DEFAULT <= max && Remaining(c, db) == []
    ensures Exchange(c, db, max) == Completed(c, [])
  {
    RemainingFacts(c, db, max);
    AnswerToRequest(c, db, max);
  }

  lemma {:induction false} ExchangeRespond(c: Client, db: Db, max: nat)
    requires Asking(c, db) && ATT_MTU_DEFAULT <= max && Remaining(c, db) != []
    ensures var q := QueryOf(c, db.base);
            var len := EntryLen(q, Remaining(c, db)[0], db.base);
            && 2 <= len < 0x100
            && (forall a :: a in PageOf(c, db, max) ==> IsValid(a.uuid, db.base))
            && Answer(db, Request(c, db.base), max) == ResponseHeader(q, len) + Entries(q, db, PageOf(c, db, max))
  {
    var q := QueryOf(c, db.base);
    PageFacts(c, db, max);
    RemainingFacts(c, db, max);
    ItemsOfPage(c, db, PageOf(c, db, max), EntryLen(q, Remaining(c, db)[0], db.base));
    AnswerToRequest(c, db, max);
    hide RestAfter;
    hide Entries;
    hide TakeSame;
  }

  // A response whose items are these events, the last of them at this handle.
  lemma {:induction false} ReactsToPage(c: Client, base: Base, rsp: seq<byte>, len: nat, events: seq<Event>, last: u16)
    requires CanAsk(c, base) && |rsp| >= 2 && rsp[0] == ResponseFor(c.procedure) && ItemLen(c, rsp) == len && len > 0
    requires len >= MinItem(c.procedure) && Parse(c, rsp, FirstItem(c), len) == events && LastHandle(events) == last
    ensures React(c, base, rsp, true)
         == if last == 0 || last >= c.rangeEnd then Completed(c, events)
            else Reaction(c.(rangeStart := last + 1), events, Some(Request(c.(rangeStart := last + 1), base)))
  {
    hide Request;
    hide Parse;
    hide LastHandle;
    hide ItemLen;
  }

  lemma {:induction false} ExchangePage(c: Client, db: Db, max: nat)
    requires Asking(c, db) && ATT_MTU_DEFAULT <= max && Remaining(c, db) != []
    ensures var page := PageOf(c, db, max);
            && (forall a :: a in page ==> IsValid(a.uuid, db.base) && Presentable(c.procedure, a))
            && page != []
            && var events := EventsOf(c, db, page);
               var last := Resume(c, db, page[|page| - 1]);
               Exchange(c, db, max)
               == if last == 0 || last >= c.rangeEnd then Completed(c, events)
                  else Reaction(c.(rangeStart := last + 1), events, Some(Request(c.(rangeStart := last + 1), db.base)))
  {
    var q := QueryOf(c, db.base);
    var page := PageOf(c, db, max);
    ExchangeRespond(c, db, max);
    PageFacts(c, db, max);
    hide PageOf;
    hide LeftOf;
    hide Resume;
    hide EventsOf;
    hide Entries;
    hide ResponseHeader;
    hide Request;
    hide Parse;
    hide LastHandle;
    hide ItemLen;
    hide EntryLen;
    hide Presentable;
    hide React;
    hide Answer;
    hide Remaining;
    hide Sound;
    hide AllPresentable;
    var len := EntryLen(q, Remaining(c, db)[0], db.base);
    ItemsOfPage(c, db, page, len);
    LastOfEvents(c, db, page);
    ReactsToPage(c, db.base, ResponseHeader(q, len) + Entries(q, db, page), len, EventsOf(c, db, page),
                 Resume(c, db, page[|page| - 1]));
  }
}
