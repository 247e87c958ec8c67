/**
 * Whole discovery procedures: from the first request to the completion event, for every sound table,
 * every range and every ATT MTU from 23 up.
 */
module DiscoveryResults {
  import opened Bytes
  import opened Uuids
  import opened GattTable
  import opened AttSpec
  import opened ClientSpec
  import opened Discovery
  import opened DiscoveryRun

  // ---- where a service ends --------------------------------------------------------------------

  lemma {:induction false} EndFromFacts(db: Db, h: u16, i: nat)
    requires Sound(db) && 1 <= h <= |db.attrs| && i <= |db.attrs|
    requires forall j :: 0 <= j < i ==> !(IsService(db.attrs[j]) && db.attrs[j].handle > h)
    ensures var e := EndFrom(db.attrs, h, i);
            && h <= e <= |db.attrs|
            && (forall j :: 0 <= j < |db.attrs| && h < db.attrs[j].handle <= e ==> !IsService(db.attrs[j]))
            && (e < |db.attrs| ==> IsService(db.attrs[e]))
    decreases |db.attrs| - i
  {
    if i < |db.attrs| && !(IsService(db.attrs[i]) && db.attrs[i].handle > h) {
      EndFromFacts(db, h, i + 1);
    }
  }

  /** A service reaches up to the handle before the next one, or to the end of the table. */
  lemma {:induction false} EndHandleFacts(db: Db, h: u16)
    requires Sound(db) && 1 <= h <= |db.attrs|
    ensures var e := EndHandle(db.attrs, h);
            && h <= e <= |db.attrs|
            && (forall j :: 0 <= j < |db.attrs| && h < db.attrs[j].handle <= e ==> !IsService(db.attrs[j]))
            && (e < |db.attrs| ==> IsService(db.attrs[e]))
  {
    EndFromFacts(db, h, 0);
  }

  lemma {:induction false} BeyondSkips(q: Query, db: Db, end: u16, h: nat, h': nat)
    requires Sound(db) && h <= h' <= |db.attrs|
    requires forall j :: h <= j < h' ==> !Wanted(q, db, 0, end, db.attrs[j])
    ensures Beyond(q, db, end, h) == Beyond(q, db, end, h')
    decreases h' - h
  {
    if h < h' {
      BeyondSkips(q, db, end, h + 1, h');
    }
  }

  // ---- the next request asks for exactly what is left ---------------------------------------------

  // A service is resumed from its end, and no other service lies in between.
  lemma {:induction false} ResumeSkipsNothing(c: Client, db: Db, a: Attr)
    requires Asking(c, db) && 1 <= a.handle <= |db.attrs|
    ensures var last := Resume(c, db, a);
            && a.handle <= last <= |db.attrs|
            && Beyond(QueryOf(c, db.base), db, c.rangeEnd, last) == Beyond(QueryOf(c, db.base), db, c.rangeEnd, a.handle)
  {
    hide EndHandle;
    EndHandleFacts(db, a.handle);
    if c.procedure == PrimaryServices || c.procedure == PrimaryServicesByUuid {
      BeyondSkips(QueryOf(c, db.base), db, c.rangeEnd, a.handle, EndHandle(db.attrs, a.handle));
    }
  }

  lemma {:induction false} NextAsksForTheRest(c: Client, db: Db, max: nat)
    requires Asking(c, db) && max >= ATT_MTU_DEFAULT && Remaining(c, db) != []
    ensures var page := PageOf(c, db, max);
            && page != []
            && var last := Resume(c, db, page[|page| - 1]);
            && c.rangeStart <= last <= |db.attrs|
            && Beyond(QueryOf(c, db.base), db, c.rangeEnd, last) == LeftOf(c, db, max)
  {
    var q := QueryOf(c, db.base);
    var found := Remaining(c, db);
    var page := PageOf(c, db, max);
    var left := LeftOf(c, db, max);
    PageFacts(c, db, max);
    var k := |found| - |left| - 1;
    hide PageOf;
    hide LeftOf;
    hide Presentable;
    hide Resume;
    assert c.rangeStart - 1 <= |db.attrs|;
    FoundAscends(q, db, 0, c.rangeEnd, c.rangeStart - 1);
    assert page[|page| - 1] == found[k] && c.rangeStart <= found[k].handle <= |db.attrs|;
    BeyondFound(q, db, c.rangeEnd, c.rangeStart - 1, k);
    ResumeSkipsNothing(c, db, found[k]);
  }

  // Nothing is left when the last handle reaches the end of the range.
  lemma {:induction false} NothingBeyondTheRange(q: Query, db: Db, end: u16, h: u16)
    requires Sound(db) && end <= h
    ensures Beyond(q, db, end, h) == []
  {
    if h <= |db.attrs| {
      BeyondSkips(q, db, end, h, |db.attrs|);
    }
  }

  lemma {:induction false} StillAsking(c: Client, db: Db, start: u16)
    requires Asking(c, db) && 1 <= start
    ensures var c' := c.(rangeStart := start);
            && Asking(c', db) && QueryOf(c', db.base) == QueryOf(c, db.base)
            && Remaining(c', db) == Beyond(QueryOf(c, db.base), db, c.rangeEnd, start - 1)
  {
    var c' := c.(rangeStart := start);
    assert QueryOf(c', db.base) == QueryOf(c, db.base);
    assert AllPresentable(c', db) by {
      forall i | 0 <= i < |db.attrs| && Matches(QueryOf(c', db.base), db.attrs[i], db.base)
        ensures Presentable(c'.procedure, db.attrs[i]) {}
    }
  }

  lemma {:induction false} Progress(c: Client, db: Db, max: nat)
    requires Asking(c, db) && max >= ATT_MTU_DEFAULT
    requires Exchange(c, db, max).request.Some?
    ensures var r := Exchange(c, db, max);
            && Asking(r.client, db) && r.client == c.(rangeStart := r.client.rangeStart)
            && c.rangeStart < r.client.rangeStart <= c.rangeEnd
            && r.request == Some(Request(r.client, db.base))
    ensures Remaining(c, db) != [] && Remaining(Exchange(c, db, max).client, db) == LeftOf(c, db, max)
  {
    hide Exchange;
    hide EventsOf;
    hide PageOf;
    hide LeftOf;
    hide Request;
    hide Resume;
    hide Beyond;
    hide Remaining;
    hide Presentable;
    if Remaining(c, db) == [] {
      ExchangeEmpty(c, db, max);
    } else {
      ExchangePage(c, db, max);
      NextAsksForTheRest(c, db, max);
      var page := PageOf(c, db, max);
      StillAsking(c, db, Resume(c, db, page[|page| - 1]) + 1);
    }
  }

  /** A procedure run to its end; every follow-up request is accepted. */
  ghost function Run(c: Client, db: Db, max: nat): (Client, seq<Event>)
    requires Asking(c, db) && max >= ATT_MTU_DEFAULT
    decreases c.rangeEnd - c.rangeStart
  {
    var r := Exchange(c, db, max);
    if r.request.None? then (r.client, r.events)
    else
      Progress(c, db, max);
      var (end, later) := Run(r.client, db, max);
      (end, r.events + later)
  }

  // ---- what a run reports ------------------------------------------------------------------------

  lemma {:induction false} EventsSameClient(c: Client, c': Client, db: Db, page: seq<Attr>)
    requires db.attrs != [] && CanAsk(c, db.base) && c' == c.(rangeStart := c'.rangeStart)
    requires forall a :: a in page ==> IsValid(a.uuid, db.base) && Presentable(c.procedure, a)
    ensures EventsOf(c, db, page) == EventsOf(c', db, page)
  {
    hide EndHandle;
    if page != [] {
      EventsSameClient(c, c', db, page[1..]);
    }
  }

  lemma {:induction false} EventsJoin(c: Client, db: Db, page: seq<Attr>, later: seq<Attr>)
    requires db.attrs != [] && CanAsk(c, db.base)
    requires forall a :: a in page + later ==> IsValid(a.uuid, db.base) && Presentable(c.procedure, a)
    ensures EventsOf(c, db, page + later) == EventsOf(c, db, page) + EventsOf(c, db, later)
  {
    hide EventOf;
    if page == [] {
      assert page + later == later;
    } else {
      assert (page + later)[1..] == page[1..] + later;
      EventsJoin(c, db, page[1..], later);
    }
  }

  ghost predicate Ascending(attrs: seq<Attr>) {
    forall j, k :: 0 <= j < k < |attrs| ==> attrs[j].handle < attrs[k].handle
  }

  lemma {:induction false} PageAscends(q: Query, base: Base, found: seq<Attr>, len: nat, room: nat)
    requires Ascending(found)
    ensures Ascending(TakeSame(q, base, found, len, room))
  {
    if found != [] && room > 0 {
      var taken := EntryLen(q, found[0], base) == len;
      PageAscends(q, base, found[1..], len, if taken then room - 1 else room);
      TakeSameMembers(q, base, found[1..], len, if taken then room - 1 else room);
      if taken {
        var page := TakeSame(q, base, found[1..], len, room - 1);
        forall k | 0 <= k < |page| ensures found[0].handle < page[k].handle {
          assert page[k] in found[1..];
        }
      }
    }
  }

  lemma {:induction false} AscendingJoin(page: seq<Attr>, later: seq<Attr>, rest: seq<Attr>)
    requires Ascending(page) && Ascending(later) && page != []
    requires forall a :: a in later ==> a in rest
    requires forall k :: 0 <= k < |rest| ==> page[|page| - 1].handle < rest[k].handle
    ensures Ascending(page + later)
  {
    forall j, k | 0 <= j < k < |page + later| ensures (page + later)[j].handle < (page + later)[k].handle {
      if k >= |page| {
        assert later[k - |page|] in rest;
      }
    }
  }

  // A page, the attributes it leaves, and the order between the two.
  lemma {:induction false} PageBeforeRest(q: Query, base: Base, found: seq<Attr>, len: nat, room: nat)
    requires Ascending(found) && TakeSame(q, base, found, len, room) != []
    ensures var page := TakeSame(q, base, found, len, room);
            var left := RestAfter(q, base, found, len, room);
            && |left| < |found| && Ascending(left)
            && (forall k :: 0 <= k < |left| ==> left[k] in found && page[|page| - 1].handle < left[k].handle)
  {
    var left := RestAfter(q, base, found, len, room);
    LastOfPage(q, base, found, len, room);
    RestIsSuffix(q, base, found, len, room);
    hide TakeSame;
    hide RestAfter;
    forall k | 0 <= k < |left| ensures left[k] == found[|found| - |left| + k] {}
  }

  /** Reported attributes are found ones, in table order, and none is reported twice. */
  lemma {:induction false} ReportedAscends(q: Query, base: Base, found: seq<Attr>, max: nat)
    requires max >= HeaderLen(q) && forall a :: a in found ==> IsValid(a.uuid, base)
    requires Ascending(found)
    ensures forall a :: a in Reported(q, base, found, max) ==> a in found
    ensures Ascending(Reported(q, base, found, max))
    decreases |found|
  {
    if found != [] && Room(q, EntryLen(q, found[0], base), max) > 0 {
      var len := EntryLen(q, found[0], base);
      var room := Room(q, len, max);
      var page := TakeSame(q, base, found, len, room);
      var left := RestAfter(q, base, found, len, room);
      ReportedUnfolds(q, base, found, max);
      TakesFirst(q, base, found, room);
      PageBeforeRest(q, base, found, len, room);
      PageAscends(q, base, found, len, room);
      TakeSameMembers(q, base, found, len, room);
      hide Reported;
      hide TakeSame;
      hide RestAfter;
      hide Ascending;
      ReportedAscends(q, base, left, max);
      AscendingJoin(page, Reported(q, base, left, max), left);
    }
  }

  // ---- the runs ---------------------------------------------------------------------------------

  /** The attributes a whole procedure reports. */
  ghost function Discovered(c: Client, db: Db, max: nat): (found: seq<Attr>)
    requires Asking(c, db) && max >= ATT_MTU_DEFAULT
    ensures forall a :: a in found ==> IsValid(a.uuid, db.base) && Presentable(c.procedure, a)
  {
    RemainingFacts(c, db, max);
    RemainingAscends(c, db);
    ReportedAscends(QueryOf(c, db.base), db.base, Remaining(c, db), max);
    Reported(QueryOf(c, db.base), db.base, Remaining(c, db), max)
  }

  lemma {:induction false} RemainingAscends(c: Client, db: Db)
    requires Asking(c, db)
    ensures Ascending(Remaining(c, db))
    ensures forall a :: a in Remaining(c, db) ==> a in db.attrs
    ensures forall a :: a in Remaining(c, db) ==>
      Wanted(QueryOf(c, db.base), db, c.rangeStart, c.rangeEnd, a)
  {
    FoundIsBeyond(QueryOf(c, db.base), db, c.rangeStart, c.rangeEnd);
    FoundAscends(QueryOf(c, db.base), db, c.rangeStart, c.rangeEnd, 0);
  }

  lemma {:induction false} DiscoveredByPages(c: Client, db: Db, max: nat)
    requires Asking(c, db) && max >= ATT_MTU_DEFAULT
    requires Exchange(c, db, max).request.Some?
    ensures Asking(Exchange(c, db, max).client, db)
    ensures Discovered(c, db, max) == PageOf(c, db, max) + Discovered(Exchange(c, db, max).client, db, max)
  {
    hide Exchange;
    hide Reported;
    hide Remaining;
    hide PageOf;
    hide LeftOf;
    Progress(c, db, max);
    ReportedByPages(c, db, max);
  }

  lemma {:induction false} DiscoveredAtLast(c: Client, db: Db, max: nat)
    requires Asking(c, db) && max >= ATT_MTU_DEFAULT
    requires Exchange(c, db, max).request.None?
    ensures Exchange(c, db, max) == Completed(c, EventsOf(c, db, Discovered(c, db, max)))
  {
    hide Exchange;
    if Remaining(c, db) == [] {
      ExchangeEmpty(c, db, max);
    } else {
      ExchangePage(c, db, max);
      NextAsksForTheRest(c, db, max);
      ReportedByPages(c, db, max);
      var page := PageOf(c, db, max);
      NothingBeyondTheRange(QueryOf(c, db.base), db, c.rangeEnd, Resume(c, db, page[|page| - 1]));
      assert LeftOf(c, db, max) == [];
      assert Discovered(c, db, max) == page + [] == page;
    }
  }

  lemma {:induction false} PageEvents(c: Client, db: Db, max: nat)
    requires Asking(c, db) && max >= ATT_MTU_DEFAULT
    requires Exchange(c, db, max).request.Some?
    ensures forall a :: a in PageOf(c, db, max) ==> IsValid(a.uuid, db.base) && Presentable(c.procedure, a)
    ensures Exchange(c, db, max).events == EventsOf(c, db, PageOf(c, db, max))
  {
    Progress(c, db, max);
    ExchangePage(c, db, max);
    hide Exchange;
    hide PageOf;
    hide EventsOf;
    hide Remaining;
    hide Resume;
    hide Request;
  }

  lemma {:induction false} EventsStep(c: Client, db: Db, max: nat)
    requires Asking(c, db) && max >= ATT_MTU_DEFAULT
    requires Exchange(c, db, max).request.Some?
    ensures var r := Exchange(c, db, max);
            && Asking(r.client, db) && r.client.procedure == c.procedure
            && EventsOf(c, db, Discovered(c, db, max)) == r.events + EventsOf(r.client, db, Discovered(r.client, db, max))
  {
    hide Exchange;
    hide PageOf;
    hide Discovered;
    hide EventsOf;
    hide Remaining;
    Progress(c, db, max);
    DiscoveredByPages(c, db, max);
    PageEvents(c, db, max);
    var r := Exchange(c, db, max);
    var later := Discovered(r.client, db, max);
    EventsSameClient(c, r.client, db, later);
    EventsJoin(c, db, PageOf(c, db, max), later);
  }

  lemma {:induction false} RunReports(c: Client, db: Db, max: nat)
    requires Asking(c, db) && max >= ATT_MTU_DEFAULT
    ensures Run(c, db, max) == (IDLE, EventsOf(c, db, Discovered(c, db, max)) + [ProcedureComplete(c.procedure)])
    decreases c.rangeEnd - c.rangeStart
  {
    hide Exchange;
    hide Discovered;
    hide EventsOf;
    hide Remaining;
    var r := Exchange(c, db, max);
    if r.request.None? {
      DiscoveredAtLast(c, db, max);
    } else {
      Progress(c, db, max);
      EventsStep(c, db, max);
      RunReports(r.client, db, max);
      var later := EventsOf(r.client, db, Discovered(r.client, db, max));
      var done := [ProcedureComplete(c.procedure)];
      assert r.events + (later + done) == (r.events + later) + done;
    }
  }

  /**
   * Every procedure ends, idle and with one completion event, having reported real entries of the
   * range only, in handle order and none twice.
   */
  lemma {:induction false} DiscoveryIsSound(c: Client, db: Db, max: nat)
    requires Asking(c, db) && max >= ATT_MTU_DEFAULT
    ensures Run(c, db, max) == (IDLE, EventsOf(c, db, Discovered(c, db, max)) + [ProcedureComplete(c.procedure)])
    ensures Ascending(Discovered(c, db, max))
    ensures forall a :: a in Discovered(c, db, max) ==>
      a in db.attrs && Wanted(QueryOf(c, db.base), db, c.rangeStart, c.rangeEnd, a)
  {
    RunReports(c, db, max);
    RemainingFacts(c, db, max);
    RemainingAscends(c, db);
    ReportedAscends(QueryOf(c, db.base), db.base, Remaining(c, db), max);
  }

  /** All there is to discover in the range. */
  function Content(c: Client, db: Db): seq<Attr>
    requires CanAsk(c, db.base)
  {
    Found(QueryOf(c, db.base), db, c.rangeStart, c.rangeEnd, 0)
  }

  /** Everything in the range is reported when entries of equal length are contiguous. */
  lemma {:induction false} DiscoveryIsComplete(c: Client, db: Db, max: nat)
    requires Asking(c, db) && max >= ATT_MTU_DEFAULT
    requires Grouped(QueryOf(c, db.base), db.base, Content(c, db))
    ensures Discovered(c, db, max) == Content(c, db)
  {
    RemainingFacts(c, db, max);
    GroupedIsComplete(QueryOf(c, db.base), db.base, Content(c, db), max);
  }

  /** Discovery by UUID reports exactly the primary services that have it, at every MTU. */
  lemma {:induction false} ByUuidIsExact(c: Client, db: Db, max: nat)
    requires Asking(c, db) && max >= ATT_MTU_DEFAULT && c.procedure == PrimaryServicesByUuid
    ensures Discovered(c, db, max)
         == Found(ServicesWith(Encode(c.serviceUuid, db.base)), db, c.rangeStart, c.rangeEnd, 0)
  {
    var found := Content(c, db);
    assert Grouped(QueryOf(c, db.base), db.base, found) by {
      forall i | 0 <= i < |found| ensures LenAt(QueryOf(c, db.base), db.base, found, i) == 4 {}
    }
    DiscoveryIsComplete(c, db, max);
  }

  /** Where one page can hold all entries of a length, contiguity is also necessary. */
  lemma {:induction false} CompleteOnlyIfGrouped(c: Client, db: Db, max: nat)
    requires Asking(c, db) && max >= ATT_MTU_DEFAULT
    requires RoomForAll(QueryOf(c, db.base), db.base, Content(c, db), max)
    ensures Discovered(c, db, max) == Content(c, db) <==> Grouped(QueryOf(c, db.base), db.base, Content(c, db))
  {
    RemainingFacts(c, db, max);
    if Discovered(c, db, max) == Content(c, db) {
      CompleteIsGrouped(QueryOf(c, db.base), db.base, Content(c, db), max);
    } else if Grouped(QueryOf(c, db.base), db.base, Content(c, db)) {
      DiscoveryIsComplete(c, db, max);
    }
  }
}
