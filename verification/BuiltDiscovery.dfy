/** Discovery against a table the builder made: when it reports everything the application declared. */
module BuiltDiscovery {
  import opened Bytes
  import opened Seqs
  import opened Uuids
  import opened GattTable
  import opened AttSpec
  import opened ClientSpec
  import opened Discovery
  import opened DiscoveryRun
  import opened DiscoveryResults
  import opened TableFacts

  const LAST_HANDLE: u16 := 0xFFFF

  // ---- the matching entries of a table under construction ---------------------------------------------

  function Select(q: Query, base: Base, t: seq<Attr>): seq<Attr> {
    if t == [] then []
    else if Matches(q, t[0], base) then [t[0]] + Select(q, base, t[1..])
    else Select(q, base, t[1..])
  }

  lemma {:induction false} SelectJoin(q: Query, base: Base, t: seq<Attr>, more: seq<Attr>)
    ensures Select(q, base, t + more) == Select(q, base, t) + Select(q, base, more)
  {
    if t == [] {
      assert t + more == more;
    } else {
      assert (t + more)[1..] == t[1..] + more;
      SelectJoin(q, base, t[1..], more);
    }
  }

  lemma {:induction false} SelectNone(q: Query, base: Base, t: seq<Attr>)
    requires forall a :: a in t ==> !Matches(q, a, base)
    ensures Select(q, base, t) == []
  {
    if t != [] {
      assert t[0] in t;
      SelectNone(q, base, t[1..]);
    }
  }

  lemma {:induction false} SelectHas(q: Query, base: Base, t: seq<Attr>)
    ensures forall a :: a in Select(q, base, t) <==> a in t && Matches(q, a, base)
  {
    if t != [] {
      SelectHas(q, base, t[1..]);
      assert t == [t[0]] + t[1..];
    }
  }

  /** Searching every handle finds the matching entries. */
  lemma {:induction false} FoundIsSelect(q: Query, db: Db, i: nat)
    requires Sound(db) && i <= |db.attrs|
    ensures Found(q, db, 1, LAST_HANDLE, i) == Select(q, db.base, db.attrs[i..])
    decreases |db.attrs| - i
  {
    if i < |db.attrs| {
      FoundIsSelect(q, db, i + 1);
      assert db.attrs[i..][1..] == db.attrs[i + 1..];
    }
  }

  // ---- primary services --------------------------------------------------------------------------

  /** No characteristic is declared with the UUID of a service declaration. */
  ghost predicate NoServiceLookalike(s: Service) {
    forall j :: 0 <= j < |s.chars| ==> s.chars[j].uuid != PRIMARY_SERVICE
  }

  function DeclaredServices(services: seq<Service>, n: nat, base: Base): (d: seq<Attr>)
    requires n <= |services| && forall i :: 0 <= i < n ==> ValidService(services[i], base)
    requires ServicePos(services, n) < 0xFFFF
    ensures |d| == n
  {
    if n == 0 then []
    else
      assert ValidService(services[n - 1], base);
      DeclaredServices(services, n - 1, base) + [ServiceDecl(services[n - 1], ServicePos(services, n - 1) + 1, base)]
  }

  lemma {:induction false} CharsAddNoService(t: seq<Attr>, k: nat, chars: seq<Characteristic>, n: nat, base: Base)
    requires n <= |chars| && forall j :: 0 <= j < n ==> ValidChar(chars[j], base)
    requires |t| + 3 * n < 0xFFFF && forall j :: 0 <= j < n ==> chars[j].uuid != PRIMARY_SERVICE
    ensures Select(Services, base, AddChars(t, k, chars, n, base)) == Select(Services, base, t)
  {
    if n > 0 {
      CharsAddNoService(t, k, chars, n - 1, base);
      CharsGrow(t, k, chars, n, base);
      hide AddChars;
      hide ValidChar;
      var before := AddChars(t, k, chars, n - 1, base);
      var block := CharAttrs(chars[n - 1], k + n - 1, |before| + 1, base);
      SelectJoin(Services, base, before, block);
      SelectNone(Services, base, block);
    }
  }

  lemma {:induction false} ServiceSelected(t: seq<Attr>, s: Service, k: nat, base: Base)
    requires ValidService(s, base) && |t| + 3 * |s.chars| + 1 < 0xFFFF
    requires NoServiceLookalike(s)
    ensures Select(Services, base, AddService(t, s, k, base))
         == Select(Services, base, t) + [ServiceDecl(s, |t| + 1, base)]
  {
    hide AddChars;
    hide ValidChar;
    var decl := ServiceDecl(s, |t| + 1, base);
    CharsAddNoService(t + [decl], k, s.chars, |s.chars|, base);
    SelectJoin(Services, base, t, [decl]);
    assert [decl][1..] == [] && Select(Services, base, [decl]) == [decl];
  }

  lemma {:induction false} DeclaredGrow(services: seq<Service>, n: nat, base: Base)
    requires 0 < n <= |services| && forall i :: 0 <= i < n ==> ValidService(services[i], base)
    requires ServicePos(services, n) < 0xFFFF
    ensures ServicePos(services, n - 1) < 0xFFFF && IsValid(services[n - 1].uuid, base)
    ensures DeclaredServices(services, n, base)
         == DeclaredServices(services, n - 1, base)
            + [ServiceDecl(services[n - 1], ServicePos(services, n - 1) + 1, base)]
  {
    hide ServiceDecl;
    assert ValidService(services[n - 1], base);
  }

  lemma {:induction false} OneMoreSelected(t: seq<Attr>, services: seq<Service>, n: nat, base: Base)
    requires 0 < n <= |services| && forall i :: 0 <= i < n ==> ValidService(services[i], base)
    requires |t| + n + 3 * CharCount(services, n) < 0xFFFF && |t| == FIXED_ATTRS
    requires NoServiceLookalike(services[n - 1])
    ensures ServicePos(services, n - 1) + 1 < 0xFFFF && IsValid(services[n - 1].uuid, base)
    ensures Select(Services, base, AddServices(t, services, n, base))
         == Select(Services, base, AddServices(t, services, n - 1, base))
            + [ServiceDecl(services[n - 1], ServicePos(services, n - 1) + 1, base)]
  {
    hide AddServices;
    hide AddService;
    hide ServiceDecl;
    hide Select;
    hide ServicePos;
    ServicesGrow(services, n, base, t);
    ServicesSize(t, services, n - 1, base);
    ServiceSelected(AddServices(t, services, n - 1, base), services[n - 1], CharCount(services, n - 1), base);
  }

  lemma {:induction false} PosBounded(t: seq<Attr>, services: seq<Service>, n: nat, base: Base)
    requires n <= |services| && forall i :: 0 <= i < n ==> ValidService(services[i], base)
    requires |t| + n + 3 * CharCount(services, n) < 0xFFFF && |t| == FIXED_ATTRS
    ensures ServicePos(services, n) < 0xFFFF
  {
    ServicesSize(t, services, n, base);
  }

  /** Without lookalikes the service declarations added are the declared services, in order. */
  lemma {:induction false} ServicesSelected(t: seq<Attr>, services: seq<Service>, n: nat, base: Base)
    requires n <= |services| && forall i :: 0 <= i < n ==> ValidService(services[i], base)
    requires |t| + n + 3 * CharCount(services, n) < 0xFFFF && |t| == FIXED_ATTRS
    requires forall i :: 0 <= i < n ==> NoServiceLookalike(services[i])
    ensures ServicePos(services, n) < 0xFFFF
    ensures Select(Services, base, AddServices(t, services, n, base))
         == Select(Services, base, t) + DeclaredServices(services, n, base)
  {
    hide ValidService;
    hide ServiceDecl;
    hide NoServiceLookalike;
    hide Select;
    hide ServicePos;
    PosBounded(t, services, n, base);
    if n == 0 {
      assert DeclaredServices(services, 0, base) == [];
    } else {
      hide AddServices;
      hide DeclaredServices;
      ServicesSelected(t, services, n - 1, base);
      OneMoreSelected(t, services, n, base);
      DeclaredGrow(services, n, base);
      Regroup(Select(Services, base, t), DeclaredServices(services, n - 1, base),
              [ServiceDecl(services[n - 1], ServicePos(services, n - 1) + 1, base)]);
      return;
    }
  }

  lemma {:induction false} FixedServices(name: seq<byte>, base: Base)
    requires |name| <= 20
    ensures Select(Services, base, Fixed(name)) == [Fixed(name)[0], Fixed(name)[5]]
  {
    var t := Fixed(name);
    assert t == [t[0]] + [t[1], t[2], t[3], t[4]] + [t[5]];
    SelectJoin(Services, base, [t[0]] + [t[1], t[2], t[3], t[4]], [t[5]]);
    SelectJoin(Services, base, [t[0]], [t[1], t[2], t[3], t[4]]);
    SelectNone(Services, base, [t[1], t[2], t[3], t[4]]);
    assert [t[0]][1..] == [] && [t[5]][1..] == [];
    assert Select(Services, base, [t[0]]) == [t[0]] && Select(Services, base, [t[5]]) == [t[5]];
  }

  ghost predicate Built(name: seq<byte>, services: seq<Service>, base: Base) {
    Acceptable(name, services, base) && forall i :: 0 <= i < |services| ==> NoServiceLookalike(services[i])
  }

  /** The two fixed services, then the application's, each where the builder put it. */
  function AllServices(name: seq<byte>, services: seq<Service>, base: Base): (all: seq<Attr>)
    requires ValidServices(services, base) && |name| <= 20
    ensures |all| == 2 + |services|
  {
    PosBounded(Fixed(name), services, |services|, base);
    [Fixed(name)[0], Fixed(name)[5]] + DeclaredServices(services, |services|, base)
  }

  lemma {:induction false} ServicesOfTable(name: seq<byte>, services: seq<Service>, base: Base)
    requires Built(name, services, base)
    ensures Sound(Db(Table(name, services, base), base))
    ensures Found(Services, Db(Table(name, services, base), base), 1, LAST_HANDLE, 0) == AllServices(name, services, base)
  {
    hide Sound;
    hide Select;
    hide Matches;
    TableIsLinked(name, services, base);
    var db := Db(Table(name, services, base), base);
    FoundIsSelect(Services, db, 0);
    assert db.attrs[0..] == db.attrs;
    FixedServices(name, base);
    ServicesSelected(Fixed(name), services, |services|, base);
  }

  // The range of a service ends where the next one found begins.
  lemma {:induction false} RangeEndsAtNext(db: Db, k: nat)
    requires Sound(db)
    requires k < |Found(Services, db, 1, LAST_HANDLE, 0)|
    ensures var found := Found(Services, db, 1, LAST_HANDLE, 0);
            && 1 <= found[k].handle <= |db.attrs|
            && EndHandle(db.attrs, found[k].handle)
               == if k + 1 < |found| then found[k + 1].handle - 1 else |db.attrs|
  {
    var found := Found(Services, db, 1, LAST_HANDLE, 0);
    FoundAscends(Services, db, 1, LAST_HANDLE, 0);
    FoundIsSelect(Services, db, 0);
    SelectHas(Services, db.base, db.attrs);
    assert db.attrs[0..] == db.attrs;
    EndHandleFacts(db, found[k].handle);
    hide Found;
    hide Select;
    hide EndHandle;
    var e := EndHandle(db.attrs, found[k].handle);
    if k + 1 < |found| {
      var next := found[k + 1].handle;
      assert db.attrs[next - 1].handle == next;
      assert found[k + 1] in db.attrs;
      AtItsHandle(db, found[k + 1]);
      assert e < next;
    }
    if e < |db.attrs| {
      assert db.attrs[e] in found;
      var m :| 0 <= m < |found| && found[m] == db.attrs[e];
      assert m > k;
    }
  }

  lemma {:induction false} AtItsHandle(db: Db, a: Attr)
    requires Sound(db) && a in db.attrs
    ensures 1 <= a.handle <= |db.attrs| && db.attrs[a.handle - 1] == a
  {
  }

  lemma {:induction false} DeclaredHandle(services: seq<Service>, n: nat, i: nat, base: Base)
    requires i < n <= |services| && forall i :: 0 <= i < n ==> ValidService(services[i], base)
    requires ServicePos(services, n) < 0xFFFF
    ensures DeclaredServices(services, n, base)[i].handle == ServicePos(services, i) + 1
  {
    hide Encode;
    DeclaredGrow(services, n, base);
    if i < n - 1 {
      DeclaredHandle(services, n - 1, i, base);
    }
  }

  lemma {:induction false} ServiceHandle(name: seq<byte>, services: seq<Service>, base: Base, i: nat)
    requires Acceptable(name, services, base) && i < 2 + |services|
    ensures AllServices(name, services, base)[i].handle
         == if i == 0 then 1 else if i == 1 then 6 else ServicePos(services, i - 2) + 1
  {
    PosBounded(Fixed(name), services, |services|, base);
    if i >= 2 {
      DeclaredHandle(services, |services|, i - 2, base);
    }
    hide DeclaredServices;
    hide ServicePos;
  }

  lemma {:induction false} TableSize(name: seq<byte>, services: seq<Service>, base: Base)
    requires Acceptable(name, services, base)
    ensures ServicePos(services, 0) == 6 && |Table(name, services, base)| == ServicePos(services, |services|)
  {
    ServicesSize(Fixed(name), services, |services|, base);
  }

  /**
   * Every service is reported with the range the builder gave it: the fixed ones reach to the declaration
   * after them, a declared one to just before the next, and the last to the end of the table.
   */
  lemma {:induction false} ReportedRanges(name: seq<byte>, services: seq<Service>, base: Base, i: nat)
    requires Built(name, services, base) && i < 2 + |services|
    ensures var a := AllServices(name, services, base)[i];
            && a.handle == (if i == 0 then 1 else if i == 1 then 6 else ServicePos(services, i - 2) + 1)
            && EndHandle(Table(name, services, base), a.handle)
               == if i == 0 then 5 else ServicePos(services, i - 1)
  {
    var db := Db(Table(name, services, base), base);
    TableSize(name, services, base);
    ServicesOfTable(name, services, base);
    hide NoServiceLookalike;
    hide ValidServices;
    hide Table;
    hide AllServices;
    hide Sound;
    hide Found;
    hide EndHandle;
    hide ServicePos;
    RangeEndsAtNext(db, i);
    ServiceHandle(name, services, base, i);
    if i + 1 < 2 + |services| {
      ServiceHandle(name, services, base, i + 1);
    }
  }

  // ---- the full discovery of primary services -----------------------------------------------------------

  /** The client as the discover-services call leaves it. */
  const DISCOVER_SERVICES: Client := Client(PrimaryServices, 1, LAST_HANDLE, NoUuid)

  lemma {:induction false} DeclaredAt(services: seq<Service>, n: nat, i: nat, base: Base)
    requires i < n <= |services| && forall i :: 0 <= i < n ==> ValidService(services[i], base)
    requires ServicePos(services, n) < 0xFFFF
    ensures |DeclaredServices(services, n, base)[i].value| == EncodedLen(services[i].uuid, base)
  {
    hide Encode;
    DeclaredGrow(services, n, base);
    assert ValidService(services[i], base);
    if i < n - 1 {
      DeclaredAt(services, n - 1, i, base);
    }
  }

  lemma {:induction false} WidthOfService(name: seq<byte>, services: seq<Service>, base: Base, i: nat)
    requires Acceptable(name, services, base) && i < 2 + |services|
    ensures |AllServices(name, services, base)[i].value|
         == if i < 2 then UUID16_LEN else EncodedLen(services[i - 2].uuid, base)
  {
    PosBounded(Fixed(name), services, |services|, base);
    if i >= 2 {
      DeclaredAt(services, |services|, i - 2, base);
    }
  }

  lemma {:induction false} ServicesPresentable(name: seq<byte>, services: seq<Service>, base: Base)
    requires Acceptable(name, services, base)
    ensures forall a :: a in AllServices(name, services, base) ==> Presentable(PrimaryServices, a)
  {
    var all := AllServices(name, services, base);
    forall a | a in all ensures Presentable(PrimaryServices, a) {
      var k :| 0 <= k < |all| && all[k] == a;
      WidthOfService(name, services, base, k);
      if k >= 2 { assert ValidService(services[k - 2], base); }
    }
  }

  lemma {:induction false} AskingForServices(name: seq<byte>, services: seq<Service>, base: Base)
    requires Built(name, services, base)
    ensures Asking(DISCOVER_SERVICES, Db(Table(name, services, base), base))
  {
    hide Sound;
    hide Found;
    hide Select;
    hide AllServices;
    var db := Db(Table(name, services, base), base);
    ServicesOfTable(name, services, base);
    FoundIsSelect(Services, db, 0);
    assert db.attrs[0..] == db.attrs;
    SelectHas(Services, base, db.attrs);
    ServicesPresentable(name, services, base);
    hide Table;
    hide Presentable;
  }

  /** No service with a 16-bit UUID is declared after one with a 128-bit UUID. */
  ghost predicate ShortUuidsFirst(services: seq<Service>, base: Base) {
    forall i, j :: 0 <= i < j < |services| && EncodedLen(services[i].uuid, base) == UUID128_LEN ==>
      EncodedLen(services[j].uuid, base) == UUID128_LEN
  }

  /** The entry lengths of all services: two of 6 octets, then 6 or 20 each. */
  ghost predicate LengthsOf(services: seq<Service>, base: Base, all: seq<Attr>) {
    && |all| == 2 + |services|
    && forall i :: 0 <= i < |all| ==>
      LenAt(Services, base, all, i) == 4 + if i < 2 then UUID16_LEN else EncodedLen(services[i - 2].uuid, base)
  }

  lemma {:induction false} GroupedGivesShortFirst(services: seq<Service>, base: Base, all: seq<Attr>)
    requires ValidServices(services, base) && LengthsOf(services, base, all) && Grouped(Services, base, all)
    ensures ShortUuidsFirst(services, base)
  {
    hide EncodedLen;
    forall i, j | 0 <= i < j < |services| && EncodedLen(services[i].uuid, base) == UUID128_LEN
      ensures EncodedLen(services[j].uuid, base) == UUID128_LEN
    {
      assert ValidService(services[j], base);
      OneOfTwoLengths(services[j].uuid, base);
      assert LenAt(Services, base, all, 0) == 6 && LenAt(Services, base, all, i + 2) == 20;
      assert LenAt(Services, base, all, j + 2) != LenAt(Services, base, all, 0);
    }
  }

  lemma {:induction false} OneOfTwoLengths(u: Uuid, base: Base)
    ensures IsValid(u, base) ==> EncodedLen(u, base) == UUID16_LEN || EncodedLen(u, base) == UUID128_LEN
  {
  }

  lemma {:induction false} ShortFirstGivesGrouped(services: seq<Service>, base: Base, all: seq<Attr>)
    requires ValidServices(services, base) && LengthsOf(services, base, all) && ShortUuidsFirst(services, base)
    ensures Grouped(Services, base, all)
  {
    hide EncodedLen;
    forall i, j, k | 0 <= i < j < k < |all| && LenAt(Services, base, all, i) == LenAt(Services, base, all, k)
      ensures LenAt(Services, base, all, j) == LenAt(Services, base, all, i)
    {
      if j >= 2 {
        assert ValidService(services[j - 2], base) && ValidService(services[k - 2], base);
        OneOfTwoLengths(services[j - 2].uuid, base);
        OneOfTwoLengths(services[k - 2].uuid, base);
      }
    }
  }

  lemma {:induction false} GroupedMeansShortFirst(name: seq<byte>, services: seq<Service>, base: Base)
    requires Acceptable(name, services, base)
    ensures Grouped(Services, base, AllServices(name, services, base)) <==> ShortUuidsFirst(services, base)
  {
    var all := AllServices(name, services, base);
    forall i | 0 <= i < |all|
      ensures LenAt(Services, base, all, i) == 4 + if i < 2 then UUID16_LEN else EncodedLen(services[i - 2].uuid, base)
    {
      WidthOfService(name, services, base, i);
    }
    hide AllServices;
    hide Grouped;
    hide ShortUuidsFirst;
    if Grouped(Services, base, all) {
      GroupedGivesShortFirst(services, base, all);
    } else if ShortUuidsFirst(services, base) {
      ShortFirstGivesGrouped(services, base, all);
    }
  }

  lemma {:induction false} RoomForServices(name: seq<byte>, services: seq<Service>, base: Base)
    requires Acceptable(name, services, base)
    requires forall a :: a in AllServices(name, services, base) ==> IsValid(a.uuid, base)
    ensures RoomForAll(Services, base, AllServices(name, services, base), ATT_MAX_MTU)
  {
    var all := AllServices(name, services, base);
    forall a | a in all ensures EntryLen(Services, a, base) > 0
      ensures Room(Services, EntryLen(Services, a, base), ATT_MAX_MTU)
           >= CountOf(Services, base, all, EntryLen(Services, a, base))
    {
      var k :| 0 <= k < |all| && all[k] == a;
      WidthOfService(name, services, base, k);
      if k >= 2 { assert ValidService(services[k - 2], base); }
      assert EntryLen(Services, a, base) == 6 || EntryLen(Services, a, base) == 20;
      assert 245 / 6 >= 6 && 245 / 20 >= 6;
    }
  }

  /**
   * At every ATT MTU the stack can agree on, the client discovers all services of the server, and only
   * them, exactly when the application declared those with 16-bit UUIDs first.
   */
  lemma {:induction false} AllServicesDiscovered(name: seq<byte>, services: seq<Service>, base: Base)
    requires Built(name, services, base)
    ensures Asking(DISCOVER_SERVICES, Db(Table(name, services, base), base))
    ensures ShortUuidsFirst(services, base) <==>
      forall max: nat :: ATT_MTU_DEFAULT <= max <= ATT_MAX_MTU ==>
        Discovered(DISCOVER_SERVICES, Db(Table(name, services, base), base), max) == AllServices(name, services, base)
  {
    var db := Db(Table(name, services, base), base);
    AskingForServices(name, services, base);
    ServicesOfTable(name, services, base);
    GroupedMeansShortFirst(name, services, base);
    assert Content(DISCOVER_SERVICES, db) == AllServices(name, services, base);
    RemainingFacts(DISCOVER_SERVICES, db, ATT_MAX_MTU);
    RoomForServices(name, services, base);
    hide AllServices;
    hide Table;
    hide Discovered;
    hide Grouped;
    hide ShortUuidsFirst;
    CompleteOnlyIfGrouped(DISCOVER_SERVICES, db, ATT_MAX_MTU);
    if ShortUuidsFirst(services, base) {
      forall max: nat | ATT_MTU_DEFAULT <= max <= ATT_MAX_MTU
        ensures Discovered(DISCOVER_SERVICES, db, max) == AllServices(name, services, base)
      {
        DiscoveryIsComplete(DISCOVER_SERVICES, db, max);
      }
    }
  }

  // ---- characteristics and descriptors ------------------------------------------------------------------

  /** No characteristic is declared with the UUID of a characteristic declaration. */
  ghost predicate NoDeclarationLookalike(s: Service) {
    forall j :: 0 <= j < |s.chars| ==> s.chars[j].uuid != CHARACTERISTIC
  }

  ghost predicate DeclarationsFit(t: seq<Attr>) {
    forall a :: a in t && a.uuid == CHARACTERISTIC ==> Presentable(Characteristics, a)
  }

  lemma {:induction false} FitJoin(t: seq<Attr>, more: seq<Attr>)
    requires DeclarationsFit(t) && DeclarationsFit(more)
    ensures DeclarationsFit(t + more)
  {
  }

  lemma {:induction false} EntriesFit(c: Characteristic, k: nat, h: nat, base: Base)
    requires ValidChar(c, base) && h + 2 < 0x1_0000 && c.uuid != CHARACTERISTIC
    ensures DeclarationsFit(CharAttrs(c, k, h, base))
  {
  }

  lemma {:induction false} CharsFit(t: seq<Attr>, k: nat, chars: seq<Characteristic>, n: nat, base: Base)
    requires n <= |chars| && forall j :: 0 <= j < n ==> ValidChar(chars[j], base)
    requires |t| + 3 * n < 0xFFFF && forall j :: 0 <= j < n ==> chars[j].uuid != CHARACTERISTIC
    requires DeclarationsFit(t)
    ensures DeclarationsFit(AddChars(t, k, chars, n, base))
  {
    hide WidthOf;
    hide CharAttrs;
    hide DeclarationsFit;
    hide ValidChar;
    if n > 0 {
      CharsFit(t, k, chars, n - 1, base);
      CharsGrow(t, k, chars, n, base);
      hide AddChars;
      var before := AddChars(t, k, chars, n - 1, base);
      EntriesFit(chars[n - 1], k + n - 1, |before| + 1, base);
      FitJoin(before, CharAttrs(chars[n - 1], k + n - 1, |before| + 1, base));
      return;
    }
  }

  lemma {:induction false} ServicesFit(t: seq<Attr>, services: seq<Service>, n: nat, base: Base)
    requires n <= |services| && forall i :: 0 <= i < n ==> ValidService(services[i], base)
    requires |t| + n + 3 * CharCount(services, n) < 0xFFFF
    requires forall i :: 0 <= i < n ==> NoDeclarationLookalike(services[i])
    requires DeclarationsFit(t)
    ensures DeclarationsFit(AddServices(t, services, n, base))
  {
    hide AddChars;
    hide ValidChar;
    if n == 0 {
      assert AddServices(t, services, 0, base) == t;
    } else {
      ServicesFit(t, services, n - 1, base);
      ServicesGrow(services, n, base, t);
      hide AddServices;
      var before := AddServices(t, services, n - 1, base);
      var s := services[n - 1];
      var decl := [ServiceDecl(s, |before| + 1, base)];
      assert NoDeclarationLookalike(s) && DeclarationsFit(decl);
      hide ServiceDecl;
      FitJoin(before, decl);
      hide DeclarationsFit;
      CharsFit(before + decl, CharCount(services, n - 1), s.chars, |s.chars|, base);
      return;
    }
  }

  // Only a declaration has the declarations' UUID on the air.
  lemma {:induction false} OnlyDeclarationsMatch(u: Uuid, base: Base)
    ensures MatchesBytes(u, base, U16Encode(CHARACTERISTIC.short)) ==> u == CHARACTERISTIC
  {
    if MatchesBytes(u, base, U16Encode(CHARACTERISTIC.short)) && u.Sig16? {
      assert U16Decode(U16Encode(u.short)) == U16Decode(U16Encode(CHARACTERISTIC.short));
    }
  }

  lemma {:induction false} DeclarationsPresentable(db: Db, c: Client)
    requires c.procedure == Characteristics && DeclarationsFit(db.attrs)
    ensures AllPresentable(c, db)
  {
    forall i | 0 <= i < |db.attrs| && Matches(QueryOf(c, db.base), db.attrs[i], db.base)
      ensures Presentable(Characteristics, db.attrs[i])
    {
      OnlyDeclarationsMatch(db.attrs[i].uuid, db.base);
      assert db.attrs[i] in db.attrs;
    }
  }

  /** Characteristics and descriptors of a built table can be discovered in any range. */
  lemma {:induction false} AskingForEntries(name: seq<byte>, services: seq<Service>, base: Base, c: Client)
    requires Acceptable(name, services, base) && 1 <= c.rangeStart
    requires c.procedure == Characteristics || c.procedure == Descriptors
    requires c.procedure == Characteristics ==> forall i :: 0 <= i < |services| ==> NoDeclarationLookalike(services[i])
    ensures Asking(c, Db(Table(name, services, base), base))
  {
    hide Sound;
    hide AddServices;
    hide NoDeclarationLookalike;
    TableIsLinked(name, services, base);
    if c.procedure == Characteristics {
      assert DeclarationsFit(Fixed(name));
      hide Fixed;
      ServicesFit(Fixed(name), services, |services|, base);
      hide DeclarationsFit;
      hide AllPresentable;
      DeclarationsPresentable(Db(Table(name, services, base), base), c);
      return;
    }
  }

  // ---- service ranges ---------------------------------------------------------------------------------

  ghost predicate InRangeOf(db: Db, i: nat, h: u16)
    requires i < |db.attrs|
  {
    IsService(db.attrs[i]) && db.attrs[i].handle <= h <= EndHandle(db.attrs, db.attrs[i].handle)
  }

  lemma {:induction false} LastServiceBefore(db: Db, i: nat) returns (s: nat)
    requires Sound(db) && i < |db.attrs|
    ensures s <= i && IsService(db.attrs[s]) && forall j :: s < j <= i ==> !IsService(db.attrs[j])
  {
    if IsService(db.attrs[i]) {
      s := i;
    } else {
      s := LastServiceBefore(db, i - 1);
    }
  }

  /** The reported ranges of the primary services partition the handles: each lies in exactly one. */
  lemma {:induction false} RangesPartition(db: Db, h: u16)
    requires Sound(db) && 1 <= h <= |db.attrs|
    ensures exists i :: 0 <= i < |db.attrs| && InRangeOf(db, i, h)
    ensures forall i, j :: 0 <= i < |db.attrs| && 0 <= j < |db.attrs| && InRangeOf(db, i, h) && InRangeOf(db, j, h) ==>
      i == j
  {
    hide EndHandle;
    var s := LastServiceBefore(db, h - 1);
    EndHandleFacts(db, s + 1);
    assert InRangeOf(db, s, h);
    forall i | 0 <= i < |db.attrs| && InRangeOf(db, i, h) ensures i == s {
      EndHandleFacts(db, i + 1);
    }
  }
}
