/** Discovering the characteristics and descriptors of a built table: when everything in a range is reported. */
module BuiltEntries {
  import opened Bytes
  import opened Uuids
  import opened GattTable
  import opened AttSpec
  import opened ClientSpec
  import opened Discovery
  import opened DiscoveryRun
  import opened DiscoveryResults
  import opened TableFacts
  import opened BuiltDiscovery

  /** What the two procedures ask for. */
  predicate AsksEntries(q: Query) { q.Everything? || q == Typed(U16Encode(CHARACTERISTIC.short)) }

  /** An entry that holds a 128-bit UUID. */
  predicate IsWide(q: Query, a: Attr, base: Base) { Matches(q, a, base) && EntryLen(q, a, base) > 7 }

  function WideIn(q: Query, base: Base, t: seq<Attr>): nat {
    if t == [] then 0 else (if IsWide(q, t[0], base) then 1 else 0) + WideIn(q, base, t[1..])
  }

  lemma {:induction false} WideJoin(q: Query, base: Base, t: seq<Attr>, more: seq<Attr>)
    ensures WideIn(q, base, t + more) == WideIn(q, base, t) + WideIn(q, base, more)
  {
    hide IsWide;
    if t == [] {
      assert t + more == more;
    } else {
      assert (t + more)[1..] == t[1..] + more;
      WideJoin(q, base, t[1..], more);
    }
  }

  lemma {:induction false} WideOne(q: Query, base: Base, a: Attr)
    ensures WideIn(q, base, [a]) == if IsWide(q, a, base) then 1 else 0
  {
    assert [a][1..] == [];
  }

  // ---- at most one wide entry per characteristic ---------------------------------------------------------

  lemma {:induction false} CharWide(q: Query, c: Characteristic, k: nat, h: nat, base: Base)
    requires AsksEntries(q) && ValidChar(c, base) && h + 2 < 0x1_0000
    requires q.Typed? ==> c.uuid != CHARACTERISTIC
    ensures WideIn(q, base, CharAttrs(c, k, h, base)) <= 1
  {
    var t := CharAttrs(c, k, h, base);
    var rest := t[2..];
    assert t == [t[0]] + ([t[1]] + rest);
    WideJoin(q, base, [t[0]], [t[1]] + rest);
    WideJoin(q, base, [t[1]], rest);
    WideOne(q, base, t[0]);
    WideOne(q, base, t[1]);
    OnlyDeclarationsMatch(c.uuid, base);
    if rest != [] {
      OnlyDeclarationsMatch(CCCD, base);
      assert rest == [rest[0]];
      WideOne(q, base, rest[0]);
    }
  }

  lemma {:induction false} CharsWide(q: Query, t: seq<Attr>, k: nat, chars: seq<Characteristic>, n: nat, base: Base)
    requires n <= |chars| && forall j :: 0 <= j < n ==> ValidChar(chars[j], base)
    requires |t| + 3 * n < 0xFFFF && AsksEntries(q)
    requires q.Typed? ==> forall j :: 0 <= j < n ==> chars[j].uuid != CHARACTERISTIC
    ensures WideIn(q, base, AddChars(t, k, chars, n, base)) <= WideIn(q, base, t) + n
  {
    hide WideIn;
    hide ValidChar;
    hide CharAttrs;
    hide AsksEntries;
    if n > 0 {
      CharsWide(q, t, k, chars, n - 1, base);
      CharsGrow(t, k, chars, n, base);
      hide AddChars;
      var before := AddChars(t, k, chars, n - 1, base);
      CharWide(q, chars[n - 1], k + n - 1, |before| + 1, base);
      WideJoin(q, base, before, CharAttrs(chars[n - 1], k + n - 1, |before| + 1, base));
      return;
    }
  }

  lemma {:induction false} ServiceNotWide(q: Query, s: Service, h: u16, base: Base)
    requires AsksEntries(q) && IsValid(s.uuid, base)
    ensures WideIn(q, base, [ServiceDecl(s, h, base)]) == 0
  {
    WideOne(q, base, ServiceDecl(s, h, base));
    OnlyDeclarationsMatch(PRIMARY_SERVICE, base);
  }

  lemma {:induction false} ServicesWide(q: Query, t: seq<Attr>, services: seq<Service>, n: nat, base: Base)
    requires n <= |services| && forall i :: 0 <= i < n ==> ValidService(services[i], base)
    requires |t| + n + 3 * CharCount(services, n) < 0xFFFF && AsksEntries(q)
    requires q.Typed? ==> forall i :: 0 <= i < n ==> NoDeclarationLookalike(services[i])
    ensures WideIn(q, base, AddServices(t, services, n, base)) <= WideIn(q, base, t) + CharCount(services, n)
  {
    hide WideIn;
    hide AddChars;
    hide ValidChar;
    hide AsksEntries;
    if n == 0 {
      assert AddServices(t, services, 0, base) == t;
    } else {
      ServicesWide(q, t, services, n - 1, base);
      ServicesGrow(services, n, base, t);
      hide AddServices;
      var before := AddServices(t, services, n - 1, base);
      var s := services[n - 1];
      ServiceNotWide(q, s, |before| + 1, base);
      var decl := [ServiceDecl(s, |before| + 1, base)];
      WideJoin(q, base, before, decl);
      assert q.Typed? ==> NoDeclarationLookalike(s);
      hide ServiceDecl;
      CharsWide(q, before + decl, CharCount(services, n - 1), s.chars, |s.chars|, base);
      return;
    }
  }

  lemma {:induction false} FixedNotWide(q: Query, name: seq<byte>, base: Base)
    requires AsksEntries(q) && |name| <= 20
    ensures WideIn(q, base, Fixed(name)) == 0
  {
    forall a | a in Fixed(name) ensures !IsWide(q, a, base) {
      OnlyDeclarationsMatch(a.uuid, base);
    }
    NoneWide(q, base, Fixed(name));
  }

  lemma {:induction false} NoneWide(q: Query, base: Base, t: seq<Attr>)
    requires forall a :: a in t ==> !IsWide(q, a, base)
    ensures WideIn(q, base, t) == 0
  {
    if t != [] {
      assert t[0] in t;
      NoneWide(q, base, t[1..]);
    }
  }

  lemma {:induction false} TableWide(q: Query, name: seq<byte>, services: seq<Service>, base: Base)
    requires Acceptable(name, services, base) && AsksEntries(q)
    requires q.Typed? ==> forall i :: 0 <= i < |services| ==> NoDeclarationLookalike(services[i])
    ensures WideIn(q, base, Table(name, services, base)) <= MAX_CHARACTERISTICS
  {
    hide WideIn;
    FixedNotWide(q, name, base);
    ServicesWide(q, Fixed(name), services, |services|, base);
  }

  // ---- a page holds all entries of one length ------------------------------------------------------------

  lemma {:induction false} WideCounted(q: Query, db: Db, start: u16, end: u16, i: nat, len: nat)
    requires i <= |db.attrs| && len > 7
    ensures CountOf(q, db.base, Found(q, db, start, end, i), len) <= WideIn(q, db.base, db.attrs[i..])
    decreases |db.attrs| - i
  {
    if i < |db.attrs| {
      WideCounted(q, db, start, end, i + 1, len);
      assert db.attrs[i..][1..] == db.attrs[i + 1..];
      if Wanted(q, db, start, end, db.attrs[i]) {
        var rest := Found(q, db, start, end, i + 1);
        assert ([db.attrs[i]] + rest)[1..] == rest;
      }
    }
  }

  predicate EntryLenIs(q: Query, a: Attr, base: Base) {
    EntryLen(q, a, base) == 4 || EntryLen(q, a, base) == 7 || EntryLen(q, a, base) == 18 || EntryLen(q, a, base) == 21
  }

  lemma {:induction false} RoomAtTheLargestMtu(q: Query, a: Attr, base: Base)
    requires AsksEntries(q) && EntryLenIs(q, a, base)
    ensures Room(q, EntryLen(q, a, base), ATT_MAX_MTU) >= if EntryLen(q, a, base) > 7 then 11 else 35
  {
    assert 245 / 4 == 61 && 245 / 7 == 35 && 245 / 18 == 13 && 245 / 21 == 11;
  }

  lemma {:induction false} LengthOfEntry(c: Client, db: Db, a: Attr)
    requires Asking(c, db) && (c.procedure == Characteristics || c.procedure == Descriptors)
    requires a in Content(c, db)
    ensures IsValid(a.uuid, db.base) && EntryLenIs(QueryOf(c, db.base), a, db.base)
  {
    FoundAscends(QueryOf(c, db.base), db, c.rangeStart, c.rangeEnd, 0);
    hide Found;
    var i :| 0 <= i < |db.attrs| && db.attrs[i] == a;
    assert Matches(QueryOf(c, db.base), a, db.base) && Presentable(c.procedure, a);
  }

  lemma {:induction false} RoomForEntries(name: seq<byte>, services: seq<Service>, base: Base, c: Client)
    requires Acceptable(name, services, base)
    requires c.procedure == Characteristics || c.procedure == Descriptors
    requires c.procedure == Characteristics ==> forall i :: 0 <= i < |services| ==> NoDeclarationLookalike(services[i])
    requires Asking(c, Db(Table(name, services, base), base))
    ensures var db := Db(Table(name, services, base), base);
            RoomForAll(QueryOf(c, base), base, Content(c, db), ATT_MAX_MTU)
  {
    var db := Db(Table(name, services, base), base);
    var q := QueryOf(c, base);
    TableWide(q, name, services, base);
    FoundAscends(q, db, c.rangeStart, c.rangeEnd, 0);
    assert db.attrs[0..] == db.attrs;
    assert AsksEntries(q);
    hide Table;
    hide Asking;
    hide Found;
    hide WideIn;
    hide AsksEntries;
    hide NoDeclarationLookalike;
    hide Acceptable;
    hide EntryLen;
    hide Room;
    forall a | a in Content(c, db)
      ensures IsValid(a.uuid, base) && EntryLen(q, a, base) > 0
      ensures Room(q, EntryLen(q, a, base), ATT_MAX_MTU) >= CountOf(q, base, Content(c, db), EntryLen(q, a, base))
    {
      LengthOfEntry(c, db, a);
      RoomAtTheLargestMtu(q, a, base);
      if EntryLen(q, a, base) > 7 {
        WideCounted(q, db, c.rangeStart, c.rangeEnd, 0, EntryLen(q, a, base));
      }
    }
  }

  /**
   * In any range of a built table the client discovers all characteristics, or all attributes, at every ATT
   * MTU exactly when those with UUIDs of one width stand together.
   */
  lemma {:induction false} EntriesDiscovered(name: seq<byte>, services: seq<Service>, base: Base, c: Client)
    requires Acceptable(name, services, base) && 1 <= c.rangeStart
    requires c.procedure == Characteristics || c.procedure == Descriptors
    requires c.procedure == Characteristics ==> forall i :: 0 <= i < |services| ==> NoDeclarationLookalike(services[i])
    ensures var db := Db(Table(name, services, base), base);
            && Asking(c, db)
            && (Grouped(QueryOf(c, base), base, Content(c, db)) <==>
                forall max: nat :: ATT_MTU_DEFAULT <= max <= ATT_MAX_MTU ==> Discovered(c, db, max) == Content(c, db))
  {
    var db := Db(Table(name, services, base), base);
    AskingForEntries(name, services, base, c);
    RoomForEntries(name, services, base, c);
    hide Asking;
    hide Table;
    hide Acceptable;
    hide NoDeclarationLookalike;
    hide RoomForAll;
    hide Grouped;
    hide Content;
    hide Discovered;
    CompleteOnlyIfGrouped(c, db, ATT_MAX_MTU);
    if Grouped(QueryOf(c, base), base, Content(c, db)) {
      forall max: nat | ATT_MTU_DEFAULT <= max <= ATT_MAX_MTU ensures Discovered(c, db, max) == Content(c, db) {
        DiscoveryIsComplete(c, db, max);
      }
    }
  }
}
