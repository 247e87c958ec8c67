/** The server's discovery handlers as they run: one pass over the table, appending entries until full. */
module AttServer {
  import opened Bytes
  import opened Seqs
  import opened Uuids
  import opened GattTable
  import opened AttSpec

  // ---- what is left to do in the middle of a pass ------------------------------------------------

  /** After the first i attributes page has been written; len is the entry length, 0 before any match. */
  ghost predicate Scanning(q: Query, db: Db, start: u16, end: u16, max: nat, i: nat, page: seq<Attr>, len: nat)
    requires AllValid(db) && max >= HeaderLen(q) && i <= |db.attrs|
  {
    var found := Found(q, db, start, end, 0);
    FoundValid(q, db, start, end, 0);
    if len == 0 then page == [] && found == Found(q, db, start, end, i)
    else
      && found != [] && len == EntryLen(q, found[0], db.base)
      && |page| <= Room(q, len, max)
      && (forall a :: a in page ==> a in db.attrs)
      && Page(q, db.base, found, max)
         == page + TakeSame(q, db.base, Found(q, db, start, end, i), len, Room(q, len, max) - |page|)
  }

  ghost function WholePage(q: Query, db: Db, start: u16, end: u16, max: nat): seq<Attr>
    requires AllValid(db) && max >= HeaderLen(q)
  {
    FoundValid(q, db, start, end, 0);
    Page(q, db.base, Found(q, db, start, end, 0), max)
  }

  lemma {:induction false} ScanSkip(q: Query, db: Db, start: u16, end: u16, max: nat, i: nat, page: seq<Attr>, len: nat)
    requires AllValid(db) && max >= HeaderLen(q) && i < |db.attrs| && Scanning(q, db, start, end, max, i, page, len)
    requires !Wanted(q, db, start, end, db.attrs[i]) || (len != 0 && EntryLen(q, db.attrs[i], db.base) != len)
    ensures Scanning(q, db, start, end, max, i + 1, page, len)
  {
  }

  lemma {:induction false} ScanFirst(q: Query, db: Db, start: u16, end: u16, max: nat, i: nat)
    requires AllValid(db) && max >= HeaderLen(q) && i < |db.attrs| && Scanning(q, db, start, end, max, i, [], 0)
    requires Wanted(q, db, start, end, db.attrs[i])
    ensures EntryLen(q, db.attrs[i], db.base) > 0
    ensures Scanning(q, db, start, end, max, i, [], EntryLen(q, db.attrs[i], db.base))
  {
  }

  lemma {:induction false} RoomLeft(q: Query, len: nat, max: nat, n: nat)
    requires len > 0 && max >= HeaderLen(q)
    ensures HeaderLen(q) + (n + 1) * len <= max <==> n < Room(q, len, max)
  {
    var m := max - HeaderLen(q);
    QuotientBounds(m, len, n);
  }

  lemma {:induction false} QuotientBounds(m: nat, len: nat, n: nat)
    requires len > 0
    ensures (n + 1) * len <= m <==> n < m / len
  {
    var k := m / len;
    assert m == k * len + m % len;
    if n < k {
      MulMonotone(n + 1, k, len);
    } else {
      MulMonotone(k + 1, n + 1, len);
      assert (k + 1) * len == k * len + len;
    }
  }

  lemma {:induction false} MulMonotone(a: nat, b: nat, len: nat)
    requires a <= b
    ensures a * len <= b * len
  {
  }

  lemma {:induction false} ScanTake(q: Query, db: Db, start: u16, end: u16, max: nat, i: nat, page: seq<Attr>, len: nat)
    requires AllValid(db) && max >= HeaderLen(q) && i < |db.attrs| && Scanning(q, db, start, end, max, i, page, len)
    requires len != 0 && Wanted(q, db, start, end, db.attrs[i]) && EntryLen(q, db.attrs[i], db.base) == len
    requires |page| < Room(q, len, max)
    ensures Scanning(q, db, start, end, max, i + 1, page + [db.attrs[i]], len)
  {
    var found := Found(q, db, start, end, i);
    assert found[1..] == Found(q, db, start, end, i + 1);
    var rest := TakeSame(q, db.base, Found(q, db, start, end, i + 1), len, Room(q, len, max) - |page| - 1);
    assert page + ([db.attrs[i]] + rest) == (page + [db.attrs[i]]) + rest;
  }

  lemma {:induction false} ScanDone(q: Query, db: Db, start: u16, end: u16, max: nat, i: nat, page: seq<Attr>, len: nat)
    requires AllValid(db) && max >= HeaderLen(q) && i <= |db.attrs| && Scanning(q, db, start, end, max, i, page, len)
    requires i == |db.attrs| || (len != 0 && |page| >= Room(q, len, max))
    ensures WholePage(q, db, start, end, max) == page
  {
    assert page + [] == page;
  }

  // What has been written so far, header included.
  ghost predicate Written(q: Query, db: Db, rsp: seq<byte>, page: seq<Attr>, len: nat, blank: seq<byte>)
    requires AllValid(db)
  {
    if len == 0 then rsp == blank
    else
      && 2 <= len < 0x100
      && (forall a :: a in page ==> a in db.attrs && EntryLen(q, a, db.base) == len)
      && rsp == ResponseHeader(q, len) + Entries(q, db, page)
      && |rsp| == HeaderLen(q) + |page| * len
  }

  lemma {:induction false} EntriesAppend(q: Query, db: Db, page: seq<Attr>, a: Attr)
    requires db.attrs != [] && IsValid(a.uuid, db.base) && forall b :: b in page ==> IsValid(b.uuid, db.base)
    ensures Entries(q, db, page + [a]) == Entries(q, db, page) + Entry(q, a, db)
  {
    hide Entry;
    assert (page + [a])[..|page|] == page;
  }

  lemma {:induction false} WrittenAppend(q: Query, db: Db, rsp: seq<byte>, page: seq<Attr>, len: nat,
                                         blank: seq<byte>, a: Attr)
    requires AllValid(db) && Written(q, db, rsp, page, len, blank) && len != 0
    requires a in db.attrs && EntryLen(q, a, db.base) == len
    ensures Written(q, db, rsp + Entry(q, a, db), page + [a], len, blank)
  {
    hide Entry;
    hide Entries;
    hide ResponseHeader;
    EntriesAppend(q, db, page, a);
    Regroup(ResponseHeader(q, len), Entries(q, db, page), Entry(q, a, db));
    assert |page + [a]| * len == |page| * len + len;
  }

  lemma {:induction false} WrittenFirst(q: Query, db: Db, len: nat, blank: seq<byte>)
    requires AllValid(db) && 2 <= len < 0x100
    ensures Written(q, db, ResponseHeader(q, len), [], len, blank)
  {
    assert ResponseHeader(q, len) + [] == ResponseHeader(q, len);
  }

  lemma {:induction false} WrittenDone(q: Query, db: Db, start: u16, end: u16, max: nat, i: nat,
                                       page: seq<Attr>, len: nat, rsp: seq<byte>, blank: seq<byte>)
    requires AllValid(db) && max >= HeaderLen(q) && i <= |db.attrs| && Scanning(q, db, start, end, max, i, page, len)
    requires Written(q, db, rsp, page, len, blank) && |blank| == HeaderLen(q)
    requires i == |db.attrs| || (len != 0 && |page| >= Room(q, len, max))
    ensures (|rsp| == HeaderLen(q)) == (page == [])
    ensures Respond(q, db, start, end, max)
         == if page == [] then ErrorRsp(max, RequestOpcode(q), start, ERR_NOT_FOUND) else rsp
  {
    ScanDone(q, db, start, end, max, i, page, len);
    if page != [] { assert |page| * len > 0; }
  }

  /** The state of a pass: page is written to rsp, and i attributes have been looked at. */
  datatype Pass = Pass(i: nat, page: seq<Attr>, len: nat, rsp: seq<byte>)

  function Blank(q: Query): seq<byte> {
    match q
    case Services => [OP_READ_BY_GROUP_RSP, 0]
    case ServicesWith(_) => [OP_FIND_BY_VALUE_RSP]
    case Typed(_) => [OP_READ_BY_TYPE_RSP, 0]
    case Everything => [OP_FIND_INFO_RSP, 0]
  }

  ghost predicate Passing(q: Query, db: Db, start: u16, end: u16, max: nat, p: Pass) {
    && AllValid(db) && max >= HeaderLen(q) && p.i <= |db.attrs|
    && Scanning(q, db, start, end, max, p.i, p.page, p.len)
    && Written(q, db, p.rsp, p.page, p.len, Blank(q))
    && (p.len == 0 ==> p.page == [])
  }

  lemma {:induction false} PassStart(q: Query, db: Db, start: u16, end: u16, max: nat)
    requires AllValid(db) && max >= HeaderLen(q)
    ensures Passing(q, db, start, end, max, Pass(0, [], 0, Blank(q)))
  {
  }

  lemma {:induction false} PassSkip(q: Query, db: Db, start: u16, end: u16, max: nat, p: Pass)
    requires Passing(q, db, start, end, max, p) && p.i < |db.attrs|
    requires !Wanted(q, db, start, end, db.attrs[p.i])
             || (p.len != 0 && EntryLen(q, db.attrs[p.i], db.base) != p.len)
    ensures Passing(q, db, start, end, max, p.(i := p.i + 1))
  {
    ScanSkip(q, db, start, end, max, p.i, p.page, p.len);
  }

  lemma {:induction false} PassFirst(q: Query, db: Db, start: u16, end: u16, max: nat, p: Pass)
    requires Passing(q, db, start, end, max, p) && p.i < |db.attrs| && p.len == 0
    requires Wanted(q, db, start, end, db.attrs[p.i])
    ensures var len := EntryLen(q, db.attrs[p.i], db.base);
            2 <= len < 0x100 && Passing(q, db, start, end, max, p.(len := len, rsp := ResponseHeader(q, len)))
  {
    ScanFirst(q, db, start, end, max, p.i);
    WrittenFirst(q, db, EntryLen(q, db.attrs[p.i], db.base), Blank(q));
  }

  lemma {:induction false} PassRoom(q: Query, db: Db, start: u16, end: u16, max: nat, p: Pass)
    requires Passing(q, db, start, end, max, p) && p.len != 0
    ensures |p.rsp| + p.len <= max <==> |p.page| < Room(q, p.len, max)
  {
    hide Scanning;
    RoomLeft(q, p.len, max, |p.page|);
    assert (|p.page| + 1) * p.len == |p.page| * p.len + p.len;
  }

  lemma {:induction false} PassFits(q: Query, db: Db, start: u16, end: u16, max: nat, p: Pass)
    requires Passing(q, db, start, end, max, p) && p.i < |db.attrs| && p.len != 0
    requires Wanted(q, db, start, end, db.attrs[p.i]) && EntryLen(q, db.attrs[p.i], db.base) == p.len
    requires |p.rsp| + p.len <= max
    ensures Passing(q, db, start, end, max,
                    Pass(p.i + 1, p.page + [db.attrs[p.i]], p.len, p.rsp + Entry(q, db.attrs[p.i], db)))
  {
    hide Scanning;
    hide Written;
    PassRoom(q, db, start, end, max, p);
    ScanTake(q, db, start, end, max, p.i, p.page, p.len);
    WrittenAppend(q, db, p.rsp, p.page, p.len, Blank(q), db.attrs[p.i]);
  }

  lemma {:induction false} PassFull(q: Query, db: Db, start: u16, end: u16, max: nat, p: Pass)
    requires Passing(q, db, start, end, max, p) && p.len != 0 && |p.rsp| + p.len > max
    ensures Complete(q, db, start, end, max, p)
  {
    hide Scanning;
    hide Written;
    PassRoom(q, db, start, end, max, p);
    WrittenDone(q, db, start, end, max, p.i, p.page, p.len, p.rsp, Blank(q));
  }

  // Either the entry fits and is appended, or the response is complete.
  lemma {:induction false} PassTake(q: Query, db: Db, start: u16, end: u16, max: nat, p: Pass)
    requires Passing(q, db, start, end, max, p) && p.i < |db.attrs| && p.len != 0
    requires Wanted(q, db, start, end, db.attrs[p.i]) && EntryLen(q, db.attrs[p.i], db.base) == p.len
    ensures IsValid(db.attrs[p.i].uuid, db.base)
    ensures |p.rsp| + p.len <= max ==>
              Passing(q, db, start, end, max,
                      Pass(p.i + 1, p.page + [db.attrs[p.i]], p.len, p.rsp + Entry(q, db.attrs[p.i], db)))
    ensures |p.rsp| + p.len > max ==> Complete(q, db, start, end, max, p)
  {
    assert AllValid(db);
    hide Passing;
    if |p.rsp| + p.len <= max {
      PassFits(q, db, start, end, max, p);
    } else {
      PassFull(q, db, start, end, max, p);
    }
  }

  // The first match sets the entry length; when not even it fits, nothing has been found.
  lemma {:induction false} PassOpen(q: Query, db: Db, start: u16, end: u16, max: nat, p: Pass)
    requires Passing(q, db, start, end, max, p) && p.i < |db.attrs| && p.len == 0 && HeaderLen(q) == 2
    requires Wanted(q, db, start, end, db.attrs[p.i])
    ensures AllValid(db)
    ensures var len := EntryLen(q, db.attrs[p.i], db.base);
            2 <= len < 0x100 && Passing(q, db, start, end, max, p.(len := len, rsp := ResponseHeader(q, len)))
    ensures EntryLen(q, db.attrs[p.i], db.base) + 2 > max ==>
              Respond(q, db, start, end, max) == ErrorRsp(max, RequestOpcode(q), start, ERR_NOT_FOUND)
  {
    PassFirst(q, db, start, end, max, p);
    hide Passing;
    hide Respond;
    hide Wanted;
    var len := EntryLen(q, db.attrs[p.i], db.base);
    PassTake(q, db, start, end, max, p.(len := len, rsp := ResponseHeader(q, len)));
  }

  // At a match the entry length is set, now or before.
  lemma {:induction false} PassOpened(q: Query, db: Db, start: u16, end: u16, max: nat, p: Pass) returns (p': Pass)
    requires Passing(q, db, start, end, max, p) && p.i < |db.attrs|
    requires Wanted(q, db, start, end, db.attrs[p.i])
    ensures Passing(q, db, start, end, max, p') && p'.i == p.i && p'.page == p.page && 2 <= p'.len < 0x100
    ensures p.len != 0 ==> p' == p
    ensures p.len == 0 ==> p'.len == EntryLen(q, db.attrs[p.i], db.base) && p'.rsp == ResponseHeader(q, p'.len)
    ensures IsValid(db.attrs[p.i].uuid, db.base)
  {
    if p.len == 0 {
      PassFirst(q, db, start, end, max, p);
      var len := EntryLen(q, db.attrs[p.i], db.base);
      p' := p.(len := len, rsp := ResponseHeader(q, len));
    } else {
      p' := p;
    }
  }

  // A response without an entry length of its own: the first match needs no separate step.
  lemma {:induction false} PassLen(q: Query, db: Db, start: u16, end: u16, max: nat, p: Pass)
    requires q.ServicesWith? && Passing(q, db, start, end, max, p) && p.i < |db.attrs| && (p.len == 0 || p.len == 4)
    requires Wanted(q, db, start, end, db.attrs[p.i])
    ensures AllValid(db) && Passing(q, db, start, end, max, p.(len := 4)) && EntryLen(q, db.attrs[p.i], db.base) == 4
  {
    assert AllValid(db) && (p.len == 0 ==> p.rsp == Blank(q));
    hide Passing;
    hide AllValid;
    hide Wanted;
    if p.len == 0 {
      PassFirst(q, db, start, end, max, p);
      assert p.(len := 4, rsp := ResponseHeader(q, 4)) == p.(len := 4);
    } else {
      assert p.(len := 4) == p;
    }
  }

  lemma {:induction false} NoRoomForAHeader(q: Query, db: Db, start: u16, end: u16, max: nat)
    requires AllValid(db) && max < HeaderLen(q)
    ensures Respond(q, db, start, end, max) == []
  {
  }

  // What an entry of Everything is, all in one place.
  lemma {:induction false} EntryOfEverything(db: Db, i: nat, start: u16, end: u16)
    requires AllValid(db) && i < |db.attrs|
    ensures var a := db.attrs[i];
            && IsValid(a.uuid, db.base) && EncodedLen(a.uuid, db.base) > 0
            && (Wanted(Everything, db, start, end, a) <==> start <= a.handle <= end)
            && EntryLen(Everything, a, db.base) == 2 + EncodedLen(a.uuid, db.base)
            && Entry(Everything, a, db) == U16Encode(a.handle) + Encode(a.uuid, db.base)
  {
  }

  lemma {:induction false} EntryOfServices(db: Db, i: nat, start: u16, end: u16)
    requires AllValid(db) && i < |db.attrs|
    ensures var a := db.attrs[i];
            && IsValid(a.uuid, db.base) && EntryLen(Services, a, db.base) == 4 + |a.value|
            && (Wanted(Services, db, start, end, a) <==> start <= a.handle <= end && a.uuid == PRIMARY_SERVICE)
            && Entry(Services, a, db) == U16Encode(a.handle) + U16Encode(EndHandle(db.attrs, a.handle)) + a.value
  {
  }

  lemma {:induction false} EntryOfType(db: Db, i: nat, start: u16, end: u16, uuid: seq<byte>)
    requires AllValid(db) && i < |db.attrs|
    ensures var a := db.attrs[i];
            && IsValid(a.uuid, db.base) && EntryLen(Typed(uuid), a, db.base) == 2 + |a.value|
            && (Wanted(Typed(uuid), db, start, end, a) <==>
                start <= a.handle <= end && MatchesBytes(a.uuid, db.base, uuid) && a.readable)
            && Entry(Typed(uuid), a, db) == U16Encode(a.handle) + a.value
  {
  }

  lemma {:induction false} PassMatch(q: Query, db: Db, start: u16, end: u16, max: nat, p: Pass) returns (p': Pass)
    requires q.ServicesWith? && Passing(q, db, start, end, max, p) && p.i < |db.attrs| && (p.len == 0 || p.len == 4)
    requires Wanted(q, db, start, end, db.attrs[p.i])
    ensures p' == p.(len := 4) && AllValid(db)
    ensures |p.rsp| + 4 <= max ==>
              Passing(q, db, start, end, max,
                      Pass(p.i + 1, p.page + [db.attrs[p.i]], 4, p.rsp + Entry(q, db.attrs[p.i], db)))
    ensures |p.rsp| + 4 > max ==> Complete(q, db, start, end, max, p')
  {
    hide Passing;
    hide Complete;
    hide Wanted;
    hide Entry;
    PassLen(q, db, start, end, max, p);
    p' := p.(len := 4);
    PassTake(q, db, start, end, max, p');
  }

  lemma {:induction false} PassEnd(q: Query, db: Db, start: u16, end: u16, max: nat, p: Pass)
    requires Passing(q, db, start, end, max, p) && p.i == |db.attrs|
    ensures Complete(q, db, start, end, max, p)
  {
    WrittenDone(q, db, start, end, max, p.i, p.page, p.len, p.rsp, Blank(q));
  }

  /** What has been written is the answer, an untouched header standing for nothing found. */
  ghost predicate Complete(q: Query, db: Db, start: u16, end: u16, max: nat, p: Pass) {
    && AllValid(db)
    && Respond(q, db, start, end, max)
       == if |p.rsp| == HeaderLen(q) then ErrorRsp(max, RequestOpcode(q), start, ERR_NOT_FOUND) else p.rsp
  }

  class Server {
    const db: array<Attr>
    var count: nat
    var base: Base

    ghost predicate Valid()
      reads this, db
    {
      count <= db.Length && AllValid(Model())
    }

    ghost function Model(): Db
      reads this, db
      requires count <= db.Length
    {
      Db(db[..count], base)
    }

    constructor (attrs: array<Attr>, n: nat, b: Base)
      requires n <= attrs.Length && AllValid(Db(attrs[..n], b))
      ensures Valid() && db == attrs && Model() == Db(attrs[..n], b)
    {
      db, count, base := attrs, n, b;
    }

    method ServiceEndHandle(h: u16) returns (end: u16)
      requires Valid()
      ensures end == EndHandle(Model().attrs, h)
    {
      end := db[count - 1].handle;
      var i := 0;
      while i < count
        invariant i <= count && end == db[count - 1].handle
        invariant EndHandle(db[..count], h) == EndFrom(db[..count], h, i)
      {
        if db[i].uuid == PRIMARY_SERVICE && db[i].handle > h {
          end := db[i].handle - 1;
          break;
        }
        i := i + 1;
      }
    }

    method FindInfo(start: u16, end: u16, max: nat) returns (rsp: seq<byte>)
      requires Valid()
      ensures rsp == Respond(Everything, Model(), start, end, max)
    {
      hide Passing;
      hide Respond;
      hide EndHandle;
      hide Encode;
      hide AllValid;
      hide Entry;
      hide EntryLen;
      hide Wanted;
      hide ErrorRsp;
      if max < 2 {
        NoRoomForAHeader(Everything, Model(), start, end, max);
        return [];
      }
      ghost var m := Model();
      PassStart(Everything, m, start, end, max);
      rsp := [OP_FIND_INFO_RSP, 0];
      ghost var p := Pass(0, [], 0, rsp);
      var uuidLen: nat := 0;
      var i := 0;
      while i < count
        invariant i <= count && p.i == i && p.rsp == rsp
        invariant p.len == if uuidLen == 0 then 0 else 2 + uuidLen
        invariant Passing(Everything, m, start, end, max, p)
      {
        var a := db[i];
        assert a == m.attrs[i];
        EntryOfEverything(m, i, start, end);
        if a.handle < start || a.handle > end {
          PassSkip(Everything, m, start, end, max, p);
          i, p := i + 1, p.(i := i + 1);
          continue;
        }
        p := PassOpened(Everything, m, start, end, max, p);
        if uuidLen == 0 {
          uuidLen := EncodedLen(a.uuid, base);
          rsp := [OP_FIND_INFO_RSP, if uuidLen == UUID128_LEN then 2 else 1];
        }
        assert p.i == i && p.rsp == rsp && p.len == 2 + uuidLen && uuidLen > 0;
        if EncodedLen(a.uuid, base) != uuidLen {
          PassSkip(Everything, m, start, end, max, p);
          i, p := i + 1, p.(i := i + 1);
          continue;
        }
        PassTake(Everything, m, start, end, max, p);
        if |rsp| + 2 + uuidLen > max { break; }
        rsp := rsp + (U16Encode(a.handle) + Encode(a.uuid, base));
        i, p := i + 1, Pass(i + 1, p.page + [a], p.len, rsp);
      }
      if i == count { PassEnd(Everything, m, start, end, max, p); }
      if |rsp| == 2 { return ErrorRsp(max, OP_FIND_INFO_REQ, start, ERR_NOT_FOUND); }
    }

    method FindByTypeValue(start: u16, end: u16, typeUuid: u16, value: seq<byte>, max: nat) returns (rsp: seq<byte>)
      requires Valid()
      ensures rsp == FindByTypeValueRsp(Model(), start, end, typeUuid, value, max)
    {
      if typeUuid != PRIMARY_SERVICE.short || (|value| != UUID16_LEN && |value| != UUID128_LEN) {
        return ErrorRsp(max, OP_FIND_BY_VALUE_REQ, start, ERR_NOT_FOUND);
      }
      if max < 1 { return []; }
      hide Passing;
      hide Respond;
      hide EndHandle;
      hide Encode;
      hide AllValid;
      ghost var m := Model();
      ghost var q := ServicesWith(value);
      PassStart(q, m, start, end, max);
      rsp := [OP_FIND_BY_VALUE_RSP];
      ghost var p := Pass(0, [], 0, rsp);
      var i := 0;
      while i < count
        invariant i <= count && p.i == i && p.rsp == rsp && (p.len == 0 || p.len == 4)
        invariant Passing(q, m, start, end, max, p)
      {
        var a := db[i];
        assert a == m.attrs[i];
        if a.uuid != PRIMARY_SERVICE || a.handle < start || a.handle > end || a.value != value {
          PassSkip(q, m, start, end, max, p);
          i, p := i + 1, p.(i := i + 1);
          continue;
        }
        p := PassMatch(q, m, start, end, max, p);
        if |rsp| + 4 > max { break; }
        var serviceEnd := ServiceEndHandle(a.handle);
        rsp := rsp + (U16Encode(a.handle) + U16Encode(serviceEnd));
        i, p := i + 1, Pass(i + 1, p.page + [a], p.len, rsp);
      }
      if i == count { PassEnd(q, m, start, end, max, p); }
      if |rsp| == 1 { return ErrorRsp(max, OP_FIND_BY_VALUE_REQ, start, ERR_NOT_FOUND); }
    }

    method ReadByGroupType(start: u16, end: u16, group: seq<byte>, max: nat) returns (rsp: seq<byte>)
      requires Valid()
      ensures rsp == ReadByGroupTypeRsp(Model(), start, end, group, max)
    {
      hide Passing;
      hide Respond;
      hide EndHandle;
      hide Encode;
      hide AllValid;
      hide Entry;
      hide EntryLen;
      hide Wanted;
      hide ErrorRsp;
      if |group| != UUID16_LEN || U16Decode(group) != PRIMARY_SERVICE.short {
        return ErrorRsp(max, OP_READ_BY_GROUP_REQ, start, ERR_UNSUPPORTED_GROUP);
      }
      if max < 2 {
        NoRoomForAHeader(Services, Model(), start, end, max);
        return [];
      }
      ghost var m := Model();
      PassStart(Services, m, start, end, max);
      rsp := [OP_READ_BY_GROUP_RSP, 0];
      ghost var p := Pass(0, [], 0, rsp);
      var entryLen: nat := 0;
      var i := 0;
      while i < count
        invariant i <= count && p.i == i && p.rsp == rsp && p.len == entryLen
        invariant Passing(Services, m, start, end, max, p)
        invariant entryLen == 0 ==> rsp == [OP_READ_BY_GROUP_RSP, 0]
      {
        var a := db[i];
        assert a == m.attrs[i];
        EntryOfServices(m, i, start, end);
        if a.uuid != PRIMARY_SERVICE || a.handle < start || a.handle > end {
          PassSkip(Services, m, start, end, max, p);
          i, p := i + 1, p.(i := i + 1);
          continue;
        }
        if entryLen == 0 {
          PassOpen(Services, m, start, end, max, p);
          entryLen := 4 + |a.value|;
          rsp := [OP_READ_BY_GROUP_RSP, entryLen];
          p := p.(len := entryLen, rsp := rsp);
          if entryLen + 2 > max { return ErrorRsp(max, OP_READ_BY_GROUP_REQ, start, ERR_NOT_FOUND); }
        }
        if 4 + |a.value| != entryLen {
          PassSkip(Services, m, start, end, max, p);
          i, p := i + 1, p.(i := i + 1);
          continue;
        }
        PassTake(Services, m, start, end, max, p);
        if |rsp| + entryLen > max { break; }
        var serviceEnd := ServiceEndHandle(a.handle);
        rsp := rsp + (U16Encode(a.handle) + U16Encode(serviceEnd) + a.value);
        i, p := i + 1, Pass(i + 1, p.page + [a], p.len, rsp);
      }
      if i == count { PassEnd(Services, m, start, end, max, p); }
      if |rsp| == 2 { return ErrorRsp(max, OP_READ_BY_GROUP_REQ, start, ERR_NOT_FOUND); }
    }

    method ReadByType(start: u16, end: u16, typeUuid: seq<byte>, max: nat) returns (rsp: seq<byte>)
      requires Valid() && (|typeUuid| == UUID16_LEN || |typeUuid| == UUID128_LEN)
      ensures rsp == Respond(Typed(typeUuid), Model(), start, end, max)
    {
      hide Passing;
      hide Respond;
      hide EndHandle;
      hide Encode;
      hide AllValid;
      hide Entry;
      hide EntryLen;
      hide Wanted;
      hide ErrorRsp;
      hide MatchesBytes;
      hide U16Encode;
      if max < 2 {
        NoRoomForAHeader(Typed(typeUuid), Model(), start, end, max);
        return [];
      }
      ghost var m := Model();
      ghost var q := Typed(typeUuid);
      PassStart(q, m, start, end, max);
      rsp := [OP_READ_BY_TYPE_RSP, 0];
      ghost var p := Pass(0, [], 0, rsp);
      var entryLen: nat := 0;
      var i := 0;
      while i < count
        invariant i <= count && p.i == i && p.rsp == rsp && p.len == entryLen
        invariant Passing(q, m, start, end, max, p)
        invariant entryLen == 0 ==> rsp == [OP_READ_BY_TYPE_RSP, 0]
      {
        var a := db[i];
        assert a == m.attrs[i];
        EntryOfType(m, i, start, end, typeUuid);
        if a.handle < start || a.handle > end || !MatchesBytes(a.uuid, base, typeUuid) || !a.readable {
          PassSkip(q, m, start, end, max, p);
          i, p := i + 1, p.(i := i + 1);
          continue;
        }
        if entryLen == 0 {
          PassOpen(q, m, start, end, max, p);
          entryLen := 2 + |a.value|;
          rsp := [OP_READ_BY_TYPE_RSP, entryLen];
          p := p.(len := entryLen, rsp := rsp);
          if entryLen + 2 > max { return ErrorRsp(max, OP_READ_BY_TYPE_REQ, start, ERR_NOT_FOUND); }
        }
        if 2 + |a.value| != entryLen {
          PassSkip(q, m, start, end, max, p);
          i, p := i + 1, p.(i := i + 1);
          continue;
        }
        PassTake(q, m, start, end, max, p);
        if |rsp| + entryLen > max { break; }
        rsp := rsp + (U16Encode(a.handle) + a.value);
        i, p := i + 1, Pass(i + 1, p.page + [a], p.len, rsp);
      }
      if i == count { PassEnd(q, m, start, end, max, p); }
      if |rsp| == 2 { return ErrorRsp(max, OP_READ_BY_TYPE_REQ, start, ERR_NOT_FOUND); }
    }

    /** The discovery part of the ATT dispatcher. */
    method ProcessDiscovery(pdu: seq<byte>, max: nat) returns (rsp: seq<byte>)
      requires Valid() && pdu != []
      ensures rsp == Answer(Model(), pdu, max)
    {
      var op := pdu[0];
      if op == OP_FIND_INFO_REQ {
        if |pdu| < 5 { return ErrorRsp(max, op, 0, ERR_INVALID_PDU); }
        rsp := FindInfo(U16Decode(pdu[1..]), U16Decode(pdu[3..]), max);
      } else if op == OP_FIND_BY_VALUE_REQ {
        if |pdu| < 7 { return ErrorRsp(max, op, 0, ERR_INVALID_PDU); }
        rsp := FindByTypeValue(U16Decode(pdu[1..]), U16Decode(pdu[3..]), U16Decode(pdu[5..]), pdu[7..], max);
      } else if op == OP_READ_BY_GROUP_REQ {
        if |pdu| < 7 || (|pdu| - 5 != UUID16_LEN && |pdu| - 5 != UUID128_LEN) {
          return ErrorRsp(max, op, 0, ERR_INVALID_PDU);
        }
        rsp := ReadByGroupType(U16Decode(pdu[1..]), U16Decode(pdu[3..]), pdu[5..], max);
      } else if op == OP_READ_BY_TYPE_REQ {
        if |pdu| < 7 || (|pdu| - 5 != UUID16_LEN && |pdu| - 5 != UUID128_LEN) {
          return ErrorRsp(max, op, 0, ERR_INVALID_PDU);
        }
        rsp := ReadByType(U16Decode(pdu[1..]), U16Decode(pdu[3..]), pdu[5..], max);
      } else {
        rsp := ErrorRsp(max, op, 0, ERR_REQUEST_NOT_SUPPORTED);
      }
    }
  }
}
