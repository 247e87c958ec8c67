/**
 * The discovery requests, answers and errors of ATT in the octets they have on the air, and which entries an
 * answer holds.
 */
module AttOctets {
  import opened Bytes
  import opened Uuids
  import opened GattTable
  import opened AttSpec
  import opened ClientSpec
  import opened Discovery
  import opened DiscoveryRun
  import opened DiscoveryResults

  // ---- requests ------------------------------------------------------------------------------------------

  predicate AsksRange(pdu: seq<byte>, op: byte, c: Client) {
    |pdu| >= 5 && pdu[0] == op && U16Decode(pdu[1..]) == c.rangeStart && U16Decode(pdu[3..]) == c.rangeEnd
  }

  /** What a client sends in each procedure: opcode, the range left, and the UUID it is about. */
  lemma {:induction false} RequestsInOctets(c: Client, base: Base)
    requires CanAsk(c, base)
    ensures var pdu := Request(c, base);
            match c.procedure
            case PrimaryServices => AsksRange(pdu, 0x10, c) && pdu[5..] == [0x00, 0x28]
            case PrimaryServicesByUuid =>
              AsksRange(pdu, 0x06, c) && |pdu| >= 7 && pdu[5..7] == [0x00, 0x28] && pdu[7..] == Encode(c.serviceUuid, base)
            case Characteristics => AsksRange(pdu, 0x08, c) && pdu[5..] == [0x03, 0x28]
            case Descriptors => AsksRange(pdu, 0x04, c) && |pdu| == 5
            case Inactive => false
  {
    var pdu := Request(c, base);
    var s, e := U16Encode(c.rangeStart), U16Encode(c.rangeEnd);
    assert U16Encode(0x2800) == [0x00, 0x28] && U16Encode(0x2803) == [0x03, 0x28];
    hide U16Encode;
    hide Encode;
    assert pdu[1..][0] == s[0] && pdu[1..][1] == s[1] && pdu[3..][0] == e[0] && pdu[3..][1] == e[1];
  }

  // ---- errors ----------------------------------------------------------------------------------------------

  /** An error response, if there is room for one. */
  function ErrorOf(max: nat, op: byte, handle: u16, code: byte): seq<byte> {
    if max < 5 then [] else [0x01, op, handle % 0x100, handle / 0x100, code]
  }

  predicate Uuidish(n: nat) { n == 2 || n == 16 }

  /**
   * The answers that hold no entries: 0x04 to a malformed request, 0x06 to an unknown one, 0x10 to a group that
   * is not the primary service, and 0x0A when nothing wanted lies in the range.
   */
  lemma {:induction false} ErrorsInOctets(db: Db, pdu: seq<byte>, max: nat)
    requires AllValid(db) && pdu != []
    ensures var op := pdu[0];
            && (op != 0x04 && op != 0x06 && op != 0x08 && op != 0x10 ==> Answer(db, pdu, max) == ErrorOf(max, op, 0, 0x06))
            && (op == 0x04 && |pdu| < 5 ==> Answer(db, pdu, max) == ErrorOf(max, op, 0, 0x04))
            && (op == 0x06 && |pdu| < 7 ==> Answer(db, pdu, max) == ErrorOf(max, op, 0, 0x04))
            && ((op == 0x08 || op == 0x10) && (|pdu| < 5 || !Uuidish(|pdu| - 5)) ==>
                  Answer(db, pdu, max) == ErrorOf(max, op, 0, 0x04))
            && (op == 0x10 && |pdu| >= 7 && Uuidish(|pdu| - 5) && pdu[5..] != [0x00, 0x28] ==>
                  Answer(db, pdu, max) == ErrorOf(max, op, U16Decode(pdu[1..]), 0x10))
            && (op == 0x06 && |pdu| >= 7 && (U16Decode(pdu[5..]) != 0x2800 || !Uuidish(|pdu| - 7)) ==>
                  Answer(db, pdu, max) == ErrorOf(max, op, U16Decode(pdu[1..]), 0x0A))
  {
    hide Respond;
    if |pdu| == 7 && U16Decode(pdu[5..]) == 0x2800 {
      EncodeDecode(pdu[5..]);
      assert U16Encode(0x2800) == [0x00, 0x28];
    }
  }

  /** Every other request is a query over its range: by 0x04, 0x06, 0x08 or 0x10, trailing octets or not. */
  lemma {:induction false} QueriesInOctets(db: Db, pdu: seq<byte>, max: nat)
    requires AllValid(db) && |pdu| >= 5
    ensures var start := U16Decode(pdu[1..]);
            var end := U16Decode(pdu[3..]);
            && (pdu[0] == 0x04 ==> Answer(db, pdu, max) == Respond(Everything, db, start, end, max))
            && (pdu[0] == 0x06 && |pdu| >= 7 && U16Decode(pdu[5..]) == 0x2800 && Uuidish(|pdu| - 7) ==>
                  Answer(db, pdu, max) == Respond(ServicesWith(pdu[7..]), db, start, end, max))
            && (pdu[0] == 0x08 && Uuidish(|pdu| - 5) ==>
                  Answer(db, pdu, max) == Respond(Typed(pdu[5..]), db, start, end, max))
            && (pdu[0] == 0x10 && pdu[5..] == [0x00, 0x28] ==>
                  Answer(db, pdu, max) == Respond(Services, db, start, end, max))
  {
    hide Respond;
  }

  // ---- which entries an answer holds ---------------------------------------------------------------------

  /** The opcode of the request that a query stands for, and of its answer. */
  function AskedWith(q: Query): byte {
    match q
    case Services => 0x10
    case ServicesWith(_) => 0x06
    case Typed(_) => 0x08
    case Everything => 0x04
  }

  /** Those of the attributes found whose entries are as long as the first one's. */
  function LikeTheFirst(q: Query, base: Base, found: seq<Attr>, len: nat): seq<Attr> {
    if found == [] then []
    else (if EntryLen(q, found[0], base) == len then [found[0]] else []) + LikeTheFirst(q, base, found[1..], len)
  }

  lemma {:induction false} TakesLikeTheFirst(q: Query, base: Base, found: seq<Attr>, len: nat, room: nat)
    ensures var page := TakeSame(q, base, found, len, room);
            var like := LikeTheFirst(q, base, found, len);
            page <= like && (page == like || |page| == room)
  {
    if found != [] {
      if EntryLen(q, found[0], base) == len {
        if room > 0 {
          TakesLikeTheFirst(q, base, found[1..], len, room - 1);
        }
      } else {
        TakesLikeTheFirst(q, base, found[1..], len, room);
      }
    }
  }

  function HeadLen(q: Query): nat { if q.ServicesWith? then 1 else 2 }

  /** As many of those as fit behind the head of an answer. */
  function Fitting(q: Query, base: Base, found: seq<Attr>, max: nat): seq<Attr>
    requires max >= HeadLen(q) && forall a :: a in found ==> IsValid(a.uuid, base)
  {
    if found == [] then []
    else
      assert found[0] in found;
      var len := EntryLen(q, found[0], base);
      assert len > 0;
      var like := LikeTheFirst(q, base, found, len);
      like[..if |like| < (max - HeadLen(q)) / len then |like| else (max - HeadLen(q)) / len]
  }

  lemma {:induction false} PageIsWhatFits(q: Query, base: Base, found: seq<Attr>, max: nat)
    requires max >= HeadLen(q) && forall a :: a in found ==> IsValid(a.uuid, base)
    ensures Page(q, base, found, max) == Fitting(q, base, found, max)
  {
    if found != [] {
      assert found[0] in found;
      var len := EntryLen(q, found[0], base);
      TakesLikeTheFirst(q, base, found, len, Room(q, len, max));
    }
  }

  /** The first octets of an answer: its opcode, and the length or the kind of its entries. */
  function Head(q: Query, len: nat): seq<int> {
    match q
    case Services => [0x11, len]
    case ServicesWith(_) => [0x07]
    case Typed(_) => [0x09, len]
    case Everything => [0x05, if len == 18 then 2 else 1]
  }

  /** The parts of an entry: a handle, then the end of the service, the value or the UUID. */
  predicate IsEntryOf(e: seq<byte>, q: Query, a: Attr, db: Db)
    requires db.attrs != [] && IsValid(a.uuid, db.base)
  {
    && |e| >= 2 && U16Decode(e) == a.handle
    && match q
       case Services => |e| >= 4 && U16Decode(e[2..]) == EndHandle(db.attrs, a.handle) && e[4..] == a.value
       case ServicesWith(_) => |e| == 4 && U16Decode(e[2..]) == EndHandle(db.attrs, a.handle)
       case Typed(_) => e[2..] == a.value
       case Everything => e[2..] == Encode(a.uuid, db.base)
  }

  lemma {:induction false} EntryInOctets(q: Query, a: Attr, db: Db)
    requires db.attrs != [] && IsValid(a.uuid, db.base)
    ensures IsEntryOf(Entry(q, a, db), q, a, db)
  {
    var e := Entry(q, a, db);
    hide EndHandle;
    hide Encode;
    hide U16Encode;
    var h, end := U16Encode(a.handle), U16Encode(EndHandle(db.attrs, a.handle));
    assert e[0] == h[0] && e[1] == h[1];
    if q.Services? || q.ServicesWith? {
      assert e[2..][0] == end[0] && e[2..][1] == end[1];
    }
  }

  /**
   * An answer begins with its opcode and holds, entry by entry, what fits of the wanted attributes that are as
   * long as the first of them; if that is nothing, it is the error 0x0A for the start of the range.
   */
  lemma {:induction false} AnswersHoldWhatFits(q: Query, db: Db, start: u16, end: u16, max: nat)
    requires AllValid(db) && max >= HeadLen(q)
    ensures var found := Found(q, db, start, end, 0);
            && (forall a :: a in found ==> IsValid(a.uuid, db.base))
            && var page := Fitting(q, db.base, found, max);
               && (forall a :: a in page ==> a in found)
               && Respond(q, db, start, end, max)
                  == if page == [] then ErrorOf(max, AskedWith(q), start, 0x0A)
                     else Head(q, EntryLen(q, found[0], db.base)) + Entries(q, db, page)
  {
    FoundValid(q, db, start, end, 0);
    var found := Found(q, db, start, end, 0);
    PageIsWhatFits(q, db.base, found, max);
    hide Fitting;
    hide Found;
    hide Entries;
    if found != [] {
      TakeSameMembers(q, db.base, found, EntryLen(q, found[0], db.base), Room(q, EntryLen(q, found[0], db.base), max));
    }
  }

  /** What a query wants: primary services, those with a value, readable attributes of a type, all attributes. */
  predicate Wants(q: Query, a: Attr, base: Base) {
    match q
    case Services => a.uuid == Sig16(0x2800)
    case ServicesWith(value) => a.uuid == Sig16(0x2800) && a.value == value
    case Typed(uuid) => a.readable && MatchesBytes(a.uuid, base, uuid)
    case Everything => true
  }

  /** Of the attributes in the range a query finds exactly those it wants. */
  lemma {:induction false} FindsExactly(q: Query, db: Db, start: u16, end: u16, i: nat)
    requires i <= |db.attrs|
    ensures forall a :: a in Found(q, db, start, end, i) <==>
      a in db.attrs[i..] && start <= a.handle <= end && Wants(q, a, db.base)
    decreases |db.attrs| - i
  {
    if i < |db.attrs| {
      FindsExactly(q, db, start, end, i + 1);
      assert db.attrs[i..] == [db.attrs[i]] + db.attrs[i + 1..];
    }
  }

  /** Discovery by UUID reports exactly the services in the range with its octets, at every MTU. */
  lemma {:induction false} ByUuidReportsExactly(c: Client, db: Db, max: nat)
    requires Asking(c, db) && max >= ATT_MTU_DEFAULT && c.procedure == PrimaryServicesByUuid
    ensures forall a :: a in Discovered(c, db, max) <==>
      && a in db.attrs && c.rangeStart <= a.handle <= c.rangeEnd
      && a.uuid == Sig16(0x2800) && a.value == Encode(c.serviceUuid, db.base)
  {
    hide Found;
    hide Discovered;
    hide Encode;
    ByUuidIsExact(c, db, max);
    FindsExactly(ServicesWith(Encode(c.serviceUuid, db.base)), db, c.rangeStart, c.rangeEnd, 0);
    assert db.attrs[0..] == db.attrs;
  }

  // ---- what a client makes of an answer ------------------------------------------------------------------

  /** The request of a procedure, and the answer it waits for. */
  function RequestOf(p: Procedure): byte {
    match p
    case PrimaryServices => 0x10
    case PrimaryServicesByUuid => 0x06
    case Characteristics => 0x08
    case Descriptors => 0x04
    case Inactive => 0
  }

  /** The lengths of entries a client takes, by the second octet of the answer. */
  predicate WellFormed(c: Client, rsp: seq<byte>) {
    |rsp| >= 2 && match c.procedure
                  case PrimaryServices => rsp[1] == 6 || rsp[1] == 20
                  case PrimaryServicesByUuid => |rsp| >= 5 && (|rsp| - 1) % 4 == 0
                  case Characteristics => rsp[1] == 7 || rsp[1] == 21
                  case Descriptors => rsp[1] == 1 || rsp[1] == 2
                  case Inactive => false
  }

  /**
   * Not found, said of its own request, completes a procedure; any other error ends it as an error, with what
   * was said; one too short is ignored. An answer of the wrong shape ends the procedure as an error 0x04, one
   * of another kind is ignored.
   */
  lemma {:induction false} ClientReacts(c: Client, base: Base, rsp: seq<byte>, queued: bool)
    requires rsp != [] && (c.procedure == Inactive || CanAsk(c, base))
    ensures var r := React(c, base, rsp, queued);
            var awaited := c.procedure != Inactive && rsp[0] == RequestOf(c.procedure) + 1;
            && (rsp[0] == 0x01 && |rsp| < 5 ==> r == Reaction(c, [], None))
            && (rsp[0] == 0x01 && |rsp| >= 5 ==>
                  r == Reaction(IDLE,
                         if c.procedure != Inactive && rsp[1] == RequestOf(c.procedure) && rsp[4] == 0x0A then
                           [ProcedureComplete(c.procedure)]
                         else [ProcedureError(c.procedure, rsp[1], U16Decode(rsp[2..]), rsp[4])], None))
            && (rsp[0] != 0x01 && !awaited ==> r == Reaction(c, [], None))
            && (awaited && !WellFormed(c, rsp) ==>
                  r == if |rsp| >= 2 || c.procedure == PrimaryServicesByUuid then
                         Reaction(IDLE, [ProcedureError(c.procedure, RequestOf(c.procedure), c.rangeStart, 0x04)], None)
                       else Reaction(c, [], None))
            && (awaited && WellFormed(c, rsp) ==>
                  && r.events != [] && (r.request.None? <==> r.client == IDLE)
                  && (r.request.None? ==> r.events[|r.events| - 1] == ProcedureComplete(c.procedure))
                  && (r.request.Some? ==> queued && r.client == c.(rangeStart := r.client.rangeStart)
                                          && r.client.rangeStart <= c.rangeEnd && r.request == Some(Request(r.client, base))))
  {
    hide Request;
    hide Decode;
    hide U16Decode;
  }
}
