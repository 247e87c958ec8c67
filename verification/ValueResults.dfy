/** The GATT server's values over every run of client requests, application pushes and reconnections. */
module ValueResults {
  import opened Bytes
  import opened Seqs
  import opened Uuids
  import opened GattTable
  import opened AttSpec
  import opened ValueSpec

  // ---- what a log says, by itself -------------------------------------------------------------------

  /** After n notes: the client has the push of characteristic k switched on. */
  predicate Status(log: seq<Note>, n: nat, k: nat, push: Push)
    requires n <= |log|
  {
    n > 0 &&
    match log[n - 1]
    case Reset => false
    case Enabled(k', push') => (k == k' && push == push') || Status(log, n - 1, k, push)
    case Disabled(k', push') => !(k == k' && push == push') && Status(log, n - 1, k, push)
    case _ => Status(log, n - 1, k, push)
  }

  /** After n notes: an indication is waiting for its confirmation. */
  predicate Awaiting(log: seq<Note>, n: nat)
    requires n <= |log|
  {
    n > 0 &&
    match log[n - 1]
    case Reset => false
    case Confirmed => false
    case Pushed(_, push, _) => push == Indicate || Awaiting(log, n - 1)
    case _ => Awaiting(log, n - 1)
  }

  /**
   * Switching on and off alternate, starting with on; a value is only pushed while switched on, and no
   * indication while another is waiting.
   */
  predicate Legal(log: seq<Note>, n: nat)
    requires n < |log|
  {
    match log[n]
    case Enabled(k, push) => !Status(log, n, k, push)
    case Disabled(k, push) => Status(log, n, k, push)
    case Pushed(k, push, _) => Status(log, n, k, push) && (push == Indicate ==> !Awaiting(log, n))
    case _ => true
  }

  ghost predicate Disciplined(log: seq<Note>) {
    forall n :: 0 <= n < |log| ==> Legal(log, n)
  }

  lemma {:induction false} StatusStays(log: seq<Note>, e: Note, n: nat, k: nat, push: Push)
    requires n <= |log|
    ensures Status(log + [e], n, k, push) == Status(log, n, k, push)
  {
    if n > 0 {
      StatusStays(log, e, n - 1, k, push);
    }
  }

  lemma {:induction false} AwaitingStays(log: seq<Note>, e: Note, n: nat)
    requires n <= |log|
    ensures Awaiting(log + [e], n) == Awaiting(log, n)
  {
    if n > 0 {
      AwaitingStays(log, e, n - 1);
    }
  }

  lemma {:induction false} LegalStays(log: seq<Note>, e: Note, n: nat)
    requires n < |log|
    ensures Legal(log + [e], n) == Legal(log, n)
  {
    AwaitingStays(log, e, n);
    match log[n]
    case Enabled(k, push) => StatusStays(log, e, n, k, push);
    case Disabled(k, push) => StatusStays(log, e, n, k, push);
    case Pushed(k, push, _) => StatusStays(log, e, n, k, push);
    case _ =>
  }

  function Now(log: seq<Note>, k: nat, push: Push): bool { Status(log, |log|, k, push) }

  function StatusAfter(e: Note, before: bool, k: nat, push: Push): bool {
    match e
    case Reset => false
    case Enabled(k', push') => (k == k' && push == push') || before
    case Disabled(k', push') => !(k == k' && push == push') && before
    case _ => before
  }

  function AwaitingAfter(e: Note, before: bool): bool {
    match e
    case Reset => false
    case Confirmed => false
    case Pushed(_, push, _) => push == Indicate || before
    case _ => before
  }

  predicate LegalNext(log: seq<Note>, e: Note) {
    match e
    case Enabled(k, push) => !Now(log, k, push)
    case Disabled(k, push) => Now(log, k, push)
    case Pushed(k, push, _) => Now(log, k, push) && (push == Indicate ==> !Awaiting(log, |log|))
    case _ => true
  }

  /** One more legal note: what it changes and what it does not. */
  lemma {:induction false} NoteAdded(log: seq<Note>, e: Note)
    requires Disciplined(log) && LegalNext(log, e)
    ensures Disciplined(log + [e])
    ensures forall k, push :: Now(log + [e], k, push) == StatusAfter(e, Now(log, k, push), k, push)
    ensures Awaiting(log + [e], |log| + 1) == AwaitingAfter(e, Awaiting(log, |log|))
  {
    var log' := log + [e];
    forall k, push ensures Status(log', |log|, k, push) == Now(log, k, push) {
      StatusStays(log, e, |log|, k, push);
    }
    AwaitingStays(log, e, |log|);
    forall n | 0 <= n < |log'| ensures Legal(log', n) {
      if n < |log| { LegalStays(log, e, n); }
    }
  }

  // ---- the invariant -----------------------------------------------------------------------------------

  /** Each CCCD holds allowed bits only, and they are what the log says. */
  ghost predicate ConfigAt(s: Gatt, x: nat)
    requires x < |s.db.attrs|
  {
    s.db.attrs[x].owner.CccdOf? ==>
      var value := s.db.attrs[x].value;
      var k := s.db.attrs[x].owner.index;
      && |value| == 2 && ConfigAllowed(Props(s.db.attrs, x), value)
      && Bit(Notify, value) == Now(s.log, k, Notify) && Bit(Indicate, value) == Now(s.log, k, Indicate)
  }

  ghost predicate Inv(s: Gatt) {
    && Shape(s.db) && Disciplined(s.log)
    && (forall x :: 0 <= x < |s.db.attrs| ==> ConfigAt(s, x))
    && s.pending == Awaiting(s.log, |s.log|)
    && ATT_MTU_DEFAULT <= s.mtu <= ATT_MAX_MTU
  }

  lemma {:induction false} StoreKeepsShape(db: Db, x: nat, data: seq<byte>)
    requires Shape(db) && x < |db.attrs| && db.attrs[x].owner != NoOwner
    requires |data| <= db.attrs[x].maxLen && (db.attrs[x].owner.CccdOf? ==> |data| == 2)
    ensures Shape(Store(db, x, data))
    ensures forall y :: 0 <= y < |db.attrs| ==> Props(Store(db, x, data).attrs, y) == Props(db.attrs, y)
  {
    var db' := Store(db, x, data);
    forall y | 0 <= y < |db.attrs| ensures ShapeAt(db'.attrs, y) && Props(db'.attrs, y) == Props(db.attrs, y) {
      assert ShapeAt(db.attrs, y);
      if y > 0 { assert ShapeAt(db.attrs, y - 1); }
    }
  }

  /** Switching a push on or off is noted exactly when its bit changes. */
  lemma {:induction false} ChangeNoted(log: seq<Note>, k: nat, push: Push, before: seq<byte>, after: seq<byte>)
    requires Disciplined(log) && Now(log, k, push) == Bit(push, before)
    ensures var log' := log + ChangeNote(k, push, before, after);
            && Disciplined(log') && Awaiting(log', |log'|) == Awaiting(log, |log|)
            && Now(log', k, push) == Bit(push, after)
            && forall k': nat, push': Push :: k' != k || push' != push ==> Now(log', k', push') == Now(log, k', push')
  {
    if Bit(push, before) == Bit(push, after) {
      assert log + [] == log;
    } else {
      NoteAdded(log, if Bit(push, after) then Enabled(k, push) else Disabled(k, push));
    }
  }

  lemma {:induction false} BothChangesNoted(log: seq<Note>, k: nat, before: seq<byte>, after: seq<byte>)
    requires Disciplined(log)
    requires Now(log, k, Notify) == Bit(Notify, before) && Now(log, k, Indicate) == Bit(Indicate, before)
    ensures var log' := log + (ChangeNote(k, Notify, before, after) + ChangeNote(k, Indicate, before, after));
            && Disciplined(log') && Awaiting(log', |log'|) == Awaiting(log, |log|)
            && Now(log', k, Notify) == Bit(Notify, after) && Now(log', k, Indicate) == Bit(Indicate, after)
            && forall k', push' :: k' != k ==> Now(log', k', push') == Now(log, k', push')
  {
    var mid := log + ChangeNote(k, Notify, before, after);
    ChangeNoted(log, k, Notify, before, after);
    ChangeNoted(mid, k, Indicate, before, after);
    assert mid + ChangeNote(k, Indicate, before, after)
        == log + (ChangeNote(k, Notify, before, after) + ChangeNote(k, Indicate, before, after));
  }

  lemma {:induction false} InvConfigWrite(s: Gatt, x: nat, data: seq<byte>)
    requires Inv(s) && x < |s.db.attrs| && s.db.attrs[x].owner.CccdOf? && |data| == 2
    requires ConfigAllowed(Props(s.db.attrs, x), data)
    ensures Inv(s.(db := Store(s.db, x, data), log := s.log + WriteNotes(s.db.attrs[x], data)))
  {
    var k := s.db.attrs[x].owner.index;
    var s' := s.(db := Store(s.db, x, data), log := s.log + WriteNotes(s.db.attrs[x], data));
    assert ShapeAt(s.db.attrs, x) && ConfigAt(s, x);
    StoreKeepsShape(s.db, x, data);
    BothChangesNoted(s.log, k, s.db.attrs[x].value, data);
    hide Now;
    hide Shape;
    hide ConfigAllowed;
    hide Bit;
    hide Props;
    forall y | 0 <= y < |s'.db.attrs| ensures ConfigAt(s', y) {
      assert ConfigAt(s, y);
      if y != x { OwnersDiffer(s.db, x, y); }
    }
  }

  lemma {:induction false} OwnersDiffer(db: Db, x: nat, y: nat)
    requires Shape(db) && x < |db.attrs| && y < |db.attrs| && x != y && db.attrs[x].owner != NoOwner
    ensures db.attrs[x].owner != db.attrs[y].owner
  {
    if y < x && db.attrs[y].owner != NoOwner {
      assert db.attrs[y].owner != db.attrs[x].owner;
    }
  }

  // A note that switches nothing, and an entry that configures nothing.
  lemma {:induction false} InvValueStored(s: Gatt, x: nat, data: seq<byte>, note: Note)
    requires Inv(s) && x < |s.db.attrs| && s.db.attrs[x].owner.ValueOf? && |data| <= s.db.attrs[x].maxLen
    requires note.Written?
    ensures Inv(s.(db := Store(s.db, x, data), log := s.log + [note]))
    ensures Inv(s.(db := Store(s.db, x, data)))
  {
    StoreKeepsShape(s.db, x, data);
    NoteAdded(s.log, note);
    hide Now;
    hide Shape;
    hide ConfigAllowed;
    hide Bit;
    hide Props;
    var s' := s.(db := Store(s.db, x, data), log := s.log + [note]);
    forall y | 0 <= y < |s.db.attrs| ensures ConfigAt(s', y) && ConfigAt(s.(db := Store(s.db, x, data)), y) {
      assert ConfigAt(s, y);
    }
  }

  lemma {:induction false} InvWrite(s: Gatt, handle: u16, data: seq<byte>, withRsp: bool)
    requires Inv(s)
    ensures Inv(Write(s, handle, data, withRsp))
  {
    if Refusal(s.db, handle, data, withRsp).None? {
      var x := Locate(s.db, handle).value;
      assert ShapeAt(s.db.attrs, x);
      hide Inv;
      match s.db.attrs[x].owner
      case CccdOf(k) => InvConfigWrite(s, x, data);
      case ValueOf(k) => InvValueStored(s, x, data, Written(k));
      case NoOwner =>
    }
  }

  // ---- pushes, confirmations, connections ---------------------------------------------------------------

  /** A value goes out only with its property, its configuration bit and nothing awaited. */
  lemma {:induction false} InvPush(s: Gatt, handle: u16, push: Push, accepted: bool)
    requires Inv(s)
    ensures Inv(PushValue(s, handle, push, accepted))
  {
    var pdu := ValuePdu(s, handle, push);
    if pdu.Some? && accepted {
      var x := Locate(s.db, handle).value;
      var k := s.db.attrs[x].owner.index;
      ConfiguredIsNow(s, x, push);
      NoteAdded(s.log, Pushed(k, push, pdu.value));
      InvNoted(s, Pushed(k, push, pdu.value));
    }
  }

  lemma {:induction false} ConfiguredIsNow(s: Gatt, x: nat, push: Push)
    requires Inv(s) && x < |s.db.attrs| && s.db.attrs[x].owner.ValueOf? && Bit(push, Configured(s.db.attrs, x))
    ensures Now(s.log, s.db.attrs[x].owner.index, push)
  {
    hide Shape;
    assert ConfigAt(s, x + 1);
  }

  lemma {:induction false} InvNoted(s: Gatt, e: Note)
    requires Inv(s) && LegalNext(s.log, e) && (e.Pushed? || e.Confirmed?)
    ensures Inv(s.(pending := AwaitingAfter(e, s.pending), log := s.log + [e]))
  {
    NoteAdded(s.log, e);
    hide Now;
    hide Shape;
    hide ConfigAllowed;
    hide Bit;
    hide Props;
    var s' := s.(pending := AwaitingAfter(e, s.pending), log := s.log + [e]);
    forall y | 0 <= y < |s.db.attrs| ensures ConfigAt(s', y) {
      assert ConfigAt(s, y);
    }
  }

  lemma {:induction false} UnconfiguredKeepsShape(db: Db)
    requires Shape(db)
    ensures Shape(Unconfigured(db))
    ensures forall y :: 0 <= y < |db.attrs| ==> Props(Unconfigured(db).attrs, y) == Props(db.attrs, y)
  {
    var db' := Unconfigured(db);
    forall y | 0 <= y < |db.attrs| ensures ShapeAt(db'.attrs, y) && Props(db'.attrs, y) == Props(db.attrs, y) {
      assert ShapeAt(db.attrs, y);
      if y > 0 { assert ShapeAt(db.attrs, y - 1); }
    }
    forall y | 0 <= y < |db'.attrs| ensures |db'.attrs[y].value| <= db'.attrs[y].maxLen {
      assert ShapeAt(db.attrs, y);
    }
  }

  lemma {:induction false} InvReset(s: Gatt)
    requires Shape(s.db) && Disciplined(s.log)
    ensures Inv(ResetConnection(s))
  {
    UnconfiguredKeepsShape(s.db);
    NoteAdded(s.log, Reset);
    hide Shape;
    hide Now;
    var s' := ResetConnection(s);
    forall y | 0 <= y < |s'.db.attrs| ensures ConfigAt(s', y) {}
  }

  /** A request for less than 23 is outside what a client may ask. */
  predicate ProperPdu(pdu: seq<byte>) {
    pdu != [] && (pdu[0] == OP_MTU_REQ && |pdu| >= 3 ==> U16Decode(pdu[1..]) >= ATT_MTU_DEFAULT)
  }

  lemma {:induction false} InvProcess(s: Gatt, pdu: seq<byte>, room: nat, local: u16)
    requires Inv(s) && AllValid(s.db) && ProperPdu(pdu) && room >= 1 && ATT_MTU_DEFAULT <= local <= ATT_MAX_MTU
    ensures Inv(Process(s, pdu, room, local).0)
  {
    hide Write;
    hide Answer;
    hide ReadRsp;
    hide WriteRsp;
    if pdu[0] == OP_WRITE_REQ && |pdu| >= 3 {
      InvWrite(s, U16Decode(pdu[1..]), pdu[3..], true);
    } else if pdu[0] == OP_WRITE_CMD && |pdu| >= 3 {
      InvWrite(s, U16Decode(pdu[1..]), pdu[3..], false);
    } else if pdu[0] == OP_CONFIRMATION && |pdu| == 1 {
      InvNoted(s, Confirmed);
    } else if pdu[0] == OP_MTU_REQ && |pdu| >= 3 {
      InvMtu(s, U16Decode(pdu[1..]), local);
    }
  }

  lemma {:induction false} InvMtu(s: Gatt, requested: u16, local: nat)
    requires Inv(s) && requested >= ATT_MTU_DEFAULT && ATT_MTU_DEFAULT <= local <= ATT_MAX_MTU
    ensures Inv(MtuRequest(s, requested, local))
  {
    var s' := MtuRequest(s, requested, local);
    forall y | 0 <= y < |s'.db.attrs| ensures ConfigAt(s', y) {
      assert ConfigAt(s, y);
    }
  }

  // ---- runs ---------------------------------------------------------------------------------------------

  /** The application stores a value, at most maxLen octets of it; pushes one; or the link starts anew. */
  datatype Action =
    | DoProcess(pdu: seq<byte>, room: nat, local: u16)
    | DoPush(handle: u16, push: Push, accepted: bool)
    | DoSetValue(handle: u16, value: seq<byte>)
    | DoReset

  function SetValue(s: Gatt, handle: u16, value: seq<byte>): Gatt {
    if Locate(s.db, handle).None? then s
    else
      var x := Locate(s.db, handle).value;
      if s.db.attrs[x].owner.ValueOf? then s.(db := Store(s.db, x, Take(value, s.db.attrs[x].maxLen))) else s
  }

  /** The peers and the link this holds for: no MTU request below 23, a response buffer, a sane data length. */
  predicate Proper(a: Action) {
    a.DoProcess? ==> ProperPdu(a.pdu) && a.room >= 1 && ATT_MTU_DEFAULT <= a.local <= ATT_MAX_MTU
  }

  ghost function Act(s: Gatt, a: Action): Gatt
    requires Inv(s) && Proper(a)
  {
    match a
    case DoProcess(pdu, room, local) => Process(s, pdu, room, local).0
    case DoPush(handle, push, accepted) => PushValue(s, handle, push, accepted)
    case DoSetValue(handle, value) => SetValue(s, handle, value)
    case DoReset => ResetConnection(s)
  }

  lemma {:induction false} ActSound(s: Gatt, a: Action)
    requires Inv(s) && Proper(a)
    ensures Inv(Act(s, a))
  {
    match a
    case DoProcess(pdu, room, local) => InvProcess(s, pdu, room, local);
    case DoPush(handle, push, accepted) => InvPush(s, handle, push, accepted);
    case DoReset => InvReset(s);
    case DoSetValue(handle, value) =>
      if Locate(s.db, handle).Some? && s.db.attrs[Locate(s.db, handle).value].owner.ValueOf? {
        var x := Locate(s.db, handle).value;
        InvValueStored(s, x, Take(value, s.db.attrs[x].maxLen), Written(0));
      }
  }

  ghost function Run(s: Gatt, actions: seq<Action>, n: nat): (e: Gatt)
    requires Inv(s) && n <= |actions| && forall i :: 0 <= i < n ==> Proper(actions[i])
    ensures Inv(e)
  {
    if n == 0 then s
    else
      ActSound(Run(s, actions, n - 1), actions[n - 1]);
      Act(Run(s, actions, n - 1), actions[n - 1])
  }

  /**
   * From a freshly built table on: CCCDs hold allowed bits only, switching on and off alternates, values
   * are pushed only while switched on, and no second indication goes out before a confirmation.
   */
  lemma {:induction false} PushesAreDisciplined(db: Db, actions: seq<Action>, n: nat)
    requires Shape(db) && n <= |actions| && forall i :: 0 <= i < n ==> Proper(actions[i])
    ensures Inv(ResetConnection(Gatt(db, false, ATT_MTU_DEFAULT, [])))
    ensures var e := Run(ResetConnection(Gatt(db, false, ATT_MTU_DEFAULT, [])), actions, n);
            && (forall m :: 0 <= m < |e.log| ==> Legal(e.log, m))
            && (forall x :: 0 <= x < |e.db.attrs| ==> ConfigAt(e, x))
  {
    InvReset(Gatt(db, false, ATT_MTU_DEFAULT, []));
  }
}
