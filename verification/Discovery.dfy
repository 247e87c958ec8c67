/**
 * The client's discovery loops run against the server: what is reported in the end, for every sound
 * table and every ATT MTU from 23 up.
 */
module Discovery {
  import opened Bytes
  import opened Uuids
  import opened GattTable
  import opened AttSpec
  import opened ClientSpec

  // ---- wanted attributes, by position ---------------------------------------------------------

  lemma {:induction false} FoundSkips(q: Query, db: Db, start: u16, end: u16, i: nat)
    requires Sound(db) && 1 <= start && i < start && i <= |db.attrs|
    ensures Found(q, db, start, end, i)
         == Found(q, db, start, end, if start - 1 <= |db.attrs| then start - 1 else |db.attrs|)
    decreases |db.attrs| - i
  {
    if i < |db.attrs| && i + 1 < start {
      FoundSkips(q, db, start, end, i + 1);
    }
  }

  // From position start - 1 on, the lower bound no longer matters.
  lemma {:induction false} FoundAnyStart(q: Query, db: Db, start: u16, start': u16, end: u16, i: nat)
    requires Sound(db) && i <= |db.attrs| && start <= i + 1 && start' <= i + 1
    ensures Found(q, db, start, end, i) == Found(q, db, start', end, i)
    decreases |db.attrs| - i
  {
    if i < |db.attrs| {
      FoundAnyStart(q, db, start, start', end, i + 1);
    }
  }

  /** The wanted attributes with handles above h: what a request from h + 1 is about. */
  function Beyond(q: Query, db: Db, end: u16, h: nat): seq<Attr> {
    Found(q, db, 0, end, if h <= |db.attrs| then h else |db.attrs|)
  }

  lemma {:induction false} FoundIsBeyond(q: Query, db: Db, start: u16, end: u16)
    requires Sound(db) && 1 <= start
    ensures Found(q, db, start, end, 0) == Beyond(q, db, end, start - 1)
  {
    FoundSkips(q, db, start, end, 0);
    if start - 1 <= |db.attrs| {
      FoundAnyStart(q, db, start, 0, end, start - 1);
    } else {
      FoundAnyStart(q, db, 0, 0, end, |db.attrs|);
    }
  }

  /** Every found attribute is a wanted table entry beyond the position, and handles ascend. */
  lemma {:induction false} FoundAscends(q: Query, db: Db, start: u16, end: u16, i: nat)
    requires Sound(db) && i <= |db.attrs|
    ensures var found := Found(q, db, start, end, i);
            && |found| <= |db.attrs| - i
            && (forall k :: 0 <= k < |found| ==> found[k] in db.attrs && Wanted(q, db, start, end, found[k]))
            && (forall k :: 0 <= k < |found| ==> i < found[k].handle <= |db.attrs|)
            && (forall j, k :: 0 <= j < k < |found| ==> found[j].handle < found[k].handle)
    decreases |db.attrs| - i
  {
    if i < |db.attrs| {
      FoundAscends(q, db, start, end, i + 1);
    }
  }

  /** What lies beyond the k-th found attribute is what was found after it. */
  lemma {:induction false} BeyondFound(q: Query, db: Db, end: u16, i: nat, k: nat)
    requires Sound(db) && i <= |db.attrs| && k < |Beyond(q, db, end, i)|
    ensures Beyond(q, db, end, Beyond(q, db, end, i)[k].handle) == Beyond(q, db, end, i)[k + 1..]
    decreases |db.attrs| - i
  {
    var found := Beyond(q, db, end, i);
    if Wanted(q, db, 0, end, db.attrs[i]) {
      assert found[1..] == Beyond(q, db, end, i + 1);
      if k > 0 {
        BeyondFound(q, db, end, i + 1, k - 1);
      }
    } else {
      BeyondFound(q, db, end, i + 1, k);
    }
  }

  // ---- what all the pages together report -------------------------------------------------------

  /** What follows the last attribute taken into a page. */
  function RestAfter(q: Query, base: Base, found: seq<Attr>, len: nat, room: nat): (rest: seq<Attr>)
    ensures |rest| <= |found|
  {
    if found == [] || room == 0 then found
    else if EntryLen(q, found[0], base) == len then RestAfter(q, base, found[1..], len, room - 1)
    else if TakeSame(q, base, found[1..], len, room) == [] then found
    else RestAfter(q, base, found[1..], len, room)
  }

  /** The reported attributes: a page, then what the requests after it report. */
  function Reported(q: Query, base: Base, found: seq<Attr>, max: nat): seq<Attr>
    requires max >= HeaderLen(q) && forall a :: a in found ==> IsValid(a.uuid, base)
    decreases |found|
  {
    if found == [] then []
    else
      var len := EntryLen(q, found[0], base);
      var room := Room(q, len, max);
      if room == 0 then []
      else
        var rest := RestAfter(q, base, found[1..], len, room - 1);
        RestIsSuffix(q, base, found[1..], len, room - 1);
        Page(q, base, found, max) + Reported(q, base, rest, max)
  }

  lemma {:induction false} RestIsSuffix(q: Query, base: Base, found: seq<Attr>, len: nat, room: nat)
    ensures var rest := RestAfter(q, base, found, len, room); found[|found| - |rest|..] == rest
  {
    if found != [] && room > 0 {
      RestIsSuffix(q, base, found[1..], len, if EntryLen(q, found[0], base) == len then room - 1 else room);
    }
  }

  // The last attribute of a page sits just before the rest.
  lemma {:induction false} LastOfPage(q: Query, base: Base, found: seq<Attr>, len: nat, room: nat)
    requires TakeSame(q, base, found, len, room) != []
    ensures var page := TakeSame(q, base, found, len, room);
            var rest := RestAfter(q, base, found, len, room);
            |rest| < |found| && page[|page| - 1] == found[|found| - |rest| - 1]
  {
    if EntryLen(q, found[0], base) == len {
      if TakeSame(q, base, found[1..], len, room - 1) != [] {
        LastOfPage(q, base, found[1..], len, room - 1);
      } else {
        NothingTaken(q, base, found[1..], len, room - 1);
      }
    } else {
      LastOfPage(q, base, found[1..], len, room);
    }
  }

  lemma {:induction false} NothingTaken(q: Query, base: Base, found: seq<Attr>, len: nat, room: nat)
    requires TakeSame(q, base, found, len, room) == []
    ensures RestAfter(q, base, found, len, room) == found
  {
  }

  // The rest after a page does not depend on whether its first entry is counted in.
  lemma {:induction false} ReportedUnfolds(q: Query, base: Base, found: seq<Attr>, max: nat)
    requires max >= HeaderLen(q) && found != [] && forall a :: a in found ==> IsValid(a.uuid, base)
    requires Room(q, EntryLen(q, found[0], base), max) > 0
    ensures var len := EntryLen(q, found[0], base);
            var left := RestAfter(q, base, found, len, Room(q, len, max));
            && (forall a :: a in left ==> IsValid(a.uuid, base))
            && Reported(q, base, found, max) == Page(q, base, found, max) + Reported(q, base, left, max)
  {
    var len := EntryLen(q, found[0], base);
    RestIsSuffix(q, base, found, len, Room(q, len, max));
    hide Page;
    hide Room;
    hide EntryLen;
    hide IsValid;
    assert RestAfter(q, base, found, len, Room(q, len, max)) == RestAfter(q, base, found[1..], len, Room(q, len, max) - 1);
  }

  // ---- every attribute reported, when equal lengths are together ------------------------------------

  function LenAt(q: Query, base: Base, found: seq<Attr>, i: nat): nat
    requires i < |found|
  {
    EntryLen(q, found[i], base)
  }

  /** Entries of equal encoded length are contiguous. */
  ghost predicate Grouped(q: Query, base: Base, found: seq<Attr>) {
    forall i, j, k :: 0 <= i < j < k < |found| && LenAt(q, base, found, i) == LenAt(q, base, found, k) ==>
      LenAt(q, base, found, j) == LenAt(q, base, found, i)
  }

  lemma {:induction false} GroupedSuffix(q: Query, base: Base, found: seq<Attr>, n: nat)
    requires Grouped(q, base, found) && n <= |found|
    ensures Grouped(q, base, found[n..])
  {
    var rest := found[n..];
    forall i, j, k | 0 <= i < j < k < |rest| && LenAt(q, base, rest, i) == LenAt(q, base, rest, k)
      ensures LenAt(q, base, rest, j) == LenAt(q, base, rest, i)
    {
      assert LenAt(q, base, found, n + i) == LenAt(q, base, found, n + k);
      assert LenAt(q, base, found, n + j) == LenAt(q, base, found, n + i);
    }
  }

  lemma {:induction false} NoneOfLength(q: Query, base: Base, found: seq<Attr>, len: nat, room: nat)
    requires forall i :: 0 <= i < |found| ==> LenAt(q, base, found, i) != len
    ensures TakeSame(q, base, found, len, room) == [] && RestAfter(q, base, found, len, room) == found
  {
    if found != [] && room > 0 {
      assert LenAt(q, base, found, 0) != len;
      forall i | 0 <= i < |found[1..]| ensures LenAt(q, base, found[1..], i) != len {
        assert LenAt(q, base, found, i + 1) != len;
      }
      NoneOfLength(q, base, found[1..], len, room);
    }
  }

  /** When the entries of length len come first, a page takes a prefix and leaves the suffix. */
  lemma {:induction false} PrefixTaken(q: Query, base: Base, found: seq<Attr>, len: nat, room: nat)
    requires forall i, j :: 0 <= i < j < |found| && LenAt(q, base, found, j) == len ==> LenAt(q, base, found, i) == len
    ensures TakeSame(q, base, found, len, room) + RestAfter(q, base, found, len, room) == found
  {
    if found == [] || room == 0 {
    } else if EntryLen(q, found[0], base) == len {
      assert LenAt(q, base, found, 0) == len;
      var tail := found[1..];
      forall i, j | 0 <= i < j < |tail| && LenAt(q, base, tail, j) == len
        ensures LenAt(q, base, tail, i) == len
      {
        assert LenAt(q, base, found, j + 1) == len && LenAt(q, base, found, i + 1) == len;
      }
      PrefixTaken(q, base, tail, len, room - 1);
      assert found == [found[0]] + tail;
    } else {
      assert LenAt(q, base, found, 0) != len;
      NoneOfLength(q, base, found, len, room);
    }
  }

  ghost predicate RoomForOne(q: Query, base: Base, found: seq<Attr>, max: nat)
    requires max >= HeaderLen(q)
  {
    forall a :: a in found ==> IsValid(a.uuid, base) && EntryLen(q, a, base) + HeaderLen(q) <= max
  }

  lemma {:induction false} RoomPositive(q: Query, len: nat, max: nat)
    requires 0 < len && len + HeaderLen(q) <= max
    ensures Room(q, len, max) > 0
  {
    assert (max - HeaderLen(q)) / len >= 1;
  }

  // One request: the page and the rest together are all there is.
  lemma {:induction false} GroupedPage(q: Query, base: Base, found: seq<Attr>, len: nat, room: nat)
    requires found != [] && room > 0 && Grouped(q, base, found) && len == EntryLen(q, found[0], base)
    ensures var left := RestAfter(q, base, found, len, room);
            && TakeSame(q, base, found, len, room) + left == found
            && |left| < |found| && Grouped(q, base, left) && left == found[|found| - |left|..]
  {
    forall i, j | 0 <= i < j < |found| && LenAt(q, base, found, j) == len ensures LenAt(q, base, found, i) == len {
      assert LenAt(q, base, found, 0) == len;
    }
    PrefixTaken(q, base, found, len, room);
    RestIsSuffix(q, base, found, len, room);
    GroupedSuffix(q, base, found, |found| - |RestAfter(q, base, found, len, room)|);
  }

  lemma {:induction false} RoomForFewer(q: Query, base: Base, found: seq<Attr>, n: nat, max: nat)
    requires max >= HeaderLen(q) && n <= |found| && RoomForOne(q, base, found, max)
    ensures RoomForOne(q, base, found[n..], max)
  {
  }

  lemma {:induction false} FirstHasRoom(q: Query, base: Base, found: seq<Attr>, max: nat)
    requires max >= HeaderLen(q) && RoomForOne(q, base, found, max) && found != []
    ensures Room(q, EntryLen(q, found[0], base), max) > 0 && forall a :: a in found ==> IsValid(a.uuid, base)
  {
    assert found[0] in found;
    RoomPositive(q, EntryLen(q, found[0], base), max);
  }

  lemma {:induction false} GroupedIsComplete(q: Query, base: Base, found: seq<Attr>, max: nat)
    requires max >= HeaderLen(q) && RoomForOne(q, base, found, max) && Grouped(q, base, found)
    ensures Reported(q, base, found, max) == found
    decreases |found|
  {
    if found != [] {
      hide Grouped;
      hide TakeSame;
      hide RestAfter;
      hide Reported;
      FirstHasRoom(q, base, found, max);
      hide RoomForOne;
      hide Room;
      hide EntryLen;
      var len := EntryLen(q, found[0], base);
      var left := RestAfter(q, base, found, len, Room(q, len, max));
      GroupedPage(q, base, found, len, Room(q, len, max));
      ReportedUnfolds(q, base, found, max);
      RoomForFewer(q, base, found, |found| - |left|, max);
      GroupedIsComplete(q, base, left, max);
      return;
    }
  }

  // ---- and only then, when a page can hold everything ------------------------------------------------

  ghost predicate NoneIs(q: Query, base: Base, found: seq<Attr>, len: nat) {
    forall i :: 0 <= i < |found| ==> LenAt(q, base, found, i) != len
  }

  function CountOf(q: Query, base: Base, found: seq<Attr>, len: nat): (n: nat)
    ensures n <= |found|
  {
    if found == [] then 0 else (if EntryLen(q, found[0], base) == len then 1 else 0) + CountOf(q, base, found[1..], len)
  }

  lemma {:induction false} TakesAll(q: Query, base: Base, found: seq<Attr>, len: nat, room: nat)
    requires room >= CountOf(q, base, found, len)
    ensures TakeSame(q, base, found, len, room) == [] ==> NoneIs(q, base, found, len)
    ensures NoneIs(q, base, RestAfter(q, base, found, len, room), len)
  {
    if found == [] {
    } else if room == 0 {
      NoneCounted(q, base, found, len);
    } else {
      var tail := found[1..];
      if EntryLen(q, found[0], base) == len {
        TakesAll(q, base, tail, len, room - 1);
      } else {
        TakesAll(q, base, tail, len, room);
        if TakeSame(q, base, tail, len, room) == [] {
          forall i | 0 <= i < |found| ensures LenAt(q, base, found, i) != len {
            if i > 0 { assert LenAt(q, base, tail, i - 1) != len; }
          }
        }
      }
    }
  }

  lemma {:induction false} NoneCounted(q: Query, base: Base, found: seq<Attr>, len: nat)
    requires CountOf(q, base, found, len) == 0
    ensures NoneIs(q, base, found, len)
  {
    if found != [] {
      NoneCounted(q, base, found[1..], len);
      forall i | 0 <= i < |found| ensures LenAt(q, base, found, i) != len {
        if i > 0 { assert LenAt(q, base, found[1..], i - 1) != len; }
      }
    }
  }

  lemma {:induction false} CountOfSuffix(q: Query, base: Base, found: seq<Attr>, n: nat, len: nat)
    requires n <= |found|
    ensures CountOf(q, base, found[n..], len) <= CountOf(q, base, found, len)
  {
    if n == 0 {
      assert found[0..] == found;
    } else {
      CountOfSuffix(q, base, found[1..], n - 1, len);
      assert found[1..][n - 1..] == found[n..];
    }
  }

  lemma {:induction false} PageFitsBeforeRest(q: Query, base: Base, found: seq<Attr>, len: nat, room: nat)
    ensures |TakeSame(q, base, found, len, room)| + |RestAfter(q, base, found, len, room)| <= |found|
  {
    if found != [] && room > 0 {
      PageFitsBeforeRest(q, base, found[1..], len, if EntryLen(q, found[0], base) == len then room - 1 else room);
    }
  }

  lemma {:induction false} ReportedAtMost(q: Query, base: Base, found: seq<Attr>, max: nat)
    requires max >= HeaderLen(q) && RoomForOne(q, base, found, max)
    ensures |Reported(q, base, found, max)| <= |found|
    decreases |found|
  {
    if found != [] {
      hide TakeSame;
      hide RestAfter;
      hide Reported;
      FirstHasRoom(q, base, found, max);
      hide RoomForOne;
      hide Room;
      hide EntryLen;
      var len := EntryLen(q, found[0], base);
      var left := RestAfter(q, base, found, len, Room(q, len, max));
      ReportedUnfolds(q, base, found, max);
      PageFitsBeforeRest(q, base, found, len, Room(q, len, max));
      RestIsSuffix(q, base, found, len, Room(q, len, max));
      FirstIsTaken(q, base, found, Room(q, len, max));
      RoomForFewer(q, base, found, |found| - |left|, max);
      ReportedAtMost(q, base, left, max);
      return;
    }
  }

  lemma {:induction false} FirstIsTaken(q: Query, base: Base, found: seq<Attr>, room: nat)
    requires found != [] && room > 0
    ensures TakeSame(q, base, found, EntryLen(q, found[0], base), room) != []
    ensures |RestAfter(q, base, found, EntryLen(q, found[0], base), room)| < |found|
  {
  }

  /** A page is never too small for all the entries of one length. */
  ghost predicate RoomForAll(q: Query, base: Base, found: seq<Attr>, max: nat)
    requires max >= HeaderLen(q)
  {
    forall a :: a in found ==>
      && IsValid(a.uuid, base) && EntryLen(q, a, base) > 0
      && Room(q, EntryLen(q, a, base), max) >= CountOf(q, base, found, EntryLen(q, a, base))
  }

  lemma {:induction false} RoomForSuffix(q: Query, base: Base, found: seq<Attr>, n: nat, max: nat)
    requires max >= HeaderLen(q) && n <= |found| && RoomForAll(q, base, found, max)
    ensures RoomForAll(q, base, found[n..], max)
  {
    forall a | a in found[n..]
      ensures IsValid(a.uuid, base) && EntryLen(q, a, base) > 0
      ensures Room(q, EntryLen(q, a, base), max) >= CountOf(q, base, found[n..], EntryLen(q, a, base))
    {
      assert a in found;
      CountOfSuffix(q, base, found, n, EntryLen(q, a, base));
    }
  }

  lemma {:induction false} GroupedJoin(q: Query, base: Base, page: seq<Attr>, rest: seq<Attr>, len: nat)
    requires forall i :: 0 <= i < |page| ==> LenAt(q, base, page, i) == len
    requires NoneIs(q, base, rest, len) && Grouped(q, base, rest)
    ensures Grouped(q, base, page + rest)
  {
    var found := page + rest;
    var n := |page|;
    forall i | 0 <= i < |found|
      ensures LenAt(q, base, found, i) == if i < n then LenAt(q, base, page, i) else LenAt(q, base, rest, i - n) {}
    forall i, j, k | 0 <= i < j < k < |found| && LenAt(q, base, found, i) == LenAt(q, base, found, k)
      ensures LenAt(q, base, found, j) == LenAt(q, base, found, i)
    {
      if i >= n {
        assert LenAt(q, base, rest, i - n) == LenAt(q, base, rest, k - n);
        assert LenAt(q, base, rest, j - n) == LenAt(q, base, rest, i - n);
      }
    }
  }

  // When everything is reported, the page is a prefix and the rest is reported whole, too.
  lemma {:induction false} CompletePage(q: Query, base: Base, found: seq<Attr>, max: nat)
    requires max >= HeaderLen(q) && RoomForOne(q, base, found, max) && found != []
    requires Reported(q, base, found, max) == found
    ensures var len := EntryLen(q, found[0], base);
            var page := TakeSame(q, base, found, len, Room(q, len, max));
            var left := RestAfter(q, base, found, len, Room(q, len, max));
            && |left| < |found| && left == found[|found| - |left|..]
            && RoomForOne(q, base, left, max) && Reported(q, base, left, max) == left
            && page + left == found
  {
    hide TakeSame;
    hide RestAfter;
    hide Reported;
    FirstHasRoom(q, base, found, max);
    hide RoomForOne;
    hide Room;
    hide EntryLen;
    var len := EntryLen(q, found[0], base);
    var room := Room(q, len, max);
    var left := RestAfter(q, base, found, len, room);
    ReportedUnfolds(q, base, found, max);
    PageFitsBeforeRest(q, base, found, len, room);
    RestIsSuffix(q, base, found, len, room);
    FirstIsTaken(q, base, found, room);
    RoomForFewer(q, base, found, |found| - |left|, max);
    ReportedAtMost(q, base, left, max);
    SameSuffix(TakeSame(q, base, found, len, room), Reported(q, base, left, max), left, found);
  }

  lemma {:induction false} SameSuffix(page: seq<Attr>, reported: seq<Attr>, left: seq<Attr>, found: seq<Attr>)
    requires page + reported == found && |left| <= |found| && left == found[|found| - |left|..]
    requires |reported| <= |left| && |page| + |left| <= |found|
    ensures reported == left && page + left == found
  {
    assert |page| + |reported| == |found|;
  }

  lemma {:induction false} CompleteIsGrouped(q: Query, base: Base, found: seq<Attr>, max: nat)
    requires max >= HeaderLen(q) && RoomForAll(q, base, found, max) && RoomForOne(q, base, found, max)
    requires Reported(q, base, found, max) == found
    ensures Grouped(q, base, found)
    decreases |found|
  {
    if found != [] {
      assert found[0] in found;
      var len := EntryLen(q, found[0], base);
      var room := Room(q, len, max);
      assert room >= CountOf(q, base, found, len);
      hide TakeSame;
      hide RestAfter;
      hide Reported;
      hide RoomForAll;
      hide RoomForOne;
      hide Grouped;
      hide Room;
      hide EntryLen;
      var page := TakeSame(q, base, found, len, room);
      var left := RestAfter(q, base, found, len, room);
      CompletePage(q, base, found, max);
      RoomForSuffix(q, base, found, |found| - |left|, max);
      TakesAll(q, base, found, len, room);
      CompleteIsGrouped(q, base, left, max);
      TakeSameMembers(q, base, found, len, room);
      forall i | 0 <= i < |page| ensures LenAt(q, base, page, i) == len { assert page[i] in page; }
      GroupedJoin(q, base, page, left, len);
      return;
    }
  }
}
