/** What a built attribute table looks like from outside: numbering, declarations, CCCDs, service ranges. */
module TableFacts {
  import opened Bytes
  import opened Uuids
  import opened GattTable
  import opened AttSpec

  // ---- where things are ---------------------------------------------------------------------------

  function Width(c: Characteristic): nat { if NeedsCccd(c.props) then 3 else 2 }

  function WidthOf(chars: seq<Characteristic>, n: nat): (w: nat)
    requires n <= |chars|
    ensures 2 * n <= w <= 3 * n
  {
    if n == 0 then 0 else WidthOf(chars, n - 1) + Width(chars[n - 1])
  }

  /** The number of entries before the n-th service. */
  function ServicePos(services: seq<Service>, n: nat): nat
    requires n <= |services|
  {
    if n == 0 then FIXED_ATTRS
    else ServicePos(services, n - 1) + 1 + WidthOf(services[n - 1].chars, |services[n - 1].chars|)
  }

  /** The number of entries before the declaration of the j-th characteristic of the i-th service. */
  function CharPos(services: seq<Service>, i: nat, j: nat): nat
    requires i < |services| && j <= |services[i].chars|
  {
    ServicePos(services, i) + 1 + WidthOf(services[i].chars, j)
  }

  ghost predicate Acceptable(name: seq<byte>, services: seq<Service>, base: Base) {
    ValidServices(services, base) && |name| <= 20
  }

  /** The entries of block stand in t from position p on. */
  ghost predicate StandsAt(t: seq<Attr>, p: nat, block: seq<Attr>) {
    p + |block| <= |t| && forall x :: 0 <= x < |block| ==> t[p + x] == block[x]
  }

  lemma {:induction false} StillStands(t: seq<Attr>, more: seq<Attr>, p: nat, block: seq<Attr>)
    requires StandsAt(t, p, block)
    ensures StandsAt(t + more, p, block)
  {
  }

  lemma {:induction false} StandsAlone(t: seq<Attr>, p: nat, a: Attr)
    requires StandsAt(t, p, [a])
    ensures p < |t| && t[p] == a
  {
    assert [a][0] == a && t[p + 0] == [a][0];
  }

  lemma {:induction false} StandsWithin(t: seq<Attr>, u: seq<Attr>, p: nat, block: seq<Attr>)
    requires StandsAt(u, 0, t) && StandsAt(t, p, block)
    ensures StandsAt(u, p, block)
  {
    forall x | 0 <= x < |block| ensures u[p + x] == block[x] {
      assert u[0 + (p + x)] == t[p + x];
    }
  }

  lemma {:induction false} CharsSize(t: seq<Attr>, k: nat, chars: seq<Characteristic>, n: nat, base: Base)
    requires n <= |chars| && forall j :: 0 <= j < n ==> ValidChar(chars[j], base)
    requires |t| + 3 * n < 0xFFFF
    ensures |AddChars(t, k, chars, n, base)| == |t| + WidthOf(chars, n)
    ensures StandsAt(AddChars(t, k, chars, n, base), 0, t)
  {
    hide CharAttrs;
    if n > 0 {
      CharsSize(t, k, chars, n - 1, base);
    }
  }

  lemma {:induction false} StandsAtEnd(t: seq<Attr>, block: seq<Attr>)
    ensures StandsAt(t + block, |t|, block)
  {
  }

  lemma {:induction false} CharsLayout(t: seq<Attr>, k: nat, chars: seq<Characteristic>, n: nat, j: nat, base: Base)
    requires j < n <= |chars| && forall j :: 0 <= j < n ==> ValidChar(chars[j], base)
    requires |t| + 3 * n < 0xFFFF
    ensures var p := |t| + WidthOf(chars, j);
            p + 3 < 0x1_0000 && StandsAt(AddChars(t, k, chars, n, base), p, CharAttrs(chars[j], k + j, p + 1, base))
  {
    hide CharAttrs;
    hide StandsAt;
    hide ValidChar;
    hide WidthOf;
    hide AddChars;
    CharsGrow(t, k, chars, n, base);
    var before := AddChars(t, k, chars, n - 1, base);
    var last := CharAttrs(chars[n - 1], k + n - 1, |before| + 1, base);
    if j == n - 1 {
      StandsAtEnd(before, last);
    } else {
      CharsLayout(t, k, chars, n - 1, j, base);
      var p := |t| + WidthOf(chars, j);
      StillStands(before, last, p, CharAttrs(chars[j], k + j, p + 1, base));
    }
  }

  lemma {:induction false} CharsGrow(t: seq<Attr>, k: nat, chars: seq<Characteristic>, n: nat, base: Base)
    requires 0 < n <= |chars| && forall j :: 0 <= j < n ==> ValidChar(chars[j], base)
    requires |t| + 3 * n < 0xFFFF
    ensures var before := AddChars(t, k, chars, n - 1, base);
            && |before| == |t| + WidthOf(chars, n - 1) && ValidChar(chars[n - 1], base) && |before| + 3 < 0x1_0000
            && AddChars(t, k, chars, n, base) == before + CharAttrs(chars[n - 1], k + n - 1, |before| + 1, base)
  {
    hide CharAttrs;
    hide ValidChar;
    CharsSize(t, k, chars, n - 1, base);
  }

  // One service after t: its declaration, then its characteristics, the first being the k-th of all.
  function AddService(t: seq<Attr>, s: Service, k: nat, base: Base): (u: seq<Attr>)
    requires ValidService(s, base) && |t| + 3 * |s.chars| + 1 < 0xFFFF
  {
    AddChars(t + [ServiceDecl(s, |t| + 1, base)], k, s.chars, |s.chars|, base)
  }

  lemma {:induction false} ServiceSize(t: seq<Attr>, s: Service, k: nat, base: Base)
    requires ValidService(s, base) && |t| + 3 * |s.chars| + 1 < 0xFFFF
    ensures var u := AddService(t, s, k, base);
            && |u| == |t| + 1 + WidthOf(s.chars, |s.chars|)
            && StandsAt(u, 0, t) && StandsAt(u, |t|, [ServiceDecl(s, |t| + 1, base)])
  {
    hide ServiceDecl;
    var decl := ServiceDecl(s, |t| + 1, base);
    CharsSize(t + [decl], k, s.chars, |s.chars|, base);
    var u := AddService(t, s, k, base);
    forall x | 0 <= x < |t| ensures u[0 + x] == t[x] {
      assert (t + [decl])[x] == t[x] && u[0 + x] == (t + [decl])[x];
    }
    assert u[0 + |t|] == (t + [decl])[|t|];
  }

  lemma {:induction false} ServicesGrow(services: seq<Service>, n: nat, base: Base, t: seq<Attr>)
    requires 0 < n <= |services| && forall i :: 0 <= i < n ==> ValidService(services[i], base)
    requires |t| + n + 3 * CharCount(services, n) < 0xFFFF
    ensures var before := AddServices(t, services, n - 1, base);
            && ValidService(services[n - 1], base)
            && |before| + 3 * |services[n - 1].chars| + 1 < 0xFFFF
            && AddServices(t, services, n, base)
               == AddService(before, services[n - 1], CharCount(services, n - 1), base)
  {
    hide AddChars;
    hide ServiceDecl;
    assert ValidService(services[n - 1], base);
  }

  lemma {:induction false} OneMoreService(t: seq<Attr>, services: seq<Service>, n: nat, base: Base)
    requires 0 < n <= |services| && forall i :: 0 <= i < n ==> ValidService(services[i], base)
    requires |t| + n + 3 * CharCount(services, n) < 0xFFFF
    ensures var before := AddServices(t, services, n - 1, base);
            var after := AddServices(t, services, n, base);
            && |after| == |before| + 1 + WidthOf(services[n - 1].chars, |services[n - 1].chars|)
            && StandsAt(after, 0, before)
  {
    hide AddServices;
    hide AddService;
    hide ValidService;
    hide WidthOf;
    hide StandsAt;
    ServicesGrow(services, n, base, t);
    ServiceSize(AddServices(t, services, n - 1, base), services[n - 1], CharCount(services, n - 1), base);
  }

  lemma {:induction false} ServicesSize(t: seq<Attr>, services: seq<Service>, n: nat, base: Base)
    requires n <= |services| && forall i :: 0 <= i < n ==> ValidService(services[i], base)
    requires |t| + n + 3 * CharCount(services, n) < 0xFFFF
    ensures |t| == FIXED_ATTRS ==> |AddServices(t, services, n, base)| == ServicePos(services, n)
  {
    if n > 0 {
      hide AddServices;
      hide ValidService;
      hide WidthOf;
      hide StandsAt;
      ServicesSize(t, services, n - 1, base);
      OneMoreService(t, services, n, base);
    }
  }

  lemma {:induction false} ServicesKeep(t: seq<Attr>, services: seq<Service>, n: nat, base: Base)
    requires n <= |services| && forall i :: 0 <= i < n ==> ValidService(services[i], base)
    requires |t| + n + 3 * CharCount(services, n) < 0xFFFF
    ensures StandsAt(AddServices(t, services, n, base), 0, t)
  {
    if n == 0 {
      assert StandsAt(t, 0, t);
    } else {
      hide AddServices;
      hide ValidService;
      hide WidthOf;
      hide StandsAt;
      ServicesKeep(t, services, n - 1, base);
      OneMoreService(t, services, n, base);
      StandsWithin(AddServices(t, services, n - 1, base), AddServices(t, services, n, base), 0, t);
    }
  }

  // ---- the layout of a built table -------------------------------------------------------------------

  lemma {:induction false} ServiceStands(t: seq<Attr>, services: seq<Service>, n: nat, i: nat, base: Base)
    requires i < n <= |services| && forall i :: 0 <= i < n ==> ValidService(services[i], base)
    requires |t| + n + 3 * CharCount(services, n) < 0xFFFF && |t| == FIXED_ATTRS
    ensures ServicePos(services, i) + 1 < 0x1_0000 && ValidService(services[i], base)
    ensures StandsAt(AddServices(t, services, n, base), ServicePos(services, i),
                     [ServiceDecl(services[i], ServicePos(services, i) + 1, base)])
  {
    hide AddServices;
    hide AddService;
    hide ServiceDecl;
    hide WidthOf;
    hide StandsAt;
    ServicesGrow(services, n, base, t);
    ServicesSize(t, services, n - 1, base);
    var before := AddServices(t, services, n - 1, base);
    ServiceSize(before, services[n - 1], CharCount(services, n - 1), base);
    if i < n - 1 {
      ServiceStands(t, services, n - 1, i, base);
      StandsWithin(before, AddServices(t, services, n, base), ServicePos(services, i),
                   [ServiceDecl(services[i], ServicePos(services, i) + 1, base)]);
    }
  }

  lemma {:induction false} CharStands(t: seq<Attr>, services: seq<Service>, n: nat, i: nat, j: nat, base: Base)
    requires i < n <= |services| && forall i :: 0 <= i < n ==> ValidService(services[i], base)
    requires |t| + n + 3 * CharCount(services, n) < 0xFFFF && |t| == FIXED_ATTRS
    requires j < |services[i].chars|
    ensures CharPos(services, i, j) + 3 < 0x1_0000 && ValidChar(services[i].chars[j], base)
    ensures StandsAt(AddServices(t, services, n, base), CharPos(services, i, j),
                     CharAttrs(services[i].chars[j], CharCount(services, i) + j, CharPos(services, i, j) + 1, base))
  {
    hide AddServices;
    hide ServiceDecl;
    hide WidthOf;
    hide StandsAt;
    hide AddChars;
    hide CharAttrs;
    ServicesGrow(services, n, base, t);
    ServicesSize(t, services, n - 1, base);
    var before := AddServices(t, services, n - 1, base);
    ServiceSize(before, services[n - 1], CharCount(services, n - 1), base);
    if i < n - 1 {
      CharStands(t, services, n - 1, i, j, base);
      StandsWithin(before, AddServices(t, services, n, base), CharPos(services, i, j),
                   CharAttrs(services[i].chars[j], CharCount(services, i) + j, CharPos(services, i, j) + 1, base));
    } else {
      var s := services[i];
      CharsLayout(before + [ServiceDecl(s, |before| + 1, base)], CharCount(services, i), s.chars, |s.chars|, j, base);
    }
  }

  // ---- every entry is what it should be ------------------------------------------------------------

  predicate NumberedAt(t: seq<Attr>, x: nat, base: Base)
    requires x < |t|
  {
    t[x].handle == x + 1 && IsValid(t[x].uuid, base) && |t[x].value| <= t[x].maxLen <= MAX_VALUE_LEN
  }

  /** decl announces the value attribute a: its properties, its handle and its UUID. */
  predicate Declares(decl: Attr, a: Attr, base: Base) {
    && decl.uuid == CHARACTERISTIC && decl.owner == NoOwner && |decl.value| >= 3
    && U16Decode(decl.value[1..]) == a.handle && MatchesBytes(a.uuid, base, decl.value[3..])
    && a.readable == Has(decl.value[0], PROP_READ)
    && a.writable == (Has(decl.value[0], PROP_WRITE) || Has(decl.value[0], PROP_WRITE_NO_RESP))
  }

  /** A value follows its declaration and has a CCCD exactly when it can notify or indicate. */
  predicate LinkedAt(t: seq<Attr>, x: nat, base: Base)
    requires x < |t|
  {
    match t[x].owner
    case ValueOf(k) =>
      && x > 0 && Declares(t[x - 1], t[x], base)
      && (NeedsCccd(t[x - 1].value[0]) <==> x + 1 < |t| && t[x + 1].owner == CccdOf(k))
    case CccdOf(k) =>
      && x > 0 && t[x - 1].owner == ValueOf(k)
      && t[x].uuid == CCCD && t[x].value == [0, 0] && t[x].maxLen == 2 && t[x].readable && t[x].writable
    case NoOwner => !t[x].writable
  }

  function IndexOf(o: Owner): int {
    match o
    case ValueOf(k) => 2 * k
    case CccdOf(k) => 2 * k + 1
    case NoOwner => -1
  }

  /** Owners only go up, so no characteristic has two values or two CCCDs; k is the next to come. */
  ghost predicate Linked(t: seq<Attr>, k: nat, base: Base) {
    && (forall x :: 0 <= x < |t| ==> NumberedAt(t, x, base))
    && (forall x :: 0 <= x < |t| ==> LinkedAt(t, x, base))
    && (forall x :: 0 <= x < |t| ==> IndexOf(t[x].owner) < 2 * k)
    && (forall x, y :: 0 <= x < y < |t| && t[y].owner != NoOwner ==> IndexOf(t[x].owner) < IndexOf(t[y].owner))
  }

  lemma {:induction false} LinkedDecl(t: seq<Attr>, k: nat, s: Service, base: Base)
    requires Linked(t, k, base) && IsValid(s.uuid, base) && |t| + 1 < 0xFFFF
    ensures Linked(t + [ServiceDecl(s, |t| + 1, base)], k, base)
  {
    var u := t + [ServiceDecl(s, |t| + 1, base)];
    forall x | 0 <= x < |u| ensures NumberedAt(u, x, base) && LinkedAt(u, x, base) {
      if x < |t| {
        assert NumberedAt(t, x, base) && LinkedAt(t, x, base);
      }
    }
  }

  lemma {:induction false} CharAttrsLinked(t: seq<Attr>, k: nat, c: Characteristic, base: Base, x: nat)
    requires ValidChar(c, base) && |t| + 3 < 0xFFFF
    requires (forall x :: 0 <= x < |t| ==> NumberedAt(t, x, base)) && (forall x :: 0 <= x < |t| ==> LinkedAt(t, x, base))
    requires forall x :: 0 <= x < |t| ==> IndexOf(t[x].owner) < 2 * k
    requires x < |t + CharAttrs(c, k, |t| + 1, base)|
    ensures NumberedAt(t + CharAttrs(c, k, |t| + 1, base), x, base)
    ensures LinkedAt(t + CharAttrs(c, k, |t| + 1, base), x, base)
  {
    var u := t + CharAttrs(c, k, |t| + 1, base);
    if x < |t| {
      assert NumberedAt(t, x, base) && LinkedAt(t, x, base);
    } else if x == |t| + 1 {
      var decl := [c.props] + U16Encode(|t| + 2) + Encode(c.uuid, base);
      assert decl[1..][0] == U16Encode(|t| + 2)[0] && decl[1..][1] == U16Encode(|t| + 2)[1];
      assert decl[3..] == Encode(c.uuid, base);
    }
  }

  lemma {:induction false} LinkedChar(t: seq<Attr>, k: nat, c: Characteristic, base: Base)
    requires Linked(t, k, base) && ValidChar(c, base) && |t| + 3 < 0xFFFF
    ensures Linked(t + CharAttrs(c, k, |t| + 1, base), k + 1, base)
  {
    var u := t + CharAttrs(c, k, |t| + 1, base);
    forall x | 0 <= x < |u| ensures NumberedAt(u, x, base) && LinkedAt(u, x, base) {
      CharAttrsLinked(t, k, c, base, x);
    }
    hide NumberedAt;
    hide LinkedAt;
    forall x, y | 0 <= x < y < |u| && u[y].owner != NoOwner ensures IndexOf(u[x].owner) < IndexOf(u[y].owner) {
      if y < |t| {
        assert u[y] == t[y];
      }
    }
  }

  lemma {:induction false} LinkedChars(t: seq<Attr>, k: nat, chars: seq<Characteristic>, n: nat, base: Base)
    requires Linked(t, k, base) && n <= |chars| && forall j :: 0 <= j < n ==> ValidChar(chars[j], base)
    requires |t| + 3 * n < 0xFFFF
    ensures Linked(AddChars(t, k, chars, n, base), k + n, base)
  {
    hide Linked;
    hide ValidChar;
    hide CharAttrs;
    hide WidthOf;
    if n > 0 {
      LinkedChars(t, k, chars, n - 1, base);
      CharsGrow(t, k, chars, n, base);
      LinkedChar(AddChars(t, k, chars, n - 1, base), k + n - 1, chars[n - 1], base);
    }
  }

  lemma {:induction false} LinkedService(t: seq<Attr>, k: nat, s: Service, base: Base)
    requires Linked(t, k, base) && ValidService(s, base) && |t| + 3 * |s.chars| + 1 < 0xFFFF
    ensures Linked(AddService(t, s, k, base), k + |s.chars|, base)
  {
    LinkedDecl(t, k, s, base);
    hide Linked;
    hide AddChars;
    LinkedChars(t + [ServiceDecl(s, |t| + 1, base)], k, s.chars, |s.chars|, base);
  }

  lemma {:induction false} LinkedServices(t: seq<Attr>, services: seq<Service>, n: nat, base: Base)
    requires Linked(t, 0, base) && n <= |services| && forall i :: 0 <= i < n ==> ValidService(services[i], base)
    requires |t| + n + 3 * CharCount(services, n) < 0xFFFF
    ensures Linked(AddServices(t, services, n, base), CharCount(services, n), base)
  {
    hide Linked;
    hide ValidService;
    hide AddService;
    if n > 0 {
      LinkedServices(t, services, n - 1, base);
      ServicesGrow(services, n, base, t);
      hide AddServices;
      LinkedService(AddServices(t, services, n - 1, base), CharCount(services, n - 1), services[n - 1], base);
    }
  }

  lemma {:induction false} LinkedFixed(name: seq<byte>, base: Base)
    requires |name| <= 20
    ensures Linked(Fixed(name), 0, base)
  {
  }

  /** Every entry of a built table is numbered by position and linked to its neighbours. */
  lemma {:induction false} TableIsLinked(name: seq<byte>, services: seq<Service>, base: Base)
    requires Acceptable(name, services, base)
    ensures Linked(Table(name, services, base), CharCount(services, |services|), base)
    ensures Sound(Db(Table(name, services, base), base))
  {
    var t := Table(name, services, base);
    LinkedFixed(name, base);
    LinkedServices(Fixed(name), services, |services|, base);
    ServicesKeep(Fixed(name), services, |services|, base);
    hide LinkedAt;
    assert t[0 + 0] == Fixed(name)[0];
    forall i | 0 <= i < |t|
      ensures t[i].handle == i + 1 && IsValid(t[i].uuid, base) && |t[i].value| <= t[i].maxLen <= MAX_VALUE_LEN
    {
      assert NumberedAt(t, i, base);
    }
  }

  predicate IsServiceOf(a: Attr, short: u16) {
    a.uuid == Sig16(0x2800) && |a.value| == 2 && U16Decode(a.value) == short
  }

  /** The Generic Access service with name and appearance, and the empty Generic Attribute service. */
  predicate FixedServicesOf(t: seq<Attr>, name: seq<byte>, base: Base)
    requires |t| >= 6
  {
    && IsServiceOf(t[0], 0x1800) && IsServiceOf(t[5], 0x1801)
    && Declares(t[1], t[2], base) && t[1].uuid == Sig16(0x2803) && t[2].uuid == Sig16(0x2A00) && t[2].value == name
    && Declares(t[3], t[4], base) && t[3].uuid == Sig16(0x2803) && t[4].uuid == Sig16(0x2A01) && t[4].value == [0, 0]
    && forall x :: 0 <= x < 6 ==> t[x].readable && !t[x].writable && t[x].owner == NoOwner
  }

  lemma {:induction false} FixedHasFixedServices(name: seq<byte>, base: Base)
    requires |name| <= 20
    ensures FixedServicesOf(Fixed(name), name, base)
  {
    NameAndAppearance(Fixed(name)[1], Fixed(name)[3]);
  }

  lemma {:induction false} TableHasFixedServices(name: seq<byte>, services: seq<Service>, base: Base)
    requires Acceptable(name, services, base)
    ensures FixedServicesOf(Table(name, services, base), name, base)
  {
    hide Fixed;
    hide AddServices;
    hide Declares;
    hide IsServiceOf;
    ServicesKeep(Fixed(name), services, |services|, base);
    FixedHasFixedServices(name, base);
    var t, f := Table(name, services, base), Fixed(name);
    assert t[0 + 0] == f[0] && t[0 + 1] == f[1] && t[0 + 2] == f[2] && t[0 + 3] == f[3] && t[0 + 4] == f[4] && t[0 + 5] == f[5];
  }

  lemma {:induction false} NameAndAppearance(name: Attr, appearance: Attr)
    ensures name.value == [PROP_READ, 3, 0, 0x00, 0x2A] ==>
      U16Decode(name.value[1..]) == 3 && name.value[3..] == U16Encode(0x2A00)
    ensures appearance.value == [PROP_READ, 5, 0, 0x01, 0x2A] ==>
      U16Decode(appearance.value[1..]) == 5 && appearance.value[3..] == U16Encode(0x2A01)
  {
  }

  lemma {:induction false} ServicePosGrows(services: seq<Service>, i: nat, n: nat)
    requires i <= n <= |services|
    ensures ServicePos(services, i) + (n - i) <= ServicePos(services, n)
  {
    hide WidthOf;
    if i < n {
      ServicePosGrows(services, i, n - 1);
    }
  }

  lemma {:induction false} WidthGrows(chars: seq<Characteristic>, j: nat, n: nat)
    requires j <= n <= |chars|
    ensures WidthOf(chars, j) <= WidthOf(chars, n)
    ensures j < n ==> WidthOf(chars, j) + Width(chars[j]) <= WidthOf(chars, n)
  {
    if j < n {
      WidthGrows(chars, j, n - 1);
    }
  }

  lemma {:induction false} TableSize(name: seq<byte>, services: seq<Service>, base: Base)
    requires Acceptable(name, services, base)
    ensures |Table(name, services, base)| == ServicePos(services, |services|)
  {
    ServicesSize(Fixed(name), services, |services|, base);
  }

  // The entries of a characteristic lie between its service and the next.
  lemma {:induction false} CharWithinService(services: seq<Service>, i: nat, j: nat)
    requires i < |services| && j < |services[i].chars|
    ensures ServicePos(services, i) < CharPos(services, i, j)
    ensures CharPos(services, i, j) + Width(services[i].chars[j]) <= ServicePos(services, i + 1)
                                                                   <= ServicePos(services, |services|)
  {
    WidthGrows(services[i].chars, j, |services[i].chars|);
    ServicePosGrows(services, i + 1, |services|);
  }

  /** What a declared characteristic has in the table, by the property bits and UUIDs on the air. */
  predicate HasEntries(t: seq<Attr>, p: nat, c: Characteristic, k: nat, base: Base)
    requires p + 1 < |t|
  {
    && Declares(t[p], t[p + 1], base) && t[p].uuid == Sig16(0x2803) && t[p].value[0] == c.props
    && t[p + 1].uuid == c.uuid && t[p + 1].owner == ValueOf(k) && t[p + 1].maxLen == c.maxLen
    && t[p + 1].value == (if |c.value| <= c.maxLen then c.value else c.value[..c.maxLen])
    && (t[p + 1].readable <==> c.props / 0x02 % 2 == 1)
    && (t[p + 1].writable <==> c.props / 0x04 % 2 == 1 || c.props / 0x08 % 2 == 1)
    && (p + 2 < |t| && t[p + 2].owner == CccdOf(k) <==> c.props / 0x10 % 2 == 1 || c.props / 0x20 % 2 == 1)
    && (p + 2 < |t| && t[p + 2].owner == CccdOf(k) ==>
          t[p + 2].uuid == Sig16(0x2902) && t[p + 2].value == [0, 0] && t[p + 2].readable && t[p + 2].writable)
  }

  /** Each declared characteristic has its entries in the range of its own service, value after declaration. */
  lemma {:induction false} TableHasEveryCharacteristic(name: seq<byte>, services: seq<Service>, base: Base, i: nat, j: nat)
    requires Acceptable(name, services, base) && i < |services| && j < |services[i].chars|
    ensures CharPos(services, i, j) + Width(services[i].chars[j]) <= |Table(name, services, base)|
    ensures HasEntries(Table(name, services, base), CharPos(services, i, j), services[i].chars[j],
                       CharCount(services, i) + j, base)
  {
    hide Linked;
    hide AddServices;
    hide ServicePos;
    hide WidthOf;
    TableSize(name, services, base);
    CharWithinService(services, i, j);
    CharStands(Fixed(name), services, |services|, i, j, base);
    TableIsLinked(name, services, base);
    CharEntries(Table(name, services, base), CharPos(services, i, j), services[i].chars[j],
                CharCount(services, i) + j, CharCount(services, |services|), base);
  }

  lemma {:induction false} CharEntries(t: seq<Attr>, p: nat, c: Characteristic, k: nat, count: nat, base: Base)
    requires ValidChar(c, base) && p + 3 < 0x1_0000
    requires StandsAt(t, p, CharAttrs(c, k, p + 1, base)) && Linked(t, count, base)
    ensures HasEntries(t, p, c, k, base)
  {
    assert t[p + 0] == CharAttrs(c, k, p + 1, base)[0] && t[p + 1] == CharAttrs(c, k, p + 1, base)[1];
    assert LinkedAt(t, p + 1, base);
    if p + 2 < |t| {
      assert LinkedAt(t, p + 2, base);
    }
  }

  /** A value of 1 to 244 octets, and of the properties at least one and none but read, the writes, notify, indicate. */
  predicate IsUsable(c: Characteristic, base: Base) {
    IsValid(c.uuid, base) && 1 <= c.maxLen <= 244 && c.props != 0
    && c.props % 2 == 0 && c.props / 0x40 % 2 == 0 && c.props / 0x80 == 0
  }

  /** What the builder accepts, in numbers. */
  lemma {:induction false} AcceptsExactly(name: seq<byte>, services: seq<Service>, base: Base)
    ensures Acceptable(name, services, base) <==>
      && |name| <= 20 && |services| <= 4 && CharCount(services, |services|) <= 8
      && forall i :: 0 <= i < |services| ==>
           && IsValid(services[i].uuid, base) && services[i].chars != []
           && forall j :: 0 <= j < |services[i].chars| ==> IsUsable(services[i].chars[j], base)
  {
  }

  /** Each declared service has its declaration, and the entries up to the next service are its own. */
  lemma {:induction false} TableHasEveryService(name: seq<byte>, services: seq<Service>, base: Base, i: nat)
    requires Acceptable(name, services, base) && i < |services|
    ensures ServicePos(services, i) < |Table(name, services, base)|
    ensures var a := Table(name, services, base)[ServicePos(services, i)];
            a.uuid == Sig16(0x2800) && a.readable && a.owner == NoOwner && MatchesBytes(services[i].uuid, base, a.value)
  {
    hide AddServices;
    hide ServicePos;
    TableSize(name, services, base);
    ServicePosGrows(services, i, |services|);
    ServiceStands(Fixed(name), services, |services|, i, base);
    var t := Table(name, services, base);
    StandsAlone(t, ServicePos(services, i), ServiceDecl(services[i], ServicePos(services, i) + 1, base));
  }
}
