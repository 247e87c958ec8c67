/** The builder of the attribute table, filling its fixed 34-slot array in place. */
module GattBuilder {
  import opened Bytes
  import opened Uuids
  import opened GattTable

  lemma {:induction false} CharCountMonotone(services: seq<Service>, n: nat, m: nat)
    requires n <= m <= |services|
    ensures CharCount(services, n) <= CharCount(services, m)
    decreases m
  {
    if n < m {
      CharCountMonotone(services, n, m - 1);
    }
  }

  // One service that is invalid or finds too few characteristics left makes the whole list unacceptable.
  lemma {:induction false} RefusedService(services: seq<Service>, i: nat, base: Base)
    requires i < |services|
    requires !ValidService(services[i], base) || CharCount(services, i) + |services[i].chars| > MAX_CHARACTERISTICS
    ensures !ValidServices(services, base)
  {
    CharCountMonotone(services, i + 1, |services|);
  }

  class Builder {
    const db: array<Attr>
    var count: nat
    var charCount: nat
    var serviceCount: nat
    const base: Base
    ghost var table: seq<Attr>  // the filled slots

    ghost predicate Valid()
      reads this, db
    {
      db.Length == MAX_ATTRS && count <= MAX_ATTRS && table == db[..count]
    }

    constructor (base: Base)
      ensures Valid() && fresh(db) && this.base == base
    {
      db := new Attr[MAX_ATTRS](_ => Attr(0, NoUuid, false, false, [], 0, NoOwner));
      count, charCount, serviceCount, table := 0, 0, 0, [];
      this.base := base;
    }

    method AddAttr(a: Attr) returns (ok: bool)
      requires Valid()
      modifies this`count, this`table, db
      ensures Valid()
      ensures ok == (old(count) < MAX_ATTRS && IsValid(a.uuid, base) && a.maxLen > 0)
      ensures table == if ok then old(table) + [a] else old(table)
    {
      if count >= MAX_ATTRS || !IsValid(a.uuid, base) || a.maxLen == 0 { return false; }
      db[count] := a;
      count := count + 1;
      table := table + [a];
      return true;
    }

    method BuildFixedAttrs(name: seq<byte>) returns (ok: bool)
      requires Valid() && count == 0 && |name| <= 20
      modifies this`count, this`table, db
      ensures Valid() && ok && table == Fixed(name)
    {
      var fixed := Fixed(name);
      var i := 0;
      while i < FIXED_ATTRS
        invariant i <= FIXED_ATTRS && count == i && Valid() && table == fixed[..i]
      {
        var added := AddAttr(fixed[i]);
        if !added { return false; }
        i := i + 1;
      }
      return true;
    }

    method AddService(s: Service) returns (ok: bool)
      requires Valid() && serviceCount < MAX_SERVICES && count < MAX_ATTRS
      modifies this`count, this`table, this`serviceCount, db
      ensures Valid()
      ensures ok == (s.chars != [] && IsValid(s.uuid, base))
      ensures ok ==> serviceCount == old(serviceCount) + 1
      ensures ok ==> table == old(table) + [ServiceDecl(s, old(count) + 1, base)]
    {
      if s.chars == [] { return false; }
      if !IsValid(s.uuid, base) || serviceCount >= MAX_SERVICES { return false; }
      var added := AddAttr(ServiceDecl(s, count + 1, base));
      if !added { return false; }
      serviceCount := serviceCount + 1;
      return true;
    }

    method AddCharacteristic(c: Characteristic) returns (ok: bool)
      requires Valid() && count + 3 <= MAX_ATTRS + if charCount < MAX_CHARACTERISTICS then 0 else 3
      modifies this`count, this`table, this`charCount, db
      ensures Valid()
      ensures ok == (ValidChar(c, base) && old(charCount) < MAX_CHARACTERISTICS)
      ensures ok ==> charCount == old(charCount) + 1
      ensures ok ==> table == old(table) + CharAttrs(c, old(charCount), old(count) + 1, base)
    {
      if !IsValid(c.uuid, base) || c.maxLen == 0 || c.maxLen > MAX_VALUE_LEN || c.props == 0
         || !(c.props < 0x40 && c.props % 2 == 0) || charCount >= MAX_CHARACTERISTICS {
        return false;
      }
      ghost var before := table;
      var attrs := CharAttrs(c, charCount, count + 1, base);
      var added := AddAttr(attrs[0]);
      if !added { return false; }
      added := AddAttr(attrs[1]);
      if !added { return false; }
      assert table == before + attrs[..2];
      if NeedsCccd(c.props) {
        added := AddAttr(attrs[2]);
        if !added { return false; }
      }
      assert table == before + attrs;
      charCount := charCount + 1;
      return true;
    }

    /** Stops, and fails, at the first characteristic that is invalid or finds no room left. */
    method AddServiceWithChars(s: Service) returns (ok: bool)
      requires Valid() && serviceCount < MAX_SERVICES && charCount <= MAX_CHARACTERISTICS
      requires count <= FIXED_ATTRS + serviceCount + 3 * charCount
      modifies this`count, this`table, this`serviceCount, this`charCount, db
      ensures Valid()
      ensures ok == (ValidService(s, base) && old(charCount) + |s.chars| <= MAX_CHARACTERISTICS)
      ensures ok ==> serviceCount == old(serviceCount) + 1 && charCount == old(charCount) + |s.chars|
      ensures ok ==> table == AddChars(old(table) + [ServiceDecl(s, old(count) + 1, base)], old(charCount),
                                       s.chars, |s.chars|, base)
    {
      hide CharAttrs;
      hide ServiceDecl;
      hide ValidChar;
      var added := AddService(s);
      if !added { return false; }
      ghost var t := table;
      ghost var k := charCount;
      var j := 0;
      while j < |s.chars|
        invariant j <= |s.chars| && Valid() && serviceCount == old(serviceCount) + 1
        invariant forall m :: 0 <= m < j ==> ValidChar(s.chars[m], base)
        invariant charCount == k + j <= MAX_CHARACTERISTICS
        invariant count <= |t| + 3 * j
        invariant table == AddChars(t, k, s.chars, j, base)
      {
        added := AddCharacteristic(s.chars[j]);
        if !added { return false; }
        j := j + 1;
      }
      return true;
    }

    method BuildCustomAttrs(services: seq<Service>) returns (ok: bool)
      requires Valid() && count == FIXED_ATTRS && serviceCount == 0 && charCount == 0
      modifies this`count, this`table, this`serviceCount, this`charCount, db
      ensures Valid()
      ensures ok == ValidServices(services, base)
      ensures ok ==> table == AddServices(old(table), services, |services|, base)
    {
      hide AddChars;
      hide ServiceDecl;
      hide ValidChar;
      if |services| > MAX_SERVICES { return false; }
      var i := 0;
      while i < |services|
        invariant i <= |services| && Valid() && serviceCount == i
        invariant forall m :: 0 <= m < i ==> ValidService(services[m], base)
        invariant charCount == CharCount(services, i) <= MAX_CHARACTERISTICS
        invariant table == AddServices(old(table), services, i, base)
      {
        var added := AddServiceWithChars(services[i]);
        if !added {
          RefusedService(services, i, base);
          return false;
        }
        i := i + 1;
      }
      return true;
    }

    /** Init succeeds exactly on valid input, and then the table is the one specified. */
    method Init(name: seq<byte>, services: seq<Service>) returns (ok: bool)
      requires Valid() && |name| <= 20
      modifies this, db
      ensures Valid()
      ensures ok == ValidServices(services, base)
      ensures ok ==> table == Table(name, services, base)
    {
      count, charCount, serviceCount, table := 0, 0, 0, [];
      var built := BuildFixedAttrs(name);
      ok := BuildCustomAttrs(services);
    }
  }
}
