/**
 * The address tables of the link-layer drivers (eibd/backend/tpuartserial.cpp): arrays without duplicates, changed
 * in place.
 */
module AddressTables {
  import opened Bytes

  predicate NoDuplicates<T(==)>(s: seq<T>) {
    forall i, j :: 0 <= i < j < |s| ==> s[i] != s[j]
  }

  function Elements<T>(s: seq<T>): set<T> {
    set x | x in s
  }

  class Table {
    var items: seq<word>

    ghost predicate Valid()
      reads this
    {
      NoDuplicates(items)
    }

    ghost function Addresses(): set<word>
      reads this
    {
      Elements(items)
    }

    constructor ()
      ensures Valid() && Addresses() == {}
    {
      items := [];
    }

    /** addAddress, addGroupAddress: refused if the address is there. */
    method Add(addr: word) returns (ok: bool)
      requires Valid()
      modifies this
      ensures Valid()
      ensures ok <==> addr !in old(Addresses())
      ensures Addresses() == old(Addresses()) + {addr}
      ensures ok ==> items == old(items) + [addr]
      ensures !ok ==> items == old(items)
    {
      for i := 0 to |items|
        invariant addr !in items[..i]
        invariant items == old(items)
      {
        if items[i] == addr {
          return false;
        }
      }
      items := items + [addr];
      return true;
    }

    /** removeAddress, removeGroupAddress: refused if the address is not there. */
    method Remove(addr: word) returns (ok: bool)
      requires Valid()
      modifies this
      ensures Valid()
      ensures ok <==> addr in old(Addresses())
      ensures Addresses() == old(Addresses()) - {addr}
      ensures !ok ==> items == old(items)
    {
      for i := 0 to |items|
        invariant addr !in items[..i]
        invariant items == old(items)
      {
        if items[i] == addr {
          items := items[..i] + items[i + 1..];
          assert forall x :: x in old(items) && x != addr ==> x in items;
          return true;
        }
      }
      return false;
    }

    /** The table part of the acknowledgement loop. */
    method Contains(addr: word) returns (found: bool)
      ensures found <==> addr in Addresses()
    {
      found := false;
      for i := 0 to |items|
        invariant found <==> addr in items[..i]
      {
        if items[i] == addr {
          found := true;
        }
      }
    }
  }
}
