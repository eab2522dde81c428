/**
 * The address and association tables of a device (bcugen/lib/addrtab.cpp), and the exchange sort of the array
 * class (common/array.h).
 */
module AddrTab {
  import opened Bytes
  import opened AddressTables

  /** A group object: the configured addresses, and what BuildObjAddress and BuildObjNo fill in. None is a line
      number 0. */
  datatype GroupObject = GroupObject(
    receive: seq<int>,
    read: seq<int>,
    update: seq<int>,
    send: Option<int>,
    readRequest: Option<int>,
    objAddress: seq<word>,
    objNo: int
  )

  datatype Assoc = Assoc(objNo: int, addrNo: nat)

  // Address lists.

  function Configured(o: GroupObject): seq<int> {
    o.receive + o.read + o.update + Optional(o.send) + Optional(o.readRequest)
  }

  predicate AllValid(s: seq<int>) {
    forall a :: a in s ==> 0 <= a <= 0xffff
  }

  /** addAddress, with the search of hasAddress */
  method AddAddress(a: seq<word>, addr: word) returns (r: seq<word>)
    requires NoDuplicates(a)
    ensures NoDuplicates(r) && (forall x :: x in r <==> x in a || x == addr)
    ensures a <= r
  {
    for i := 0 to |a|
      invariant addr !in a[..i]
    {
      if a[i] == addr {
        return a;
      }
    }
    r := a + [addr];
  }

  method AddAll(a: seq<word>, addrs: seq<int>) returns (r: Option<seq<word>>)
    requires NoDuplicates(a)
    ensures r.Some? <==> AllValid(addrs)
    ensures r.Some? ==> NoDuplicates(r.value) && (forall x: int :: x in r.value <==> x in a || x in addrs)
  {
    var b := a;
    for i := 0 to |addrs|
      invariant NoDuplicates(b) && AllValid(addrs[..i])
      invariant forall x: int :: x in b <==> x in a || x in addrs[..i]
    {
      if addrs[i] < 0 || addrs[i] > 0xffff {
        assert addrs[i] in addrs;
        return None;
      }
      b := AddAddress(b, addrs[i]);
      assert addrs[..i + 1] == addrs[..i] + [addrs[i]];
    }
    assert addrs[..|addrs|] == addrs;
    return Some(b);
  }

  function Optional(a: Option<int>): seq<int> {
    if a.Some? then [a.value] else []
  }

  lemma Parts(a: seq<int>, b: seq<int>)
    ensures AllValid(a + b) <==> AllValid(a) && AllValid(b)
  {
    if AllValid(a + b) {
      assert forall x :: x in a ==> x in a + b;
      assert forall x :: x in b ==> x in a + b;
    }
  }

  lemma ConfiguredParts(o: GroupObject)
    ensures AllValid(Configured(o)) == (&& AllValid(o.receive) && AllValid(o.read) && AllValid(o.update)
                                        && AllValid(Optional(o.send)) && AllValid(Optional(o.readRequest)))
  {
    Parts(o.receive, o.read);
    Parts(o.receive + o.read, o.update);
    Parts(o.receive + o.read + o.update, Optional(o.send));
    Parts(o.receive + o.read + o.update + Optional(o.send), Optional(o.readRequest));
  }

  lemma ConfiguredFields(o: GroupObject)
    ensures forall x :: x in Configured(o) <==>
              x in o.receive || x in o.read || x in o.update || o.send == Some(x) || o.readRequest == Some(x)
  {
  }

  /** What BuildObjAddress promises of the list it builds. */
  ghost predicate WellFormed(o: GroupObject) {
    && NoDuplicates(o.objAddress)
    && (forall x: int :: x in o.objAddress <==> x in Configured(o))
  }

  /** The list of all addresses of the object, without duplicates; None is a fatal error. */
  method BuildObjAddress(o: GroupObject, bcu12: bool) returns (r: Option<GroupObject>)
    ensures r.Some? <==>
            && (forall x :: (x in o.receive || x in o.read || x in o.update || o.send == Some(x)
                             || o.readRequest == Some(x)) ==> 0 <= x <= 0xffff)
            && (o.update == [] || !bcu12)
    ensures r.Some? ==> r.value == o.(objAddress := r.value.objAddress) && WellFormed(r.value)
    ensures r.Some? ==> forall x: int ::
              x in r.value.objAddress <==> x in o.receive || x in o.read || x in o.update || o.send == Some(x)
                                           || o.readRequest == Some(x)
  {
    ConfiguredParts(o);
    ConfiguredFields(o);
    var a := AddAll([], o.receive);
    if a.None? {
      return None;
    }
    a := AddAll(a.value, o.read);
    if a.None? || (o.update != [] && bcu12) {
      return None;
    }
    a := AddAll(a.value, o.update);
    if a.None? {
      return None;
    }
    a := AddAll(a.value, Optional(o.send));
    if a.None? {
      return None;
    }
    a := AddAll(a.value, Optional(o.readRequest));
    if a.None? {
      return None;
    }
    return Some(o.(objAddress := a.value));
  }

  /** Objects with addresses are numbered from 0 on; the others get -1. */
  method BuildObjNos(d: seq<GroupObject>) returns (r: seq<GroupObject>)
    ensures |r| == |d| && forall i :: 0 <= i < |d| ==> r[i] == d[i].(objNo := r[i].objNo)
    ensures forall i :: 0 <= i < |d| ==> (r[i].objNo == -1 <==> d[i].objAddress == [])
    ensures forall i, j :: 0 <= i < j < |d| && r[i].objNo != -1 && r[j].objNo != -1 ==> r[i].objNo < r[j].objNo
    ensures (forall i :: 0 <= i < |d| ==> d[i].objAddress != []) ==> forall i :: 0 <= i < |d| ==> r[i].objNo == i
  {
    r := [];
    var objno := 0;
    for i := 0 to |d|
      invariant |r| == i && forall k :: 0 <= k < i ==> r[k] == d[k].(objNo := r[k].objNo)
      invariant forall k :: 0 <= k < i ==> (r[k].objNo == -1 <==> d[k].objAddress == [])
      invariant 0 <= objno && forall k :: 0 <= k < i ==> r[k].objNo < objno
      invariant forall k, j :: 0 <= k < j < i && r[k].objNo != -1 && r[j].objNo != -1 ==> r[k].objNo < r[j].objNo
      invariant (forall k :: 0 <= k < i ==> d[k].objAddress != []) ==>
                  objno == i && forall k :: 0 <= k < i ==> r[k].objNo == k
    {
      if d[i].objAddress != [] {
        r := r + [d[i].(objNo := objno)];
        objno := objno + 1;
      } else {
        r := r + [d[i].(objNo := -1)];
      }
    }
  }

  // The exchange sort.

  ghost predicate SortedUpTo(s: seq<word>, i: nat) {
    forall j, k :: 0 <= j < i && j < k < |s| ==> s[j] <= s[k]
  }

  ghost predicate Permutes(s: seq<word>, t: seq<word>) {
    multiset(s) == multiset(t)
  }

  lemma SwapPermutes(s: seq<word>, i: nat, j: nat)
    requires i < j < |s|
    ensures Permutes(s[i := s[j]][j := s[i]], s)
  {
  }

  /** Element i is the least of itself and those from there up to j. */
  ghost predicate LeastUpTo(s: seq<word>, i: nat, j: nat)
    requires i < j <= |s|
  {
    forall k :: i < k < j ==> s[i] <= s[k]
  }

  lemma LeastSorted(s: seq<word>, i: nat)
    requires i < |s| && SortedUpTo(s, i) && LeastUpTo(s, i, |s|)
    ensures SortedUpTo(s, i + 1)
  {
  }

  lemma SwapKeepsLeast(s: seq<word>, i: nat, j: nat)
    requires i < j < |s| && LeastUpTo(s, i, j) && s[j] < s[i]
    ensures LeastUpTo(s[i := s[j]][j := s[i]], i, j + 1)
  {
  }

  /** The inner loop. */
  method Settle(data: array<word>, i: nat)
    requires i < data.Length && SortedUpTo(data[..], i)
    modifies data
    ensures SortedUpTo(data[..], i + 1) && Permutes(data[..], old(data[..]))
  {
    for j := i + 1 to data.Length
      invariant SortedUpTo(data[..], i) && Permutes(data[..], old(data[..])) && LeastUpTo(data[..], i, j)
    {
      if data[i] > data[j] {
        ghost var before := data[..];
        SwapPermutes(before, i, j);
        SwapKeepsSorted(before, i, j);
        SwapKeepsLeast(before, i, j);
        Swap(data, i, j);
      }
    }
    LeastSorted(data[..], i);
  }

  method Swap(data: array<word>, i: nat, j: nat)
    requires i < j < data.Length
    modifies data
    ensures data[..] == old(data[..])[i := old(data[j])][j := old(data[i])]
  {
    var x := data[i];
    data[i] := data[j];
    data[j] := x;
  }

  lemma SwapKeepsSorted(s: seq<word>, i: nat, j: nat)
    requires i < j < |s| && SortedUpTo(s, i)
    ensures SortedUpTo(s[i := s[j]][j := s[i]], i)
  {
  }

  method Sort(data: array<word>)
    modifies data
    ensures SortedUpTo(data[..], data.Length) && Permutes(data[..], old(data[..]))
  {
    for i := 0 to data.Length
      invariant SortedUpTo(data[..], i) && Permutes(data[..], old(data[..]))
    {
      Settle(data, i);
    }
  }

  ghost predicate StrictlySorted(s: seq<word>) {
    forall i, j :: 0 <= i < j < |s| ==> s[i] < s[j]
  }

  lemma {:induction false} DistinctCounts(s: seq<word>, x: word)
    ensures NoDuplicates(s) ==> multiset(s)[x] <= 1
  {
    if s != [] {
      DistinctCounts(s[1..], x);
      assert s == [s[0]] + s[1..];
      if NoDuplicates(s) && x == s[0] {
        assert x !in s[1..];
      }
    }
  }

  lemma TwiceIn(s: seq<word>, i: nat, j: nat)
    requires i < j < |s| && s[i] == s[j]
    ensures multiset(s)[s[i]] >= 2
  {
    assert s == s[..i] + [s[i]] + s[i + 1..j] + [s[j]] + s[j + 1..];
  }

  lemma SortedDistinct(s: seq<word>, t: seq<word>)
    requires SortedUpTo(s, |s|) && Permutes(s, t) && NoDuplicates(t)
    ensures StrictlySorted(s) && forall x :: x in s <==> x in t
  {
    forall i, j | 0 <= i < j < |s| ensures s[i] < s[j] {
      DistinctCounts(t, s[i]);
      if s[i] == s[j] {
        TwiceIn(s, i, j);
      }
    }
    forall x ensures x in s <==> x in t {
      assert x in s <==> x in multiset(s);
      assert x in t <==> x in multiset(t);
    }
  }

  /** The addresses of all objects, and no other. */
  ghost predicate IsUnion(addr: seq<word>, d: seq<GroupObject>) {
    forall x :: x in addr <==> exists i :: 0 <= i < |d| && x in d[i].objAddress
  }

  /** The first part of BuildAddrTable: the sorted list of all addresses, each once. */
  method BuildAddresses(d: seq<GroupObject>) returns (addr: seq<word>)
    ensures StrictlySorted(addr) && IsUnion(addr, d)
  {
    var a: seq<word> := [];
    for i := 0 to |d|
      invariant NoDuplicates(a) && forall x :: x in a <==> exists k :: 0 <= k < i && x in d[k].objAddress
    {
      ghost var before := a;
      for j := 0 to |d[i].objAddress|
        invariant NoDuplicates(a) && forall x :: x in a <==> x in before || x in d[i].objAddress[..j]
      {
        a := AddAddress(a, d[i].objAddress[j]);
      }
      assert d[i].objAddress[..|d[i].objAddress|] == d[i].objAddress;
    }
    var data := new word[|a|](k requires 0 <= k < |a| => a[k]);
    assert data[..] == a;
    Sort(data);
    SortedDistinct(data[..], a);
    return data[..];
  }

  // The associations.

  /** The address that the object sends to: only one is used. */
  function Outgoing(o: GroupObject): Option<int> {
    if o.send.Some? then o.send else o.readRequest
  }

  function IndexOf(a: seq<word>, x: int): nat {
    if a == [] || a[0] == x then 0 else 1 + IndexOf(a[1..], x)
  }

  lemma {:induction false} IndexOfFound(a: seq<word>, x: int)
    ensures x in a <==> IndexOf(a, x) < |a|
    ensures x in a ==> a[IndexOf(a, x)] == x
  {
    if a != [] && a[0] != x {
      IndexOfFound(a[1..], x);
    }
  }

  lemma {:induction false} IndexOfFirst(a: seq<word>, i: nat)
    requires i < |a| && forall k :: 0 <= k < i ==> a[k] != a[i]
    ensures IndexOf(a, a[i]) == i
  {
    if i > 0 {
      assert a[0] != a[i];
      IndexOfFirst(a[1..], i - 1);
    }
  }

  method AddrNo(a: seq<word>, ga: int) returns (i: nat)
    requires ga in a
    ensures i == IndexOf(a, ga)
  {
    for k := 0 to |a|
      invariant ga !in a[..k]
    {
      if a[k] == ga {
        IndexOfFirst(a, k);
        return k;
      }
    }
    assert false;
  }

  function AssocOf(addr: seq<word>, o: GroupObject, x: int): Assoc {
    Assoc(o.objNo, IndexOf(addr, x))
  }

  function PairsUpTo(addr: seq<word>, o: GroupObject, n: nat): seq<Assoc>
    requires n <= |o.objAddress|
  {
    if n == 0 then [] else PairsUpTo(addr, o, n - 1) + [AssocOf(addr, o, o.objAddress[n - 1])]
  }

  /** All pairs of the object's number and the index of one of its first n addresses. */
  function Pairs(addr: seq<word>, o: GroupObject, n: nat): seq<Assoc>
    requires n <= |o.objAddress|
  {
    PairsUpTo(addr, o, n)
  }

  function OthersUpTo(addr: seq<word>, o: GroupObject, n: nat): seq<Assoc>
    requires n <= |o.objAddress|
  {
    if n == 0 then []
    else OthersUpTo(addr, o, n - 1)
         + if Outgoing(o) == Some(o.objAddress[n - 1]) then [] else [AssocOf(addr, o, o.objAddress[n - 1])]
  }

  /** Those of them that are not the object's outgoing address. */
  function Others(addr: seq<word>, o: GroupObject, n: nat): seq<Assoc>
    requires n <= |o.objAddress|
  {
    OthersUpTo(addr, o, n)
  }

  function First(addr: seq<word>, o: GroupObject): seq<Assoc> {
    if Outgoing(o).Some? then [AssocOf(addr, o, Outgoing(o).value)] else []
  }

  function AllPairs(addr: seq<word>, d: seq<GroupObject>): seq<Assoc> {
    if d == [] then []
    else var o := d[|d| - 1]; AllPairs(addr, d[..|d| - 1]) + Pairs(addr, o, |o.objAddress|)
  }

  function AllOthers(addr: seq<word>, d: seq<GroupObject>): seq<Assoc> {
    if d == [] then []
    else var o := d[|d| - 1]; AllOthers(addr, d[..|d| - 1]) + Others(addr, o, |o.objAddress|)
  }

  function AllFirst(addr: seq<word>, d: seq<GroupObject>): seq<Assoc> {
    if d == [] then [] else AllFirst(addr, d[..|d| - 1]) + First(addr, d[|d| - 1])
  }

  /** The number of associations. */
  function Count(d: seq<GroupObject>): nat {
    if d == [] then 0 else Count(d[..|d| - 1]) + |d[|d| - 1].objAddress|
  }

  /** The association slot of every object that sends is one of the slots there are. */
  predicate InRange(d: seq<GroupObject>) {
    SendersBelow(d, Count(d))
  }

  predicate SendersBelow(d: seq<GroupObject>, n: nat) {
    forall i :: 0 <= i < |d| && Outgoing(d[i]).Some? ==> i < n
  }

  lemma SendersBelowNext(d: seq<GroupObject>, o: GroupObject, n: nat)
    ensures SendersBelow(d + [o], n) <==> SendersBelow(d, n) && (Outgoing(o).None? || |d| < n)
  {
    if SendersBelow(d + [o], n) {
      assert (d + [o])[|d|] == o;
      assert forall i :: 0 <= i < |d| ==> (d + [o])[i] == d[i];
    }
  }

  /** If every object has an address, it is. */
  lemma {:induction false} AddressedInRange(d: seq<GroupObject>)
    requires forall i :: 0 <= i < |d| ==> d[i].objAddress != []
    ensures |d| <= Count(d) && InRange(d)
  {
    if d != [] {
      AddressedInRange(d[..|d| - 1]);
    }
  }

  /** It need not be: an object without addresses in front of one that only sends. */
  lemma NotAlwaysInRange()
    ensures var d := [GroupObject([], [], [], None, None, [], -1), GroupObject([], [], [], Some(1), None, [1], 0)];
            (forall i :: 0 <= i < |d| ==> WellFormed(d[i])) && !InRange(d)
  {
    var d := [GroupObject([], [], [], None, None, [], -1), GroupObject([], [], [], Some(1), None, [1], 0)];
    SecondOutOfRange(d[0], d[1]);
  }

  lemma SecondOutOfRange(e: GroupObject, o: GroupObject)
    requires e.objAddress == [] && Outgoing(o).Some? && |o.objAddress| == 1
    ensures !InRange([e, o])
  {
    var d := [e, o];
    assert d[..1] == [e] && [e][..0] == [];
    assert Count([e]) == Count([]) + 0 && Count(d) == Count([e]) + 1;
    assert Outgoing(d[1]).Some?;
  }

  /** The outgoing pair, if the address is one of the first n. */
  function FirstAmong(addr: seq<word>, o: GroupObject, n: nat): seq<Assoc>
    requires n <= |o.objAddress|
  {
    if Outgoing(o).Some? && Outgoing(o).value in o.objAddress[..n] then First(addr, o) else []
  }

  lemma FirstAmongNext(addr: seq<word>, o: GroupObject, n: nat)
    requires NoDuplicates(o.objAddress) && 0 < n <= |o.objAddress|
    ensures FirstAmong(addr, o, n) == if Outgoing(o) == Some(o.objAddress[n - 1]) then First(addr, o)
                                      else FirstAmong(addr, o, n - 1)
    ensures Outgoing(o) == Some(o.objAddress[n - 1]) ==> FirstAmong(addr, o, n - 1) == []
  {
    assert o.objAddress[..n] == o.objAddress[..n - 1] + [o.objAddress[n - 1]];
    assert o.objAddress[n - 1] !in o.objAddress[..n - 1];
  }

  /** The pairs of the first n addresses are the others and the outgoing one, merged. */
  predicate SplitAt(addr: seq<word>, o: GroupObject, n: nat)
    requires n <= |o.objAddress|
  {
    Merges(Pairs(addr, o, n), Others(addr, o, n), FirstAmong(addr, o, n))
  }

  lemma {:induction false} ObjectSplits(addr: seq<word>, o: GroupObject, n: nat)
    requires NoDuplicates(o.objAddress) && n <= |o.objAddress|
    ensures SplitAt(addr, o, n)
  {
    if n == 0 {
      SplitNone(addr, o);
    } else {
      var m := n - 1;
      ObjectSplits(addr, o, m);
      SplitNext(addr, o, m, n);
    }
  }

  lemma SplitNone(addr: seq<word>, o: GroupObject)
    ensures SplitAt(addr, o, 0)
  {
    assert Pairs(addr, o, 0) == [] && Others(addr, o, 0) == [] && FirstAmong(addr, o, 0) == [];
  }

  lemma SplitNext(addr: seq<word>, o: GroupObject, m: nat, n: nat)
    requires NoDuplicates(o.objAddress) && m + 1 == n <= |o.objAddress| && SplitAt(addr, o, m)
    ensures SplitAt(addr, o, n)
  {
    FirstAmongNext(addr, o, n);
    PairsNext(addr, o, m);
    OthersNext(addr, o, m);
    MergeLonger(Pairs(addr, o, m), Others(addr, o, m), FirstAmong(addr, o, m),
                AssocOf(addr, o, o.objAddress[m]), Outgoing(o) == Some(o.objAddress[m]),
                Pairs(addr, o, n), Others(addr, o, n), FirstAmong(addr, o, n));
  }

  lemma MergeLonger(p: seq<Assoc>, s: seq<Assoc>, f: seq<Assoc>, x: Assoc, first: bool,
                    p': seq<Assoc>, s': seq<Assoc>, f': seq<Assoc>)
    requires Merges(p, s, f) && p' == p + [x]
    requires first ==> s' == s && f == [] && f' == [x]
    requires !first ==> s' == s + [x] && f' == f
    ensures Merges(p', s', f')
  {
    MergeOne(p, s, f, x);
    assert [] + [x] == [x];
  }

  lemma PairsNext(addr: seq<word>, o: GroupObject, j: nat)
    requires j < |o.objAddress|
    ensures Pairs(addr, o, j + 1) == Pairs(addr, o, j) + [AssocOf(addr, o, o.objAddress[j])]
  {
  }

  lemma {:induction false} PairsCount(addr: seq<word>, d: seq<GroupObject>)
    ensures |AllPairs(addr, d)| == Count(d)
  {
    if d != [] {
      PairsCount(addr, d[..|d| - 1]);
      PairsLength(addr, d[|d| - 1], |d[|d| - 1].objAddress|);
    }
  }

  lemma WholeObjectSplits(addr: seq<word>, o: GroupObject)
    requires WellFormed(o)
    ensures multiset(Pairs(addr, o, |o.objAddress|))
         == multiset(Others(addr, o, |o.objAddress|)) + multiset(First(addr, o))
  {
    ObjectSplits(addr, o, |o.objAddress|);
    MergesIsSum(Pairs(addr, o, |o.objAddress|), Others(addr, o, |o.objAddress|),
                FirstAmong(addr, o, |o.objAddress|));
    assert o.objAddress[..|o.objAddress|] == o.objAddress;
    assert Outgoing(o).Some? ==> Outgoing(o).value in Configured(o);
  }

  /** The outgoing pairs and the others are all pairs, each once. */
  lemma {:induction false} DeviceSplits(addr: seq<word>, d: seq<GroupObject>)
    requires forall i :: 0 <= i < |d| ==> WellFormed(d[i])
    ensures multiset(AllPairs(addr, d)) == multiset(AllFirst(addr, d)) + multiset(AllOthers(addr, d))
  {
    if d != [] {
      var d', o := d[..|d| - 1], d[|d| - 1];
      DeviceSplits(addr, d');
      WholeObjectSplits(addr, o);
      Regroup(AllPairs(addr, d'), AllFirst(addr, d'), AllOthers(addr, d'),
              Pairs(addr, o, |o.objAddress|), First(addr, o), Others(addr, o, |o.objAddress|));
    }
  }

  lemma Regroup<T>(p: seq<T>, f: seq<T>, s: seq<T>, p': seq<T>, f': seq<T>, s': seq<T>)
    requires multiset(p) == multiset(f) + multiset(s) && multiset(p') == multiset(s') + multiset(f')
    ensures multiset(p + p') == multiset(f + f') + multiset(s + s')
  {
  }

  /** So there are as many of them as slots. */
  lemma SplitCount(addr: seq<word>, d: seq<GroupObject>)
    requires forall i :: 0 <= i < |d| ==> WellFormed(d[i])
    ensures |AllFirst(addr, d)| + |AllOthers(addr, d)| == Count(d)
  {
    DeviceSplits(addr, d);
    PairsCount(addr, d);
    assert |multiset(AllPairs(addr, d))| == |AllPairs(addr, d)|;
    assert |multiset(AllFirst(addr, d))| == |AllFirst(addr, d)|;
    assert |multiset(AllOthers(addr, d))| == |AllOthers(addr, d)|;
  }

  lemma {:induction false} PairsLength(addr: seq<word>, o: GroupObject, n: nat)
    requires n <= |o.objAddress|
    ensures |Pairs(addr, o, n)| == n
  {
    if n > 0 {
      PairsLength(addr, o, n - 1);
    }
  }

  // Slots: None is one that is not used.

  function Filled(s: seq<Option<Assoc>>): seq<Assoc> {
    if s == [] then []
    else Filled(s[..|s| - 1]) + if s[|s| - 1].Some? then [s[|s| - 1].value] else []
  }

  lemma {:induction false} FilledUpdate(s: seq<Option<Assoc>>, k: nat, a: Assoc)
    requires k < |s| && s[k].None?
    ensures multiset(Filled(s[k := Some(a)])) == multiset(Filled(s)) + multiset{a}
  {
    var n, t := |s| - 1, s[k := Some(a)];
    if k < n {
      assert t[..n] == s[..n][k := Some(a)] && t[n] == s[n];
      FilledUpdate(s[..n], k, a);
      var last := if s[n].Some? then [s[n].value] else [];
      assert Filled(t) == Filled(t[..n]) + last && Filled(s) == Filled(s[..n]) + last;
    } else {
      assert t[..n] == s[..n];
      assert Filled(t) == Filled(s[..n]) + [a] && Filled(s) == Filled(s[..n]) + [];
    }
  }

  lemma {:induction false} FilledCount(s: seq<Option<Assoc>>)
    ensures |Filled(s)| <= |s|
    ensures |Filled(s)| == |s| <==> forall k :: 0 <= k < |s| ==> s[k].Some?
  {
    if s != [] {
      FilledCount(s[..|s| - 1]);
    }
  }

  lemma {:induction false} NoneFilled(s: seq<Option<Assoc>>)
    requires forall k :: 0 <= k < |s| ==> s[k].None?
    ensures Filled(s) == []
  {
    if s != [] {
      NoneFilled(s[..|s| - 1]);
    }
  }

  lemma {:induction false} AllFilled(s: seq<Option<Assoc>>, t: seq<Assoc>)
    requires |s| == |t| && forall k :: 0 <= k < |s| ==> s[k] == Some(t[k])
    ensures Filled(s) == t
  {
    if s != [] {
      AllFilled(s[..|s| - 1], t[..|t| - 1]);
    }
  }

  /** From s0, these pairs have been put into free slots. */
  ghost predicate Placed(s0: seq<Option<Assoc>>, s: seq<Option<Assoc>>, m: seq<Assoc>) {
    && |s| == |s0|
    && multiset(Filled(s)) == multiset(Filled(s0)) + multiset(m)
    && forall k :: 0 <= k < |s| && s0[k].Some? ==> s[k] == s0[k]
  }

  lemma PlacedPut(s0: seq<Option<Assoc>>, s: seq<Option<Assoc>>, m: seq<Assoc>, k: nat, a: Assoc)
    requires Placed(s0, s, m) && k < |s| && s[k].None?
    ensures Placed(s0, s[k := Some(a)], m + [a])
  {
    FilledUpdate(s, k, a);
  }

  lemma PlacedMore(
      s0: seq<Option<Assoc>>, s1: seq<Option<Assoc>>, s2: seq<Option<Assoc>>, m1: seq<Assoc>, m2: seq<Assoc>)
    requires Placed(s0, s1, m1) && Placed(s1, s2, m2)
    ensures Placed(s0, s2, m1 + m2)
  {
  }

  lemma PlacedCount(s0: seq<Option<Assoc>>, s: seq<Option<Assoc>>, m: seq<Assoc>)
    requires Placed(s0, s, m)
    ensures |Filled(s)| == |Filled(s0)| + |m|
    ensures |Filled(s)| == |s| <==> forall k :: 0 <= k < |s| ==> s[k].Some?
  {
    FilledCount(s);
    assert |multiset(Filled(s))| == |Filled(s)|;
    assert |multiset(Filled(s0)) + multiset(m)| == |multiset(Filled(s0))| + |multiset(m)|;
  }

  lemma OthersNext(addr: seq<word>, o: GroupObject, j: nat)
    requires j < |o.objAddress|
    ensures Others(addr, o, j + 1)
         == if Outgoing(o) == Some(o.objAddress[j]) then Others(addr, o, j)
            else Others(addr, o, j) + [AssocOf(addr, o, o.objAddress[j])]
  {
    assert Others(addr, o, j) + [] == Others(addr, o, j);
  }

  lemma {:induction false} OthersGrow(addr: seq<word>, o: GroupObject, m: nat, n: nat)
    requires m <= n <= |o.objAddress|
    ensures |Others(addr, o, m)| <= |Others(addr, o, n)|
  {
    if m < n {
      OthersGrow(addr, o, m, n - 1);
    }
  }

  lemma {:induction false} AllOthersGrow(addr: seq<word>, d: seq<GroupObject>, n: nat)
    requires n <= |d|
    ensures |AllOthers(addr, d[..n])| <= |AllOthers(addr, d)|
    decreases |d|
  {
    if n < |d| {
      AllOthersGrow(addr, d[..|d| - 1], n);
      assert d[..|d| - 1][..n] == d[..n];
    } else {
      assert d[..n] == d;
    }
  }

  /** The slot of every object that sends holds its outgoing address. */
  ghost predicate Sending(addr: seq<word>, d: seq<GroupObject>, s: seq<Option<Assoc>>) {
    forall i :: 0 <= i < |d| && Outgoing(d[i]).Some? ==>
      i < |s| && s[i] == Some(AssocOf(addr, d[i], Outgoing(d[i]).value))
  }

  /** After the first n objects of the first pass. */
  ghost predicate FirstPass(addr: seq<word>, d: seq<GroupObject>, s: seq<Option<Assoc>>) {
    && Sending(addr, d, s) && multiset(Filled(s)) == multiset(AllFirst(addr, d))
    && forall k :: |d| <= k < |s| ==> s[k].None?
  }

  lemma AllFirstNext(addr: seq<word>, d: seq<GroupObject>, o: GroupObject)
    ensures AllFirst(addr, d + [o]) == AllFirst(addr, d) + First(addr, o)
  {
    assert (d + [o])[..|d|] == d;
  }

  lemma SendingNext(addr: seq<word>, d: seq<GroupObject>, s: seq<Option<Assoc>>, o: GroupObject)
    requires Sending(addr, d, s)
    ensures Outgoing(o).None? ==> Sending(addr, d + [o], s)
    ensures Outgoing(o).Some? && |d| < |s| ==>
              Sending(addr, d + [o], s[|d| := Some(AssocOf(addr, o, Outgoing(o).value))])
  {
  }

  lemma FirstPassSkip(addr: seq<word>, d: seq<GroupObject>, s: seq<Option<Assoc>>, o: GroupObject)
    requires FirstPass(addr, d, s) && Outgoing(o).None?
    ensures FirstPass(addr, d + [o], s)
  {
    AllFirstNext(addr, d, o);
    SendingNext(addr, d, s, o);
    assert AllFirst(addr, d) + [] == AllFirst(addr, d);
  }

  lemma FirstPassPut(addr: seq<word>, d: seq<GroupObject>, s: seq<Option<Assoc>>, o: GroupObject, a: Assoc)
    requires FirstPass(addr, d, s) && Outgoing(o).Some? && |d| < |s| && a == AssocOf(addr, o, Outgoing(o).value)
    ensures FirstPass(addr, d + [o], s[|d| := Some(a)])
  {
    AllFirstNext(addr, d, o);
    SendingNext(addr, d, s, o);
    FilledUpdate(s, |d|, a);
    assert First(addr, o) == [a];
  }

  /** The addresses of the object are in the table. */
  ghost predicate Covers(addr: seq<word>, o: GroupObject) {
    && (forall x :: x in o.objAddress ==> x in addr)
    && (Outgoing(o).Some? ==> Outgoing(o).value in addr)
  }

  lemma TableCovers(addr: seq<word>, o: GroupObject)
    requires WellFormed(o) && forall x :: x in o.objAddress ==> x in addr
    ensures Covers(addr, o)
  {
    if Outgoing(o).Some? {
      var x: int := Outgoing(o).value;
      assert x in Configured(o);
    }
  }

  /** The cursor moves over used slots. */
  method NextFree(s: seq<Option<Assoc>>, from: nat) returns (fn: nat)
    requires from <= |s| && forall k :: 0 <= k < from ==> s[k].Some?
    ensures Cursor(s, fn)
  {
    fn := from;
    while fn < |s| && s[fn].Some?
      invariant fn <= |s| && forall k :: 0 <= k < fn ==> s[k].Some?
    {
      fn := fn + 1;
    }
  }

  /** fn is the first free slot, or the end. */
  ghost predicate Cursor(s: seq<Option<Assoc>>, fn: nat) {
    && fn <= |s| && (forall k :: 0 <= k < fn ==> s[k].Some?)
    && (fn < |s| ==> s[fn].None?)
  }

  /** The slot of the next object; false stands for a write outside the arrays. */
  method PlaceFirst(addr: seq<word>, ghost before: seq<GroupObject>, i: nat, o: GroupObject, s: seq<Option<Assoc>>)
    returns (ok: bool, t: seq<Option<Assoc>>)
    requires FirstPass(addr, before, s) && |before| == i && Covers(addr, o)
    ensures |t| == |s| && (ok <==> Outgoing(o).None? || i < |s|)
    ensures ok ==> FirstPass(addr, before + [o], t)
  {
    if Outgoing(o).None? {
      FirstPassSkip(addr, before, s, o);
      return true, s;
    }
    if i >= |s| {
      return false, s;
    }
    var n := AddrNo(addr, Outgoing(o).value);
    FirstPassPut(addr, before, s, o, Assoc(o.objNo, n));
    return true, s[i := Some(Assoc(o.objNo, n))];
  }

  method PlaceOutgoing(addr: seq<word>, d: seq<GroupObject>, s: seq<Option<Assoc>>)
    returns (ok: bool, t: seq<Option<Assoc>>)
    requires FirstPass(addr, [], s) && forall i :: 0 <= i < |d| ==> Covers(addr, d[i])
    ensures |t| == |s| && (ok <==> SendersBelow(d, |s|))
    ensures ok ==> FirstPass(addr, d, t)
  {
    t := s;
    ok := true;
    ghost var before: seq<GroupObject> := [];
    for i := 0 to |d|
      invariant |t| == |s| && before == d[..i] && FirstPassOf(addr, before, t, |s|)
    {
      ok, t := PlaceFirst(addr, before, i, d[i], t);
      SendersBelowNext(before, d[i], |s|);
      if !ok {
        return;
      }
      PrefixNext(d, i);
      before := before + [d[i]];
    }
    assert before == d;
    ok := true;
  }

  ghost predicate FirstPassOf(addr: seq<word>, d: seq<GroupObject>, s: seq<Option<Assoc>>, n: nat) {
    FirstPass(addr, d, s) && SendersBelow(d, n)
  }

  /** One more pair, at the cursor. */
  method PlacePair(ghost s0: seq<Option<Assoc>>, s: seq<Option<Assoc>>, ghost placed: seq<Assoc>, from: nat, a: Assoc)
    returns (t: seq<Option<Assoc>>, fn: nat)
    requires Cursor(s, from) && Placed(s0, s, placed) && |Filled(s0)| + |placed| < |s|
    ensures Cursor(t, fn) && Placed(s0, t, placed + [a])
  {
    PlacedCount(s0, s, placed);
    PlacedPut(s0, s, placed, from, a);
    t := s[from := Some(a)];
    fn := NextFree(t, from + 1);
  }

  /** One address of an object, unless it is the outgoing one, at the cursor. */
  method PlaceAddress(addr: seq<word>, o: GroupObject, j: nat, ghost s0: seq<Option<Assoc>>, s: seq<Option<Assoc>>,
                      from: nat)
    returns (t: seq<Option<Assoc>>, fn: nat)
    requires Cursor(s, from) && Covers(addr, o) && j < |o.objAddress|
    requires Placed(s0, s, Others(addr, o, j)) && |Filled(s0)| + |Others(addr, o, |o.objAddress|)| <= |s|
    ensures Cursor(t, fn) && Placed(s0, t, Others(addr, o, j + 1))
  {
    var x := o.objAddress[j];
    OthersNext(addr, o, j);
    if Outgoing(o) == Some(x) {
      return s, from;
    }
    OthersGrow(addr, o, j + 1, |o.objAddress|);
    var n := AddrNo(addr, x);
    t, fn := PlacePair(s0, s, Others(addr, o, j), from, Assoc(o.objNo, n));
  }

  /** The remaining addresses of an object, into free slots. */
  method PlaceObject(addr: seq<word>, o: GroupObject, s: seq<Option<Assoc>>, from: nat)
    returns (t: seq<Option<Assoc>>, fn: nat)
    requires Cursor(s, from) && Covers(addr, o)
    requires |Filled(s)| + |Others(addr, o, |o.objAddress|)| <= |s|
    ensures Cursor(t, fn) && Placed(s, t, Others(addr, o, |o.objAddress|))
  {
    t, fn := s, from;
    for j := 0 to |o.objAddress|
      invariant Cursor(t, fn) && Placed(s, t, Others(addr, o, j))
    {
      t, fn := PlaceAddress(addr, o, j, s, t, fn);
    }
  }

  /** The next object of the second pass. */
  method PlaceNext(addr: seq<word>, o: GroupObject, ghost placed: seq<Assoc>, ghost rest: nat,
                   ghost s0: seq<Option<Assoc>>, s: seq<Option<Assoc>>, from: nat)
    returns (t: seq<Option<Assoc>>, fn: nat)
    requires Cursor(s, from) && Covers(addr, o) && Placed(s0, s, placed)
    requires |Filled(s0)| + |placed| + |Others(addr, o, |o.objAddress|)| + rest == |s0|
    ensures Cursor(t, fn) && Placed(s0, t, placed + Others(addr, o, |o.objAddress|))
  {
    PlacedCount(s0, s, placed);
    t, fn := PlaceObject(addr, o, s, from);
    PlacedMore(s0, s, t, placed, Others(addr, o, |o.objAddress|));
  }

  lemma AllOthersNext(addr: seq<word>, d: seq<GroupObject>, i: nat)
    requires i < |d|
    ensures AllOthers(addr, d[..i + 1]) == AllOthers(addr, d[..i]) + Others(addr, d[i], |d[i].objAddress|)
    ensures |AllOthers(addr, d[..i + 1])| <= |AllOthers(addr, d)|
  {
    assert d[..i + 1][..i] == d[..i];
    AllOthersGrow(addr, d, i + 1);
  }

  method PlaceOthers(addr: seq<word>, d: seq<GroupObject>, s: seq<Option<Assoc>>) returns (t: seq<Option<Assoc>>)
    requires (forall i :: 0 <= i < |d| ==> Covers(addr, d[i])) && |Filled(s)| + |AllOthers(addr, d)| == |s|
    ensures Placed(s, t, AllOthers(addr, d))
  {
    var fn := NextFree(s, 0);
    t := s;
    ghost var placed: seq<Assoc> := [];
    for i := 0 to |d|
      invariant Cursor(t, fn) && Placed(s, t, placed)
      invariant placed == AllOthers(addr, d[..i])
    {
      AllOthersNext(addr, d, i);
      ghost var more := Others(addr, d[i], |d[i].objAddress|);
      t, fn := PlaceNext(addr, d[i], placed, |AllOthers(addr, d)| - |placed| - |more|, s, t, fn);
      placed := placed + more;
    }
    assert d[..|d|] == d;
  }

  class AddrTable {
    var addr: seq<word>
    var objNo: seq<int>
    var addrNo: seq<nat>

    constructor ()
      ensures addr == [] && objNo == [] && addrNo == []
    {
      addr, objNo, addrNo := [], [], [];
    }

    /** The table has every address of the objects, sorted and once; the associations are all pairs of an object
        and an address of it, each once; and slot i names the address that object i sends to: the send address, or
        without one the read-request address. The arrays have room for these slots if and only if ok. */
    method BuildAddrTable(d: seq<GroupObject>) returns (ok: bool)
      requires forall i :: 0 <= i < |d| ==> WellFormed(d[i])
      modifies this
      ensures ok <==> forall i :: 0 <= i < |d| && (d[i].send.Some? || d[i].readRequest.Some?) ==> i < Count(d)
      ensures StrictlySorted(addr) && IsUnion(addr, d)
      ensures ok ==> |objNo| == |addrNo| == Count(d)
      ensures ok ==> IsTable(addr, d, objNo, addrNo)
      ensures ok ==> forall i :: 0 <= i < |d| && d[i].send.Some? ==>
                       Names(addr, objNo, addrNo, i, d[i], d[i].send.value)
      ensures ok ==> forall i :: 0 <= i < |d| && d[i].send.None? && d[i].readRequest.Some? ==>
                       Names(addr, objNo, addrNo, i, d[i], d[i].readRequest.value)
      ensures ok ==> forall i, x :: 0 <= i < |d| && x in d[i].objAddress ==>
                       HasSlot(addr, objNo, addrNo, d[i], x)
      ensures ok ==> forall k :: 0 <= k < |objNo| ==> HasPair(addr, d, objNo, addrNo, k)
    {
      ok, addr, objNo, addrNo := Tables(d);
      if ok {
        SlotsName(addr, d, objNo, addrNo);
        PairsNamed(addr, d, objNo, addrNo);
      }
    }
  }

  /** The tables, on values. */
  method Tables(d: seq<GroupObject>) returns (ok: bool, addr: seq<word>, objNo: seq<int>, addrNo: seq<nat>)
    requires forall i :: 0 <= i < |d| ==> WellFormed(d[i])
    ensures ok <==> InRange(d)
    ensures StrictlySorted(addr) && IsUnion(addr, d)
    ensures ok ==> |objNo| == |addrNo| == Count(d) && IsTable(addr, d, objNo, addrNo)
  {
    addr := BuildAddresses(d);
    CoversAll(addr, d);
    objNo, addrNo := [], [];
    var s;
    ok, s := Associate(addr, d);
    if ok {
      objNo := seq(|s|, k requires 0 <= k < |s| => s[k].value.objNo);
      addrNo := seq(|s|, k requires 0 <= k < |s| => s[k].value.addrNo);
      Finished(addr, d, s, objNo, addrNo);
    }
  }

  lemma CoversAll(addr: seq<word>, d: seq<GroupObject>)
    requires forall i :: 0 <= i < |d| ==> WellFormed(d[i])
    requires IsUnion(addr, d)
    ensures forall i :: 0 <= i < |d| ==> Covers(addr, d[i])
  {
    forall i | 0 <= i < |d| ensures Covers(addr, d[i]) {
      TableCovers(addr, d[i]);
    }
  }

  /** The second part of BuildAddrTable: both passes over the objects. */
  method Associate(addr: seq<word>, d: seq<GroupObject>) returns (ok: bool, s: seq<Option<Assoc>>)
    requires forall i :: 0 <= i < |d| ==> WellFormed(d[i])
    requires forall i :: 0 <= i < |d| ==> Covers(addr, d[i])
    ensures ok <==> InRange(d)
    ensures ok ==> |s| == Count(d) && multiset(Filled(s)) == multiset(AllPairs(addr, d)) && Sending(addr, d, s)
    ensures ok ==> forall k :: 0 <= k < |s| ==> s[k].Some?
  {
    var maxs := Total(d);
    s := seq(maxs, _ => None);
    NoneFilled(s);
    ok, s := PlaceOutgoing(addr, d, s);
    if ok {
      ghost var first := s;
      FirstCount(addr, d, first);
      s := PlaceOthers(addr, d, s);
      AllPlaced(addr, d, first, s);
    }
  }

  /** The associations, in the order of the slots. */
  function Zip(objNo: seq<int>, addrNo: seq<nat>): seq<Assoc> {
    if |objNo| != |addrNo| then []
    else seq(|objNo|, k requires 0 <= k < |objNo| == |addrNo| => Assoc(objNo[k], addrNo[k]))
  }

  ghost predicate IsTable(addr: seq<word>, d: seq<GroupObject>, objNo: seq<int>, addrNo: seq<nat>) {
    && multiset(Zip(objNo, addrNo)) == multiset(AllPairs(addr, d))
    && forall i :: 0 <= i < |d| && Outgoing(d[i]).Some? ==>
         i < |Zip(objNo, addrNo)| && Zip(objNo, addrNo)[i] == AssocOf(addr, d[i], Outgoing(d[i]).value)
  }

  /** Slot k is for object o and its address x. */
  ghost predicate Names(addr: seq<word>, objNo: seq<int>, addrNo: seq<nat>, k: int, o: GroupObject, x: int) {
    && 0 <= k < |objNo| && k < |addrNo| && addrNo[k] < |addr|
    && objNo[k] == o.objNo && addr[addrNo[k]] == x
  }

  ghost predicate HasSlot(addr: seq<word>, objNo: seq<int>, addrNo: seq<nat>, o: GroupObject, x: int) {
    exists k :: Names(addr, objNo, addrNo, k, o, x)
  }

  ghost predicate HasPair(addr: seq<word>, d: seq<GroupObject>, objNo: seq<int>, addrNo: seq<nat>, k: int) {
    exists i, x :: 0 <= i < |d| && x in d[i].objAddress && Names(addr, objNo, addrNo, k, d[i], x)
  }

  /** The slots of the objects that send, by the objects' fields. */
  lemma SlotsName(addr: seq<word>, d: seq<GroupObject>, objNo: seq<int>, addrNo: seq<nat>)
    requires (forall i :: 0 <= i < |d| ==> WellFormed(d[i])) && IsUnion(addr, d)
    requires |objNo| == |addrNo| && IsTable(addr, d, objNo, addrNo)
    ensures forall i :: 0 <= i < |d| && d[i].send.Some? ==> Names(addr, objNo, addrNo, i, d[i], d[i].send.value)
    ensures forall i :: 0 <= i < |d| && d[i].send.None? && d[i].readRequest.Some? ==>
              Names(addr, objNo, addrNo, i, d[i], d[i].readRequest.value)
  {
    forall i | 0 <= i < |d| && Outgoing(d[i]).Some?
      ensures Names(addr, objNo, addrNo, i, d[i], Outgoing(d[i]).value)
    {
      TableCovers(addr, d[i]);
      IndexOfFound(addr, Outgoing(d[i]).value);
    }
  }

  lemma {:induction false} PairIn(addr: seq<word>, o: GroupObject, n: nat, p: Assoc)
    requires n <= |o.objAddress|
    ensures p in Pairs(addr, o, n) <==> exists j :: 0 <= j < n && p == AssocOf(addr, o, o.objAddress[j])
  {
    if n > 0 {
      PairIn(addr, o, n - 1, p);
    }
  }

  lemma {:induction false} AllPairsIn(addr: seq<word>, d: seq<GroupObject>, p: Assoc)
    ensures p in AllPairs(addr, d)
       <==> exists i, j :: 0 <= i < |d| && 0 <= j < |d[i].objAddress| && p == AssocOf(addr, d[i], d[i].objAddress[j])
  {
    if d != [] {
      var k := |d| - 1;
      AllPairsIn(addr, d[..k], p);
      PairIn(addr, d[k], |d[k].objAddress|, p);
    }
  }

  /** All pairs have a slot, and no slot has anything else. */
  lemma PairsNamed(addr: seq<word>, d: seq<GroupObject>, objNo: seq<int>, addrNo: seq<nat>)
    requires IsUnion(addr, d) && |objNo| == |addrNo| && IsTable(addr, d, objNo, addrNo)
    ensures forall i, x :: 0 <= i < |d| && x in d[i].objAddress ==> HasSlot(addr, objNo, addrNo, d[i], x)
    ensures forall k :: 0 <= k < |objNo| ==> HasPair(addr, d, objNo, addrNo, k)
  {
    forall i, x | 0 <= i < |d| && x in d[i].objAddress ensures HasSlot(addr, objNo, addrNo, d[i], x) {
      PairHasSlot(addr, d, objNo, addrNo, i, x);
    }
    forall k | 0 <= k < |objNo| ensures HasPair(addr, d, objNo, addrNo, k) {
      SlotHasPair(addr, d, objNo, addrNo, k);
    }
  }

  lemma PairHasSlot(addr: seq<word>, d: seq<GroupObject>, objNo: seq<int>, addrNo: seq<nat>, i: nat, x: word)
    requires IsUnion(addr, d) && |objNo| == |addrNo| && IsTable(addr, d, objNo, addrNo)
    requires i < |d| && x in d[i].objAddress
    ensures HasSlot(addr, objNo, addrNo, d[i], x)
  {
    var z, p := Zip(objNo, addrNo), AssocOf(addr, d[i], x);
    var j :| 0 <= j < |d[i].objAddress| && d[i].objAddress[j] == x;
    AllPairsIn(addr, d, p);
    assert p in multiset(z);
    var k :| 0 <= k < |z| && z[k] == p;
    IndexOfFound(addr, x);
    assert Names(addr, objNo, addrNo, k, d[i], x);
  }

  lemma SlotHasPair(addr: seq<word>, d: seq<GroupObject>, objNo: seq<int>, addrNo: seq<nat>, k: nat)
    requires IsUnion(addr, d) && |objNo| == |addrNo| && IsTable(addr, d, objNo, addrNo) && k < |objNo|
    ensures HasPair(addr, d, objNo, addrNo, k)
  {
    var z := Zip(objNo, addrNo);
    assert z[k] in multiset(z);
    assert z[k] in multiset(AllPairs(addr, d));
    AllPairsIn(addr, d, z[k]);
    var i, j :| 0 <= i < |d| && 0 <= j < |d[i].objAddress| && z[k] == AssocOf(addr, d[i], d[i].objAddress[j]);
    IndexOfFound(addr, d[i].objAddress[j]);
    assert Names(addr, objNo, addrNo, k, d[i], d[i].objAddress[j]);
  }

  lemma Finished(addr: seq<word>, d: seq<GroupObject>, s: seq<Option<Assoc>>, objNo: seq<int>, addrNo: seq<nat>)
    requires |objNo| == |addrNo| == |s| && multiset(Filled(s)) == multiset(AllPairs(addr, d)) && Sending(addr, d, s)
    requires forall k :: 0 <= k < |s| ==> s[k] == Some(Assoc(objNo[k], addrNo[k]))
    ensures IsTable(addr, d, objNo, addrNo)
  {
    AllFilled(s, Zip(objNo, addrNo));
  }

  lemma FirstCount(addr: seq<word>, d: seq<GroupObject>, first: seq<Option<Assoc>>)
    requires (forall i :: 0 <= i < |d| ==> WellFormed(d[i])) && FirstPass(addr, d, first)
    ensures |Filled(first)| + |AllOthers(addr, d)| == Count(d)
  {
    SplitCount(addr, d);
    SameSize(Filled(first), AllFirst(addr, d));
  }

  lemma SameSize<T>(a: seq<T>, b: seq<T>)
    requires multiset(a) == multiset(b)
    ensures |a| == |b|
  {
    assert |multiset(a)| == |a| && |multiset(b)| == |b|;
  }

  /** After both passes every slot is used, and together they hold all pairs. */
  lemma AllPlaced(addr: seq<word>, d: seq<GroupObject>, first: seq<Option<Assoc>>, s: seq<Option<Assoc>>)
    requires (forall i :: 0 <= i < |d| ==> WellFormed(d[i])) && |s| == Count(d)
    requires FirstPass(addr, d, first) && Placed(first, s, AllOthers(addr, d))
    ensures multiset(Filled(s)) == multiset(AllPairs(addr, d)) && forall k :: 0 <= k < |s| ==> s[k].Some?
    ensures Sending(addr, d, s)
  {
    DeviceSplits(addr, d);
    SplitCount(addr, d);
    SameSize(Filled(first), AllFirst(addr, d));
    PlacedCount(first, s, AllOthers(addr, d));
  }

  method Total(d: seq<GroupObject>) returns (maxs: nat)
    ensures maxs == Count(d)
  {
    maxs := 0;
    for i := 0 to |d|
      invariant maxs == Count(d[..i])
    {
      assert d[..i + 1][..i] == d[..i];
      maxs := maxs + |d[i].objAddress|;
    }
    assert d[..|d|] == d;
  }
}
