/**
 * The registrations and the dispatch of Layer3 (eibd/libserver/layer3.cpp).
 */
module Layer3 {
  import opened Bytes
  import opened AddressTables
  import opened Emi

  /** A callback object, by its identity. */
  type Callback = int

  datatype Lock = NoLock | ConnectionLock

  datatype GroupInfo = GroupInfo(cb: Callback, dest: word)

  datatype IndividualInfo = IndividualInfo(cb: Callback, src: word, dest: word, lock: Lock)

  /** A frame that was dispatched, with the repeat flag set, and the time until which repetitions are ignored. */
  datatype IgnoreInfo = IgnoreInfo(data: LData, end: int)

  /** A call of a registered callback with a frame. */
  datatype Delivery = Delivery(cb: Callback, frame: LData)

  const IGNORE_TIME := 1000000

  function Filter<T>(p: T -> bool, s: seq<T>): seq<T> {
    if s == [] then [] else (if p(s[0]) then [s[0]] else []) + Filter(p, s[1..])
  }

  lemma {:induction false} FilterAppend<T>(p: T -> bool, a: seq<T>, b: seq<T>)
    ensures Filter(p, a + b) == Filter(p, a) + Filter(p, b)
  {
    if a == [] {
      assert a + b == b;
    } else {
      var first := if p(a[0]) then [a[0]] else [];
      assert (a + b)[0] == a[0] && (a + b)[1..] == a[1..] + b;
      FilterAppend(p, a[1..], b);
      assert Filter(p, a) == first + Filter(p, a[1..]);
      assert Filter(p, a + b) == first + Filter(p, a[1..] + b);
    }
  }

  lemma FilterNext<T>(p: T -> bool, s: seq<T>, i: nat)
    requires i < |s|
    ensures Filter(p, s[..i + 1]) == Filter(p, s[..i]) + if p(s[i]) then [s[i]] else []
  {
    assert s[..i + 1] == s[..i] + [s[i]];
    FilterAppend(p, s[..i], [s[i]]);
    assert [s[i]][1..] == [];
  }

  /** Every element that satisfies p is there as often as before, and no other is. */
  lemma {:induction false} FilterExact<T>(p: T -> bool, s: seq<T>, x: T)
    ensures multiset(Filter(p, s))[x] == if p(x) then multiset(s)[x] else 0
  {
    if s != [] {
      FilterExact(p, s[1..], x);
      assert s == [s[0]] + s[1..];
    }
  }

  // The repeat filter.

  /** What the filter compares: the frame with the repeat flag set. */
  function Key(l: LData): LData {
    l.(repeated := true)
  }

  predicate Ignored(ignore: seq<IgnoreInfo>, l: LData) {
    l.repeated && exists i :: 0 <= i < |ignore| && ignore[i].data == l
  }

  function Alive(now: int): IgnoreInfo -> bool {
    (e: IgnoreInfo) => e.end >= now
  }

  /** What the table is after a frame at this time. A discarded frame leaves it as it is, without the removal of
      old entries; a busmonitor frame (None) only removes them. */
  function IgnoreAfter(ignore: seq<IgnoreInfo>, frame: Option<LData>, now: int): seq<IgnoreInfo> {
    if frame.None? then Filter(Alive(now), ignore)
    else if Ignored(ignore, frame.value) then ignore
    else Filter(Alive(now), ignore + [IgnoreInfo(Key(frame.value), now + IGNORE_TIME)])
  }

  datatype Arrival = Arrival(frame: Option<LData>, now: int)

  function IgnoreTable(arrivals: seq<Arrival>): seq<IgnoreInfo> {
    if arrivals == [] then []
    else
      var k := |arrivals| - 1;
      IgnoreAfter(IgnoreTable(arrivals[..k]), arrivals[k].frame, arrivals[k].now)
  }

  /** The k-th frame to arrive is a data frame that is discarded. */
  predicate Discarded(arrivals: seq<Arrival>, k: nat)
    requires k < |arrivals|
  {
    arrivals[k].frame.Some? && Ignored(IgnoreTable(arrivals[..k]), arrivals[k].frame.value)
  }

  predicate Dispatched(arrivals: seq<Arrival>, k: nat)
    requires k < |arrivals|
  {
    arrivals[k].frame.Some? && !Discarded(arrivals, k)
  }

  ghost predicate Monotone(arrivals: seq<Arrival>) {
    forall i, j :: 0 <= i < j < |arrivals| ==> arrivals[i].now <= arrivals[j].now
  }

  /** The j-th frame was dispatched, and no frame since then, other than discarded ones, came more than a second
      after it. */
  ghost predicate Remembered(arrivals: seq<Arrival>, j: nat, k: nat)
    requires j < k <= |arrivals|
  {
    && Dispatched(arrivals, j)
    && forall m :: j < m < k ==> Discarded(arrivals, m) || arrivals[m].now <= arrivals[j].now + 1000000
  }

  ghost predicate RemembersEntry(arrivals: seq<Arrival>, j: nat, k: nat, e: IgnoreInfo)
    requires j < k <= |arrivals|
  {
    && Remembered(arrivals, j, k)
    && IgnoreInfo(Key(arrivals[j].frame.value), arrivals[j].now + IGNORE_TIME) == e
  }

  lemma {:induction false} FilterMember<T>(p: T -> bool, s: seq<T>, x: T)
    ensures x in Filter(p, s) <==> x in s && p(x)
  {
    FilterExact(p, s, x);
    assert x in multiset(s) <==> x in s;
    assert x in multiset(Filter(p, s)) <==> x in Filter(p, s);
  }

  lemma RememberedLonger(arrivals: seq<Arrival>, j: nat, i: nat, e: IgnoreInfo)
    requires j < i < |arrivals|
    ensures RemembersEntry(arrivals, j, i + 1, e)
       <==> RemembersEntry(arrivals, j, i, e) && (Discarded(arrivals, i) || e.end >= arrivals[i].now)
  {
  }

  lemma TableStep(arrivals: seq<Arrival>, i: nat, e: IgnoreInfo)
    requires i < |arrivals|
    ensures e in IgnoreTable(arrivals[..i + 1])
       <==> (e in IgnoreTable(arrivals[..i]) && (Discarded(arrivals, i) || e.end >= arrivals[i].now))
            || RemembersEntry(arrivals, i, i + 1, e)
  {
    var a, before := arrivals[i], IgnoreTable(arrivals[..i]);
    assert arrivals[..i + 1][..i] == arrivals[..i];
    assert IgnoreTable(arrivals[..i + 1]) == IgnoreAfter(before, a.frame, a.now);
    if Dispatched(arrivals, i) {
      FilterMember(Alive(a.now), before + [IgnoreInfo(Key(a.frame.value), a.now + IGNORE_TIME)], e);
    } else {
      FilterMember(Alive(a.now), before, e);
    }
  }

  /** The table holds exactly the entries of the remembered frames. */
  lemma {:induction false} TableIsRemembered(arrivals: seq<Arrival>, k: nat, e: IgnoreInfo)
    requires k <= |arrivals|
    ensures e in IgnoreTable(arrivals[..k]) <==> exists j :: 0 <= j < k && RemembersEntry(arrivals, j, k, e)
  {
    if k > 0 {
      var i := k - 1;
      TableIsRemembered(arrivals, i, e);
      TableStep(arrivals, i, e);
      if e in IgnoreTable(arrivals[..i]) && (Discarded(arrivals, i) || e.end >= arrivals[i].now) {
        var j :| 0 <= j < i && RemembersEntry(arrivals, j, i, e);
        RememberedLonger(arrivals, j, i, e);
      }
      if j :| 0 <= j < i && RemembersEntry(arrivals, j, k, e) {
        RememberedLonger(arrivals, j, i, e);
      }
    }
  }

  ghost predicate Repeats(arrivals: seq<Arrival>, j: nat, k: nat)
    requires j < k < |arrivals| && arrivals[k].frame.Some?
  {
    Remembered(arrivals, j, k) && arrivals[j].frame.value.(repeated := true) == arrivals[k].frame.value
  }

  /** A data frame is discarded if and only if it is flagged as repeated and is, up to the flag, a frame that was
      dispatched earlier, with no frame since then, discarded ones aside, that came more than a second after
      that. */
  lemma DiscardedExactly(arrivals: seq<Arrival>, k: nat)
    requires k < |arrivals| && arrivals[k].frame.Some?
    ensures Discarded(arrivals, k)
       <==> arrivals[k].frame.value.repeated && exists j :: 0 <= j < k && Repeats(arrivals, j, k)
  {
    var table, l := IgnoreTable(arrivals[..k]), arrivals[k].frame.value;
    if Discarded(arrivals, k) {
      var i :| 0 <= i < |table| && table[i].data == l;
      TableIsRemembered(arrivals, k, table[i]);
      var j :| 0 <= j < k && RemembersEntry(arrivals, j, k, table[i]);
      assert Repeats(arrivals, j, k);
    }
    if j :| 0 <= j < k && Repeats(arrivals, j, k) {
      var e := IgnoreInfo(Key(arrivals[j].frame.value), arrivals[j].now + IGNORE_TIME);
      assert RemembersEntry(arrivals, j, k, e);
      TableIsRemembered(arrivals, k, e);
    }
  }

  /** With a clock that does not go back: a repetition within a second of a dispatched frame is discarded. */
  lemma PromptRepetitionDiscarded(arrivals: seq<Arrival>, j: nat, k: nat)
    requires Monotone(arrivals) && j < k < |arrivals| && Dispatched(arrivals, j)
    requires arrivals[k].frame == Some(arrivals[j].frame.value.(repeated := true))
    requires arrivals[k].now <= arrivals[j].now + 1000000
    ensures Discarded(arrivals, k)
  {
    DiscardedExactly(arrivals, k);
    assert Repeats(arrivals, j, k);
  }

  // Dispatch.

  /** The frame as the callbacks see it: not repeated, and with destination 0 for the driver's own address. */
  function Presented(l: LData, defaultAddr: word): LData {
    var l1 := l.(repeated := false);
    if !l1.isGroup && l1.dest == defaultAddr then l1.(dest := 0) else l1
  }

  function GroupMatch(l: LData): GroupInfo -> bool {
    (g: GroupInfo) => g.dest == l.dest || g.dest == 0
  }

  function IndividualMatch(l: LData): IndividualInfo -> bool {
    (e: IndividualInfo) => e.dest == l.dest && (e.src == l.source || e.src == 0)
  }

  function Calls(cbs: seq<Callback>, l: LData): seq<Delivery> {
    seq(|cbs|, i requires 0 <= i < |cbs| => Delivery(cbs[i], l))
  }

  function GroupCallbacks(s: seq<GroupInfo>): seq<Callback> {
    seq(|s|, i requires 0 <= i < |s| => s[i].cb)
  }

  function IndividualCallbacks(s: seq<IndividualInfo>): seq<Callback> {
    seq(|s|, i requires 0 <= i < |s| => s[i].cb)
  }

  /** The callbacks that a frame reaches. */
  function Targets(broadcast: seq<Callback>, group: seq<GroupInfo>, individual: seq<IndividualInfo>, l: LData)
    : seq<Callback>
  {
    if l.isGroup && l.dest == 0 then broadcast
    else if l.isGroup then GroupCallbacks(Filter(GroupMatch(l), group))
    else IndividualCallbacks(Filter(IndividualMatch(l), individual))
  }

  function Dispatch(broadcast: seq<Callback>, group: seq<GroupInfo>, individual: seq<IndividualInfo>, l: LData)
    : seq<Delivery>
  {
    Calls(Targets(broadcast, group, individual, l), l)
  }

  /** A callback registered for groups only, address 0 meaning all of them, is called with the frames to its groups and
      never with a broadcast, whose destination is 0. */
  lemma GroupCallbackFrames(broadcast: seq<Callback>, group: seq<GroupInfo>, individual: seq<IndividualInfo>,
                            l: LData, cb: Callback)
    requires cb !in broadcast && cb !in IndividualCallbacks(individual)
    ensures Delivery(cb, l) in Dispatch(broadcast, group, individual, l)
       <==> l.isGroup && l.dest != 0 && (GroupInfo(cb, l.dest) in group || GroupInfo(cb, 0) in group)
  {
    var calls := Targets(broadcast, group, individual, l);
    assert Delivery(cb, l) in Calls(calls, l) <==> cb in calls by {
      if cb in calls {
        var k :| 0 <= k < |calls| && calls[k] == cb;
        assert Calls(calls, l)[k] == Delivery(cb, l);
      }
    }
    if !l.isGroup {
      StillAmong(IndividualMatch(l), individual, cb);
    } else if l.dest != 0 {
      AmongGroups(Filter(GroupMatch(l), group), cb);
      FilterMember(GroupMatch(l), group, GroupInfo(cb, l.dest));
      FilterMember(GroupMatch(l), group, GroupInfo(cb, 0));
      forall g | g in Filter(GroupMatch(l), group) ensures g.dest == l.dest || g.dest == 0 {
        FilterMember(GroupMatch(l), group, g);
      }
    }
  }

  /** Who is called with what for a frame that arrives: the frame not repeated, for destination 0 if it was to the
      driver's own address; broadcasts go to the broadcast callbacks, group frames to those for the group or for all,
      and others to those for the destination and the source, or for the destination and every source. */
  lemma DispatchedExactly(broadcast: seq<Callback>, group: seq<GroupInfo>, individual: seq<IndividualInfo>,
                          l: LData, own: word, cb: Callback, m: LData)
    ensures Delivery(cb, m) in Dispatch(broadcast, group, individual, Presented(l, own))
       <==> && m == l.(repeated := false, dest := if !l.isGroup && l.dest == own then 0 else l.dest)
            && (|| (l.isGroup && l.dest == 0 && cb in broadcast)
                || (l.isGroup && l.dest != 0 && (GroupInfo(cb, l.dest) in group || GroupInfo(cb, 0) in group))
                || (!l.isGroup && exists e :: e in individual && e.cb == cb && e.dest == m.dest
                                              && (e.src == l.source || e.src == 0)))
  {
    var p := Presented(l, own);
    Called(Targets(broadcast, group, individual, p), p, cb, m);
    if p.isGroup && p.dest != 0 {
      AmongGroups(Filter(GroupMatch(p), group), cb);
      FilterMember(GroupMatch(p), group, GroupInfo(cb, p.dest));
      FilterMember(GroupMatch(p), group, GroupInfo(cb, 0));
      forall g | g in Filter(GroupMatch(p), group) ensures g.dest == p.dest || g.dest == 0 {
        FilterMember(GroupMatch(p), group, g);
      }
    } else if !p.isGroup {
      AmongIndividuals(Filter(IndividualMatch(p), individual), cb);
      forall e ensures e in Filter(IndividualMatch(p), individual)
                  <==> e in individual && e.dest == p.dest && (e.src == p.source || e.src == 0) {
        FilterMember(IndividualMatch(p), individual, e);
      }
    }
  }

  lemma Called(cbs: seq<Callback>, l: LData, cb: Callback, m: LData)
    ensures Delivery(cb, m) in Calls(cbs, l) <==> m == l && cb in cbs
  {
    if m == l && cb in cbs {
      var k :| 0 <= k < |cbs| && cbs[k] == cb;
      assert Calls(cbs, l)[k] == Delivery(cb, l);
    }
  }

  lemma AmongIndividuals(s: seq<IndividualInfo>, cb: Callback)
    ensures cb in IndividualCallbacks(s) <==> exists e :: e in s && e.cb == cb
  {
    if e :| e in s && e.cb == cb {
      var i :| 0 <= i < |s| && s[i] == e;
      assert IndividualCallbacks(s)[i] == cb;
    }
    if cb in IndividualCallbacks(s) {
      var i :| 0 <= i < |s| && IndividualCallbacks(s)[i] == cb;
      assert s[i].cb == cb;
    }
  }

  lemma StillAmong(p: IndividualInfo -> bool, s: seq<IndividualInfo>, cb: Callback)
    ensures cb in IndividualCallbacks(Filter(p, s)) ==> cb in IndividualCallbacks(s)
  {
    if cb in IndividualCallbacks(Filter(p, s)) {
      var e :| e in Filter(p, s) && e.cb == cb;
      FilterMember(p, s, e);
      var i :| 0 <= i < |s| && s[i] == e;
      assert IndividualCallbacks(s)[i] == cb;
    }
  }

  lemma AmongGroups(s: seq<GroupInfo>, cb: Callback)
    ensures cb in GroupCallbacks(s) <==> exists g :: g in s && g.cb == cb
  {
    if g :| g in s && g.cb == cb {
      var i :| 0 <= i < |s| && s[i] == g;
      assert GroupCallbacks(s)[i] == cb;
    }
    if cb in GroupCallbacks(s) {
      var i :| 0 <= i < |s| && GroupCallbacks(s)[i] == cb;
      assert s[i].cb == cb;
    }
  }

  // Registrations.

  function GroupDests(s: seq<GroupInfo>): set<word> {
    set g | g in s :: g.dest
  }

  function IndividualDests(s: seq<IndividualInfo>): set<word> {
    set e | e in s :: e.dest
  }

  /** The deletion of the deregister methods: the last entry takes the place. */
  function SwappedOut<T>(s: seq<T>, i: nat): seq<T>
    requires i < |s|
  {
    s[i := s[|s| - 1]][..|s| - 1]
  }

  lemma SwappedOutIsRemoval<T>(s: seq<T>, i: nat)
    requires i < |s|
    ensures multiset(SwappedOut(s, i)) == multiset(s) - multiset{s[i]}
    ensures forall x :: x in s <==> x in SwappedOut(s, i) || x == s[i]
  {
    var t := s[i := s[|s| - 1]];
    assert t == t[..|s| - 1] + [t[|s| - 1]];
    assert multiset(t) == multiset(s) - multiset{s[i]} + multiset{s[|s| - 1]};
    assert t[|s| - 1] == s[|s| - 1];
    assert multiset(SwappedOut(s, i)) == multiset(t) - multiset{s[|s| - 1]};
    forall x ensures x in s <==> x in SwappedOut(s, i) || x == s[i] {
      assert x in s <==> x in multiset(s);
      assert x in SwappedOut(s, i) <==> x in multiset(SwappedOut(s, i));
    }
  }

  /** No two connections hold a lock for the same source. */
  ghost predicate LocksDistinct(s: seq<IndividualInfo>) {
    forall i, j :: 0 <= i < j < |s| && s[i].lock.ConnectionLock? && s[j].lock.ConnectionLock? ==> s[i].src != s[j].src
  }

  class Layer3 {
    var mode: int
    var busmonitor: seq<Callback>
    var vbusmonitor: seq<Callback>
    var broadcast: seq<Callback>
    var group: seq<GroupInfo>
    var individual: seq<IndividualInfo>
    var ignore: seq<IgnoreInfo>
    /** the driver's tables and its address */
    const groupaddr: Table
    const indaddr: Table
    const defaultAddr: word
    /** the calls made */
    var delivered: seq<Delivery>

    ghost predicate Valid()
      reads this, groupaddr, indaddr
    {
      && groupaddr != indaddr && groupaddr.Valid() && indaddr.Valid()
      && groupaddr.Addresses() == GroupDests(group) - {0}
      && indaddr.Addresses() == (IndividualDests(individual) - {0}) + {defaultAddr}
      && (defaultAddr in IndividualDests(individual) ==> defaultAddr == 0)
      && (mode == 0 || mode == 1) && (mode == 1 <==> busmonitor != [])
      && (mode == 1 ==> individual == [] && group == [] && broadcast == [])
      && LocksDistinct(individual)
    }

    constructor (a: word)
      ensures Valid() && fresh(groupaddr) && fresh(indaddr) && defaultAddr == a
      ensures busmonitor == vbusmonitor == broadcast == [] && group == [] && individual == [] && ignore == []
    {
      mode, busmonitor, vbusmonitor, broadcast, group, individual := 0, [], [], [], [], [];
      ignore, delivered := [], [];
      groupaddr := new Table();
      indaddr := new Table();
      defaultAddr := a;
      new;
      var ok := indaddr.Add(a);
    }

    /** `entered` is the driver's answer to enterBusmonitor. */
    method RegisterBusmonitor(c: Callback, entered: bool) returns (ok: bool)
      requires Valid()
      modifies this`busmonitor, this`mode
      ensures Valid()
      ensures ok <==> individual == [] && group == [] && broadcast == [] && (old(mode) == 1 || entered)
      ensures busmonitor == old(busmonitor) + if ok then [c] else []
    {
      if individual != [] || group != [] || broadcast != [] {
        return false;
      }
      if mode == 0 && !entered {
        return false;
      }
      mode := 1;
      busmonitor := busmonitor + [c];
      return true;
    }

    method DeregisterBusmonitor(c: Callback) returns (ok: bool)
      requires Valid()
      modifies this`busmonitor, this`mode
      ensures Valid()
      ensures ok <==> c in old(busmonitor)
      ensures multiset(busmonitor) == multiset(old(busmonitor)) - if ok then multiset{c} else multiset{}
    {
      for i := 0 to |busmonitor|
        invariant c !in busmonitor[..i]
      {
        if busmonitor[i] == c {
          SwappedOutIsRemoval(busmonitor, i);
          busmonitor := SwappedOut(busmonitor, i);
          if busmonitor == [] {
            mode := 0;
          }
          return true;
        }
      }
      return false;
    }

    method RegisterBroadcastCallBack(c: Callback) returns (ok: bool)
      requires Valid()
      modifies this`broadcast
      ensures Valid()
      ensures ok <==> mode == 0
      ensures broadcast == old(broadcast) + if ok then [c] else []
    {
      if mode == 1 {
        return false;
      }
      broadcast := broadcast + [c];
      return true;
    }

    method DeregisterBroadcastCallBack(c: Callback) returns (ok: bool)
      requires Valid()
      modifies this`broadcast
      ensures Valid()
      ensures ok <==> c in old(broadcast)
      ensures multiset(broadcast) == multiset(old(broadcast)) - if ok then multiset{c} else multiset{}
    {
      for i := 0 to |broadcast|
        invariant c !in broadcast[..i]
      {
        if broadcast[i] == c {
          SwappedOutIsRemoval(broadcast, i);
          broadcast := SwappedOut(broadcast, i);
          return true;
        }
      }
      return false;
    }

    method GroupIsRegistered(addr: word) returns (found: bool)
      ensures found <==> addr in GroupDests(group)
    {
      for i := 0 to |group|
        invariant addr !in GroupDests(group[..i])
      {
        if group[i].dest == addr {
          return true;
        }
      }
      assert group[..|group|] == group;
      return false;
    }

    /** It fails in busmonitor mode only: the driver never refuses the address. */
    method RegisterGroupCallBack(c: Callback, addr: word) returns (ok: bool)
      requires Valid()
      modifies this`group, groupaddr
      ensures Valid()
      ensures ok <==> mode == 0
      ensures group == old(group) + if ok then [GroupInfo(c, addr)] else []
    {
      if mode == 1 {
        return false;
      }
      var found := GroupIsRegistered(addr);
      if !found && addr != 0 {
        var added := groupaddr.Add(addr);
        if !added {
          return false;
        }
      }
      group := group + [GroupInfo(c, addr)];
      return true;
    }

    method DeregisterGroupCallBack(c: Callback, addr: word) returns (ok: bool)
      requires Valid()
      modifies this`group, groupaddr
      ensures Valid()
      ensures ok <==> GroupInfo(c, addr) in old(group)
      ensures multiset(group) == multiset(old(group)) - if ok then multiset{GroupInfo(c, addr)} else multiset{}
    {
      for i := 0 to |group|
        invariant GroupInfo(c, addr) !in group[..i]
        invariant Valid() && group == old(group)
      {
        if group[i].cb == c && group[i].dest == addr {
          SwappedOutIsRemoval(group, i);
          group := SwappedOut(group, i);
          var found := GroupIsRegistered(addr);
          if !found && addr != 0 {
            var removed := groupaddr.Remove(addr);
          }
          return true;
        }
      }
      return false;
    }

    method IndividualIsRegistered(dest: word) returns (found: bool)
      ensures found <==> dest in IndividualDests(individual)
    {
      for i := 0 to |individual|
        invariant dest !in IndividualDests(individual[..i])
      {
        if individual[i].dest == dest {
          return true;
        }
      }
      assert individual[..|individual|] == individual;
      return false;
    }

    ghost predicate Locked(src: word)
      reads this
    {
      exists i :: 0 <= i < |individual| && individual[i].src == src && individual[i].lock.ConnectionLock?
    }

    /** It fails in busmonitor mode, for a locked source, and for the driver's own address by number. */
    method RegisterIndividualCallBack(c: Callback, lock: Lock, src: word, dest: word) returns (ok: bool)
      requires Valid()
      modifies this`individual, indaddr
      ensures Valid()
      ensures ok <==> mode == 0 && !(lock.ConnectionLock? && old(Locked(src))) && !(dest == defaultAddr && dest != 0)
      ensures individual == old(individual) + if ok then [IndividualInfo(c, src, dest, lock)] else []
    {
      if mode == 1 {
        return false;
      }
      for i := 0 to |individual|
        invariant lock.ConnectionLock? ==>
                    forall j :: 0 <= j < i ==> !(individual[j].src == src && individual[j].lock.ConnectionLock?)
      {
        if lock.ConnectionLock? && individual[i].src == src && individual[i].lock.ConnectionLock? {
          return false;
        }
      }
      var found := IndividualIsRegistered(dest);
      if !found && dest != 0 {
        var added := indaddr.Add(dest);
        if !added {
          return false;
        }
      }
      individual := individual + [IndividualInfo(c, src, dest, lock)];
      return true;
    }

    ghost predicate IsEntry(e: IndividualInfo, c: Callback, src: word, dest: word) {
      e.cb == c && e.src == src && e.dest == dest
    }

    method DeregisterIndividualCallBack(c: Callback, src: word, dest: word) returns (ok: bool)
      requires Valid()
      modifies this`individual, indaddr
      ensures Valid()
      ensures ok <==> exists e :: e in old(individual) && IsEntry(e, c, src, dest)
      ensures ok ==> exists e :: e in old(individual) && IsEntry(e, c, src, dest)
                         && multiset(individual) == multiset(old(individual)) - multiset{e}
      ensures !ok ==> individual == old(individual)
    {
      for i := 0 to |individual|
        invariant forall j :: 0 <= j < i ==> !IsEntry(individual[j], c, src, dest)
        invariant Valid() && individual == old(individual)
      {
        if individual[i].cb == c && individual[i].src == src && individual[i].dest == dest {
          assert IsEntry(old(individual)[i], c, src, dest);
          SwappedOutIsRemoval(individual, i);
          individual := SwappedOut(individual, i);
          var found := IndividualIsRegistered(dest);
          if !found && dest != 0 {
            var removed := indaddr.Remove(dest);
          }
          return true;
        }
      }
      return false;
    }

    /** The expiry loop: it starts again after each deletion, and ends with exactly the unexpired entries. */
    method Expire(now: int)
      modifies this`ignore
      ensures ignore == Filter(Alive(now), old(ignore))
    {
      var i := 0;
      while i < |ignore|
        invariant 0 <= i <= |ignore|
        invariant Filter(Alive(now), ignore) == Filter(Alive(now), old(ignore))
        invariant Filter(Alive(now), ignore[..i]) == ignore[..i]
        decreases |ignore|, |ignore| - i
      {
        if ignore[i].end < now {
          Dropped(Alive(now), ignore, i);
          ignore := ignore[..i] + ignore[i + 1..];
          i := 0;
        } else {
          FilterNext(Alive(now), ignore, i);
          i := i + 1;
        }
      }
      assert ignore[..i] == ignore;
    }

    method DeliverBroadcast(l: LData)
      modifies this`delivered
      ensures delivered == old(delivered) + Calls(broadcast, l)
    {
      for i := 0 to |broadcast|
        invariant delivered == old(delivered) + Calls(broadcast[..i], l)
      {
        delivered := delivered + [Delivery(broadcast[i], l)];
      }
      assert broadcast[..|broadcast|] == broadcast;
    }

    method DeliverGroup(l: LData)
      modifies this`delivered
      ensures delivered == old(delivered) + Calls(GroupCallbacks(Filter(GroupMatch(l), group)), l)
    {
      for i := 0 to |group|
        invariant delivered == old(delivered) + Calls(GroupCallbacks(Filter(GroupMatch(l), group[..i])), l)
      {
        FilterNext(GroupMatch(l), group, i);
        if group[i].dest == l.dest || group[i].dest == 0 {
          delivered := delivered + [Delivery(group[i].cb, l)];
        }
      }
      assert group[..|group|] == group;
    }

    method DeliverIndividual(l: LData)
      modifies this`delivered
      ensures delivered == old(delivered) + Calls(IndividualCallbacks(Filter(IndividualMatch(l), individual)), l)
    {
      for i := 0 to |individual|
        invariant delivered
               == old(delivered) + Calls(IndividualCallbacks(Filter(IndividualMatch(l), individual[..i])), l)
      {
        FilterNext(IndividualMatch(l), individual, i);
        if individual[i].dest == l.dest && (individual[i].src == l.source || individual[i].src == 0) {
          delivered := delivered + [Delivery(individual[i].cb, l)];
        }
      }
      assert individual[..|individual|] == individual;
    }

    method IsIgnored(l: LData) returns (r: bool)
      ensures r == Ignored(ignore, l)
    {
      if l.repeated {
        for i := 0 to |ignore|
          invariant forall j :: 0 <= j < i ==> ignore[j].data != l
        {
          if ignore[i].data == l {
            return true;
          }
        }
      }
      return false;
    }

    /** A busmonitor frame in Run, given to all monitors; `calls` are the callbacks in the order of the calls. */
    method ReceiveMonitor(now: int) returns (calls: seq<Callback>)
      modifies this`ignore
      ensures ignore == IgnoreAfter(old(ignore), None, now)
      ensures calls == busmonitor + vbusmonitor
    {
      calls := [];
      for i := 0 to |busmonitor|
        invariant calls == busmonitor[..i]
      {
        calls := calls + [busmonitor[i]];
      }
      for i := 0 to |vbusmonitor|
        invariant calls == busmonitor + vbusmonitor[..i]
      {
        calls := calls + [vbusmonitor[i]];
      }
      Expire(now);
    }

    /** A data frame in Run: discarded as a repetition, or presented once to each matching registration. */
    method Receive(l: LData, now: int)
      modifies this`ignore, this`delivered
      ensures ignore == IgnoreAfter(old(ignore), Some(l), now)
      ensures delivered == old(delivered) + if Ignored(old(ignore), l) then []
                                            else Dispatch(broadcast, group, individual, Presented(l, defaultAddr))
    {
      var repetition := IsIgnored(l);
      if repetition {
        return;
      }
      ignore := ignore + [IgnoreInfo(l.(repeated := true), now + IGNORE_TIME)];
      var l1 := l.(repeated := false);
      if !l1.isGroup && l1.dest == defaultAddr {
        l1 := l1.(dest := 0);
      }
      if l1.isGroup && l1.dest == 0 {
        DeliverBroadcast(l1);
      }
      if l1.isGroup && l1.dest != 0 {
        DeliverGroup(l1);
      }
      if !l1.isGroup {
        DeliverIndividual(l1);
      }
      Expire(now);
    }
  }

  lemma Dropped<T>(p: T -> bool, s: seq<T>, i: nat)
    requires i < |s| && !p(s[i])
    ensures Filter(p, s[..i] + s[i + 1..]) == Filter(p, s)
  {
    var a, b := s[..i], s[i + 1..];
    assert s == a + ([s[i]] + b);
    FilterAppend(p, a, [s[i]] + b);
    FilterAppend(p, a, b);
    FilterFirst(p, s[i], b);
  }

  lemma FilterFirst<T>(p: T -> bool, x: T, s: seq<T>)
    requires !p(x)
    ensures Filter(p, [x] + s) == Filter(p, s)
  {
    assert ([x] + s)[1..] == s;
    assert [] + Filter(p, s) == Filter(p, s);
  }
}
