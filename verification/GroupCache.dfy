/**
 * The group cache (eibd/libserver/groupcache.cpp): the last value of each group address in a sorted array, and
 * the ring of recent updates.
 */
module GroupCache {
  import opened Bytes
  import opened UpdateRing
  import Apdu
  import Emi
  import Tpdu

  datatype Entry = Entry(data: seq<byte>, src: word, dst: word, recvtime: int)

  /** What Read returns: an entry; the placeholder with source 0, whose time is not set; or nothing yet, so that
      it goes on waiting. */
  datatype Reply = Found(entry: Entry) | Absent(dst: word) | Wait

  predicate Sorted(s: seq<Entry>) {
    forall i, j :: 0 <= i < j < |s| ==> s[i].dst < s[j].dst
  }

  /** The array holds the map's entries and nothing else. */
  ghost predicate Represents(s: seq<Entry>, m: map<word, Entry>) {
    && (forall e :: e in s ==> e.dst in m && m[e.dst] == e)
    && (forall d :: d in m ==> m[d] in s && m[d].dst == d)
  }

  lemma EmptyMap(s: seq<Entry>, m: map<word, Entry>)
    requires Represents(s, m)
    ensures s == [] <==> m == map[]
  {
    if m != map[] {
      var d :| d in m;
      assert m[d] in s;
    }
    if s != [] {
      assert s[0] in s;
    }
  }

  lemma DropLast(s: seq<Entry>, m: map<word, Entry>)
    requires Sorted(s) && Represents(s, m) && s != []
    ensures Sorted(s[..|s| - 1]) && Represents(s[..|s| - 1], m - {s[|s| - 1].dst})
  {
    RemoveAt(s, m, |s| - 1);
    assert s[..|s| - 1] + s[|s|..] == s[..|s| - 1];
  }

  lemma LastIsLargest(s: seq<Entry>, e: Entry)
    requires Sorted(s) && e in s
    ensures e.dst <= s[|s| - 1].dst
  {
  }

  /** The array is determined by the map. */
  lemma {:induction false} Canonical(a: seq<Entry>, b: seq<Entry>, m: map<word, Entry>)
    requires Sorted(a) && Sorted(b) && Represents(a, m) && Represents(b, m)
    ensures a == b
    decreases |a|
  {
    EmptyMap(a, m);
    EmptyMap(b, m);
    if a != [] {
      var m' := m - {a[|a| - 1].dst};
      SameLast(a, b, m);
      DropLast(a, m);
      DropLast(b, m);
      Canonical(a[..|a| - 1], b[..|b| - 1], m');
      SameAll(a, b);
    }
  }

  lemma SameAll(a: seq<Entry>, b: seq<Entry>)
    requires a != [] && b != [] && a[..|a| - 1] == b[..|b| - 1] && a[|a| - 1] == b[|b| - 1]
    ensures a == b
  {
    assert a == a[..|a| - 1] + [a[|a| - 1]] && b == b[..|b| - 1] + [b[|b| - 1]];
  }

  lemma SameLast(a: seq<Entry>, b: seq<Entry>, m: map<word, Entry>)
    requires Sorted(a) && Sorted(b) && Represents(a, m) && Represents(b, m) && a != [] && b != []
    ensures a[|a| - 1] == b[|b| - 1]
  {
    var x, y := a[|a| - 1], b[|b| - 1];
    assert x in a && y in b;
    assert m[x.dst] in b && m[y.dst] in a;
    LastIsLargest(b, x);
    LastIsLargest(a, y);
  }

  // The history of one address, as a reader of the cache sees it.

  datatype Event =
    | Received(entry: Entry)
    | TimedOut(addr: word, time: int)
    | Removed(addr: word)
    | Cleared

  lemma RunNext(events: seq<Event>, ev: Event)
    ensures Run(events + [ev]) == Apply(Run(events), ev)
  {
    assert (events + [ev])[..|events|] == events;
  }

  function Placeholder(addr: word, time: int): Entry {
    Entry([], 0, addr, time)
  }

  function Apply(m: map<word, Entry>, ev: Event): map<word, Entry> {
    match ev
    case Received(e) => m[e.dst := e]
    case TimedOut(a, time) => if a in m then m else m[a := Placeholder(a, time)]
    case Removed(a) => m - {a}
    case Cleared => map[]
  }

  function Run(events: seq<Event>): map<word, Entry> {
    if events == [] then map[] else Apply(Run(events[..|events| - 1]), events[|events| - 1])
  }

  /** Looking back from the end: the newest received entry for the address since it was last removed, and before
      any was received, the placeholder of the first timeout. */
  function Latest(events: seq<Event>, a: word): Option<Entry> {
    if events == [] then None
    else
      var before := Latest(events[..|events| - 1], a);
      match events[|events| - 1]
      case Received(e) => if e.dst == a then Some(e) else before
      case TimedOut(b, time) => if b == a && before == None then Some(Placeholder(a, time)) else before
      case Removed(b) => if b == a then None else before
      case Cleared => None
  }

  lemma {:induction false} LookupIsLatest(events: seq<Event>, a: word)
    ensures Latest(events, a) == if a in Run(events) then Some(Run(events)[a]) else None
    ensures a in Run(events) ==> Run(events)[a].dst == a
  {
    if events != [] {
      LookupIsLatest(events[..|events| - 1], a);
    }
  }

  /** The packets of the two services are unconnected data, and are read as the same service. */
  lemma GroupValuesRead()
    ensures forall v :: Apdu.Encodable(v) ==>
              var d, w := Apdu.ToPacket(v), Apdu.FromPacket(Apdu.ToPacket(v));
              d != [] && d[0] == 0 && (w.GroupRead? <==> v.GroupRead?) && !w.Other?
  {
    forall v | Apdu.Encodable(v)
      ensures var d, w := Apdu.ToPacket(v), Apdu.FromPacket(Apdu.ToPacket(v));
              d != [] && d[0] == 0 && (w.GroupRead? <==> v.GroupRead?) && !w.Other?
    {
      Apdu.RoundTrip(v);
    }
  }

  /** What a reader finds right after a value has come. */
  lemma JustReceived(events: seq<Event>, e: Entry)
    ensures Latest(events + [Received(e)], e.dst) == Some(e)
  {
    assert (events + [Received(e)])[..|events|] == events;
  }

  class GroupCache {
    var cache: seq<Entry>
    var enable: bool
    var pos: word
    const updates: array<word>
    /** the events so far, and all destinations ever noted */
    ghost var events: seq<Event>
    ghost var history: seq<word>

    ghost predicate Valid()
      reads this, updates
    {
      && Sorted(cache) && Represents(cache, Run(events))
      && updates.Length == 256 && Holds(updates[..], history) && pos == Cursor(history) && 0 !in history
    }

    constructor ()
      ensures Valid() && fresh(updates) && !enable && events == [] && history == []
    {
      cache, enable, pos := [], false, 0;
      updates := new word[256](_ => 0);
      events, history := [], [];
    }

    /** find: binary search */
    method Find(dst: word) returns (r: Option<nat>)
      requires Valid()
      ensures r.None? ==> dst !in Run(events)
      ensures r.Some? ==> r.value < |cache| && dst in Run(events) && cache[r.value] == Run(events)[dst]
    {
      var l, h := 0, |cache| - 1;
      while l <= h
        invariant 0 <= l <= h + 1 <= |cache|
        invariant forall i :: 0 <= i < l ==> cache[i].dst < dst
        invariant forall i :: h < i < |cache| ==> dst < cache[i].dst
        decreases h - l
      {
        var p := (l + h) / 2;
        if cache[p].dst == dst {
          return Some(p);
        }
        if dst > cache[p].dst {
          l := p + 1;
        } else {
          h := p - 1;
        }
      }
      return None;
    }

    /** remove: the search again, and the entry taken out of the array */
    method Remove(addr: word)
      requires Valid()
      modifies this`cache, this`events
      ensures Valid() && events == old(events) + [Removed(addr)]
    {
      var r := Find(addr);
      RunNext(events, Removed(addr));
      ghost var m := Run(events);
      if r.Some? {
        RemoveAt(cache, m, r.value);
        cache := WithoutEntry(cache, r.value);
      } else {
        assert m - {addr} == m;
      }
      events := events + [Removed(addr)];
    }

    /** add: the array grows by one, and larger entries move up to make room. */
    method Add(entry: Entry)
      requires Sorted(cache) && forall i :: 0 <= i < |cache| ==> cache[i].dst != entry.dst
      modifies this`cache
      ensures Sorted(cache) && exists p :: 0 <= p <= |old(cache)| && cache == Inserted(old(cache), p, entry)
    {
      var c := Insert(cache, entry);
      cache := c;
    }

    /** Get_L_Data; the cache takes over the value, and the destination goes into the ring. Layer 3 calls it for group
        frames that are no broadcasts. */
    method GetLData(l: Emi.LData, now: int)
      requires Valid() && l.isGroup && l.dest != 0
      modifies this`cache, this`pos, this`events, this`history, updates
      ensures Valid()
      // every response and write of a group value is stored and noted, and no read
      ensures forall v :: enable && Apdu.Encodable(v) && !v.GroupRead? && l.data == Apdu.ToPacket(v) ==>
                && events == old(events) + [Received(Entry(l.data, l.source, l.dest, now))]
                && history == old(history) + [l.dest]
      ensures l.data == Apdu.ToPacket(Apdu.GroupRead) ==>
                cache == old(cache) && events == old(events) && history == old(history)
      // of all frames, those that are read as one of the two
      ensures var v := Apdu.FromPacket(l.data);
              if enable && l.data != [] && l.data[0] < 4 && (v.GroupResponse? || v.GroupWrite?)
              then && events == old(events) + [Received(Entry(l.data, l.source, l.dest, now))]
                   && history == old(history) + [l.dest]
              else cache == old(cache) && events == old(events) && history == old(history)
    {
      GroupValuesRead();
      if enable {
        var t := Tpdu.FromPacket(l.data);
        if t.DataUnconnected? {
          if |t.data| >= 2 && t.data[0] % 4 == 0 && (t.data[1] / 64 == 1 || t.data[1] / 64 == 2) {
            Note(l.dest);
            Store(Entry(t.data, l.source, l.dest, now));
          }
        }
      }
    }

    /** The entry for its address is overwritten, or added. */
    method Store(e: Entry)
      requires Valid()
      modifies this`cache, this`events
      ensures Valid() && events == old(events) + [Received(e)]
    {
      var c := Find(e.dst);
      ghost var m := Run(events);
      RunNext(events, Received(e));
      events := events + [Received(e)];
      if c.Some? {
        ReplaceAt(cache, m, c.value, e);
        cache := cache[c.value := e];
      } else {
        ghost var before := cache;
        Add(e);
        InsertedRepresents(before, m, cache, e);
      }
    }

    /** The destination goes into the ring, at the position's low byte. */
    method Note(dest: word)
      requires updates.Length == 256 && Holds(updates[..], history) && pos == Cursor(history)
      modifies this`pos, this`history, updates
      ensures Holds(updates[..], history) && pos == Cursor(history) && history == old(history) + [dest]
    {
      ghost var ring := updates[..];
      HoldsAppend(ring, history, dest);
      CursorNext(history, dest);
      updates[pos % 256] := dest;
      assert updates[..] == ring[pos % 256 := dest];
      pos := (pos + 1) % 0x10000;
      history := history + [dest];
    }

    method Start(registered: bool) returns (ok: bool)
      modifies this`enable
      ensures ok == (old(enable) || registered) && enable == ok
    {
      if !enable && !registered {
        return false;
      }
      enable := true;
      return true;
    }

    method Clear()
      requires Valid()
      modifies this`cache, this`events
      ensures Valid() && cache == [] && events == old(events) + [Cleared]
    {
      RunNext(events, Cleared);
      cache := [];
      events := events + [Cleared];
    }

    /** The result says whether the callback is deregistered. */
    method Stop() returns (deregister: bool)
      requires Valid()
      modifies this`cache, this`events, this`enable
      ensures Valid() && cache == [] && !enable && events == old(events) + [Cleared]
      ensures deregister == old(enable)
    {
      Clear();
      deregister := enable;
      enable := false;
    }

    /** The lookup of Read: what it answers at once; or it sends a read request for the address and waits. */
    method Lookup(addr: word, timeout: nat, age: word, now: int) returns (r: Reply, query: Option<Emi.LData>)
      requires Valid()
      ensures !enable ==> r == Absent(0)
      ensures enable ==> r == match Latest(events, addr)
                              case Some(e) => if age == 0 || e.recvtime + age >= now then Found(e)
                                              else if timeout == 0 then Absent(addr) else Wait
                              case None => if timeout == 0 then Absent(addr) else Wait
      ensures r.Found? ==> r.entry.dst == addr && (age != 0 ==> r.entry.recvtime + age >= now)
      ensures query == if r.Wait?
                       then Some(Emi.LData(Emi.Low, false, true, 0, addr, 7, Apdu.ToPacket(Apdu.GroupRead)))
                       else None
    {
      query := None;
      if !enable {
        return Absent(0), query;
      }
      var c := Find(addr);
      LookupIsLatest(events, addr);
      if c.Some? && !(age != 0 && cache[c.value].recvtime + age < now) {
        return Found(cache[c.value]), query;
      }
      if timeout == 0 {
        return Absent(addr), query;
      }
      query := Some(Emi.LData(Emi.Low, false, true, 0, addr, 7, [0, 0]));
      return Wait, query;
    }

    /** A turn of Read's waiting loop; `expired` says that the reader's time is up. With no entry at all by then,
        the placeholder is stored. */
    method Await(addr: word, age: word, now: int, expired: bool) returns (r: Reply)
      requires Valid()
      modifies this`cache, this`events
      ensures Valid()
      ensures match Latest(old(events), addr)
              case Some(e) =>
                && events == old(events) && cache == old(cache)
                && r == if age == 0 || e.recvtime + age >= now then Found(e)
                        else if expired then Absent(addr) else Wait
              case None =>
                && r == (if expired then Found(Entry([], 0, addr, now)) else Wait)
                && events == if expired then old(events) + [TimedOut(addr, now)] else old(events)
      ensures r.Found? ==> r.entry.dst == addr && (age != 0 ==> r.entry.recvtime + age >= now)
    {
      var c := Find(addr);
      LookupIsLatest(events, addr);
      if c.Some? && !(age != 0 && cache[c.value].recvtime + age < now) {
        return Found(cache[c.value]);
      }
      if expired && c.Some? {
        return Absent(addr);
      }
      if expired {
        var e := Placeholder(addr, now);
        ghost var m, before := Run(events), cache;
        RunNext(events, TimedOut(addr, now));
        events := events + [TimedOut(addr, now)];
        Add(e);
        InsertedRepresents(before, m, cache, e);
        return Found(e);
      }
      return Wait;
    }

    /** The start of a pass: a cursor that is out of the ring's reach is moved up to it. */
    method Clamp(start: word) returns (s: word)
      ensures s == Clamped(pos, start)
    {
      s := start;
      if pos < 0x100 {
        if pos < s < (pos - 0x100) % 0x10000 {
          s := (pos - 0x100) % 0x10000;
        }
      } else if s < (pos - 0x100) % 0x10000 || s > pos {
        s := (pos - 0x100) % 0x10000;
      }
    }

    method SkipEmpty(start: word) returns (s: word)
      requires Valid() && Behind(pos, start) <= 256
      ensures Behind(pos, s) <= 256
      ensures NonZero(Slots(updates[..], pos, Behind(pos, s))) == NonZero(Slots(updates[..], pos, Behind(pos, start)))
    {
      s := start;
      while s != pos && updates[s % 256] == 0
        invariant Behind(pos, s) <= 256
        invariant NonZero(Slots(updates[..], pos, Behind(pos, s)))
               == NonZero(Slots(updates[..], pos, Behind(pos, start)))
        decreases Behind(pos, s)
      {
        SlotStep(updates[..], pos, s);
        s := Next(s);
      }
    }

    method Collect(start: word) returns (a: seq<word>)
      requires Valid() && Behind(pos, start) <= 256
      ensures a == NonZero(Slots(updates[..], pos, Behind(pos, start)))
    {
      a := [];
      var s := start;
      while s != pos
        invariant Behind(pos, s) <= 256
        invariant NonZero(Slots(updates[..], pos, Behind(pos, start)))
               == a + NonZero(Slots(updates[..], pos, Behind(pos, s)))
        decreases Behind(pos, s)
      {
        SlotStep(updates[..], pos, s);
        if updates[s % 256] != 0 {
          a := a + [updates[s % 256]];
        }
        s := Next(s);
      }
    }

    /** A pass of LastUpdates: the updates since the cursor, if there are any, and the cursor for the next call. If
        there are none, the cursor is at the end, and waiting goes on from there. */
    method LastUpdates(start: word) returns (a: seq<word>, end: word)
      requires Valid()
      ensures a == Since(history, start) && end == Cursor(history)
      // the cursor of an earlier call, at most 256 updates ago
      ensures forall k :: 0 <= k <= |history| <= k + 256 && start == Cursor(history[..k]) ==> a == history[k..]
    {
      forall k | 0 <= k <= |history| <= k + 256 ensures Since(history, Cursor(history[..k])) == history[k..] {
        assert history == history[..k] + history[k..];
        ExactUpTo256(history[..k], history[k..]);
      }
      var s := Clamp(start);
      ClampedBehind(pos, start);
      SlotsAreNewest(updates[..], history, Behind(pos, s));
      s := SkipEmpty(s);
      a := Collect(s);
      end := pos;
    }
  }

  function Inserted(s: seq<Entry>, p: nat, e: Entry): seq<Entry>
    requires p <= |s|
  {
    s[..p] + [e] + s[p..]
  }

  /** The loop of add. */
  method Insert(s: seq<Entry>, entry: Entry) returns (c: seq<Entry>)
    requires Sorted(s) && forall i :: 0 <= i < |s| ==> s[i].dst != entry.dst
    ensures Sorted(c) && exists p :: 0 <= p <= |s| && c == Inserted(s, p, entry)
  {
    c := s + [entry];
    var p := |s|;
    assert c == Inserted(s, p, entry);
    while p > 0 && c[p - 1].dst > entry.dst
      invariant 0 <= p <= |s| && p < |c| && c == Inserted(s, p, c[p])
      invariant p < |s| ==> entry.dst < s[p].dst
    {
      ShiftUp(s, p, c[p]);
      c := c[p := c[p - 1]];
      p := p - 1;
    }
    InsertedParts(s, p, c[p]);
    c := c[p := entry];
    InsertedParts(s, p, entry);
    InsertedSorted(s, p, entry);
  }

  lemma InsertedParts(s: seq<Entry>, p: nat, x: Entry)
    requires p <= |s|
    ensures p > 0 ==> Inserted(s, p, x)[p - 1] == s[p - 1]
    ensures forall e :: Inserted(s, p, x)[p := e] == Inserted(s, p, e)
  {
  }

  lemma ShiftUp(s: seq<Entry>, p: nat, x: Entry)
    requires 0 < p <= |s|
    ensures Inserted(s, p, x)[p - 1] == s[p - 1]
    ensures Inserted(s, p, x)[p := s[p - 1]] == Inserted(s, p - 1, s[p - 1])
  {
  }

  lemma InsertedSorted(s: seq<Entry>, p: nat, e: Entry)
    requires Sorted(s) && p <= |s|
    requires p > 0 ==> s[p - 1].dst < e.dst
    requires p < |s| ==> e.dst < s[p].dst
    ensures Sorted(Inserted(s, p, e))
  {
  }

  lemma InsertedRepresents(s: seq<Entry>, m: map<word, Entry>, t: seq<Entry>, e: Entry)
    requires Represents(s, m) && e.dst !in m
    requires exists p :: 0 <= p <= |s| && t == Inserted(s, p, e)
    ensures Represents(t, m[e.dst := e])
  {
    var p :| 0 <= p <= |s| && t == Inserted(s, p, e);
    assert s == s[..p] + s[p..];
  }

  lemma ReplaceAt(s: seq<Entry>, m: map<word, Entry>, p: nat, e: Entry)
    requires Sorted(s) && Represents(s, m) && p < |s| && s[p].dst == e.dst
    ensures Sorted(s[p := e]) && Represents(s[p := e], m[e.dst := e])
  {
    var t := s[p := e];
    assert t[p] == e;
    forall d | d in m && d != e.dst ensures m[d] in t {
      var i :| 0 <= i < |s| && s[i] == m[d];
      assert t[i] == m[d];
    }
  }

  lemma Split(s: seq<Entry>, p: nat)
    requires Sorted(s) && p < |s|
    ensures forall e :: e in s <==> e == s[p] || e in s[..p] + s[p + 1..]
    ensures forall e :: e in s[..p] + s[p + 1..] ==> e.dst != s[p].dst
    ensures Sorted(s[..p] + s[p + 1..])
  {
    assert s == s[..p] + [s[p]] + s[p + 1..];
    var t := s[..p] + s[p + 1..];
    assert forall i :: 0 <= i < |t| ==> t[i] == s[if i < p then i else i + 1];
  }

  function WithoutEntry(s: seq<Entry>, p: nat): seq<Entry>
    requires p < |s|
  {
    s[..p] + s[p + 1..]
  }

  lemma RemoveAt(s: seq<Entry>, m: map<word, Entry>, p: nat)
    requires Sorted(s) && Represents(s, m) && p < |s|
    ensures Sorted(WithoutEntry(s, p)) && Represents(WithoutEntry(s, p), m - {s[p].dst})
  {
    Split(s, p);
    var t, m' := s[..p] + s[p + 1..], m - {s[p].dst};
    assert forall e :: e in t ==> e in s && e.dst in m';
  }

  function Next(s: word): word {
    if s == 0xFFFF then 0 else s + 1
  }

  function Clamped(pos: word, start: word): word {
    if (if pos < 0x100 then pos < start < (pos - 0x100) % 0x10000
        else start < (pos - 0x100) % 0x10000 || start > pos)
    then (pos - 0x100) % 0x10000
    else start
  }

  /** The adjustment leaves the cursor min(distance, 256) behind. */
  lemma ClampedBehind(pos: word, start: word)
    ensures Behind(pos, Clamped(pos, start)) == Min256(Behind(pos, start))
  {
  }

  lemma SlotStep(ring: seq<word>, pos: word, s: word)
    requires |ring| == 256 && s != pos
    ensures Behind(pos, s) > 0 && Behind(pos, Next(s)) == Behind(pos, s) - 1
    ensures NonZero(Slots(ring, pos, Behind(pos, s)))
         == (if ring[s % 256] != 0 then [ring[s % 256]] else []) + NonZero(Slots(ring, pos, Behind(pos, Next(s))))
  {
    var d := Behind(pos, s);
    Mod256(pos as int - d, s, if s < pos then 0 else -256);
    NonZeroStep(ring[s % 256], Slots(ring, pos, d - 1));
  }
}
