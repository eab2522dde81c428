/**
 * The update history of the group cache (eibd/libserver/groupcache.cpp): the last 256 destinations in a ring,
 * and readers that keep a 16-bit cursor between calls.
 */
module UpdateRing {
  import opened Bytes

  function NonZero(s: seq<word>): seq<word> {
    if s == [] then [] else (if s[0] != 0 then [s[0]] else []) + NonZero(s[1..])
  }

  /** The last d elements, or all of them if there are fewer. */
  function Newest(h: seq<word>, d: nat): seq<word> {
    if d < |h| then h[|h| - d..] else h
  }

  /** The cursor that a call returns when the whole history is h. */
  function Cursor(h: seq<word>): word {
    |h| % 0x10000
  }

  /** How far a cursor is behind the writer: their difference, in 16 bits. */
  function Behind(pos: word, s: word): nat {
    if s <= pos then pos - s else pos as int - s + 0x10000
  }

  function Min256(k: nat): nat {
    if k < 256 then k else 256
  }

  /** What a reader with this cursor gets when the whole history is h. */
  function Since(h: seq<word>, cursor: word): seq<word> {
    NonZero(Newest(h, Min256(Behind(Cursor(h), cursor))))
  }

  /** The ring holds the history: the newest 256 updates, each in its slot, and 0 where there was none yet. */
  ghost predicate Holds(ring: seq<word>, h: seq<word>) {
    && |ring| == 256
    && (forall i :: 0 <= i < |h| && |h| - 256 <= i ==> ring[i % 256] == h[i])
    && (forall j :: |h| <= j < 256 ==> ring[j] == 0)
  }

  lemma DifferentSlots(i: nat, n: nat)
    requires n - 256 < i < n
    ensures i % 256 != n % 256 == n % 0x10000 % 256
  {
    Mod256(n, n % 0x10000, 256 * (n / 0x10000));
    assert n - i == 256 * (n / 256 - i / 256) + (n % 256 - i % 256);
  }

  lemma HoldsAppend(ring: seq<word>, h: seq<word>, x: word)
    requires Holds(ring, h)
    ensures Holds(ring[Cursor(h) % 256 := x], h + [x])
  {
    var h', ring' := h + [x], ring[Cursor(h) % 256 := x];
    forall i | 0 <= i < |h'| && |h'| - 256 <= i ensures ring'[i % 256] == h'[i] {
      if i < |h| {
        DifferentSlots(i, |h|);
      } else {
        SameSlot(|h|);
      }
    }
    forall j | |h'| <= j < 256 ensures ring'[j] == 0 {
    }
  }

  lemma SameSlot(n: nat)
    ensures n % 256 == n % 0x10000 % 256
  {
    Mod256(n, n % 0x10000, 256 * (n / 0x10000));
  }

  /** The index of the slot d before the writer's position. */
  function Slot(pos: word, d: nat): byte {
    (pos as int - d) % 256
  }

  lemma CursorNext(h: seq<word>, x: word)
    ensures Cursor(h + [x]) == (Cursor(h) + 1) % 0x10000
  {
  }

  /** The d slots before the writer's position. */
  function Slots(ring: seq<word>, pos: word, d: nat): seq<word>
    requires |ring| == 256
  {
    if d == 0 then [] else [ring[Slot(pos, d)]] + Slots(ring, pos, d - 1)
  }

  lemma Mod256(a: int, b: int, k: int)
    requires a == b + 256 * k
    ensures a % 256 == b % 256
  {
    assert a / 256 == b / 256 + k;
  }

  lemma SlotIndex(n: nat, d: nat)
    requires d <= 256
    ensures Slot(n % 0x10000, d) == if d <= n then (n - d) % 256 else 256 + n - d
  {
    var q := n / 0x10000;
    Mod256(n - d, n % 0x10000 - d, 256 * q);
  }

  lemma NewestStep(h: seq<word>, d: nat)
    requires d > 0
    ensures Newest(h, d) == if d <= |h| then [h[|h| - d]] + Newest(h, d - 1) else Newest(h, d - 1)
  {
    if d <= |h| {
      assert h == h[..|h| - d] + [h[|h| - d]] + h[|h| - (d - 1)..];
    }
  }

  lemma NonZeroStep(x: word, s: seq<word>)
    ensures NonZero([x] + s) == (if x != 0 then [x] else []) + NonZero(s)
  {
    assert ([x] + s)[1..] == s;
  }

  lemma {:induction false} SlotsAreNewest(ring: seq<word>, h: seq<word>, d: nat)
    requires Holds(ring, h) && d <= 256
    ensures NonZero(Slots(ring, Cursor(h), d)) == NonZero(Newest(h, d))
  {
    if d > 0 {
      SlotsAreNewest(ring, h, d - 1);
      SlotIndex(|h|, d);
      NewestStep(h, d);
      var x := ring[Slot(Cursor(h), d)];
      NonZeroStep(x, Slots(ring, Cursor(h), d - 1));
      if d <= |h| {
        assert x == h[|h| - d];
        NonZeroStep(x, Newest(h, d - 1));
      }
    }
  }

  lemma {:induction false} NonZeroAll(s: seq<word>)
    requires 0 !in s
    ensures NonZero(s) == s
  {
    if s != [] {
      assert s == [s[0]] + s[1..];
      NonZeroAll(s[1..]);
    }
  }

  lemma Distance(h: seq<word>, since: seq<word>)
    ensures Behind(Cursor(h + since), Cursor(h)) == |since| % 0x10000
  {
    var n, m := |h|, |since|;
    var c := n % 0x10000 + m % 0x10000;
    assert n + m == c + 0x10000 * (n / 0x10000 + m / 0x10000);
    assert (n + m) % 0x10000 == if c < 0x10000 then c else c - 0x10000;
  }

  lemma NewestOfLonger(h: seq<word>, since: seq<word>, d: nat)
    requires d <= |since|
    ensures Newest(h + since, d) == since[|since| - d..]
  {
  }

  /** With the cursor of an earlier call, a call yields exactly the updates since then, in order, if and only if
      there are at most 256 of them. */
  lemma ExactUpTo256(h: seq<word>, since: seq<word>)
    requires 0 !in h && 0 !in since
    ensures Since(h + since, Cursor(h)) == since <==> |since| <= 256
  {
    Distance(h, since);
    var d := Min256(|since| % 0x10000);
    NewestOfLonger(h, since, d);
    assert since[0..] == since;
    NonZeroAll(since[|since| - d..]);
  }

  /** If there are more, but a 16-bit counter can still count them, it yields exactly the newest 256. */
  lemma NewestBeyond256(h: seq<word>, since: seq<word>)
    requires 0 !in h && 0 !in since && 256 < |since| < 0x10000
    ensures Since(h + since, Cursor(h)) == since[|since| - 256..]
  {
    Distance(h, since);
    assert Behind(Cursor(h + since), Cursor(h)) == |since|;
    NewestOfLonger(h, since, 256);
    NonZeroAll(since[|since| - 256..]);
  }

  /** What a reader collects that calls again after each batch of updates, with the cursor it was given. */
  function Collected(h: seq<word>, batches: seq<seq<word>>): seq<word>
    decreases |batches|
  {
    if batches == [] then []
    else Since(h + batches[0], Cursor(h)) + Collected(h + batches[0], batches[1..])
  }

  /** If no batch is longer than 256, the calls together yield the whole history, however often the counters
      wrap. */
  lemma {:induction false} ChainedCalls(h: seq<word>, batches: seq<seq<word>>)
    requires 0 !in h && forall b :: b in batches ==> |b| <= 256 && 0 !in b
    ensures Collected(h, batches) == Flatten(batches)
    decreases |batches|
  {
    if batches != [] {
      ExactUpTo256(h, batches[0]);
      ChainedCalls(h + batches[0], batches[1..]);
    }
  }
}
