/**
 * Receivers that consume a growing buffer: each turn looks at the front of the buffer and waits for more, or
 * consumes some bytes. If every turn is decided by the bytes it has seen, the result does not depend on how
 * the reads split the stream.
 */
module Streaming {
  import opened Bytes

  datatype Move<S, O> = Wait | Take(n: nat, next: S, out: seq<O>)

  /** State, unconsumed bytes and output. */
  datatype Result<S, O> = Result(state: S, rest: seq<byte>, out: seq<O>)

  /** A move that gets on: it consumes a byte that is there, or lowers the rank of the state. */
  predicate Advances<S, O>(rank: S -> nat, s: S, buf: seq<byte>, m: Move<S, O>) {
    m.Take? ==> m.n <= |buf| && (m.n > 0 || rank(m.next) < rank(s))
  }

  function Turns<S, O>(step: (S, seq<byte>) -> Move<S, O>, rank: S -> nat, s: S, buf: seq<byte>): Result<S, O>
    decreases |buf|, rank(s)
  {
    if buf == [] then Result(s, buf, [])
    else
      var m := step(s, buf);
      if m.Wait? || !Advances(rank, s, buf, m) then Result(s, buf, [])
      else
        var r := Turns(step, rank, m.next, buf[m.n..]);
        Result(r.state, r.rest, m.out + r.out)
  }

  /** The receive loop. */
  function Drive<S, O>(step: (S, seq<byte>) -> Move<S, O>, rank: S -> nat, s: S, buf: seq<byte>): Result<S, O> {
    Turns(step, rank, s, buf)
  }

  /** The first turn. */
  lemma DriveNext<S, O>(step: (S, seq<byte>) -> Move<S, O>, rank: S -> nat, s: S, buf: seq<byte>)
    ensures Drive(step, rank, s, []) == Result(s, [], [])
    ensures buf != [] && step(s, buf).Take? && Advances(rank, s, buf, step(s, buf)) ==>
              var m := step(s, buf);
              var r := Drive(step, rank, m.next, buf[m.n..]);
              Drive(step, rank, s, buf) == Result(r.state, r.rest, m.out + r.out)
  {
  }

  /** A buffer that one turn consumes. */
  lemma OneTurn<S, O>(step: (S, seq<byte>) -> Move<S, O>, rank: S -> nat, s: S, buf: seq<byte>)
    requires buf != [] && step(s, buf).Take? && step(s, buf).n == |buf|
    ensures Drive(step, rank, s, buf) == Result(step(s, buf).next, [], step(s, buf).out)
  {
    var m := step(s, buf);
    DriveNext(step, rank, s, buf);
    DriveNext(step, rank, m.next, []);
    assert buf[m.n..] == [] && m.out + [] == m.out;
  }

  /** What is left to do, to get to the result r0, for a loop that is at (s, buf) and has put out `out`. */
  ghost predicate Unfinished<S, O>(step: (S, seq<byte>) -> Move<S, O>, rank: S -> nat,
                                   r0: Result<S, O>, s: S, buf: seq<byte>, out: seq<O>)
  {
    var r := Drive(step, rank, s, buf);
    r0 == Result(r.state, r.rest, out + r.out)
  }

  lemma UnfinishedStart<S, O>(step: (S, seq<byte>) -> Move<S, O>, rank: S -> nat, s: S, buf: seq<byte>)
    ensures Unfinished(step, rank, Drive(step, rank, s, buf), s, buf, [])
  {
  }

  /** A turn that gets on, or that has to wait and so ends the loop. */
  lemma UnfinishedTurn<S, O>(step: (S, seq<byte>) -> Move<S, O>, rank: S -> nat,
                             r0: Result<S, O>, s: S, buf: seq<byte>, out: seq<O>)
    requires Unfinished(step, rank, r0, s, buf, out) && buf != []
    ensures var m := step(s, buf);
            m.Take? && Advances(rank, s, buf, m) ==> Unfinished(step, rank, r0, m.next, buf[m.n..], out + m.out)
    ensures step(s, buf).Wait? || !Advances(rank, s, buf, step(s, buf)) ==> r0 == Result(s, buf, out)
  {
    var m := step(s, buf);
    if m.Take? && Advances(rank, s, buf, m) {
      var r := Drive(step, rank, m.next, buf[m.n..]);
      assert out + (m.out + r.out) == (out + m.out) + r.out;
    }
  }

  lemma UnfinishedEnd<S, O>(step: (S, seq<byte>) -> Move<S, O>, rank: S -> nat, r0: Result<S, O>, s: S, out: seq<O>)
    requires Unfinished(step, rank, r0, s, [], out)
    ensures r0 == Result(s, [], out)
  {
  }

  /** What a turn does with some bytes it also does with more bytes after them. */
  ghost predicate DecidedBy<S, O>(
      step: (S, seq<byte>) -> Move<S, O>, rank: S -> nat, s: S, a: seq<byte>, b: seq<byte>)
  {
    a != [] && step(s, a).Take? ==> step(s, a + b) == step(s, a) && Advances(rank, s, a, step(s, a))
  }

  ghost predicate PrefixDecided<S(!new), O(!new)>(step: (S, seq<byte>) -> Move<S, O>, rank: S -> nat) {
    forall s, a, b :: DecidedBy(step, rank, s, a, b)
  }

  /** Driving a buffer and then what is left of it with more bytes is driving it all at once. */
  lemma {:induction false} DriveConcat<S(!new), O(!new)>(
      step: (S, seq<byte>) -> Move<S, O>, rank: S -> nat, s: S, a: seq<byte>, b: seq<byte>)
    requires PrefixDecided(step, rank)
    ensures var r1 := Drive(step, rank, s, a);
            var r2 := Drive(step, rank, r1.state, r1.rest + b);
            Drive(step, rank, s, a + b) == Result(r2.state, r2.rest, r1.out + r2.out)
    decreases |a|, rank(s)
  {
    if a == [] {
    } else {
      var m := step(s, a);
      if m.Take? {
        assert DecidedBy(step, rank, s, a, b);
        assert (a + b)[m.n..] == a[m.n..] + b;
        DriveConcat(step, rank, m.next, a[m.n..], b);
      }
    }
  }

  /** Reading chunk after chunk. */
  function Feed<S, O>(step: (S, seq<byte>) -> Move<S, O>, rank: S -> nat, s: S, chunks: seq<seq<byte>>): Result<S, O> {
    if chunks == [] then Result(s, [], [])
    else
      var r1 := Feed(step, rank, s, chunks[..|chunks| - 1]);
      var r2 := Drive(step, rank, r1.state, r1.rest + chunks[|chunks| - 1]);
      Result(r2.state, r2.rest, r1.out + r2.out)
  }

  /** However the stream is split into reads, the state, the leftover bytes and the output are those of reading
      it in one piece. */
  lemma {:induction false} FeedIsDrive<S(!new), O(!new)>(
      step: (S, seq<byte>) -> Move<S, O>, rank: S -> nat, s: S, chunks: seq<seq<byte>>)
    requires PrefixDecided(step, rank)
    ensures Feed(step, rank, s, chunks) == Drive(step, rank, s, Flatten(chunks))
  {
    if chunks != [] {
      var k := |chunks| - 1;
      FeedIsDrive(step, rank, s, chunks[..k]);
      assert chunks == chunks[..k] + [chunks[k]];
      FlattenAppend(chunks[..k], [chunks[k]]);
      assert Flatten([chunks[k]]) == chunks[k];
      DriveConcat(step, rank, s, Flatten(chunks[..k]), chunks[k]);
    }
  }

  /** After a piece that is consumed entirely, the rest is driven from the state it leaves. */
  lemma DriveAfter<S(!new), O(!new)>(
      step: (S, seq<byte>) -> Move<S, O>, rank: S -> nat, s: S, a: seq<byte>, b: seq<byte>, r1: Result<S, O>)
    requires PrefixDecided(step, rank) && r1 == Drive(step, rank, s, a) && r1.rest == []
    ensures var r2 := Drive(step, rank, r1.state, b);
            Drive(step, rank, s, a + b) == Result(r2.state, r2.rest, r1.out + r2.out)
  {
    DriveConcat(step, rank, s, a, b);
    assert [] + b == b;
  }

  /** Copies of a piece that leaves the state as it is. */
  lemma {:induction false} IdleCopies<S(!new), O(!new)>(
      step: (S, seq<byte>) -> Move<S, O>, rank: S -> nat, s: S, piece: seq<byte>, out: seq<O>, n: nat)
    requires PrefixDecided(step, rank) && Drive(step, rank, s, piece) == Result(s, [], out)
    ensures Drive(step, rank, s, Copies(piece, n)) == Result(s, [], Copies(out, n))
  {
    if n > 0 {
      IdleCopies(step, rank, s, piece, out, n - 1);
      DriveAfter(step, rank, s, piece, Copies(piece, n - 1), Result(s, [], out));
    }
  }

  // Receivers with other things going on between the reads.

  /** What happens to a driver: it reads some bytes, or does something else. */
  datatype Event<E> = Read(chunk: seq<byte>) | Aside(e: E)

  /** A read is driven with what is left of the ones before; the rest changes only the state, and may look at
      whether anything is left. */
  function Next<S, O, E>(step: (S, seq<byte>) -> Move<S, O>, rank: S -> nat, aside: (S, bool, E) -> S,
                         r: Result<S, O>, e: Event<E>): Result<S, O>
  {
    match e
    case Read(chunk) =>
      var d := Drive(step, rank, r.state, r.rest + chunk);
      Result(d.state, d.rest, r.out + d.out)
    case Aside(a) => Result(aside(r.state, r.rest == [], a), r.rest, r.out)
  }

  function Session<S, O, E>(step: (S, seq<byte>) -> Move<S, O>, rank: S -> nat, aside: (S, bool, E) -> S,
                            s: S, es: seq<Event<E>>): Result<S, O>
  {
    if es == [] then Result(s, [], [])
    else Next(step, rank, aside, Session(step, rank, aside, s, es[..|es| - 1]), es[|es| - 1])
  }

  function BytesIn<E>(e: Event<E>): seq<byte> {
    if e.Read? then e.chunk else []
  }

  /** The bytes that a session reads. */
  function BytesOf<E>(es: seq<Event<E>>): seq<byte> {
    if es == [] then [] else BytesOf(es[..|es| - 1]) + BytesIn(es[|es| - 1])
  }

  lemma SessionNext<S, O, E>(step: (S, seq<byte>) -> Move<S, O>, rank: S -> nat, aside: (S, bool, E) -> S,
                             s: S, es: seq<Event<E>>, e: Event<E>)
    ensures Session(step, rank, aside, s, es + [e]) == Next(step, rank, aside, Session(step, rank, aside, s, es), e)
    ensures BytesOf(es + [e]) == BytesOf(es) + BytesIn(e)
  {
    assert (es + [e])[..|es|] == es;
  }

  /** States with the same key make the same move, to states with the same key. */
  ghost predicate Alike<S, O, K>(
      step: (S, seq<byte>) -> Move<S, O>, rank: S -> nat, key: S -> K, s: S, t: S, buf: seq<byte>)
  {
    key(s) == key(t) ==>
      && rank(s) == rank(t)
      && match step(s, buf)
         case Wait => step(t, buf).Wait?
         case Take(n, next, out) =>
           var m := step(t, buf);
           m.Take? && m.n == n && m.out == out && key(m.next) == key(next)
  }

  ghost predicate KeyDecides<S(!new), O(!new), K>(
      step: (S, seq<byte>) -> Move<S, O>, rank: S -> nat, key: S -> K)
  {
    forall s, t, buf :: Alike(step, rank, key, s, t, buf)
  }

  ghost predicate KeepsKey<S(!new), E(!new), K>(aside: (S, bool, E) -> S, key: S -> K) {
    forall s, b, e :: key(aside(s, b, e)) == key(s)
  }

  /** Results that agree in everything but what the key leaves out. */
  ghost predicate SameResult<S, O, K>(key: S -> K, r: Result<S, O>, q: Result<S, O>) {
    key(r.state) == key(q.state) && r.rest == q.rest && r.out == q.out
  }

  lemma {:induction false} DriveAlike<S(!new), O(!new), K>(
      step: (S, seq<byte>) -> Move<S, O>, rank: S -> nat, key: S -> K, s: S, t: S, buf: seq<byte>)
    requires KeyDecides(step, rank, key) && key(s) == key(t)
    ensures SameResult(key, Drive(step, rank, s, buf), Drive(step, rank, t, buf))
    decreases |buf|, rank(s)
  {
    assert Alike(step, rank, key, s, t, buf);
    if buf != [] {
      var m := step(s, buf);
      if m.Take? {
        var m' := step(t, buf);
        assert Alike(step, rank, key, m.next, m'.next, buf);
        if Advances(rank, s, buf, m) {
          DriveAlike(step, rank, key, m.next, m'.next, buf[m.n..]);
        }
      }
    }
  }

  /** Whatever goes on between the reads, and however the bytes are split into reads, leftover, output and key
      are those of one read of all the bytes. */
  lemma {:induction false} SessionIsDrive<S(!new), O(!new), E(!new), K>(
      step: (S, seq<byte>) -> Move<S, O>, rank: S -> nat, aside: (S, bool, E) -> S, key: S -> K,
      s: S, es: seq<Event<E>>)
    requires PrefixDecided(step, rank) && KeyDecides(step, rank, key) && KeepsKey(aside, key)
    ensures SameResult(key, Session(step, rank, aside, s, es), Drive(step, rank, s, BytesOf(es)))
  {
    if es != [] {
      var k := |es| - 1;
      SessionIsDrive(step, rank, aside, key, s, es[..k]);
      var r, d := Session(step, rank, aside, s, es[..k]), Drive(step, rank, s, BytesOf(es[..k]));
      match es[k]
      case Read(chunk) =>
        DriveConcat(step, rank, s, BytesOf(es[..k]), chunk);
        DriveAlike(step, rank, key, r.state, d.state, r.rest + chunk);
      case Aside(e) =>
        assert key(aside(r.state, r.rest == [], e)) == key(r.state);
        assert BytesOf(es[..k]) + [] == BytesOf(es[..k]);
    }
  }

  /** Two sessions with the same bytes. */
  lemma SameBytes<S(!new), O(!new), E(!new), K>(
      step: (S, seq<byte>) -> Move<S, O>, rank: S -> nat, aside: (S, bool, E) -> S, key: S -> K,
      s: S, es: seq<Event<E>>, t: S, fs: seq<Event<E>>)
    requires PrefixDecided(step, rank) && KeyDecides(step, rank, key) && KeepsKey(aside, key)
    requires key(s) == key(t) && BytesOf(es) == BytesOf(fs)
    ensures SameResult(key, Session(step, rank, aside, s, es), Session(step, rank, aside, t, fs))
  {
    SessionIsDrive(step, rank, aside, key, s, es);
    SessionIsDrive(step, rank, aside, key, t, fs);
    DriveAlike(step, rank, key, s, t, BytesOf(es));
  }

  /** How many bytes each turn of the loop consumes. */
  function Cuts<S, O>(step: (S, seq<byte>) -> Move<S, O>, rank: S -> nat, s: S, buf: seq<byte>): seq<nat>
    decreases |buf|, rank(s)
  {
    if buf == [] then []
    else
      var m := step(s, buf);
      if m.Wait? || !Advances(rank, s, buf, m) then [] else [m.n] + Cuts(step, rank, m.next, buf[m.n..])
  }
}
