/**
 * Lists of byte strings that start with their length, 16 bits that count what comes after them (the streams of
 * common/image.cpp), for any codec of the elements.
 */
module Tlv {
  import opened Bytes

  /** One element: at least a length and a type, and the length is right. */
  predicate Framed(c: seq<byte>) {
    |c| >= 4 && Word(c[0], c[1]) as int + 2 == |c|
  }

  function Prepend<S>(str: seq<S>, rest: Option<seq<S>>): Option<seq<S>> {
    if rest.None? then None else Some(str + rest.value)
  }

  /** The size of the element at the front, by its length bytes; None if it is not all there. The reader also
      asks for a fifth byte, whether it belongs to this element or not. */
  function FrontSize(c: seq<byte>): (r: Option<nat>)
    ensures r.Some? ==> 4 <= r.value <= |c| && |c| > 4 && Framed(c[..r.value])
  {
    if |c| <= 4 then None
    else
      var len := Word(c[0], c[1]) as int;
      if len + 2 > |c| || len < 2 then None else Some(len + 2)
  }

  function Pieces<S>(dec: seq<byte> -> S, c: seq<byte>): Option<seq<S>> {
    if c == [] then Some([])
    else
      var n := FrontSize(c);
      if n.None? then None else Prepend([dec(c[..n.value])], Pieces(dec, c[n.value..]))
  }

  /** The elements of the bytes; None if the lengths do not add up. */
  function Split<S>(dec: seq<byte> -> S, c: seq<byte>): Option<seq<S>> {
    Pieces(dec, c)
  }

  function Join<S>(enc: S -> seq<byte>, str: seq<S>): seq<byte> {
    if str == [] then [] else enc(str[0]) + Join(enc, str[1..])
  }

  /** Lists that survive: good elements, and a fifth byte in the last one. */
  predicate Good<S>(enc: S -> seq<byte>, ok: S -> bool, str: seq<S>) {
    (forall i :: 0 <= i < |str| ==> ok(str[i])) && (str != [] ==> |enc(str[|str| - 1])| > 4)
  }

  /** A framed element is read as one that is ok and written back unchanged. */
  ghost predicate CanonicalAt<S>(enc: S -> seq<byte>, dec: seq<byte> -> S, ok: S -> bool, c: seq<byte>) {
    Framed(c) ==> ok(dec(c)) && enc(dec(c)) == c
  }

  ghost predicate Canonical<S>(enc: S -> seq<byte>, dec: seq<byte> -> S, ok: S -> bool) {
    forall c :: CanonicalAt(enc, dec, ok, c)
  }

  ghost predicate Faithful<S(!new)>(enc: S -> seq<byte>, dec: seq<byte> -> S, ok: S -> bool) {
    forall s :: ok(s) ==> Framed(enc(s)) && dec(enc(s)) == s
  }

  /** If decoding loses nothing, neither does splitting. */
  lemma {:induction false} SplitCanonical<S(!new)>(
      enc: S -> seq<byte>, dec: seq<byte> -> S, ok: S -> bool, c: seq<byte>)
    requires Canonical(enc, dec, ok) && Split(dec, c).Some?
    ensures var str := Split(dec, c).value; Good(enc, ok, str) && Join(enc, str) == c && (c != [] ==> str != [])
    decreases |c|
  {
    if c != [] {
      var n := FrontSize(c).value;
      var rest := c[n..];
      SplitCanonical(enc, dec, ok, rest);
      assert CanonicalAt(enc, dec, ok, c[..n]);
      assert c == c[..n] + rest;
      assert rest == [] ==> c[..n] == c;
      assert ([dec(c[..n])] + Split(dec, rest).value)[1..] == Split(dec, rest).value;
    }
  }

  lemma FrontOf(b: seq<byte>, rest: seq<byte>)
    requires Framed(b) && |b + rest| > 4
    ensures FrontSize(b + rest) == Some(|b|) && (b + rest)[..|b|] == b && (b + rest)[|b|..] == rest
  {
  }

  /** If encoding loses nothing, neither does joining. */
  lemma {:induction false} JoinFaithful<S(!new)>(enc: S -> seq<byte>, dec: seq<byte> -> S, ok: S -> bool, str: seq<S>)
    requires Faithful(enc, dec, ok) && Good(enc, ok, str)
    ensures Split(dec, Join(enc, str)) == Some(str) && (str != [] ==> |Join(enc, str)| > 4)
  {
    if str != [] {
      var b, rest := enc(str[0]), Join(enc, str[1..]);
      assert Good(enc, ok, str[1..]);
      JoinFaithful(enc, dec, ok, str[1..]);
      assert ok(str[0]);
      assert |str| == 1 ==> str[1..] == [] && b + [] == b;
      FrontOf(b, rest);
      assert str == [str[0]] + str[1..];
    }
  }

  lemma JoinFirst<S>(enc: S -> seq<byte>, s: S, str: seq<S>)
    ensures Join(enc, [s] + str) == enc(s) + Join(enc, str)
  {
    assert ([s] + str)[1..] == str;
  }

  lemma {:induction false} JoinNext<S>(enc: S -> seq<byte>, str: seq<S>, s: S)
    ensures Join(enc, str + [s]) == Join(enc, str) + enc(s)
  {
    if str == [] {
      assert [s][1..] == [] && [] + [s] == [s];
      assert Join(enc, [s]) == enc(s) + Join(enc, []);
    } else {
      assert (str + [s])[1..] == str[1..] + [s];
      JoinNext(enc, str[1..], s);
    }
  }

  /** A reader that has got to pos. */
  lemma SplitNext<S>(dec: seq<byte> -> S, c: seq<byte>, pos: nat, str: seq<S>, whole: Option<seq<S>>)
    requires pos <= |c| && whole == Prepend(str, Split(dec, c[pos..]))
    ensures pos == |c| ==> whole == Some(str)
    ensures pos < |c| && FrontSize(c[pos..]).None? ==> whole == None
    ensures pos < |c| && FrontSize(c[pos..]).Some? ==>
              var n := FrontSize(c[pos..]).value;
              whole == Prepend(str + [dec(c[pos..pos + n])], Split(dec, c[pos + n..]))
  {
    var b := c[pos..];
    if pos == |c| {
      assert b == [] && str + [] == str;
    } else if FrontSize(b).Some? {
      var n := FrontSize(b).value;
      assert b[..n] == c[pos..pos + n] && b[n..] == c[pos + n..];
      PrependTwice(str, dec(b[..n]), Split(dec, b[n..]));
    }
  }

  lemma PrependTwice<S>(str: seq<S>, s: S, rest: Option<seq<S>>)
    ensures Prepend(str, Prepend([s], rest)) == Prepend(str + [s], rest)
  {
    if rest.Some? {
      assert str + ([s] + rest.value) == (str + [s]) + rest.value;
    }
  }

  lemma PrependNothing<S>(rest: Option<seq<S>>)
    ensures Prepend([], rest) == rest
  {
    if rest.Some? {
      assert [] + rest.value == rest.value;
    }
  }

  /** The length checks of the loop. */
  function FrontAt(c: seq<byte>, pos: nat): (r: Option<nat>)
    requires pos < |c|
    ensures r.Some? ==> 4 <= r.value <= 0x10001 && pos + r.value <= |c|
  {
    if pos + 4 >= |c| then None
    else
      var len := Word(c[pos], c[pos + 1]) as int;
      if pos + 2 + len > |c| || len < 2 then None else Some(len + 2)
  }

  lemma FrontIs(c: seq<byte>, pos: nat)
    requires pos < |c|
    ensures FrontAt(c, pos) == FrontSize(c[pos..])
  {
  }

  /** The reader's position, a 16-bit number. */
  function NextPos(pos: word, n: nat): (r: word)
    requires n <= 0x10001
    ensures r == (pos as int + n) % 0x10000
  {
    var sum := pos as int + n;
    if sum < 0x10000 then sum else if sum < 0x20000 then sum - 0x10000 else sum - 0x20000
  }

  lemma NoWrap(pos: word, n: nat, size: nat)
    requires size < 0x10000 && pos as int + n <= size && n <= 0x10001
    ensures NextPos(pos, n) == pos as int + n
  {
  }

  /** Where a loop is after some turns: at the end with its result, or still at work. */
  datatype Outcome<S> = Ended(r: Option<seq<S>>) | AtWork(pos: word, str: seq<S>)

  function Turns<S>(dec: seq<byte> -> S, c: seq<byte>, pos: word, str: seq<S>, turns: nat): Outcome<S>
    decreases turns
  {
    if pos >= |c| then Ended(Some(str))
    else if turns == 0 then AtWork(pos, str)
    else
      var n := FrontAt(c, pos);
      if n.None? then Ended(None)
      else Turns(dec, c, NextPos(pos, n.value), str + [dec(c[pos..pos as int + n.value])], turns - 1)
  }

  /** The loop of Image::fromArray from a position on, watched for some turns. */
  function Loop<S>(dec: seq<byte> -> S, c: seq<byte>, pos: word, str: seq<S>, turns: nat): Outcome<S> {
    Turns(dec, c, pos, str, turns)
  }

  lemma LoopNext<S>(dec: seq<byte> -> S, c: seq<byte>, pos: word, str: seq<S>, turns: nat, n: Option<nat>)
    requires pos < |c| && turns > 0 && n == FrontAt(c, pos)
    ensures n.None? ==> Loop(dec, c, pos, str, turns) == Ended(None)
    ensures n.Some? ==>
              Loop(dec, c, pos, str, turns)
              == Loop(dec, c, NextPos(pos, n.value), str + [dec(c[pos..pos as int + n.value])], turns - 1)
  {
  }

  /** In something that 16 bits can count, the loop ends, with what the bytes split into. */
  lemma {:induction false} LoopIsSplit<S>(
      dec: seq<byte> -> S, c: seq<byte>, pos: word, str: seq<S>, turns: nat, whole: Option<seq<S>>)
    requires pos <= |c| < 0x10000 && turns >= |c| - pos && whole == Prepend(str, Split(dec, c[pos..]))
    ensures Loop(dec, c, pos, str, turns) == Ended(whole)
    decreases turns
  {
    if pos == |c| || FrontAt(c, pos).None? {
      LastTurn(dec, c, pos, str, turns, whole);
    } else {
      var next: word := pos + FrontAt(c, pos).value;
      SplitTo(dec, c, pos, next, str, whole);
      LoopIsSplit(dec, c, next, str + [dec(c[pos..next])], turns - 1, whole);
      LoopTo(dec, c, pos, next, str, turns, whole);
    }
  }

  /** The turn that ends the loop. */
  lemma LastTurn<S>(dec: seq<byte> -> S, c: seq<byte>, pos: word, str: seq<S>, turns: nat, whole: Option<seq<S>>)
    requires pos <= |c| && whole == Prepend(str, Split(dec, c[pos..]))
    requires pos < |c| ==> turns > 0 && FrontAt(c, pos).None?
    ensures Loop(dec, c, pos, str, turns) == Ended(whole)
  {
    SplitNext(dec, c, pos, str, whole);
    if pos < |c| {
      FrontIs(c, pos);
    }
  }

  /** A turn that does not wrap, */
  lemma LoopTo<S>(
      dec: seq<byte> -> S, c: seq<byte>, pos: word, next: word, str: seq<S>, turns: nat, whole: Option<seq<S>>)
    requires pos < next <= |c| < 0x10000 && turns > 0 && FrontAt(c, pos) == Some(next as int - pos)
    requires Loop(dec, c, next, str + [dec(c[pos..next])], turns - 1) == Ended(whole)
    ensures Loop(dec, c, pos, str, turns) == Ended(whole)
  {
    NoWrap(pos, next - pos, |c|);
    LoopNext(dec, c, pos, str, turns, Some(next as int - pos));
  }

  /** and what it does to the rest. */
  lemma SplitTo<S>(dec: seq<byte> -> S, c: seq<byte>, pos: nat, next: nat, str: seq<S>, whole: Option<seq<S>>)
    requires pos < next <= |c| && FrontAt(c, pos) == Some(next - pos) && whole == Prepend(str, Split(dec, c[pos..]))
    ensures whole == Prepend(str + [dec(c[pos..next])], Split(dec, c[next..]))
  {
    FrontIs(c, pos);
    SplitNext(dec, c, pos, str, whole);
    assert pos + (next - pos) == next;
  }

  /** Once it has ended, more turns change nothing. */
  lemma {:induction false} MoreTurns<S>(
      dec: seq<byte> -> S, c: seq<byte>, pos: word, str: seq<S>, turns: nat, more: nat)
    requires turns <= more && Loop(dec, c, pos, str, turns).Ended?
    ensures Loop(dec, c, pos, str, more) == Loop(dec, c, pos, str, turns)
    decreases turns
  {
    if pos < |c| && FrontAt(c, pos).Some? {
      var n := FrontAt(c, pos).value;
      MoreTurns(dec, c, NextPos(pos, n), str + [dec(c[pos..pos as int + n])], turns - 1, more - 1);
    }
  }

  /** In something longer, no number of turns gets to the end of the data. */
  lemma {:induction false} NeverAtEnd<S>(dec: seq<byte> -> S, c: seq<byte>, pos: word, str: seq<S>, turns: nat)
    requires |c| >= 0x10000
    ensures var o := Loop(dec, c, pos, str, turns); o.AtWork? || o == Ended(None)
    decreases turns
  {
    if turns > 0 && FrontAt(c, pos).Some? {
      var n := FrontAt(c, pos).value;
      NeverAtEnd(dec, c, NextPos(pos, n), str + [dec(c[pos..pos as int + n])], turns - 1);
    }
  }

  /** After some number of turns, the loop that starts at byte 10 has this result. */
  ghost predicate Delivers<S>(dec: seq<byte> -> S, c: seq<byte>, r: Option<seq<S>>) {
    exists turns :: Loop(dec, c, 10, [], turns) == Ended(r)
  }

  /** Bytes that split are delivered if and only if 16 bits can count them; and then so is the refusal of bytes
      that do not. */
  lemma DeliveredExactly<S>(dec: seq<byte> -> S, c: seq<byte>)
    requires |c| >= 10
    ensures Split(dec, c[10..]).Some? ==> (Delivers(dec, c, Split(dec, c[10..])) <==> |c| < 0x10000)
    ensures |c| < 0x10000 ==> Delivers(dec, c, Split(dec, c[10..]))
  {
    var r := Split(dec, c[10..]);
    if |c| < 0x10000 {
      PrependNothing(r);
      LoopIsSplit(dec, c, 10, [], |c|, r);
      assert Loop(dec, c, 10, [], |c|) == Ended(r);
    } else if r.Some? && Delivers(dec, c, r) {
      var turns :| Loop(dec, c, 10, [], turns) == Ended(r);
      NeverAtEnd(dec, c, 10, [], turns);
    }
  }

  /** A first element whose length takes the position around to where it was is read again and again. */
  lemma {:induction false} ReadAgain<S>(dec: seq<byte> -> S, c: seq<byte>, str: seq<S>, turns: nat)
    requires |c| == 0x10000 + 10 && FrontAt(c, 10) == Some(0x10000)
    ensures var o := Loop(dec, c, 10, str, turns); o.AtWork? && o.pos == 10 && |o.str| == |str| + turns
    decreases turns
  {
    if turns > 0 {
      assert NextPos(10, 0x10000) == 10;
      ReadAgain(dec, c, str + [dec(c[10..10 + 0x10000])], turns - 1);
    }
  }

  /** The loop of Image::fromArray, from byte 10 on. */
  method ReadAll<S>(dec: seq<byte> -> S, c: seq<byte>, turns: nat) returns (o: Outcome<S>)
    requires |c| >= 10
    ensures o == Loop(dec, c, 10, [], turns)
  {
    var str: seq<S> := [];
    var pos: word := 10;
    var left := turns;
    ghost var goal := Loop(dec, c, 10, [], turns);
    while pos < |c| && left > 0
      invariant goal == Loop(dec, c, pos, str, left)
      decreases left
    {
      var n := FrontAt(c, pos);
      LoopNext(dec, c, pos, str, left, n);
      if n.None? {
        return Ended(None);
      }
      str := str + [dec(c[pos..pos as int + n.value])];
      pos := NextPos(pos, n.value);
      left := left - 1;
    }
    return if pos >= |c| then Ended(Some(str)) else AtWork(pos, str);
  }
}
