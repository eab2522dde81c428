/**
 * Bytes, 16-bit words and small sequence functions shared by the components.
 * A byte is an integer below 256; masks and shifts of the C++ code are written with / and %.
 */
module Bytes {

  datatype Option<+T> = None | Some(value: T)

  type byte = x: int | 0 <= x < 256

  type word = x: int | 0 <= x < 0x10000

  /** `(w >> 8) & 0xff` */
  function Hi(w: word): byte {
    w / 256
  }

  /** `w & 0xff` */
  function Lo(w: word): byte {
    w % 256
  }

  /** `(hi << 8) | lo` */
  function Word(hi: byte, lo: byte): word {
    hi * 256 + lo
  }

  /** The elements of a sequence of sequences, in order. */
  function Flatten<T>(ss: seq<seq<T>>): seq<T> {
    if ss == [] then [] else ss[0] + Flatten(ss[1..])
  }

  /** One more element of a prefix. */
  lemma PrefixNext<T>(s: seq<T>, i: nat)
    requires i < |s|
    ensures s[..i] + [s[i]] == s[..i + 1]
  {
  }

  lemma {:induction false} FlattenAppend<T>(a: seq<seq<T>>, b: seq<seq<T>>)
    ensures Flatten(a + b) == Flatten(a) + Flatten(b)
  {
    if a == [] {
      assert a + b == b;
    } else {
      assert (a + b)[0] == a[0] && (a + b)[1..] == a[1..] + b;
      FlattenAppend(a[1..], b);
    }
  }

  /** The sequence without the element at position k. */
  function Without<T>(s: seq<T>, k: nat): (w: seq<T>)
    requires k < |s|
    ensures |w| == |s| - 1 && forall i :: 0 <= i < |w| ==> w[i] == s[if i < k then i else i + 1]
  {
    s[..k] + s[k + 1..]
  }

  function Copies<T>(piece: seq<T>, n: nat): seq<T> {
    if n == 0 then [] else piece + Copies(piece, n - 1)
  }

  lemma {:induction false} CopiesNext<T>(piece: seq<T>, n: nat)
    ensures Copies(piece, n + 1) == Copies(piece, n) + piece
  {
    if n == 0 {
      assert piece + [] == piece && [] + piece == piece;
    } else {
      CopiesNext(piece, n - 1);
      assert piece + (Copies(piece, n - 1) + piece) == (piece + Copies(piece, n - 1)) + piece;
    }
  }

  /** How many of the flags are set. */
  function Set(flags: seq<bool>): nat {
    if flags == [] then 0 else Set(flags[..|flags| - 1]) + if flags[|flags| - 1] then 1 else 0
  }

  /** q is a and b merged, each in its order. */
  predicate Merges<T(==)>(q: seq<T>, a: seq<T>, b: seq<T>)
    decreases |q|
  {
    if q == [] then a == [] && b == []
    else
      var k := |q| - 1;
      || (a != [] && a[|a| - 1] == q[k] && Merges(q[..k], a[..|a| - 1], b))
      || (b != [] && b[|b| - 1] == q[k] && Merges(q[..k], a, b[..|b| - 1]))
  }

  lemma {:induction false} MergeMore<T>(q: seq<T>, a: seq<T>, b: seq<T>, more: seq<T>)
    requires Merges(q, a, b)
    ensures Merges(q + more, a + more, b) && Merges(q + more, a, b + more)
  {
    if more == [] {
      assert q + more == q && a + more == a && b + more == b;
    } else {
      var k := |more| - 1;
      MergeMore(q, a, b, more[..k]);
      assert (q + more)[..|q + more| - 1] == q + more[..k];
      assert (a + more)[..|a + more| - 1] == a + more[..k];
      assert (b + more)[..|b + more| - 1] == b + more[..k];
    }
  }

  lemma MergeOne<T>(q: seq<T>, a: seq<T>, b: seq<T>, x: T)
    requires Merges(q, a, b)
    ensures Merges(q + [x], a + [x], b) && Merges(q + [x], a, b + [x])
  {
    assert (q + [x])[..|q|] == q && (a + [x])[..|a|] == a && (b + [x])[..|b|] == b;
  }

  lemma {:induction false} MergesIsSum<T>(q: seq<T>, a: seq<T>, b: seq<T>)
    requires Merges(q, a, b)
    ensures multiset(q) == multiset(a) + multiset(b)
    decreases |q|
  {
    if q != [] {
      var k := |q| - 1;
      assert q == q[..k] + [q[k]];
      if a != [] && a[|a| - 1] == q[k] && Merges(q[..k], a[..|a| - 1], b) {
        assert a == a[..|a| - 1] + [a[|a| - 1]];
        MergesIsSum(q[..k], a[..|a| - 1], b);
      } else {
        assert b == b[..|b| - 1] + [b[|b| - 1]];
        MergesIsSum(q[..k], a, b[..|b| - 1]);
      }
    }
  }
}
