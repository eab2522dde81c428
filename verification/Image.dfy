/**
 * The BCU memory image (common/image.cpp): a header and a list of type-length-value streams.
 */
module Image {
  import opened Bytes
  import opened Tlv

  type int8 = x: int | -128 <= x < 128

  type key = x: int | 0 <= x < 0x1_0000_0000

  const L_CODE: word := 1
  const L_BCU1_SIZE: word := 2
  const L_BCU2_SIZE: word := 3
  const L_BCU_TYPE: word := 100
  const L_BCU2_INIT: word := 101
  const L_BCU2_KEY: word := 102
  const L_STRING_PAR: word := 500
  const L_INT_PAR: word := 501
  const L_FLOAT_PAR: word := 502
  const L_LIST_PAR: word := 503
  const L_GROUP_OBJECT: word := 504

  /** A stream. Names are without their terminating zero. The sizes of BCU1Size are text, stack, data and bss; of
      BCU2Size text, stack, low data, low bss, high data and high bss. The fields of BCU2Start are in the order of
      the class, from addrtab_start to poll_addr. The keys of BCU2Key start with the install key. */
  datatype Stream =
    | Invalid(data: seq<byte>)
    | Unknown(kind: word, data: seq<byte>)
    | BCUType(bcutype: word)
    | Code(code: seq<byte>)
    | StringParameter(addr: word, length: word, name: seq<byte>)
    | IntParameter(addr: word, size: int8, name: seq<byte>)
    | FloatParameter(addr: word, name: seq<byte>)
    | ListParameter(addr: word, name: seq<byte>, elements: seq<seq<byte>>)
    | GroupObject(no: byte, name: seq<byte>)
    | BCU1Size(sizes: seq<word>)
    | BCU2Size(sizes: seq<word>)
    | BCU2Start(fields: seq<word>, pollSlot: byte)
    | BCU2Key(keys: seq<key>)

  predicate Known(kind: word) {
    kind in {L_CODE, L_BCU1_SIZE, L_BCU2_SIZE, L_BCU_TYPE, L_BCU2_INIT, L_BCU2_KEY,
             L_STRING_PAR, L_INT_PAR, L_FLOAT_PAR, L_LIST_PAR, L_GROUP_OBJECT}
  }

  // Numbers.

  function WordBytes(ws: seq<word>): seq<byte> {
    if ws == [] then [] else [Hi(ws[0]), Lo(ws[0])] + WordBytes(ws[1..])
  }

  function WordsOf(b: seq<byte>): seq<word>
    requires |b| % 2 == 0
  {
    if b == [] then [] else [Word(b[0], b[1])] + WordsOf(b[2..])
  }

  /** Four bytes: the upper word and the lower word. */
  function Key(a: byte, b: byte, c: byte, d: byte): key {
    Word(a, b) as int * 0x10000 + Word(c, d)
  }

  function KeyBytes(ks: seq<key>): seq<byte> {
    if ks == [] then [] else WordBytes([ks[0] / 0x10000, ks[0] % 0x10000]) + KeyBytes(ks[1..])
  }

  function KeysOf(b: seq<byte>): seq<key>
    requires |b| % 4 == 0
  {
    if b == [] then [] else [Key(b[0], b[1], b[2], b[3])] + KeysOf(b[4..])
  }

  lemma {:induction false} WordsRoundTrip(ws: seq<word>)
    ensures |WordBytes(ws)| == 2 * |ws| && WordsOf(WordBytes(ws)) == ws
  {
    if ws != [] {
      WordsRoundTrip(ws[1..]);
      assert WordBytes(ws)[2..] == WordBytes(ws[1..]);
    }
  }

  lemma {:induction false} WordsCanonical(b: seq<byte>)
    requires |b| % 2 == 0
    ensures 2 * |WordsOf(b)| == |b| && WordBytes(WordsOf(b)) == b
  {
    if b != [] {
      WordsCanonical(b[2..]);
      var w, rest := Word(b[0], b[1]), WordsOf(b[2..]);
      assert WordsOf(b) == [w] + rest;
      WordBytesNext(w, rest);
      TwoBytesOf(w, b[0], b[1]);
      SplitAtTwo(b);
    }
  }

  lemma TwoBytesOf(w: word, a: byte, b: byte)
    requires w == Word(a, b)
    ensures [Hi(w), Lo(w)] == [a, b]
  {
  }

  lemma SplitAtTwo(b: seq<byte>)
    requires |b| >= 2
    ensures b == [b[0], b[1]] + b[2..]
  {
  }

  lemma WordBytesNext(w: word, rest: seq<word>)
    ensures WordBytes([w] + rest) == [Hi(w), Lo(w)] + WordBytes(rest)
  {
    assert ([w] + rest)[1..] == rest;
  }

  lemma TwoWords(v: word, w: word)
    ensures WordBytes([v, w]) == [Hi(v), Lo(v), Hi(w), Lo(w)]
  {
    OneWord(w);
    assert [v, w][1..] == [w];
    assert WordBytes([v, w]) == [Hi(v), Lo(v)] + WordBytes([w]);
  }

  lemma OneWord(w: word)
    ensures WordBytes([w]) == [Hi(w), Lo(w)]
  {
    assert [w][1..] == [];
    assert WordBytes([]) == [];
  }

  lemma WordParts(w: word, a: byte, b: byte)
    ensures Word(Hi(w), Lo(w)) == w && Hi(Word(a, b)) == a && Lo(Word(a, b)) == b
  {
  }

  lemma {:induction false} KeysRoundTrip(ks: seq<key>)
    ensures |KeyBytes(ks)| == 4 * |ks| && |KeyBytes(ks)| % 4 == 0 && KeysOf(KeyBytes(ks)) == ks
  {
    if ks != [] {
      KeysRoundTrip(ks[1..]);
      FirstKey(ks[0], KeyBytes(ks[1..]));
    }
  }

  lemma FirstKey(k: key, rest: seq<byte>)
    requires |rest| % 4 == 0
    ensures var b := WordBytes([k / 0x10000, k % 0x10000]) + rest;
            |b| == |rest| + 4 && |b| % 4 == 0 && KeysOf(b) == [k] + KeysOf(rest)
  {
    var b := WordBytes([k / 0x10000, k % 0x10000]) + rest;
    TwoWords(k / 0x10000, k % 0x10000);
    WordParts(k / 0x10000, 0, 0);
    WordParts(k % 0x10000, 0, 0);
    assert b[4..] == rest;
  }

  lemma {:induction false} KeysCanonical(b: seq<byte>)
    requires |b| % 4 == 0
    ensures 4 * |KeysOf(b)| == |b| && KeyBytes(KeysOf(b)) == b
  {
    if b != [] {
      KeysCanonical(b[4..]);
      KeyParts(b[0], b[1], b[2], b[3]);
      assert KeysOf(b)[1..] == KeysOf(b[4..]);
      assert b == [b[0], b[1], b[2], b[3]] + b[4..];
    }
  }

  lemma KeyParts(a: byte, b: byte, c: byte, d: byte)
    ensures var k := Key(a, b, c, d); WordBytes([k / 0x10000, k % 0x10000]) == [a, b, c, d]
  {
    var k := Key(a, b, c, d);
    assert k / 0x10000 == Word(a, b) && k % 0x10000 == Word(c, d);
    TwoWords(k / 0x10000, k % 0x10000);
    WordParts(0, a, b);
    WordParts(0, c, d);
  }

  // Zero-terminated strings.

  function ZeroAt(s: seq<byte>): nat {
    if s == [] || s[0] == 0 then 0 else 1 + ZeroAt(s[1..])
  }

  predicate IsName(s: seq<byte>) {
    0 !in s
  }

  lemma {:induction false} ZeroAtFirst(s: seq<byte>)
    ensures ZeroAt(s) <= |s| && IsName(s[..ZeroAt(s)]) && (ZeroAt(s) < |s| ==> s[ZeroAt(s)] == 0)
  {
    if s != [] && s[0] != 0 {
      ZeroAtFirst(s[1..]);
      assert s[..ZeroAt(s)] == [s[0]] + s[1..][..ZeroAt(s[1..])];
    }
  }

  lemma {:induction false} ZeroAtEnd(name: seq<byte>, rest: seq<byte>)
    requires IsName(name)
    ensures ZeroAt(name + [0] + rest) == |name|
  {
    if name != [] {
      assert (name + [0] + rest)[1..] == name[1..] + [0] + rest;
      ZeroAtEnd(name[1..], rest);
    }
  }

  /** The bytes are one zero-terminated string and nothing after it. */
  function NameOf(s: seq<byte>): Option<seq<byte>> {
    if s != [] && ZeroAt(s) == |s| - 1 then Some(s[..|s| - 1]) else None
  }

  /** The bytes are n zero-terminated strings and nothing after them. */
  function NamesOf(s: seq<byte>, n: nat): Option<seq<seq<byte>>> {
    if n == 0 then (if s == [] then Some([]) else None)
    else if ZeroAt(s) >= |s| then None
    else Prepend([s[..ZeroAt(s)]], NamesOf(s[ZeroAt(s) + 1..], n - 1))
  }

  function NameBytes(names: seq<seq<byte>>): seq<byte> {
    if names == [] then [] else names[0] + [0] + NameBytes(names[1..])
  }

  lemma NameRoundTrip(name: seq<byte>)
    requires IsName(name)
    ensures NameOf(name + [0]) == Some(name)
  {
    ZeroAtEnd(name, []);
    assert name + [0] + [] == name + [0];
  }

  lemma NameCanonical(s: seq<byte>)
    ensures NameOf(s).Some? ==> NameOf(s).value + [0] == s && IsName(NameOf(s).value)
  {
    ZeroAtFirst(s);
  }

  lemma {:induction false} NamesRoundTrip(names: seq<seq<byte>>)
    requires forall x :: x in names ==> IsName(x)
    ensures NamesOf(NameBytes(names), |names|) == Some(names)
  {
    if names != [] {
      NamesRoundTrip(names[1..]);
      NamesNext(names[0], NameBytes(names[1..]), |names| - 1);
      assert names == [names[0]] + names[1..];
    }
  }

  lemma NamesNext(name: seq<byte>, rest: seq<byte>, n: nat)
    requires IsName(name)
    ensures var r := NamesOf(rest, n);
            NamesOf(name + [0] + rest, n + 1) == Prepend([name], r)
  {
    ZeroAtEnd(name, rest);
    var b := name + [0] + rest;
    assert b[|name| + 1..] == rest && b[..|name|] == name;
  }

  lemma {:induction false} NamesCanonical(s: seq<byte>, n: nat)
    requires NamesOf(s, n).Some?
    ensures var names := NamesOf(s, n).value;
            |names| == n && NameBytes(names) == s && forall x :: x in names ==> IsName(x)
    decreases n
  {
    if n > 0 {
      ZeroAtFirst(s);
      NamesCanonical(s[ZeroAt(s) + 1..], n - 1);
      assert s == s[..ZeroAt(s)] + [0] + s[ZeroAt(s) + 1..];
    }
  }

  // The streams.

  function ToInt8(b: byte): int8 {
    if b < 128 then b else b - 256
  }

  function ListOf(b: seq<byte>): Option<Stream>
    requires |b| >= 5
  {
    var rest := b[4..];
    var z := ZeroAt(rest);
    if z + 1 >= |rest| || rest[|rest| - 1] != 0 then None
    else
      var names := NamesOf(rest[z + 1..], Word(b[2], b[3]));
      if names.None? then None else Some(ListParameter(Word(b[0], b[1]), rest[..z], names.value))
  }

  /** The kinds that are some fixed bytes and a name. */
  predicate IsNamed(kind: word) {
    kind == L_STRING_PAR || kind == L_INT_PAR || kind == L_FLOAT_PAR || kind == L_GROUP_OBJECT
  }

  function PrefixLength(kind: word): nat {
    if kind == L_STRING_PAR then 4 else if kind == L_INT_PAR then 3 else if kind == L_FLOAT_PAR then 2 else 1
  }

  function Named(kind: word, p: seq<byte>, name: seq<byte>): Stream
    requires IsNamed(kind) && |p| == PrefixLength(kind)
  {
    if kind == L_STRING_PAR then StringParameter(Word(p[0], p[1]), Word(p[2], p[3]), name)
    else if kind == L_INT_PAR then IntParameter(Word(p[0], p[1]), ToInt8(p[2]), name)
    else if kind == L_FLOAT_PAR then FloatParameter(Word(p[0], p[1]), name)
    else GroupObject(p[0], name)
  }

  /** The scan for a terminating zero. */
  method Scan(s: seq<byte>, from: nat) returns (d: nat)
    requires from < |s| && s[|s| - 1] == 0
    ensures from <= d < |s| && d == from + ZeroAt(s[from..])
  {
    d := from;
    while s[d] != 0
      invariant from <= d < |s| && from + ZeroAt(s[from..]) == d + ZeroAt(s[d..])
      decreases |s| - d
    {
      assert s[d..][1..] == s[d + 1..];
      d := d + 1;
    }
  }

  /** How many zero-terminated strings the bytes hold. */
  function Zeros(s: seq<byte>): nat {
    if s == [] then 0 else (if s[0] == 0 then 1 else 0) + Zeros(s[1..])
  }

  lemma {:induction false} ZerosAfter(s: seq<byte>)
    ensures Zeros(s) == if ZeroAt(s) < |s| then 1 + Zeros(s[ZeroAt(s) + 1..]) else 0
  {
    if s != [] && s[0] != 0 {
      ZerosAfter(s[1..]);
      assert ZeroAt(s[1..]) < |s[1..]| ==> s[1..][ZeroAt(s[1..]) + 1..] == s[ZeroAt(s) + 1..];
    }
  }

  /** What the elements of a list are read from, if it gets so far: the bytes behind the terminator of the name. */
  function ElementBytes(b: seq<byte>): Option<seq<byte>>
    requires |b| >= 5
  {
    var z := ZeroAt(b[4..]);
    if b[|b| - 1] != 0 || z + 5 >= |b| then None else Some(b[z + 5..])
  }

  lemma {:induction false} NamesCounted(s: seq<byte>, n: nat)
    requires s == [] || s[|s| - 1] == 0
    ensures NamesOf(s, n).Some? <==> n == Zeros(s)
    decreases n
  {
    ZerosAfter(s);
    ZeroAtFirst(s);
    LastZero(s);
    if n > 0 && ZeroAt(s) < |s| {
      NamesCounted(s[ZeroAt(s) + 1..], n - 1);
    }
  }

  lemma {:induction false} LastZero(s: seq<byte>)
    requires s == [] || s[|s| - 1] == 0
    ensures s != [] ==> ZeroAt(s) < |s|
  {
    if s != [] && s[0] != 0 {
      LastZero(s[1..]);
    }
  }

  /** A list parameter is accepted if and only if its count is that of its strings. */
  lemma ListCounted(b: seq<byte>)
    requires |b| >= 5
    ensures ListOf(b).Some? <==> ElementBytes(b).Some? && Word(b[2], b[3]) == Zeros(ElementBytes(b).value)
  {
    var rest := b[4..];
    if ElementBytes(b).Some? {
      assert rest[ZeroAt(rest) + 1..] == ElementBytes(b).value;
      NamesCounted(ElementBytes(b).value, Word(b[2], b[3]));
    }
  }

  /** STR_ListParameter::init, on the bytes after the type. It reads only them if and only if the count is at most that
      of the strings: if there are fewer, it scans for the terminator of the next one in what lies behind the bytes,
      and fails wherever it finds it. */
  method InitList(b: seq<byte>) returns (r: Option<Stream>, inside: bool)
    requires |b| >= 5
    ensures r == ListOf(b)
    ensures inside <==> (ElementBytes(b).Some? ==> Word(b[2], b[3]) <= Zeros(ElementBytes(b).value))
  {
    if b[|b| - 1] != 0 {
      return None, true;
    }
    var d := Scan(b, 4);
    var name := b[4..d];
    d := d + 1;
    if d > |b| - 1 {
      return None, true;
    }
    var elements;
    Setout(b[d..], Word(b[2], b[3]));
    elements, inside := InitElements(b, d, Word(b[2], b[3]), NamesOf(b[d..], Word(b[2], b[3])), Zeros(b[d..]));
    assert b[4..][..d - 5] == name && b[4..][d - 4..] == b[d..];
    return if elements.None? then None else Some(ListParameter(Word(b[0], b[1]), name, elements.value)), inside;
  }

  /** One turn of the loop over the elements. */
  method InitElement(b: seq<byte>, d: nat, elements: seq<seq<byte>>,
                     ghost whole: Option<seq<seq<byte>>>, ghost zeros: nat, ghost n: nat, ghost m: nat)
    returns (read: seq<seq<byte>>, next: nat)
    requires d < |b| && b[|b| - 1] == 0 && n == m + 1 && Underway(whole, zeros, elements, b[d..], n)
    ensures d < next <= |b| && |read| == |elements| + 1 && Underway(whole, zeros, read, b[next..], m)
  {
    var e := Scan(b, d);
    ElementAdded(whole, zeros, elements, b, d, e, n, m);
    return elements + [b[d..e]], e + 1;
  }

  /** The loop; the test is not in the source, which goes on to scan from there. */
  method InitElements(b: seq<byte>, from: nat, el: word, ghost whole: Option<seq<seq<byte>>>, ghost zeros: nat)
    returns (r: Option<seq<seq<byte>>>, inside: bool)
    requires from < |b| && b[|b| - 1] == 0 && Underway(whole, zeros, [], b[from..], el)
    ensures r == whole && (inside <==> el <= zeros)
  {
    var elements: seq<seq<byte>> := [];
    var d := from;
    for i := 0 to el
      invariant from <= d <= |b| && |elements| == i && Underway(whole, zeros, elements, b[d..], el - i)
    {
      if d > |b| - 1 {
        TooMany(whole, zeros, elements, b[d..], el - i);
        return None, false;
      }
      elements, d := InitElement(b, d, elements, whole, zeros, el - i, el - (i + 1));
    }
    NoneLeft(whole, zeros, elements, b[d..]);
    return if d != |b| then None else Some(elements), true;
  }

  /** A list of one string that says it has two. */
  lemma CountTooLarge()
    ensures var b: seq<byte> := [0, 0, 0, 2, 65, 0, 66, 0];
            ElementBytes(b).Some? && Zeros(ElementBytes(b).value) < Word(b[2], b[3])
  {
    var b: seq<byte> := [0, 0, 0, 2, 65, 0, 66, 0];
    ZeroAtEnd([65], [66, 0]);
    assert b[4..] == [65] + [0] + [66, 0];
    assert b[6..] == [66, 0] && [66, 0][1..] == [0] && [0][1..] == [];
    assert Zeros([66, 0]) == Zeros([0]) == 1 + Zeros([]);
  }

  /** Where the loop is: these elements have been read, and n are to come from the rest. */
  ghost predicate Underway(whole: Option<seq<seq<byte>>>, zeros: nat, elements: seq<seq<byte>>,
                           rest: seq<byte>, n: nat)
  {
    whole == Prepend(elements, NamesOf(rest, n)) && zeros == |elements| + Zeros(rest)
  }

  lemma Setout(rest: seq<byte>, n: nat)
    ensures Underway(NamesOf(rest, n), Zeros(rest), [], rest, n)
  {
    PrependNothing(NamesOf(rest, n));
  }

  lemma ElementAdded(whole: Option<seq<seq<byte>>>, zeros: nat, elements: seq<seq<byte>>,
                     b: seq<byte>, d: nat, e: nat, n: nat, m: nat)
    requires d <= e < |b| && e == d + ZeroAt(b[d..]) && n == m + 1 && Underway(whole, zeros, elements, b[d..], n)
    ensures Underway(whole, zeros, elements + [b[d..e]], b[e + 1..], m)
  {
    ElementNext(b, d, e, n);
    ElementZero(b, d, e);
    PrependTwice(elements, b[d..e], NamesOf(b[e + 1..], m));
  }

  lemma NoneLeft(whole: Option<seq<seq<byte>>>, zeros: nat, elements: seq<seq<byte>>, rest: seq<byte>)
    requires Underway(whole, zeros, elements, rest, 0)
    ensures whole == (if rest == [] then Some(elements) else None) && |elements| <= zeros
  {
    assert elements + [] == elements;
  }

  lemma TooMany(whole: Option<seq<seq<byte>>>, zeros: nat, elements: seq<seq<byte>>, rest: seq<byte>, n: nat)
    requires Underway(whole, zeros, elements, rest, n) && rest == [] && n > 0
    ensures whole == None && zeros == |elements|
  {
  }

  lemma ElementZero(b: seq<byte>, d: nat, e: nat)
    requires d <= e < |b| && e == d + ZeroAt(b[d..])
    ensures Zeros(b[d..]) == 1 + Zeros(b[e + 1..])
  {
    ZerosAfter(b[d..]);
    assert b[d..][e - d + 1..] == b[e + 1..];
  }

  lemma ElementNext(b: seq<byte>, d: nat, e: nat, n: nat)
    requires d <= e < |b| && e == d + ZeroAt(b[d..]) && n > 0
    ensures NamesOf(b[d..], n) == Prepend([b[d..e]], NamesOf(b[e + 1..], n - 1))
  {
    var s := b[d..];
    assert s[..e - d] == b[d..e] && s[e - d + 1..] == b[e + 1..];
  }

  /** The init method of the class for this kind, given the bytes after the type; None if it fails. */
  function Init(kind: word, b: seq<byte>): Option<Stream> {
    if kind == L_BCU_TYPE then (if |b| != 2 then None else Some(BCUType(Word(b[0], b[1]))))
    else if kind == L_CODE then Some(Code(b))
    else if IsNamed(kind) then
      var n := PrefixLength(kind);
      if |b| < n + 1 || NameOf(b[n..]).None? then None else Some(Named(kind, b[..n], NameOf(b[n..]).value))
    else if kind == L_LIST_PAR then (if |b| < 5 then None else ListOf(b))
    else if kind == L_BCU1_SIZE then (if |b| != 8 then None else Some(BCU1Size(WordsOf(b))))
    else if kind == L_BCU2_SIZE then (if |b| != 12 then None else Some(BCU2Size(WordsOf(b))))
    else if kind == L_BCU2_INIT then (if |b| != 43 then None else Some(BCU2Start(WordsOf(b[..42]), b[42])))
    else if kind == L_BCU2_KEY then
      if |b| % 4 != 0 || |b| < 4 then None else Some(BCU2Key(KeysOf(b)))
    else Some(Unknown(kind, b))
  }

  /** What the classes can hold of those things that bytes can say. */
  predicate WellFormed(s: Stream) {
    match s
    case Invalid(_) => false
    case Unknown(kind, _) => !Known(kind)
    case StringParameter(_, _, name) => IsName(name)
    case IntParameter(_, _, name) => IsName(name)
    case FloatParameter(_, name) => IsName(name)
    case ListParameter(_, name, elements) =>
      IsName(name) && 0 < |elements| < 0x10000 && forall x :: x in elements ==> IsName(x)
    case GroupObject(_, name) => IsName(name)
    case BCU1Size(sizes) => |sizes| == 4
    case BCU2Size(sizes) => |sizes| == 6
    case BCU2Start(fields, _) => |fields| == 21
    case BCU2Key(keys) => |keys| >= 1
    case _ => true
  }

  function Kind(s: Stream): word
    requires !s.Invalid?
  {
    match s
    case Unknown(kind, _) => kind
    case BCUType(_) => L_BCU_TYPE
    case Code(_) => L_CODE
    case StringParameter(_, _, _) => L_STRING_PAR
    case IntParameter(_, _, _) => L_INT_PAR
    case FloatParameter(_, _) => L_FLOAT_PAR
    case ListParameter(_, _, _) => L_LIST_PAR
    case GroupObject(_, _) => L_GROUP_OBJECT
    case BCU1Size(_) => L_BCU1_SIZE
    case BCU2Size(_) => L_BCU2_SIZE
    case BCU2Start(_, _) => L_BCU2_INIT
    case BCU2Key(_) => L_BCU2_KEY
  }

  function Prefix(s: Stream): seq<byte>
    requires s.StringParameter? || s.IntParameter? || s.FloatParameter? || s.GroupObject?
  {
    match s
    case StringParameter(a, length, _) => [Hi(a), Lo(a), Hi(length), Lo(length)]
    case IntParameter(a, size, _) => [Hi(a), Lo(a), size % 256]
    case FloatParameter(a, _) => [Hi(a), Lo(a)]
    case GroupObject(no, _) => [no]
  }

  /** The bytes that toArray writes after the type. */
  function Body(s: Stream): seq<byte>
    requires !s.Invalid?
  {
    match s
    case Unknown(_, data) => data
    case BCUType(t) => [Hi(t), Lo(t)]
    case Code(code) => code
    case StringParameter(_, _, name) => Prefix(s) + (name + [0])
    case IntParameter(_, _, name) => Prefix(s) + (name + [0])
    case FloatParameter(_, name) => Prefix(s) + (name + [0])
    case GroupObject(_, name) => Prefix(s) + (name + [0])
    case ListParameter(a, name, elements) =>
      var n := |elements| % 0x10000;
      WordBytes([a, n]) + (name + [0] + NameBytes(elements))
    case BCU1Size(sizes) => WordBytes(sizes)
    case BCU2Size(sizes) => WordBytes(sizes)
    case BCU2Start(fields, slot) => WordBytes(fields) + [slot]
    case BCU2Key(keys) => KeyBytes(keys)
  }

  lemma ListRoundTrip(s: Stream)
    requires WellFormed(s) && s.ListParameter?
    ensures Init(Kind(s), Body(s)) == Some(s)
  {
    var n, names := |s.elements|, NameBytes(s.elements);
    var p := WordBytes([s.addr, n]);
    TwoWords(s.addr, n);
    WordParts(s.addr, 0, 0);
    WordParts(n, 0, 0);
    ListBody(s);
    NamesRoundTrip(s.elements);
    NameBytesEnd(s.elements);
    ListInit(p, s.name, names);
  }

  /** Reading a list from its parts. */
  lemma ListInit(p: seq<byte>, name: seq<byte>, names: seq<byte>)
    requires |p| == 4 && IsName(name) && names != [] && names[|names| - 1] == 0
    ensures var e := NamesOf(names, Word(p[2], p[3]));
            Init(L_LIST_PAR, p + (name + [0] + names))
            == if e.None? then None else Some(ListParameter(Word(p[0], p[1]), name, e.value))
  {
    ListParts(p, name, names);
    var b := p + (name + [0] + names);
    assert b[0] == p[0] && b[1] == p[1] && b[2] == p[2] && b[3] == p[3];
    assert (name + [0] + names)[|name| + |names|] == names[|names| - 1];
  }

  lemma ListParts(p: seq<byte>, name: seq<byte>, names: seq<byte>)
    requires |p| == 4 && IsName(name)
    ensures var b, rest := p + (name + [0] + names), name + [0] + names;
            && b[..4] == p && b[4..] == rest
            && ZeroAt(rest) == |name| && rest[..|name|] == name && rest[|name| + 1..] == names
  {
    ZeroAtEnd(name, names);
  }

  lemma {:induction false} NameBytesEnd(names: seq<seq<byte>>)
    requires names != []
    ensures var b := NameBytes(names); b != [] && b[|b| - 1] == 0
  {
    if |names| > 1 {
      NameBytesEnd(names[1..]);
    } else {
      assert names[1..] == [];
    }
  }

  lemma StartRoundTrip(s: Stream)
    requires WellFormed(s) && s.BCU2Start?
    ensures Init(Kind(s), Body(s)) == Some(s)
  {
    WordsRoundTrip(s.fields);
    PrefixSplits(WordBytes(s.fields), [s.pollSlot]);
  }

  lemma PrefixRoundTrip(s: Stream)
    requires s.StringParameter? || s.IntParameter? || s.FloatParameter? || s.GroupObject?
    ensures |Prefix(s)| == PrefixLength(Kind(s)) && Named(Kind(s), Prefix(s), s.name) == s
  {
  }

  lemma NamedRoundTrip(s: Stream)
    requires WellFormed(s) && (s.StringParameter? || s.IntParameter? || s.FloatParameter? || s.GroupObject?)
    ensures Init(Kind(s), Body(s)) == Some(s)
  {
    NameRoundTrip(s.name);
    PrefixRoundTrip(s);
    PrefixSplits(Prefix(s), s.name + [0]);
    NamedBody(s);
    NamedInit(Kind(s), Prefix(s), s.name + [0]);
  }

  lemma NamedBody(s: Stream)
    requires s.StringParameter? || s.IntParameter? || s.FloatParameter? || s.GroupObject?
    ensures Body(s) == Prefix(s) + (s.name + [0]) && IsNamed(Kind(s))
  {
  }

  lemma NamedInit(kind: word, p: seq<byte>, rest: seq<byte>)
    requires IsNamed(kind) && |p| == PrefixLength(kind) && rest != []
    ensures Init(kind, p + rest) == if NameOf(rest).None? then None else Some(Named(kind, p, NameOf(rest).value))
  {
    PrefixSplits(p, rest);
  }

  lemma PrefixSplits(p: seq<byte>, rest: seq<byte>)
    ensures (p + rest)[..|p|] == p && (p + rest)[|p|..] == rest
  {
  }

  lemma SizesRoundTrip(s: Stream)
    requires WellFormed(s) && (s.BCU1Size? || s.BCU2Size?)
    ensures Init(Kind(s), Body(s)) == Some(s)
  {
    WordsRoundTrip(s.sizes);
  }

  lemma KeyRoundTrip(s: Stream)
    requires WellFormed(s) && s.BCU2Key?
    ensures Init(Kind(s), Body(s)) == Some(s)
  {
    KeysRoundTrip(s.keys);
    KeyInit(KeyBytes(s.keys));
  }

  lemma KeyInit(b: seq<byte>)
    requires |b| % 4 == 0 && |b| >= 4
    ensures Init(L_BCU2_KEY, b) == Some(BCU2Key(KeysOf(b)))
  {
  }

  lemma PlainRoundTrip(s: Stream)
    requires WellFormed(s) && (s.Unknown? || s.BCUType? || s.Code?)
    ensures Init(Kind(s), Body(s)) == Some(s)
  {
    if s.BCUType? {
      WordParts(s.bcutype, 0, 0);
    }
  }

  /** Whatever a class writes, it reads back. */
  lemma BodyRoundTrip(s: Stream)
    requires WellFormed(s)
    ensures Init(Kind(s), Body(s)) == Some(s)
  {
    if s.ListParameter? {
      ListRoundTrip(s);
    } else if s.BCU1Size? || s.BCU2Size? {
      SizesRoundTrip(s);
    } else if s.BCU2Start? {
      StartRoundTrip(s);
    } else if s.BCU2Key? {
      KeyRoundTrip(s);
    } else if s.StringParameter? || s.IntParameter? || s.FloatParameter? || s.GroupObject? {
      NamedRoundTrip(s);
    } else {
      PlainRoundTrip(s);
    }
  }

  lemma ListFields(b: seq<byte>)
    requires |b| >= 5 && ListOf(b).Some?
    ensures var s, rest := ListOf(b).value, b[4..];
            && s.ListParameter? && WellFormed(s)
            && s.addr == Word(b[0], b[1]) && |s.elements| == Word(b[2], b[3])
            && s.name + [0] + NameBytes(s.elements) == rest
  {
    var rest, n := b[4..], Word(b[2], b[3]);
    var z := ZeroAt(rest);
    ZeroAtFirst(rest);
    StringSplits(rest, z);
    NamesCanonical(rest[z + 1..], n);
    NamesNonEmpty(rest[z + 1..], n);
  }

  lemma ListCanonical(b: seq<byte>)
    requires |b| >= 5 && ListOf(b).Some?
    ensures var s := ListOf(b).value; WellFormed(s) && Kind(s) == L_LIST_PAR && Body(s) == b
  {
    ListFields(b);
    var s := ListOf(b).value;
    ListBody(s);
    WordHead(b[..4]);
    assert b == b[..4] + b[4..];
  }

  lemma ListBody(s: Stream)
    requires s.ListParameter? && |s.elements| < 0x10000
    ensures Body(s) == WordBytes([s.addr, |s.elements|]) + (s.name + [0] + NameBytes(s.elements))
  {
  }

  lemma WordHead(p: seq<byte>)
    requires |p| == 4
    ensures WordBytes([Word(p[0], p[1]), Word(p[2], p[3])]) == p
  {
    TwoWords(Word(p[0], p[1]), Word(p[2], p[3]));
    FourBytes(p);
  }

  lemma StringSplits(s: seq<byte>, z: nat)
    requires z < |s| && s[z] == 0
    ensures s == s[..z] + [0] + s[z + 1..]
  {
  }

  lemma NamesNonEmpty(s: seq<byte>, n: nat)
    requires NamesOf(s, n).Some? && s != []
    ensures n > 0
  {
  }

  lemma NumbersCanonical(kind: word, b: seq<byte>)
    requires kind in {L_BCU1_SIZE, L_BCU2_SIZE, L_BCU2_INIT, L_BCU2_KEY} && Init(kind, b).Some?
    ensures var s := Init(kind, b).value; WellFormed(s) && Kind(s) == kind && Body(s) == b
  {
    if kind == L_BCU1_SIZE || kind == L_BCU2_SIZE {
      WordsCanonical(b);
    } else if kind == L_BCU2_INIT {
      WordsCanonical(b[..42]);
      assert b == b[..42] + [b[42]];
    } else {
      KeysCanonical(b);
    }
  }

  lemma PrefixCanonical(kind: word, p: seq<byte>, name: seq<byte>)
    requires IsNamed(kind) && |p| == PrefixLength(kind)
    ensures var s := Named(kind, p, name); Kind(s) == kind && Prefix(s) == p && s.name == name
  {
    match |p|
    case 4 => FourBytes(p);
    case 3 => ThreeBytes(p);
    case 2 => TwoBytes(p);
    case _ => assert p == [p[0]];
  }

  lemma Pair(a: byte, b: byte)
    ensures [Hi(Word(a, b)), Lo(Word(a, b))] == [a, b]
  {
    WordParts(0, a, b);
  }

  lemma FourBytes(p: seq<byte>)
    requires |p| == 4
    ensures var v, w := Word(p[0], p[1]), Word(p[2], p[3]); [Hi(v), Lo(v), Hi(w), Lo(w)] == p
  {
    Pair(p[0], p[1]);
    Pair(p[2], p[3]);
    Literal(p);
  }

  lemma ThreeBytes(p: seq<byte>)
    requires |p| == 3
    ensures var v, i := Word(p[0], p[1]), ToInt8(p[2]); [Hi(v), Lo(v), i % 256] == p
  {
    Pair(p[0], p[1]);
    Int8Parts(p[2]);
    Literal(p);
  }

  lemma TwoBytes(p: seq<byte>)
    requires |p| == 2
    ensures var v := Word(p[0], p[1]); [Hi(v), Lo(v)] == p
  {
    Pair(p[0], p[1]);
    Literal(p);
  }

  lemma Int8Parts(b: byte)
    ensures ToInt8(b) % 256 == b
  {
  }

  lemma Literal(p: seq<byte>)
    ensures |p| == 2 ==> p == [p[0], p[1]]
    ensures |p| == 3 ==> p == [p[0], p[1], p[2]]
    ensures |p| == 4 ==> p == [p[0], p[1], p[2], p[3]]
  {
  }

  lemma NamedCanonical(kind: word, b: seq<byte>)
    requires IsNamed(kind) && Init(kind, b).Some?
    ensures var s := Init(kind, b).value; WellFormed(s) && Kind(s) == kind && Body(s) == b
  {
    var n := PrefixLength(kind);
    NameCanonical(b[n..]);
    PrefixCanonical(kind, b[..n], NameOf(b[n..]).value);
    assert b == b[..n] + b[n..];
  }

  /** Whatever a class reads, it writes back, byte for byte. */
  lemma BodyCanonical(kind: word, b: seq<byte>)
    requires Init(kind, b).Some?
    ensures var s := Init(kind, b).value; WellFormed(s) && Kind(s) == kind && Body(s) == b
  {
    if kind in {L_BCU1_SIZE, L_BCU2_SIZE, L_BCU2_INIT, L_BCU2_KEY} {
      NumbersCanonical(kind, b);
    } else if IsNamed(kind) {
      NamedCanonical(kind, b);
    } else if kind == L_LIST_PAR {
      ListCanonical(b);
    }
  }

  // Streams with their length and type.

  /** The length is 16 bits wide. */
  function Framing(kind: word, b: seq<byte>): seq<byte> {
    WordBytes([(|b| + 2) % 0x10000, kind]) + b
  }

  /** toArray */
  function StreamBytes(s: Stream): seq<byte> {
    if s.Invalid? then s.data else Framing(Kind(s), Body(s))
  }

  function ParameterBytes(kind: word, p: seq<byte>, name: seq<byte>): seq<byte>
    requires |p| + |name| + 3 < 0x10000
  {
    var n := |p| + |name| + 3;
    [n / 256, n % 256, kind / 256, kind % 256] + p + name + [0]
  }

  /** The named parameters, byte by byte: big-endian, the length without its own two bytes, a zero after the name. */
  lemma StringInBytes(a: word, l: word, name: seq<byte>)
    requires |name| < 0xff00
    ensures StreamBytes(StringParameter(a, l, name))
            == ParameterBytes(500, [a / 256, a % 256, l / 256, l % 256], name)
  {
    NamedInBytes(StringParameter(a, l, name), name);
  }

  lemma IntInBytes(a: word, size: int8, name: seq<byte>)
    requires |name| < 0xff00
    ensures StreamBytes(IntParameter(a, size, name))
            == ParameterBytes(501, [a / 256, a % 256, if size < 0 then size + 256 else size], name)
  {
    var s := IntParameter(a, size, name);
    assert size % 256 == if size < 0 then size + 256 else size;
    assert Kind(s) == 501 && Prefix(s) == [a / 256, a % 256, size % 256];
    NamedInBytes(s, name);
  }

  lemma FloatInBytes(a: word, name: seq<byte>)
    requires |name| < 0xff00
    ensures StreamBytes(FloatParameter(a, name)) == ParameterBytes(502, [a / 256, a % 256], name)
  {
    NamedInBytes(FloatParameter(a, name), name);
  }

  lemma GroupObjectInBytes(no: byte, name: seq<byte>)
    requires |name| < 0xff00
    ensures StreamBytes(GroupObject(no, name)) == ParameterBytes(504, [no], name)
  {
    NamedInBytes(GroupObject(no, name), name);
  }

  lemma NamedInBytes(s: Stream, name: seq<byte>)
    requires s.StringParameter? || s.IntParameter? || s.FloatParameter? || s.GroupObject?
    requires |name| < 0xff00 && s.name == name
    ensures StreamBytes(s) == ParameterBytes(Kind(s), Prefix(s), name)
  {
    assert |Prefix(s)| <= 4;
    NamedFraming(Kind(s), Prefix(s), name);
  }

  lemma NamedFraming(kind: word, p: seq<byte>, name: seq<byte>)
    requires |p| + |name| + 3 < 0x10000
    ensures Framing(kind, p + (name + [0])) == ParameterBytes(kind, p, name)
  {
    var n := |p| + |name| + 3;
    FramingBytes(kind, p + (name + [0]), n);
    Joined([n / 256, n % 256, kind / 256, kind % 256], p, name, [0]);
  }

  lemma FramingBytes(kind: word, b: seq<byte>, n: word)
    requires n == |b| + 2
    ensures Framing(kind, b) == [n / 256, n % 256, kind / 256, kind % 256] + b
  {
    TwoWords(n, kind);
  }

  lemma Joined<T>(a: seq<T>, b: seq<T>, c: seq<T>, d: seq<T>)
    ensures a + (b + (c + d)) == a + b + c + d
  {
  }

  /** One of each of the others. */
  lemma WordsInBytes()
    ensures StreamBytes(BCUType(0x0701)) == [0, 4, 0, 100, 7, 1]
    ensures StreamBytes(Code([8, 9])) == [0, 4, 0, 1, 8, 9]
  {
    TwoWords(4, 100);
    TwoWords(4, 1);
  }

  lemma KeyInBytes()
    ensures StreamBytes(BCU2Key([0x0102_0304])) == [0, 6, 0, 102, 1, 2, 3, 4]
  {
    TwoWords(6, 102);
    TwoWords(0x0102, 0x0304);
    assert KeyBytes([0x0102_0304]) == [1, 2, 3, 4];
  }

  lemma ListInBytes()
    ensures StreamBytes(ListParameter(0x1234, [65], [[66]])) == [0, 10, 1, 247, 0x12, 0x34, 0, 1, 65, 0, 66, 0]
  {
    TwoWords(10, 503);
    TwoWords(0x1234, 1);
    assert NameBytes([[66]]) == [66, 0];
  }

  /** STR_Stream::fromArray: bytes that the class of their type refuses are kept as they are. */
  function FromArray(c: seq<byte>): Stream {
    if !Framed(c) then Invalid(c) else Taken(Init(Word(c[2], c[3]), c[4..]), c)
  }

  function Taken(s: Option<Stream>, c: seq<byte>): Stream {
    if s.None? then Invalid(c) else s.value
  }

  predicate StreamOk(s: Stream) {
    if s.Invalid? then Framed(s.data) && FromArray(s.data).Invalid? else WellFormed(s) && |Body(s)| + 2 < 0x10000
  }

  lemma FramingRoundTrip(kind: word, b: seq<byte>)
    requires |b| + 2 < 0x10000
    ensures var c := Framing(kind, b); Framed(c) && Word(c[2], c[3]) == kind && c[4..] == b
  {
    var len := (|b| + 2) % 0x10000;
    assert len == |b| + 2;
    TwoWords(len, kind);
    HeadOf(Hi(len), Lo(len), Hi(kind), Lo(kind), b);
    WordParts(len, 0, 0);
    WordParts(kind, 0, 0);
  }

  lemma HeadOf(b0: byte, b1: byte, b2: byte, b3: byte, rest: seq<byte>)
    ensures var c := [b0, b1, b2, b3] + rest; c[0] == b0 && c[1] == b1 && c[2] == b2 && c[3] == b3 && c[4..] == rest
  {
  }

  lemma FramingCanonical(c: seq<byte>)
    requires Framed(c)
    ensures Framing(Word(c[2], c[3]), c[4..]) == c && |c[4..]| + 2 < 0x10000
  {
    var len, kind := Word(c[0], c[1]), Word(c[2], c[3]);
    assert (|c[4..]| + 2) % 0x10000 == len;
    TwoWords(len, kind);
    Pair(c[0], c[1]);
    Pair(c[2], c[3]);
    HeadTail(c);
  }

  lemma HeadTail(c: seq<byte>)
    requires |c| >= 4
    ensures [c[0], c[1], c[2], c[3]] + c[4..] == c
  {
  }

  lemma StreamRoundTrip(s: Stream)
    requires StreamOk(s)
    ensures Framed(StreamBytes(s)) && FromArray(StreamBytes(s)) == s
  {
    if s.Invalid? {
      InvalidKept(s.data);
    } else {
      BodyRoundTrip(s);
      FramingRoundTrip(Kind(s), Body(s));
    }
  }

  lemma InvalidKept(c: seq<byte>)
    requires Framed(c) && FromArray(c).Invalid?
    ensures FromArray(c) == Invalid(c)
  {
    if Init(Word(c[2], c[3]), c[4..]).Some? {
      BodyCanonical(Word(c[2], c[3]), c[4..]);
    }
  }

  lemma StreamCanonical(c: seq<byte>)
    requires Framed(c)
    ensures CanonicalAt(StreamBytes, FromArray, StreamOk, c)
  {
    var kind, b := Word(c[2], c[3]), c[4..];
    if Init(kind, b).Some? {
      BodyCanonical(kind, b);
      FramingCanonical(c);
    }
  }

  lemma StreamCodec()
    ensures Canonical(StreamBytes, FromArray, StreamOk) && Faithful(StreamBytes, FromArray, StreamOk)
  {
    forall c ensures CanonicalAt(StreamBytes, FromArray, StreamOk, c) {
      if Framed(c) {
        StreamCanonical(c);
      }
    }
    forall s | StreamOk(s) ensures Framed(StreamBytes(s)) && FromArray(StreamBytes(s)) == s {
      StreamRoundTrip(s);
    }
  }

  // The image.

  const MAGIC: seq<byte> := [0xbc, 0x68, 0x0c, 0x05, 0xbc, 0x68, 0x0c, 0x05]

  function WithHeader(b: seq<byte>): seq<byte> {
    MAGIC + WordBytes([(|b| + 10) % 0x10000]) + b
  }

  predicate HeaderOk(c: seq<byte>) {
    |c| >= 10 && c[..8] == MAGIC && c[8] == |c| / 256 % 256 && c[9] == |c| % 256
  }

  function ImageBytes(str: seq<Stream>): seq<byte> {
    WithHeader(Join(StreamBytes, str))
  }

  function ImageOf(c: seq<byte>): Option<seq<Stream>> {
    if HeaderOk(c) then Split(FromArray, c[10..]) else None
  }

  /** The images that survive being written and read: the streams hold what their types can say, and the last has
      a byte of data. */
  predicate ImageOk(str: seq<Stream>) {
    Good(StreamBytes, StreamOk, str)
  }

  lemma HeaderRoundTrip(b: seq<byte>)
    requires |b| + 10 < 0x10000
    ensures HeaderOk(WithHeader(b)) && WithHeader(b)[10..] == b
  {
    var n := (|b| + 10) % 0x10000;
    assert n == |b| + 10;
    OneWord(n);
    AfterMagic(Hi(n), Lo(n), b);
    assert WithHeader(b) == MAGIC + [Hi(n), Lo(n)] + b;
  }

  lemma AfterMagic(hi: byte, lo: byte, b: seq<byte>)
    ensures var c := MAGIC + [hi, lo] + b;
            |c| == |b| + 10 && c[..8] == MAGIC && c[8] == hi && c[9] == lo && c[10..] == b
  {
  }

  lemma HeaderCanonical(c: seq<byte>)
    requires |c| < 0x10000 && HeaderOk(c)
    ensures WithHeader(c[10..]) == c
  {
    assert |c[10..]| + 10 == |c|;
    OneWord(|c|);
    assert c == c[..8] + [c[8], c[9]] + c[10..];
  }

  /** Every accepted byte string that 16 bits can count is written back unchanged. */
  lemma ImageCanonical(c: seq<byte>, str: seq<Stream>)
    requires |c| < 0x10000 && ImageOf(c) == Some(str)
    ensures ImageOk(str) && ImageBytes(str) == c
  {
    StreamCodec();
    SplitCanonical(StreamBytes, FromArray, StreamOk, c[10..]);
    HeaderCanonical(c);
  }

  /** An image of up to 65535 bytes parses back to itself if and only if it is one of those. */
  lemma ImageRoundTrip(str: seq<Stream>)
    requires |Join(StreamBytes, str)| + 10 < 0x10000
    ensures ImageOf(ImageBytes(str)) == Some(str) <==> ImageOk(str)
  {
    var b := Join(StreamBytes, str);
    StreamCodec();
    HeaderRoundTrip(b);
    if ImageOk(str) {
      JoinFaithful(StreamBytes, FromArray, StreamOk, str);
    }
    if Split(FromArray, b) == Some(str) {
      SplitCanonical(StreamBytes, FromArray, StreamOk, b);
    }
  }

  class Image {
    var str: seq<Stream>

    constructor ()
      ensures str == []
    {
      str := [];
    }

    method ToArray() returns (data: seq<byte>)
      ensures data == ImageBytes(str)
    {
      data := MAGIC + [0, 0];
      for i := 0 to |str|
        invariant data == MAGIC + [0, 0] + Join(StreamBytes, str[..i])
      {
        assert str[..i + 1] == str[..i] + [str[i]];
        JoinNext(StreamBytes, str[..i], str[i]);
        data := data + StreamBytes(str[i]);
      }
      assert str[..|str|] == str;
      OneWord(|data| % 0x10000);
      data := data[8 := |data| / 256 % 256][9 := |data| % 256];
      LengthBytes(data, Join(StreamBytes, str));
    }
  }

  lemma LengthBytes(data: seq<byte>, b: seq<byte>)
    requires |data| == |b| + 10 && data[..8] == MAGIC && data[10..] == b
    requires data[8] == |data| / 256 % 256 && data[9] == |data| % 256
    ensures data == WithHeader(b)
  {
    LengthInTwoBytes(|data|);
    OneWord(|data| % 0x10000);
    HeaderAndRest(data);
  }

  lemma LengthInTwoBytes(n: nat)
    ensures n % 0x10000 / 256 == n / 256 % 256 && n % 0x10000 % 256 == n % 256
  {
    assert n == n % 0x10000 + 256 * (256 * (n / 0x10000));
  }

  lemma HeaderAndRest(data: seq<byte>)
    requires |data| >= 10
    ensures data == data[..8] + [data[8], data[9]] + data[10..]
  {
  }

  /** Image::fromArray, watched for some turns of its loop. */
  function Reading(c: seq<byte>, turns: nat): Outcome<Stream> {
    if HeaderOk(c) then Loop(FromArray, c, 10, [], turns) else Ended(None)
  }

  lemma ReadInTime(c: seq<byte>, turns: nat)
    requires |c| < 0x10000 && turns >= |c|
    ensures Reading(c, turns) == Ended(ImageOf(c))
  {
    if HeaderOk(c) {
      PrependNothing(ImageOf(c));
      LoopIsSplit(FromArray, c, 10, [], turns, ImageOf(c));
    }
  }

  /** If the loop ends, then with the image the bytes are, and not at all for more bytes than 16 bits can count. */
  lemma ReadIsImage(c: seq<byte>, turns: nat)
    requires Reading(c, turns).Ended?
    ensures |c| >= 0x10000 ==> Reading(c, turns) == Ended(None)
    ensures |c| < 0x10000 ==> Reading(c, turns) == Ended(ImageOf(c))
  {
    if |c| >= 0x10000 {
      NeverAtEnd(FromArray, c, 10, [], turns);
    } else {
      ReadInTime(c, turns + |c|);
      if HeaderOk(c) {
        MoreTurns(FromArray, c, 10, [], turns, turns + |c|);
      }
    }
  }

  /** Bytes that are an image are read as that image, in some number of turns, if and only if 16 bits can count
      them. */
  lemma ReadExactly(c: seq<byte>)
    requires ImageOf(c).Some?
    ensures (exists turns :: Reading(c, turns) == Ended(ImageOf(c))) <==> |c| < 0x10000
  {
    if |c| < 0x10000 {
      ReadInTime(c, |c|);
    }
    if turns :| Reading(c, turns) == Ended(ImageOf(c)) {
      ReadIsImage(c, turns);
    }
  }

  /** An image of 65546 bytes, one stream after the header: it is an image by its length fields, but the loop
      never ends. */
  lemma EndlessImage(rest: seq<byte>, turns: nat)
    requires |rest| == 0xFFFE
    ensures var c := MAGIC + [0, 10] + ([0xFF, 0xFE] + rest);
            && HeaderOk(c) && ImageOf(c) == Some([FromArray(c[10..])])
            && Reading(c, turns).AtWork? && Reading(c, turns).pos == 10 && |Reading(c, turns).str| == turns
  {
    var b := [0xFF, 0xFE] + rest;
    EndlessBytes(b);
    FrontIs(MAGIC + [0, 10] + b, 10);
    ReadAgain(FromArray, MAGIC + [0, 10] + b, [], turns);
  }

  lemma EndlessBytes(b: seq<byte>)
    requires |b| == 0x10000 && b[0] == 0xFF && b[1] == 0xFE
    ensures var c := MAGIC + [0, 10] + b;
            |c| == 0x1000A && c[10..] == b && HeaderOk(c) && FrontSize(b) == Some(0x10000)
            && ImageOf(c) == Some([FromArray(b)])
  {
    AfterMagic(0, 10, b);
    WholeStream(b);
  }

  lemma WholeStream(b: seq<byte>)
    requires |b| == 0x10000 && b[0] == 0xFF && b[1] == 0xFE
    ensures FrontSize(b) == Some(0x10000) && Split(FromArray, b) == Some([FromArray(b)])
  {
    assert b[..0x10000] == b && b[0x10000..] == [];
    assert Split(FromArray, b) == Prepend([FromArray(b)], Split(FromArray, []));
    assert [FromArray(b)] + [] == [FromArray(b)];
  }

  /** Image::fromArray; `ended` is false if the loop is still at work after so many turns. */
  method ReadImage(c: seq<byte>, turns: nat) returns (ended: bool, image: Image?)
    ensures ended == Reading(c, turns).Ended?
    ensures |c| < 0x10000 && turns >= |c| ==> ended
    ensures image != null ==> ended && fresh(image) && |c| < 0x10000 && ImageOf(c) == Some(image.str)
    ensures ended && image == null ==> |c| >= 0x10000 || ImageOf(c).None?
  {
    if |c| < 0x10000 && turns >= |c| {
      ReadInTime(c, turns);
    }
    if Reading(c, turns).Ended? {
      ReadIsImage(c, turns);
    }
    if !HeaderOk(c) {
      return true, null;
    }
    var o := ReadAll(FromArray, c, turns);
    if o.AtWork? || o.r.None? {
      return o.Ended?, null;
    }
    image := new Image();
    image.str := o.r.value;
    ended := true;
  }
}
