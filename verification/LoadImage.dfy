/**
 * The checks of a BCU image and the list of load requests for it (common/loadimage.cpp).
 */
module LoadImage {
  import opened Bytes
  import opened Tlv
  import opened Image

  // Segments of memory.

  datatype Segment = Segment(start: word, len: word)

  predicate In(x: int, s: Segment) {
    s.start <= x < s.start as int + s.len
  }

  ghost predicate Disjoint(a: Segment, b: Segment) {
    forall x :: !(In(x, a) && In(x, b))
  }

  ghost predicate AllDisjoint(s: seq<Segment>) {
    forall i, j :: 0 <= i < j < |s| ==> Disjoint(s[i], s[j])
  }

  /** One of them starts in the other. */
  predicate Touch(a: Segment, b: Segment) {
    || a.start <= b.start < a.start as int + a.len
    || b.start <= a.start < b.start as int + b.len
  }

  lemma TouchOrDisjoint(a: Segment, b: Segment)
    requires a.len > 0 && b.len > 0
    ensures Disjoint(a, b) <==> !Touch(a, b)
  {
    assert In(a.start, a) && In(b.start, b);
  }

  lemma EmptyDisjoint(a: Segment, b: Segment)
    requires a.len == 0 || b.len == 0
    ensures Disjoint(a, b)
  {
  }

  /** The stored segments are the non-empty ones of those that were accepted, and no two share an address. */
  ghost predicate Kept(seg: seq<Segment>, accepted: seq<Segment>) {
    && (forall a :: a in seg <==> a in accepted && a.len > 0)
    && AllDisjoint(accepted)
  }

  lemma AllDisjointNext(s: seq<Segment>, a: Segment)
    ensures AllDisjoint(s + [a]) <==> AllDisjoint(s) && forall b :: b in s ==> Disjoint(b, a)
  {
    if AllDisjoint(s + [a]) {
      assert (s + [a])[|s|] == a;
      assert forall i :: 0 <= i < |s| ==> (s + [a])[i] == s[i];
    }
  }

  lemma AllDisjointPrefix(s: seq<Segment>, t: seq<Segment>)
    requires s <= t && AllDisjoint(t)
    ensures AllDisjoint(s)
  {
    assert forall i :: 0 <= i < |s| ==> s[i] == t[i];
  }

  lemma KeptNext(seg: seq<Segment>, accepted: seq<Segment>, a: Segment)
    requires Kept(seg, accepted)
    ensures AllDisjoint(accepted + [a]) <==> a.len == 0 || forall b :: b in seg ==> Disjoint(b, a)
    ensures AllDisjoint(accepted + [a]) ==> Kept(if a.len == 0 then seg else seg + [a], accepted + [a])
  {
    AllDisjointNext(accepted, a);
    forall b | b in accepted && (b.len == 0 || a.len == 0) ensures Disjoint(b, a) {
      EmptyDisjoint(b, a);
    }
  }

  /** The k-th segment of a list is accepted if and only if it shares no address with those before it, the empty
      ones included; accepted ones stay pairwise disjoint. */
  method AddSegmentOverlap(s: seq<Segment>, start: word, len: word, ghost all: seq<Segment>, ghost k: nat)
    returns (ok: bool, r: seq<Segment>)
    requires k < |all| && all[k] == Segment(start, len) && Kept(s, all[..k])
    ensures ok <==> AllDisjoint(all[..k + 1])
    ensures ok ==> Kept(r, all[..k + 1])
    ensures !ok ==> !AllDisjoint(all)
    ensures r == if ok && len > 0 then s + [Segment(start, len)] else s
  {
    ghost var a := Segment(start, len);
    KeptNext(s, all[..k], a);
    assert all[..k] + [a] == all[..k + 1];
    if AllDisjoint(all) {
      AllDisjointPrefix(all[..k + 1], all);
    }
    if len == 0 {
      return true, s;
    }
    for i := 0 to |s|
      invariant forall j :: 0 <= j < i ==> Disjoint(s[j], a)
    {
      assert s[i] in s;
      TouchOrDisjoint(s[i], a);
      if start >= s[i].start && start < s[i].start as int + s[i].len {
        return false, s;
      }
      if s[i].start >= start && s[i].start < start as int + len {
        return false, s;
      }
    }
    return true, s + [Segment(start, len)];
  }

  // The fields of the start stream.

  datatype Start = Start(
    addrtabStart: word, addrtabSize: word, assoctabStart: word, assoctabSize: word,
    readonlyStart: word, readonlyEnd: word, paramStart: word, paramEnd: word,
    objPtr: word, objCount: word, appcallback: word, groupobjPtr: word, seg0: word, seg1: word,
    sphandler: word, initaddr: word, runaddr: word, saveaddr: word, eepromStart: word, eepromEnd: word
  )

  function StartOf(f: seq<word>): Start
    requires |f| == 21
  {
    Start(f[0], f[1], f[2], f[3], f[4], f[5], f[6], f[7], f[8], f[9], f[10], f[11], f[12], f[13], f[14], f[15],
          f[16], f[17], f[18], f[19])
  }

  predicate NotNegative(s: Start) {
    s.readonlyStart <= s.readonlyEnd && s.paramStart <= s.paramEnd && s.eepromStart <= s.eepromEnd
  }

  function Extent(start: word, end: word): Segment {
    Segment(start, if start <= end then end - start else 0)
  }

  /** The address table, the association table, the text, the EEPROM data and the parameters. */
  function Segments(s: Start): (r: seq<Segment>)
    ensures |r| == 5
  {
    [Segment(s.addrtabStart, s.addrtabSize), Segment(s.assoctabStart, s.assoctabSize),
     Extent(s.readonlyStart, s.readonlyEnd), Extent(s.eepromStart, s.eepromEnd), Extent(s.paramStart, s.paramEnd)]
  }

  const IMG_LODATA_OVERFLOW := 7
  const IMG_HIDATA_OVERFLOW := 8
  const IMG_TEXT_OVERFLOW := 9
  const IMG_NO_ADDRESS := 10
  const IMG_WRONG_SIZE := 11
  const IMG_IMAGE_LOADABLE := 12
  const IMG_WRONG_ADDRTAB := 26
  const IMG_ADDRTAB_OVERFLOW := 27
  const IMG_OVERLAP_ASSOCTAB := 28
  const IMG_OVERLAP_TEXT := 29
  const IMG_NEGATIV_TEXT_SIZE := 30
  const IMG_OVERLAP_PARAM := 31
  const IMG_OVERLAP_EEPROM := 32
  const IMG_OBJTAB_OVERFLOW := 33
  const IMG_WRONG_LOADCTL := 34

  /** What the sizes and the start stream of a BCU2 image have to be for the image to be loadable. */
  ghost predicate LayoutOk(s: Start, codeSize: nat) {
    && s.addrtabStart == 0x116 && 4 <= s.addrtabSize <= 0xff && s.assoctabSize <= 0xff
    && NotNegative(s) && AllDisjoint(Segments(s))
    && s.objCount <= 0xff && s.paramEnd <= codeSize + 0x100
  }

  /** The layout checks of PrepareLoadImage for a BCU2, in their order. */
  method CheckLayout(s: Start, codeSize: nat) returns (result: nat)
    ensures result == IMG_IMAGE_LOADABLE <==> LayoutOk(s, codeSize)
    ensures result in {IMG_OVERLAP_ASSOCTAB, IMG_OVERLAP_TEXT, IMG_OVERLAP_EEPROM, IMG_OVERLAP_PARAM} ==>
              !AllDisjoint(Segments(s))
  {
    if s.addrtabStart != 0x116 || s.addrtabSize < 4 {
      return IMG_WRONG_ADDRTAB;
    }
    if s.addrtabSize > 0xff {
      return IMG_ADDRTAB_OVERFLOW;
    }
    ghost var g := Segments(s);
    var ok, seg := AddSegmentOverlap([], s.addrtabStart, s.addrtabSize, g, 0);
    ok, seg := AddSegmentOverlap(seg, s.assoctabStart, s.assoctabSize, g, 1);
    if !ok {
      return IMG_OVERLAP_ASSOCTAB;
    }
    if s.assoctabSize > 0xff {
      return IMG_ADDRTAB_OVERFLOW;
    }
    result := CheckProgram(s, codeSize, seg);
  }

  /** The EEPROM data and the parameters. */
  method CheckData(s: Start, stored: seq<Segment>) returns (result: nat)
    requires NotNegative(s) && Kept(stored, Segments(s)[..3])
    ensures result == IMG_IMAGE_LOADABLE <==> AllDisjoint(Segments(s))
    ensures result in {IMG_IMAGE_LOADABLE, IMG_OVERLAP_EEPROM, IMG_OVERLAP_PARAM}
  {
    ghost var g := Segments(s);
    assert g[..5] == g;
    var ok, seg := AddSegmentOverlap(stored, s.eepromStart, s.eepromEnd - s.eepromStart, g, 3);
    if !ok {
      return IMG_OVERLAP_EEPROM;
    }
    ok, seg := AddSegmentOverlap(seg, s.paramStart, s.paramEnd - s.paramStart, g, 4);
    return if ok then IMG_IMAGE_LOADABLE else IMG_OVERLAP_PARAM;
  }

  /** The three segments of the program. */
  method CheckSegments(s: Start, tables: seq<Segment>) returns (result: nat)
    requires Kept(tables, Segments(s)[..2])
    ensures result == IMG_IMAGE_LOADABLE <==> NotNegative(s) && AllDisjoint(Segments(s))
    ensures result in {IMG_OVERLAP_TEXT, IMG_OVERLAP_EEPROM, IMG_OVERLAP_PARAM} ==> !AllDisjoint(Segments(s))
    ensures result in {IMG_IMAGE_LOADABLE, IMG_OVERLAP_TEXT, IMG_OVERLAP_EEPROM, IMG_OVERLAP_PARAM,
                       IMG_NEGATIV_TEXT_SIZE}
  {
    if s.readonlyEnd < s.readonlyStart {
      return IMG_NEGATIV_TEXT_SIZE;
    }
    var ok, seg := AddSegmentOverlap(tables, s.readonlyStart, s.readonlyEnd - s.readonlyStart, Segments(s), 2);
    if !ok {
      return IMG_OVERLAP_TEXT;
    }
    if s.paramEnd < s.paramStart || s.eepromEnd < s.eepromStart {
      return IMG_NEGATIV_TEXT_SIZE;
    }
    result := CheckData(s, seg);
  }

  /** The rest of the checks. */
  method CheckProgram(s: Start, codeSize: nat, tables: seq<Segment>) returns (result: nat)
    requires Kept(tables, Segments(s)[..2])
    ensures result == IMG_IMAGE_LOADABLE <==>
            (&& NotNegative(s) && AllDisjoint(Segments(s)) && s.objCount <= 0xff && s.paramEnd <= codeSize + 0x100)
    ensures result in {IMG_OVERLAP_TEXT, IMG_OVERLAP_EEPROM, IMG_OVERLAP_PARAM} ==> !AllDisjoint(Segments(s))
    ensures result in {IMG_IMAGE_LOADABLE, IMG_OVERLAP_TEXT, IMG_OVERLAP_EEPROM, IMG_OVERLAP_PARAM,
                       IMG_NEGATIV_TEXT_SIZE, IMG_OBJTAB_OVERFLOW, IMG_WRONG_LOADCTL}
  {
    result := CheckSegments(s, tables);
    if result == IMG_IMAGE_LOADABLE && s.objCount > 0xff {
      return IMG_OBJTAB_OVERFLOW;
    }
    if result == IMG_IMAGE_LOADABLE && s.paramEnd > codeSize + 0x100 {
      return IMG_WRONG_LOADCTL;
    }
  }

  // The load requests.

  /** The ten bytes of a load control. */
  type control = s: seq<byte> | |s| == 10 witness [0, 0, 0, 0, 0, 0, 0, 0, 0, 0]

  /** A request: a write of `req` to a property of object `obj`, none for 0xff, with the expected answer, and a
      write of memory, none for address 0xffff. */
  datatype Request = Request(error: nat, obj: byte, prop: byte, start: word, req: control, result: byte,
                             memaddr: word, len: word)

  function Zero(first: byte): control {
    [first, 0, 0, 0, 0, 0, 0, 0, 0, 0]
  }

  function GenAlloc(start: word, len: word, access: byte, kind: byte, check: bool): control {
    [3, 0, Hi(start), Lo(start), Hi(len), Lo(len), access, kind, if check then 0x80 else 0, 0]
  }

  /** The control that makes a table known, with five bytes of the program's header. */
  function SetPointer(start: word, code: seq<byte>): control
    requires |code| >= 0x18
  {
    [3, 2, Hi(start), Lo(start), code[9], code[3], code[4], code[5], code[6], code[7]]
  }

  datatype Step = Step(control: byte, result: byte)

  const UNLOAD := Step(4, 0)
  const START := Step(1, 2)
  const CONTROL := Step(3, 2)
  const COMPLETE := Step(2, 1)

  function StepsOf(load: seq<Request>, obj: byte): seq<Step> {
    if load == [] then []
    else
      var r := load[|load| - 1];
      StepsOf(load[..|load| - 1], obj) + if r.obj == obj then [Step(r.req[0], r.result)] else []
  }

  /** The controls that an object is sent, with the answers that are expected. */
  function Steps(load: seq<Request>, obj: byte): seq<Step> {
    StepsOf(load, obj)
  }

  function Controls(n: nat): seq<Step> {
    seq(n, _ => CONTROL)
  }

  /** The life of an object: unload, start, controls, complete. */
  ghost predicate Protocol(s: seq<Step>) {
    exists n: nat :: s == [UNLOAD] + [START] + Controls(n) + [COMPLETE]
  }

  lemma StepsNext(load: seq<Request>, r: Request, obj: byte)
    ensures Steps(load + [r], obj) == Steps(load, obj) + if r.obj == obj then [Step(r.req[0], r.result)] else []
  {
    assert (load + [r])[..|load|] == load;
  }

  lemma ControlsNext(n: nat)
    ensures Controls(n) + [CONTROL] == Controls(n + 1)
  {
  }

  /** The requests so far: what each of the three objects has been sent. */
  ghost predicate Sent(load: seq<Request>, s1: seq<Step>, s2: seq<Step>, s3: seq<Step>) {
    Steps(load, 1) == s1 && Steps(load, 2) == s2 && Steps(load, 3) == s3
  }

  /** Where an object is between start and complete. */
  ghost predicate Busy(load: seq<Request>, obj: byte) {
    exists n: nat :: Steps(load, obj) == [UNLOAD] + [START] + Controls(n)
  }

  ghost predicate OthersSame(load: seq<Request>, load': seq<Request>, obj: byte) {
    forall k: byte :: 1 <= k <= 3 && k != obj ==> Steps(load', k) == Steps(load, k)
  }

  lemma SendUnload(load: seq<Request>, r: Request)
    requires r.req[0] == 4 && r.result == 0 && Steps(load, r.obj) == []
    ensures Steps(load + [r], r.obj) == [UNLOAD] && OthersSame(load, load + [r], r.obj)
  {
    SendOther(load, r);
    StepsNext(load, r, r.obj);
  }

  lemma SendStart(load: seq<Request>, r: Request)
    requires r.req[0] == 1 && r.result == 2 && Steps(load, r.obj) == [UNLOAD]
    ensures Busy(load + [r], r.obj) && OthersSame(load, load + [r], r.obj)
  {
    SendOther(load, r);
    StepsNext(load, r, r.obj);
    assert [UNLOAD] + [START] == [UNLOAD] + [START] + Controls(0);
  }

  lemma SendControl(load: seq<Request>, r: Request)
    requires r.req[0] == 3 && r.result == 2 && Busy(load, r.obj)
    ensures Busy(load + [r], r.obj) && OthersSame(load, load + [r], r.obj)
  {
    SendOther(load, r);
    var n: nat :| Steps(load, r.obj) == [UNLOAD] + [START] + Controls(n);
    StepsNext(load, r, r.obj);
    ControlsNext(n);
    assert Steps(load + [r], r.obj) == [UNLOAD] + [START] + (Controls(n) + [CONTROL]);
  }

  lemma SendComplete(load: seq<Request>, r: Request)
    requires r.req[0] == 2 && r.result == 1 && Busy(load, r.obj)
    ensures Protocol(Steps(load + [r], r.obj)) && OthersSame(load, load + [r], r.obj)
  {
    SendOther(load, r);
    StepsNext(load, r, r.obj);
  }

  lemma SendOther(load: seq<Request>, r: Request)
    ensures OthersSame(load, load + [r], r.obj)
  {
    forall k: byte | 1 <= k <= 3 && k != r.obj ensures Steps(load + [r], k) == Steps(load, k) {
      StepsNext(load, r, k);
    }
  }

  // The memory that the requests write.

  /** A write of memory, and the segment that the request allocates. Address x gets byte x - 0x100 of the code. */
  datatype Write = Write(target: Segment, area: Segment)

  /** What an allocation control allocates; the other controls allocate nothing. */
  function Allocated(req: control): Segment {
    if req[0] == 3 && req[1] == 0 then Segment(Word(req[2], req[3]), Word(req[4], req[5])) else Segment(0, 0)
  }

  function WriteTo(memaddr: word, len: word, area: Segment): seq<Write> {
    if memaddr == 0xffff then [] else [Write(Segment(memaddr, len), area)]
  }

  function WritesOf(load: seq<Request>): seq<Write> {
    if load == [] then []
    else
      var r := load[|load| - 1];
      WritesOf(load[..|load| - 1]) + WriteTo(r.memaddr, r.len, Allocated(r.req))
  }

  /** What the management client writes for the requests (eibd/libserver/managementclient.cpp:737-741). */
  function Writes(load: seq<Request>): seq<Write> {
    WritesOf(load)
  }

  /** A load control and the object it goes to. */
  datatype Told = Told(obj: byte, req: control)

  function ToldBy(r: Request): seq<Told> {
    if r.obj != 0xff && r.req[0] == 3 then [Told(r.obj, r.req)] else []
  }

  function ToldOf(load: seq<Request>): seq<Told> {
    if load == [] then [] else ToldOf(load[..|load| - 1]) + ToldBy(load[|load| - 1])
  }

  /** The controls between start and complete, of all objects, in order. */
  function AllTold(load: seq<Request>): seq<Told> {
    ToldOf(load)
  }

  lemma WritesNext(load: seq<Request>, r: Request)
    ensures Writes(load + [r]) == Writes(load) + WriteTo(r.memaddr, r.len, Allocated(r.req))
    ensures AllTold(load + [r]) == AllTold(load) + ToldBy(r)
  {
    assert (load + [r])[..|load|] == load;
  }

  lemma AllocatedGenAlloc(start: word, len: word, access: byte, kind: byte, check: bool)
    ensures Allocated(GenAlloc(start, len, access, kind, check)) == Segment(start, len)
  {
    WordParts(start, 0, 0);
    WordParts(len, 0, 0);
  }

  function AddrtabWrites(s: Start): seq<Write>
    requires s.addrtabStart == 0x116 && s.addrtabSize >= 4
  {
    var a := Segment(0x116, s.addrtabSize);
    WriteTo(0x116, 1, a) + WriteTo(0x119, s.addrtabSize - 4, a)
  }

  /** The length is one less than the size, in 16 bits. */
  function AssoctabWrites(s: Start): seq<Write> {
    WriteTo(s.assoctabStart, (s.assoctabSize - 1) % 0x10000, Segment(s.assoctabStart, s.assoctabSize))
  }

  const INIT := Segment(0x100, 0x16)

  function InitWrites(): seq<Write> {
    WriteTo(0x100, 1, INIT) + WriteTo(0x103, 0x13, INIT)
  }

  function ReadonlyWrites(s: Start): seq<Write> {
    var a := Extent(s.readonlyStart, s.readonlyEnd);
    var len := (a.len - 1) % 0x10000;
    if len == 0 then [] else WriteTo(a.start, len, a)
  }

  function EepromWrites(s: Start): seq<Write> {
    var a := Extent(s.eepromStart, s.eepromEnd);
    if a.len == 0 then [] else WriteTo(a.start, a.len, a)
  }

  function ParamWrites(s: Start): seq<Write> {
    var a := Extent(s.paramStart, s.paramEnd);
    if a.len <= 1 then [] else WriteTo(a.start, a.len, a)
  }

  function SegmentWrites(s: Start): seq<Write> {
    ReadonlyWrites(s) + EepromWrites(s) + ParamWrites(s)
  }

  function AllWrites(s: Start): seq<Write>
    requires s.addrtabStart == 0x116 && s.addrtabSize >= 4
  {
    AddrtabWrites(s) + AssoctabWrites(s) + InitWrites() + SegmentWrites(s)
  }

  // The controls of a layout.

  function AddrtabTold(s: Start, code: seq<byte>): seq<Told>
    requires |code| >= 0x18
  {
    [Told(1, GenAlloc(s.addrtabStart, s.addrtabSize, 0x31, 3, true)), Told(1, SetPointer(s.addrtabStart, code))]
  }

  function AssoctabTold(s: Start, code: seq<byte>): seq<Told>
    requires |code| >= 0x18
  {
    [Told(2, GenAlloc(s.assoctabStart, s.assoctabSize, 0x31, 3, true)), Told(2, SetPointer(s.assoctabStart, code))]
  }

  /** Low and high RAM, and the init segment. */
  function RamTold(): seq<Told> {
    [Told(3, GenAlloc(0x00C8, 0x0018, 0x32, 1, false)), Told(3, GenAlloc(0x0972, 0x004A, 0x32, 2, false)),
     Told(3, GenAlloc(0x0100, 0x0016, 0x32, 3, false))]
  }

  function SegmentTold(a: Segment, access: byte, check: bool, wanted: bool): seq<Told> {
    if wanted then [Told(3, GenAlloc(a.start, a.len, access, 3, check))] else []
  }

  function SegmentsTold(s: Start): seq<Told> {
    var r, e, p := Extent(s.readonlyStart, s.readonlyEnd), Extent(s.eepromStart, s.eepromEnd),
                   Extent(s.paramStart, s.paramEnd);
    SegmentTold(r, 0x30, true, r.len != 1) + SegmentTold(e, 0x31, false, e.len != 0)
    + SegmentTold(p, 0x32, true, p.len > 1)
  }

  function PointersTold(s: Start, code: seq<byte>): seq<Told>
    requires |code| >= 0x18
  {
    [Told(3, SetPointer(s.runaddr, code)),
     Told(3, [3, 3, Hi(s.initaddr), Lo(s.initaddr), Hi(s.saveaddr), Lo(s.saveaddr), Hi(s.sphandler),
              Lo(s.sphandler), 0, 0]),
     Told(3, [3, 4, Hi(s.objPtr), Lo(s.objPtr), s.objCount % 256, 0, 0, 0, 0, 0]),
     Told(3, [3, 5, Hi(s.appcallback), Lo(s.appcallback), Hi(s.groupobjPtr), Lo(s.groupobjPtr), Hi(s.seg0),
              Lo(s.seg0), Hi(s.seg1), Lo(s.seg1)])]
  }

  function LayoutTold(s: Start, code: seq<byte>): seq<Told>
    requires |code| >= 0x18
  {
    AddrtabTold(s, code) + AssoctabTold(s, code) + RamTold() + SegmentsTold(s) + PointersTold(s, code)
  }

  lemma SameWord(a: word, b: word)
    requires Hi(a) == Hi(b) && Lo(a) == Lo(b)
    ensures a == b
  {
  }

  lemma SplitEqual<T>(h: seq<T>, m: seq<T>, p: seq<T>, h': seq<T>, m': seq<T>, p': seq<T>)
    requires |h| == |h'| && |p| == |p'| && h + m + p == h' + m' + p'
    ensures h == h' && m == m' && p == p'
  {
    var s, s' := h + m + p, h' + m' + p';
    assert s[..|h|] == h && s[|h|..|s| - |p|] == m && s[|s| - |p|..] == p;
    assert s'[..|h|] == h' && s'[|h|..|s| - |p|] == m' && s'[|s| - |p|..] == p';
  }

  /** One control or none, with this access byte. */
  predicate Tagged(x: seq<Told>, access: byte) {
    x == [] || (|x| == 1 && x[0].req[6] == access)
  }

  ghost predicate NoneTagged(x: seq<Told>, access: byte) {
    forall e :: e in x ==> e.req[6] != access
  }

  lemma BothTagged(x: seq<Told>, y: seq<Told>, a: byte, b: byte, access: byte)
    requires Tagged(x, a) && Tagged(y, b) && a != access && b != access
    ensures NoneTagged(x + y, access)
  {
  }

  lemma OneTagged(x: seq<Told>, a: byte, access: byte)
    requires Tagged(x, a) && a != access
    ensures NoneTagged(x, access)
  {
  }

  lemma FirstTagged(x: seq<Told>, more: seq<Told>, y: seq<Told>, others: seq<Told>, access: byte)
    requires Tagged(x, access) && Tagged(y, access) && x + more == y + others
    requires NoneTagged(more, access) && NoneTagged(others, access)
    ensures x == y && more == others
  {
    var s := x + more;
    assert x != [] ==> s[0] == x[0];
    assert y != [] ==> s[0] == y[0];
    assert x == [] ==> s == more;
    assert y == [] ==> s == others;
    assert s[|x|..] == more && s[|y|..] == others;
  }

  /** The access byte tells the optional segments apart. */
  lemma TaggedEqual(x1: seq<Told>, x2: seq<Told>, x3: seq<Told>, y1: seq<Told>, y2: seq<Told>, y3: seq<Told>)
    requires Tagged(x1, 0x30) && Tagged(x2, 0x31) && Tagged(x3, 0x32)
    requires Tagged(y1, 0x30) && Tagged(y2, 0x31) && Tagged(y3, 0x32)
    requires x1 + x2 + x3 == y1 + y2 + y3
    ensures x1 == y1 && x2 == y2 && x3 == y3
  {
    RegroupTwo(x1, x2, x3);
    RegroupTwo(y1, y2, y3);
    BothTagged(x2, x3, 0x31, 0x32, 0x30);
    BothTagged(y2, y3, 0x31, 0x32, 0x30);
    OneTagged(x3, 0x32, 0x31);
    OneTagged(y3, 0x32, 0x31);
    FirstTagged(x1, x2 + x3, y1, y2 + y3, 0x30);
    FirstTagged(x2, x3, y2, y3, 0x31);
  }

  lemma SegmentTells(a: Segment, b: Segment, access: byte, check: bool)
    requires SegmentTold(a, access, check, true) == SegmentTold(b, access, check, true)
    ensures a == b
  {
    var x, y := GenAlloc(a.start, a.len, access, 3, check), GenAlloc(b.start, b.len, access, 3, check);
    assert SegmentTold(a, access, check, true)[0] == SegmentTold(b, access, check, true)[0];
    assert x[2] == y[2] && x[3] == y[3] && x[4] == y[4] && x[5] == y[5];
    SameWord(a.start, b.start);
    SameWord(a.len, b.len);
  }

  /** Whether a segment is wanted and which one it is, from its control or its absence. */
  lemma SegmentToldTells(a: Segment, wanted: bool, b: Segment, wanted': bool, access: byte, check: bool)
    requires SegmentTold(a, access, check, wanted) == SegmentTold(b, access, check, wanted')
    ensures wanted == wanted' && (wanted ==> a == b)
  {
    if wanted && wanted' {
      SegmentTells(a, b, access, check);
    }
  }

  lemma ReadonlyTells(s: Start, t: Start)
    requires NotNegative(s) && NotNegative(t)
    requires var r, r' := Extent(s.readonlyStart, s.readonlyEnd), Extent(t.readonlyStart, t.readonlyEnd);
             SegmentTold(r, 0x30, true, r.len != 1) == SegmentTold(r', 0x30, true, r'.len != 1)
    ensures ReadonlyWrites(s) == ReadonlyWrites(t)
  {
    var r, r' := Extent(s.readonlyStart, s.readonlyEnd), Extent(t.readonlyStart, t.readonlyEnd);
    SegmentToldTells(r, r.len != 1, r', r'.len != 1, 0x30, true);
  }

  lemma EepromTells(s: Start, t: Start)
    requires NotNegative(s) && NotNegative(t)
    requires var e, e' := Extent(s.eepromStart, s.eepromEnd), Extent(t.eepromStart, t.eepromEnd);
             SegmentTold(e, 0x31, false, e.len != 0) == SegmentTold(e', 0x31, false, e'.len != 0)
    ensures EepromWrites(s) == EepromWrites(t)
  {
    var e, e' := Extent(s.eepromStart, s.eepromEnd), Extent(t.eepromStart, t.eepromEnd);
    SegmentToldTells(e, e.len != 0, e', e'.len != 0, 0x31, false);
  }

  lemma ParamTells(s: Start, t: Start)
    requires NotNegative(s) && NotNegative(t)
    requires var p, p' := Extent(s.paramStart, s.paramEnd), Extent(t.paramStart, t.paramEnd);
             SegmentTold(p, 0x32, true, p.len > 1) == SegmentTold(p', 0x32, true, p'.len > 1)
    ensures ParamWrites(s) == ParamWrites(t)
  {
    var p, p' := Extent(s.paramStart, s.paramEnd), Extent(t.paramStart, t.paramEnd);
    SegmentToldTells(p, p.len > 1, p', p'.len > 1, 0x32, true);
  }

  lemma SegmentsTell(s: Start, t: Start)
    requires NotNegative(s) && NotNegative(t) && SegmentsTold(s) == SegmentsTold(t)
    ensures SegmentWrites(s) == SegmentWrites(t)
  {
    var r, e, p := Extent(s.readonlyStart, s.readonlyEnd), Extent(s.eepromStart, s.eepromEnd),
                   Extent(s.paramStart, s.paramEnd);
    var r', e', p' := Extent(t.readonlyStart, t.readonlyEnd), Extent(t.eepromStart, t.eepromEnd),
                      Extent(t.paramStart, t.paramEnd);
    TaggedEqual(SegmentTold(r, 0x30, true, r.len != 1), SegmentTold(e, 0x31, false, e.len != 0),
                SegmentTold(p, 0x32, true, p.len > 1), SegmentTold(r', 0x30, true, r'.len != 1),
                SegmentTold(e', 0x31, false, e'.len != 0), SegmentTold(p', 0x32, true, p'.len > 1));
    ReadonlyTells(s, t);
    EepromTells(s, t);
    ParamTells(s, t);
  }

  /** What the tables' controls tell. */
  lemma TablesTell(s: Start, t: Start, code: seq<byte>)
    requires |code| >= 0x18
    requires AddrtabTold(s, code) == AddrtabTold(t, code) && AssoctabTold(s, code) == AssoctabTold(t, code)
    ensures s.addrtabStart == t.addrtabStart && s.addrtabSize == t.addrtabSize
    ensures s.assoctabStart == t.assoctabStart && s.assoctabSize == t.assoctabSize
  {
    assert AddrtabTold(s, code)[0].req == AddrtabTold(t, code)[0].req;
    assert AssoctabTold(s, code)[0].req == AssoctabTold(t, code)[0].req;
    SegmentTells(Segment(s.addrtabStart, s.addrtabSize), Segment(t.addrtabStart, t.addrtabSize), 0x31, true);
    SegmentTells(Segment(s.assoctabStart, s.assoctabSize), Segment(t.assoctabStart, t.assoctabSize), 0x31, true);
  }

  lemma PointersTell(s: Start, t: Start, code: seq<byte>)
    requires |code| >= 0x18 && PointersTold(s, code) == PointersTold(t, code)
    requires s.objCount <= 0xff && t.objCount <= 0xff
    ensures s.runaddr == t.runaddr && s.initaddr == t.initaddr && s.saveaddr == t.saveaddr && s.sphandler == t.sphandler
    ensures s.objPtr == t.objPtr && s.objCount == t.objCount
    ensures s.appcallback == t.appcallback && s.groupobjPtr == t.groupobjPtr && s.seg0 == t.seg0 && s.seg1 == t.seg1
  {
    var x, y := PointersTold(s, code), PointersTold(t, code);
    forall k, i | 0 <= k < 4 && 0 <= i < 10 ensures x[k].req[i] == y[k].req[i] {
    }
    PointerTells(x[0].req, y[0].req, s.runaddr, t.runaddr, 2);
    PointerTells(x[1].req, y[1].req, s.initaddr, t.initaddr, 2);
    PointerTells(x[1].req, y[1].req, s.saveaddr, t.saveaddr, 4);
    PointerTells(x[1].req, y[1].req, s.sphandler, t.sphandler, 6);
    PointerTells(x[2].req, y[2].req, s.objPtr, t.objPtr, 2);
    PointerTells(x[3].req, y[3].req, s.appcallback, t.appcallback, 2);
    PointerTells(x[3].req, y[3].req, s.groupobjPtr, t.groupobjPtr, 4);
    PointerTells(x[3].req, y[3].req, s.seg0, t.seg0, 6);
    PointerTells(x[3].req, y[3].req, s.seg1, t.seg1, 8);
    assert x[2].req[4] == s.objCount && y[2].req[4] == t.objCount;
  }

  lemma PointerTells(x: control, y: control, a: word, b: word, i: nat)
    requires i < 9 && x == y && x[i] == Hi(a) && x[i + 1] == Lo(a) && y[i] == Hi(b) && y[i + 1] == Lo(b)
    ensures a == b
  {
    SameWord(a, b);
  }

  lemma LayoutParts(s: Start, t: Start, code: seq<byte>)
    requires |code| >= 0x18 && LayoutTold(s, code) == LayoutTold(t, code)
    ensures AddrtabTold(s, code) == AddrtabTold(t, code) && AssoctabTold(s, code) == AssoctabTold(t, code)
    ensures SegmentsTold(s) == SegmentsTold(t) && PointersTold(s, code) == PointersTold(t, code)
  {
    var h, h' := AddrtabTold(s, code) + AssoctabTold(s, code), AddrtabTold(t, code) + AssoctabTold(t, code);
    SplitEqual(h + RamTold(), SegmentsTold(s), PointersTold(s, code),
               h' + RamTold(), SegmentsTold(t), PointersTold(t, code));
    SplitEqual(AddrtabTold(s, code), AssoctabTold(s, code), RamTold(),
               AddrtabTold(t, code), AssoctabTold(t, code), RamTold());
  }

  /** The controls tell the whole layout: of two accepted ones with the same controls, all pointers, the tables and
      what is written of the optional segments are the same. */
  lemma ToldDetermines(s: Start, t: Start, code: seq<byte>, codeSize: nat)
    requires |code| >= 0x18 && LayoutOk(s, codeSize) && LayoutOk(t, codeSize)
    requires LayoutTold(s, code) == LayoutTold(t, code)
    ensures t == s.(readonlyStart := t.readonlyStart, readonlyEnd := t.readonlyEnd,
                    eepromStart := t.eepromStart, eepromEnd := t.eepromEnd,
                    paramStart := t.paramStart, paramEnd := t.paramEnd)
    ensures AllWrites(s) == AllWrites(t)
  {
    LayoutParts(s, t, code);
    SegmentsTell(s, t);
    TablesTell(s, t, code);
    PointersTell(s, t, code);
  }

  // A device that obeys the controls.

  /** A piece of memory that a control allocates for an object: its access rights, its kind, and whether it is to be
      checked. */
  datatype Piece = Piece(obj: byte, area: Segment, access: byte, kind: byte, check: bool)

  /** What the controls have told a device. */
  datatype Device = Device(pieces: seq<Piece>, entries: map<byte, word>, init: word, save: word, stack: word,
                           objects: word, count: byte, callback: word, groupObjects: word, seg0: word, seg1: word)

  const BLANK := Device([], map[], 0, 0, 0, 0, 0, 0, 0, 0, 0)

  function Obey(d: Device, t: Told): Device {
    var r := t.req;
    var a, b, c, e := Word(r[2], r[3]), Word(r[4], r[5]), Word(r[6], r[7]), Word(r[8], r[9]);
    match r[1]
    case 0 => d.(pieces := d.pieces + [Piece(t.obj, Segment(a, b), r[6], r[7], r[8] == 0x80)])
    case 2 => d.(entries := d.entries[t.obj := a])
    case 3 => d.(init := a, save := b, stack := c)
    case 4 => d.(objects := a, count := r[4])
    case 5 => d.(callback := a, groupObjects := b, seg0 := c, seg1 := e)
    case _ => d
  }

  function ObeyAll(d: Device, ts: seq<Told>): Device
    decreases |ts|
  {
    if ts == [] then d else ObeyAll(Obey(d, ts[0]), ts[1..])
  }

  lemma {:induction false} ObeyAppend(d: Device, a: seq<Told>, b: seq<Told>)
    ensures ObeyAll(d, a + b) == ObeyAll(ObeyAll(d, a), b)
    decreases |a|
  {
    if a == [] {
      assert a + b == b;
    } else {
      assert (a + b)[0] == a[0] && (a + b)[1..] == a[1..] + b;
      ObeyAppend(Obey(d, a[0]), a[1..], b);
    }
  }

  lemma ObeyOne(d: Device, t: Told)
    ensures ObeyAll(d, [t]) == Obey(d, t)
  {
  }

  lemma ObeyTwo(d: Device, t: Told, u: Told)
    ensures ObeyAll(d, [t, u]) == Obey(Obey(d, t), u)
  {
    assert [t, u][1..] == [u];
    ObeyOne(Obey(d, t), u);
  }

  lemma ObeyAllocation(d: Device, obj: byte, a: Segment, access: byte, kind: byte, check: bool)
    ensures Obey(d, Told(obj, GenAlloc(a.start, a.len, access, kind, check)))
            == d.(pieces := d.pieces + [Piece(obj, a, access, kind, check)])
  {
    WordParts(a.start, 0, 0);
    WordParts(a.len, 0, 0);
  }

  lemma ObeyTable(d: Device, obj: byte, a: Segment, code: seq<byte>)
    requires |code| >= 0x18
    ensures ObeyAll(d, [Told(obj, GenAlloc(a.start, a.len, 0x31, 3, true)), Told(obj, SetPointer(a.start, code))])
            == d.(pieces := d.pieces + [Piece(obj, a, 0x31, 3, true)], entries := d.entries[obj := a.start])
  {
    ObeyTwo(d, Told(obj, GenAlloc(a.start, a.len, 0x31, 3, true)), Told(obj, SetPointer(a.start, code)));
    ObeyAllocation(d, obj, a, 0x31, 3, true);
    WordParts(a.start, 0, 0);
  }

  function RamPieces(): seq<Piece> {
    [Piece(3, Segment(0xC8, 0x18), 0x32, 1, false), Piece(3, Segment(0x972, 0x4A), 0x32, 2, false),
     Piece(3, Segment(0x100, 0x16), 0x32, 3, false)]
  }

  lemma ObeyRam(d: Device)
    ensures ObeyAll(d, RamTold()) == d.(pieces := d.pieces + RamPieces())
  {
    var a, b, c := Segment(0xC8, 0x18), Segment(0x972, 0x4A), Segment(0x100, 0x16);
    var x, y, z := Told(3, GenAlloc(a.start, a.len, 0x32, 1, false)), Told(3, GenAlloc(b.start, b.len, 0x32, 2, false)),
                   Told(3, GenAlloc(c.start, c.len, 0x32, 3, false));
    assert RamTold() == [x, y] + [z];
    ObeyAppend(d, [x, y], [z]);
    ObeyTwo(d, x, y);
    ObeyOne(Obey(Obey(d, x), y), z);
    ObeyRamPieces(d, a, b, c);
  }

  lemma ObeyRamPieces(d: Device, a: Segment, b: Segment, c: Segment)
    ensures var x, y, z := Told(3, GenAlloc(a.start, a.len, 0x32, 1, false)),
                           Told(3, GenAlloc(b.start, b.len, 0x32, 2, false)),
                           Told(3, GenAlloc(c.start, c.len, 0x32, 3, false));
            Obey(Obey(Obey(d, x), y), z)
            == d.(pieces := d.pieces + [Piece(3, a, 0x32, 1, false), Piece(3, b, 0x32, 2, false),
                                        Piece(3, c, 0x32, 3, false)])
  {
    var p, q := Piece(3, a, 0x32, 1, false), Piece(3, b, 0x32, 2, false);
    ObeyAllocation(d, 3, a, 0x32, 1, false);
    ObeyAllocation(d.(pieces := d.pieces + [p]), 3, b, 0x32, 2, false);
    ObeyAllocation(d.(pieces := d.pieces + [p] + [q]), 3, c, 0x32, 3, false);
    assert d.pieces + [p] + [q] + [Piece(3, c, 0x32, 3, false)]
           == d.pieces + [p, q, Piece(3, c, 0x32, 3, false)];
  }

  function If(wanted: bool, p: Piece): seq<Piece> {
    if wanted then [p] else []
  }

  /** The text unless it has one byte, the EEPROM data unless they are empty, the parameters from two bytes on. */
  function ProgramPieces(s: Start): seq<Piece>
    requires NotNegative(s)
  {
    var r, e, p := s.readonlyEnd - s.readonlyStart, s.eepromEnd - s.eepromStart, s.paramEnd - s.paramStart;
    If(r != 1, Piece(3, Segment(s.readonlyStart, r), 0x30, 3, true))
    + If(e != 0, Piece(3, Segment(s.eepromStart, e), 0x31, 3, false))
    + If(p > 1, Piece(3, Segment(s.paramStart, p), 0x32, 3, true))
  }

  lemma ObeySegment(d: Device, a: Segment, access: byte, check: bool, wanted: bool)
    ensures ObeyAll(d, SegmentTold(a, access, check, wanted))
            == d.(pieces := d.pieces + If(wanted, Piece(3, a, access, 3, check)))
  {
    ObeyAllocation(d, 3, a, access, 3, check);
  }

  lemma ObeyThree(d: Device, r: Segment, e: Segment, p: Segment, wr: bool, we: bool, wp: bool)
    ensures ObeyAll(d, SegmentTold(r, 0x30, true, wr) + SegmentTold(e, 0x31, false, we)
                       + SegmentTold(p, 0x32, true, wp))
            == d.(pieces := d.pieces + (If(wr, Piece(3, r, 0x30, 3, true)) + If(we, Piece(3, e, 0x31, 3, false))
                                        + If(wp, Piece(3, p, 0x32, 3, true))))
  {
    var x, y, z := SegmentTold(r, 0x30, true, wr), SegmentTold(e, 0x31, false, we), SegmentTold(p, 0x32, true, wp);
    var a, b, c := If(wr, Piece(3, r, 0x30, 3, true)), If(we, Piece(3, e, 0x31, 3, false)),
                   If(wp, Piece(3, p, 0x32, 3, true));
    ObeySegment(d, r, 0x30, true, wr);
    ObeySegment(d.(pieces := d.pieces + a), e, 0x31, false, we);
    ObeySegment(d.(pieces := d.pieces + a + b), p, 0x32, true, wp);
    ObeyPieces(d, x, y, z, a, b, c);
  }

  lemma ObeyPieces(d: Device, x: seq<Told>, y: seq<Told>, z: seq<Told>, a: seq<Piece>, b: seq<Piece>, c: seq<Piece>)
    requires ObeyAll(d, x) == d.(pieces := d.pieces + a)
    requires ObeyAll(d.(pieces := d.pieces + a), y) == d.(pieces := d.pieces + a + b)
    requires ObeyAll(d.(pieces := d.pieces + a + b), z) == d.(pieces := d.pieces + a + b + c)
    ensures ObeyAll(d, x + y + z) == d.(pieces := d.pieces + (a + b + c))
  {
    ObeyAppend(d, x + y, z);
    ObeyAppend(d, x, y);
    assert d.pieces + a + b + c == d.pieces + (a + b + c);
  }

  lemma ObeySegments(d: Device, s: Start)
    requires NotNegative(s)
    ensures ObeyAll(d, SegmentsTold(s)) == d.(pieces := d.pieces + ProgramPieces(s))
  {
    var r, e, p := Extent(s.readonlyStart, s.readonlyEnd), Extent(s.eepromStart, s.eepromEnd),
                   Extent(s.paramStart, s.paramEnd);
    var told := SegmentTold(r, 0x30, true, r.len != 1) + SegmentTold(e, 0x31, false, e.len != 0)
                + SegmentTold(p, 0x32, true, p.len > 1);
    assert SegmentsTold(s) == told;
    ObeyThree(d, r, e, p, r.len != 1, e.len != 0, p.len > 1);
  }

  lemma ObeyPointers(d: Device, s: Start, code: seq<byte>)
    requires |code| >= 0x18 && s.objCount <= 0xff
    ensures ObeyAll(d, PointersTold(s, code))
            == d.(entries := d.entries[3 := s.runaddr], init := s.initaddr, save := s.saveaddr, stack := s.sphandler,
                  objects := s.objPtr, count := s.objCount, callback := s.appcallback,
                  groupObjects := s.groupobjPtr, seg0 := s.seg0, seg1 := s.seg1)
  {
    var t := PointersTold(s, code);
    assert t == [t[0], t[1]] + [t[2], t[3]];
    ObeyAppend(d, [t[0], t[1]], [t[2], t[3]]);
    ObeyTwo(d, t[0], t[1]);
    var d' := Obey(Obey(d, t[0]), t[1]);
    ObeyTwo(d', t[2], t[3]);
    ObeyEntryAndTask(d, s, code);
    ObeyObjectsAndCallbacks(d', s, code);
  }

  lemma ObeyEntryAndTask(d: Device, s: Start, code: seq<byte>)
    requires |code| >= 0x18
    ensures Obey(Obey(d, PointersTold(s, code)[0]), PointersTold(s, code)[1])
            == d.(entries := d.entries[3 := s.runaddr], init := s.initaddr, save := s.saveaddr, stack := s.sphandler)
  {
    WordParts(s.runaddr, 0, 0);
    WordParts(s.initaddr, 0, 0);
    WordParts(s.saveaddr, 0, 0);
    WordParts(s.sphandler, 0, 0);
  }

  lemma ObeyObjectsAndCallbacks(d: Device, s: Start, code: seq<byte>)
    requires |code| >= 0x18 && s.objCount <= 0xff
    ensures Obey(Obey(d, PointersTold(s, code)[2]), PointersTold(s, code)[3])
            == d.(objects := s.objPtr, count := s.objCount, callback := s.appcallback, groupObjects := s.groupobjPtr,
                  seg0 := s.seg0, seg1 := s.seg1)
  {
    WordParts(s.objPtr, 0, 0);
    WordParts(s.appcallback, 0, 0);
    WordParts(s.groupobjPtr, 0, 0);
    WordParts(s.seg0, 0, 0);
    WordParts(s.seg1, 0, 0);
  }

  /** A device that obeys the controls ends with the layout of the image: the two tables as objects 1 and 2, the RAM
      and the program's segments as object 3, and every entry point and pointer as the start stream has it. */
  lemma LayoutLoaded(s: Start, code: seq<byte>, codeSize: nat)
    requires |code| >= 0x18 && LayoutOk(s, codeSize)
    ensures ObeyAll(BLANK, LayoutTold(s, code))
            == Device([Piece(1, Segment(0x116, s.addrtabSize), 0x31, 3, true),
                       Piece(2, Segment(s.assoctabStart, s.assoctabSize), 0x31, 3, true)]
                      + RamPieces() + ProgramPieces(s),
                      map[1 := 0x116, 2 := s.assoctabStart, 3 := s.runaddr],
                      s.initaddr, s.saveaddr, s.sphandler, s.objPtr, s.objCount, s.appcallback, s.groupobjPtr,
                      s.seg0, s.seg1)
  {
    var a, b, c, e, p := AddrtabTold(s, code), AssoctabTold(s, code), RamTold(), SegmentsTold(s),
                         PointersTold(s, code);
    ObeyAppend(BLANK, a + b + c + e, p);
    ObeyAppend(BLANK, a + b + c, e);
    ObeyAppend(BLANK, a + b, c);
    ObeyTables(s, code);
    ObeyRam(ObeyAll(BLANK, a + b));
    ObeySegments(ObeyAll(BLANK, a + b + c), s);
    ObeyPointers(ObeyAll(BLANK, a + b + c + e), s, code);
  }

  lemma ObeyTables(s: Start, code: seq<byte>)
    requires |code| >= 0x18
    ensures ObeyAll(BLANK, AddrtabTold(s, code) + AssoctabTold(s, code))
            == BLANK.(pieces := [Piece(1, Segment(s.addrtabStart, s.addrtabSize), 0x31, 3, true),
                                 Piece(2, Segment(s.assoctabStart, s.assoctabSize), 0x31, 3, true)],
                      entries := map[1 := s.addrtabStart, 2 := s.assoctabStart])
  {
    var a, b := AddrtabTold(s, code), AssoctabTold(s, code);
    ObeyAppend(BLANK, a, b);
    ObeyTable(BLANK, 1, Segment(s.addrtabStart, s.addrtabSize), code);
    ObeyTable(ObeyAll(BLANK, a), 2, Segment(s.assoctabStart, s.assoctabSize), code);
  }

  /** The write stays in what its request allocates. */
  ghost predicate InPlace(w: Write) {
    forall x :: In(x, w.target) ==> In(x, w.area)
  }

  /** Every byte that is written is a byte of the code. */
  ghost predicate InCode(w: Write, codeSize: nat) {
    forall x :: In(x, w.target) ==> 0x100 <= x < 0x100 + codeSize
  }

  ghost predicate AllInPlace(ws: seq<Write>) {
    forall w :: w in ws ==> InPlace(w)
  }

  ghost predicate AllInCode(ws: seq<Write>, codeSize: nat) {
    forall w :: w in ws ==> InCode(w, codeSize)
  }

  /** The association table and the text are not empty; one at 0xffff counts as no address at all. */
  predicate TablesNonEmpty(s: Start) {
    && (s.assoctabSize > 0 || s.assoctabStart == 0xffff)
    && (s.readonlyStart < s.readonlyEnd || s.readonlyStart == 0xffff)
  }

  predicate Spans(start: word, len: int, codeSize: nat) {
    len > 0 ==> 0x100 <= start && start as int + len <= 0x100 + codeSize
  }

  /** What is written of the segments does not start before the code nor end after it. */
  predicate CodeSpans(s: Start, codeSize: nat) {
    && Spans(0x119, s.addrtabSize - 4, codeSize)
    && (s.assoctabStart != 0xffff ==> Spans(s.assoctabStart, s.assoctabSize - 1, codeSize))
    && Spans(s.readonlyStart, s.readonlyEnd - s.readonlyStart - 1, codeSize)
    && Spans(s.eepromStart, s.eepromEnd - s.eepromStart, codeSize)
    && (s.paramEnd - s.paramStart > 1 ==> 0x100 <= s.paramStart)
  }

  lemma WritesAppend(a: seq<Write>, b: seq<Write>, codeSize: nat)
    ensures AllInPlace(a + b) <==> AllInPlace(a) && AllInPlace(b)
    ensures AllInCode(a + b, codeSize) <==> AllInCode(a, codeSize) && AllInCode(b, codeSize)
  {
    assert forall w :: w in a + b <==> w in a || w in b;
  }

  lemma InPlaceByEnds(w: Write)
    ensures InPlace(w) <==>
            (w.target.len == 0
             || (w.area.start <= w.target.start
                 && w.target.start as int + w.target.len <= w.area.start as int + w.area.len))
  {
    if w.target.len > 0 {
      assert In(w.target.start, w.target);
      assert In(w.target.start as int + w.target.len - 1, w.target);
    }
  }

  lemma InCodeByEnds(w: Write, codeSize: nat)
    ensures InCode(w, codeSize) <==> Spans(w.target.start, w.target.len, codeSize)
  {
    if w.target.len > 0 {
      assert In(w.target.start, w.target);
      assert In(w.target.start as int + w.target.len - 1, w.target);
    }
  }

  lemma OneWrite(w: Write, codeSize: nat)
    ensures AllInPlace([w]) <==> InPlace(w)
    ensures AllInCode([w], codeSize) <==> InCode(w, codeSize)
  {
    assert w in [w];
  }

  /** One request. */
  lemma WriteToExactly(start: word, len: word, a: Segment, codeSize: nat)
    requires a.start == start
    ensures AllInPlace(WriteTo(start, len, a)) <==> start == 0xffff || len <= a.len
    ensures AllInCode(WriteTo(start, len, a), codeSize) <==> start == 0xffff || Spans(start, len, codeSize)
  {
    var w := Write(Segment(start, len), a);
    OneWrite(w, codeSize);
    InPlaceByEnds(w);
    InCodeByEnds(w, codeSize);
  }

  lemma FixedWritesExactly(s: Start, codeSize: nat)
    requires s.addrtabStart == 0x116 && 4 <= s.addrtabSize && codeSize >= 0x18
    ensures AllInPlace(AddrtabWrites(s)) && AllInPlace(InitWrites()) && AllInCode(InitWrites(), codeSize)
    ensures AllInCode(AddrtabWrites(s), codeSize) <==> Spans(0x119, s.addrtabSize - 4, codeSize)
  {
    var a := Segment(0x116, s.addrtabSize);
    var w1, w2 := Write(Segment(0x116, 1), a), Write(Segment(0x119, s.addrtabSize - 4), a);
    var i1, i2 := Write(Segment(0x100, 1), INIT), Write(Segment(0x103, 0x13), INIT);
    WritesAppend([w1], [w2], codeSize);
    WritesAppend([i1], [i2], codeSize);
    InitWritesInside(codeSize);
    OneWrite(w1, codeSize);
    OneWrite(w2, codeSize);
    InPlaceByEnds(w1);
    InPlaceByEnds(w2);
    InCodeByEnds(w1, codeSize);
    InCodeByEnds(w2, codeSize);
  }

  lemma InitWritesInside(codeSize: nat)
    requires codeSize >= 0x18
    ensures AllInPlace(InitWrites()) && AllInCode(InitWrites(), codeSize)
  {
    var i1, i2 := Write(Segment(0x100, 1), INIT), Write(Segment(0x103, 0x13), INIT);
    WritesAppend([i1], [i2], codeSize);
    OneWrite(i1, codeSize);
    OneWrite(i2, codeSize);
    InPlaceByEnds(i1);
    InPlaceByEnds(i2);
  }

  lemma TableWritesExactly(s: Start, codeSize: nat)
    requires NotNegative(s) && codeSize <= 0x36f
    ensures AllInPlace(AssoctabWrites(s)) && AllInPlace(ReadonlyWrites(s)) <==> TablesNonEmpty(s)
    ensures AllInCode(AssoctabWrites(s), codeSize) && AllInCode(ReadonlyWrites(s), codeSize) <==>
            (&& TablesNonEmpty(s)
             && (s.assoctabStart != 0xffff ==> Spans(s.assoctabStart, s.assoctabSize - 1, codeSize))
             && Spans(s.readonlyStart, s.readonlyEnd - s.readonlyStart - 1, codeSize))
  {
    var a, r := Segment(s.assoctabStart, s.assoctabSize), Extent(s.readonlyStart, s.readonlyEnd);
    WriteToExactly(a.start, (a.len - 1) % 0x10000, a, codeSize);
    WriteToExactly(r.start, (r.len - 1) % 0x10000, r, codeSize);
  }

  lemma DataWritesExactly(s: Start, codeSize: nat)
    requires NotNegative(s) && s.paramEnd <= codeSize + 0x100
    ensures AllInPlace(EepromWrites(s)) && AllInPlace(ParamWrites(s))
    ensures AllInCode(EepromWrites(s), codeSize) <==> Spans(s.eepromStart, s.eepromEnd - s.eepromStart, codeSize)
    ensures AllInCode(ParamWrites(s), codeSize) <==> (s.paramEnd - s.paramStart > 1 ==> 0x100 <= s.paramStart)
  {
    var e, p := Extent(s.eepromStart, s.eepromEnd), Extent(s.paramStart, s.paramEnd);
    WriteToExactly(e.start, e.len, e, codeSize);
    WriteToExactly(p.start, p.len, p, codeSize);
  }

  /** Of an accepted layout, every write stays in the segment that its request allocates if and only if the
      association table and the text are not empty; and it takes only bytes of the code if and only if, besides,
      what is written lies between the ends of the code. The layout checks ask for neither. */
  lemma WritesExactly(s: Start, codeSize: nat)
    requires LayoutOk(s, codeSize) && 0x18 <= codeSize <= 0x36f
    ensures AllInPlace(AllWrites(s)) <==> TablesNonEmpty(s)
    ensures AllInCode(AllWrites(s), codeSize) <==> TablesNonEmpty(s) && CodeSpans(s, codeSize)
  {
    var a, b, c, d := AddrtabWrites(s), AssoctabWrites(s), InitWrites(), SegmentWrites(s);
    WritesAppend(a, b, codeSize);
    WritesAppend(a + b, c, codeSize);
    WritesAppend(a + b + c, d, codeSize);
    WritesAppend(ReadonlyWrites(s), EepromWrites(s), codeSize);
    WritesAppend(ReadonlyWrites(s) + EepromWrites(s), ParamWrites(s), codeSize);
    FixedWritesExactly(s, codeSize);
    TableWritesExactly(s, codeSize);
    DataWritesExactly(s, codeSize);
  }

  const IMG_UNLOAD_ADDR := 35
  const IMG_UNLOAD_ASSOC := 36
  const IMG_UNLOAD_PROG := 37
  const IMG_LOAD_ADDR := 38
  const IMG_WRITE_ADDR := 39
  const IMG_SET_ADDR := 40
  const IMG_FINISH_ADDR := 41
  const IMG_LOAD_ASSOC := 42
  const IMG_WRITE_ASSOC := 43
  const IMG_SET_ASSOC := 44
  const IMG_FINISH_ASSOC := 45
  const IMG_LOAD_PROG := 46
  const IMG_ALLOC_LORAM := 47
  const IMG_ALLOC_HIRAM := 48
  const IMG_ALLOC_INIT := 49
  const IMG_ALLOC_RO := 50
  const IMG_ALLOC_EEPROM := 51
  const IMG_ALLOC_PARAM := 52
  const IMG_SET_PROG := 53
  const IMG_SET_TASK_PTR := 54
  const IMG_SET_OBJ := 55
  const IMG_SET_TASK2 := 56
  const IMG_FINISH_PROC := 57

  /** The list under construction, and the one record that is changed and appended again and again. */
  class Loader {
    var load: seq<Request>
    var r: Request

    /** `len` is whatever the uninitialised field holds. */
    constructor (len: word)
      ensures load == [] && r == Request(0, 1, 5, 1, Zero(4), 0, 0xffff, len)
    {
      load := [];
      r := Request(0, 1, 5, 1, Zero(4), 0, 0xffff, len);
    }

    method Emit()
      modifies this`load
      ensures load == old(load) + [r]
    {
      load := load + [r];
    }

    method Unload()
      requires load == [] && r.req == Zero(4) && r.result == 0 && r.memaddr == 0xffff
      modifies this
      ensures Sent(load, [UNLOAD], [UNLOAD], [UNLOAD])
      ensures r.memaddr == 0xffff && Writes(load) == [] && AllTold(load) == []
    {
      UnloadObject(1, IMG_UNLOAD_ADDR);
      UnloadObject(2, IMG_UNLOAD_ASSOC);
      UnloadObject(3, IMG_UNLOAD_PROG);
    }

    method UnloadObject(obj: byte, error: nat)
      requires r.req == Zero(4) && r.result == 0 && r.memaddr == 0xffff && Steps(load, obj) == []
      modifies this
      ensures r == old(r).(obj := obj, error := error)
      ensures Steps(load, obj) == [UNLOAD] && OthersSame(old(load), load, obj)
      ensures Writes(load) == Writes(old(load)) && AllTold(load) == AllTold(old(load))
    {
      r := r.(obj := obj, error := error);
      SendUnload(load, r);
      WritesNext(load, r);
      Emit();
    }

    method StartObject(obj: byte, error: nat)
      requires 1 <= obj <= 3 && Steps(load, obj) == [UNLOAD] && r.memaddr == 0xffff
      modifies this
      ensures Busy(load, obj) && OthersSame(old(load), load, obj) && r.obj == obj && r.result == 2
      ensures r.memaddr == 0xffff && Writes(load) == Writes(old(load)) && AllTold(load) == AllTold(old(load))
    {
      r := r.(req := Zero(1), obj := obj, result := 2, error := error);
      SendStart(load, r);
      WritesNext(load, r);
      Emit();
    }

    method Control(req: control, error: nat, memaddr: word, len: word)
      requires 1 <= r.obj <= 3 && r.result == 2 && req[0] == 3 && Busy(load, r.obj)
      modifies this
      ensures Busy(load, r.obj) && OthersSame(old(load), load, r.obj)
      ensures r == old(r).(req := req, error := error, memaddr := memaddr, len := len)
      ensures Writes(load) == Writes(old(load)) + WriteTo(memaddr, len, Allocated(req))
      ensures AllTold(load) == AllTold(old(load)) + [Told(old(r.obj), req)]
    {
      r := r.(req := req, error := error, memaddr := memaddr, len := len);
      SendControl(load, r);
      WritesNext(load, r);
      Emit();
    }

    /** A control that goes with no memory. */
    method Pointer(req: control, error: nat)
      requires 1 <= r.obj <= 3 && r.result == 2 && req[0] == 3 && Busy(load, r.obj)
      modifies this
      ensures Busy(load, r.obj) && OthersSame(old(load), load, r.obj) && r.obj == old(r.obj) && r.result == 2
      ensures r.memaddr == 0xffff && Writes(load) == Writes(old(load))
      ensures AllTold(load) == AllTold(old(load)) + [Told(old(r.obj), req)]
    {
      Control(req, error, 0xffff, r.len);
    }

    /** A control that allocates a segment and writes from its start on. */
    method Allocate(a: Segment, access: byte, kind: byte, check: bool, error: nat, len: word)
      requires 1 <= r.obj <= 3 && r.result == 2 && Busy(load, r.obj)
      modifies this
      ensures Busy(load, r.obj) && OthersSame(old(load), load, r.obj) && r.obj == old(r.obj) && r.result == 2
      ensures Allocated(r.req) == a && Writes(load) == Writes(old(load)) + WriteTo(a.start, len, a)
      ensures AllTold(load) == AllTold(old(load)) + [Told(old(r.obj), GenAlloc(a.start, a.len, access, kind, check))]
    {
      AllocatedGenAlloc(a.start, a.len, access, kind, check);
      Control(GenAlloc(a.start, a.len, access, kind, check), error, a.start, len);
    }

    /** A request that only writes memory, of the segment allocated last. */
    method WriteOnly(memaddr: word, len: word)
      requires 1 <= r.obj <= 3
      modifies this
      ensures OthersSame(old(load), load, 0xff) && r.obj == old(r.obj) && r.result == old(r.result)
      ensures Writes(load) == Writes(old(load)) + WriteTo(memaddr, len, Allocated(old(r.req)))
      ensures AllTold(load) == AllTold(old(load))
    {
      var obj := r.obj;
      r := r.(obj := 0xff, memaddr := memaddr, len := len);
      SendOther(load, r);
      WritesNext(load, r);
      Emit();
      r := r.(obj := obj);
    }

    method FinishObject(error: nat)
      requires 1 <= r.obj <= 3 && Busy(load, r.obj) && r.memaddr == 0xffff
      modifies this
      ensures Protocol(Steps(load, old(r.obj))) && OthersSame(old(load), load, old(r.obj))
      ensures r.memaddr == 0xffff && Writes(load) == Writes(old(load)) && AllTold(load) == AllTold(old(load))
    {
      r := r.(req := Zero(2), result := 1, error := error);
      SendComplete(load, r);
      WritesNext(load, r);
      Emit();
    }

    method LoadAddressTable(s: Start, code: seq<byte>)
      requires |code| >= 0x18 && s.addrtabStart == 0x116 && s.addrtabSize >= 4 && r.memaddr == 0xffff
      requires Sent(load, [UNLOAD], [UNLOAD], [UNLOAD])
      modifies this
      ensures Protocol(Steps(load, 1)) && Steps(load, 2) == Steps(load, 3) == [UNLOAD]
      ensures r.memaddr == 0xffff && Writes(load) == Writes(old(load)) + AddrtabWrites(s)
      ensures AllTold(load) == AllTold(old(load)) + AddrtabTold(s, code)
    {
      var a := Segment(s.addrtabStart, s.addrtabSize);
      RegroupTwo(Writes(load), WriteTo(0x116, 1, a), WriteTo(0x119, s.addrtabSize - 4, a));
      StartObject(1, IMG_LOAD_ADDR);
      Allocate(a, 0x31, 3, true, IMG_WRITE_ADDR, 1);
      WriteOnly(s.addrtabStart + 3, s.addrtabSize - 4);
      Pointer(SetPointer(s.addrtabStart, code), IMG_SET_ADDR);
      FinishObject(IMG_FINISH_ADDR);
    }

    method LoadAssociationTable(s: Start, code: seq<byte>)
      requires |code| >= 0x18 && r.memaddr == 0xffff
      requires Protocol(Steps(load, 1)) && Steps(load, 2) == Steps(load, 3) == [UNLOAD]
      modifies this
      ensures Protocol(Steps(load, 1)) && Protocol(Steps(load, 2)) && Steps(load, 3) == [UNLOAD]
      ensures r.memaddr == 0xffff && Writes(load) == Writes(old(load)) + AssoctabWrites(s)
      ensures AllTold(load) == AllTold(old(load)) + AssoctabTold(s, code)
    {
      StartObject(2, IMG_LOAD_ASSOC);
      Allocate(Segment(s.assoctabStart, s.assoctabSize), 0x31, 3, true, IMG_WRITE_ASSOC,
               (s.assoctabSize - 1) % 0x10000);
      Pointer(SetPointer(s.assoctabStart, code), IMG_SET_ASSOC);
      FinishObject(IMG_FINISH_ASSOC);
    }

    /** An optional segment of the program: it gets a request if there is something to write. */
    method LoadSegment(a: Segment, access: byte, check: bool, error: nat, len: word, wanted: bool, ghost ws: seq<Write>)
      requires r.obj == 3 && r.result == 2 && Busy(load, 3)
      requires ws == if wanted then WriteTo(a.start, len, a) else []
      modifies this
      ensures r.obj == 3 && r.result == 2 && Busy(load, 3) && OthersSame(old(load), load, 3)
      ensures Writes(load) == Writes(old(load)) + ws
      ensures AllTold(load) == AllTold(old(load)) + SegmentTold(a, access, check, wanted)
    {
      if wanted {
        Allocate(a, access, 3, check, error, len);
      } else {
        r := r.(len := len);
      }
    }

    method LoadSegments(s: Start)
      requires NotNegative(s) && r.obj == 3 && r.result == 2 && Busy(load, 3)
      modifies this
      ensures r.obj == 3 && r.result == 2 && Busy(load, 3) && OthersSame(old(load), load, 3)
      ensures Writes(load) == Writes(old(load)) + SegmentWrites(s)
      ensures AllTold(load) == AllTold(old(load)) + SegmentsTold(s)
    {
      ghost var ws1, ws2, ws3 := ReadonlyWrites(s), EepromWrites(s), ParamWrites(s);
      var a, e, p := Extent(s.readonlyStart, s.readonlyEnd), Extent(s.eepromStart, s.eepromEnd),
                     Extent(s.paramStart, s.paramEnd);
      Regroup(Writes(load), ws1, ws2, ws3);
      Regroup(AllTold(load), SegmentTold(a, 0x30, true, a.len != 1), SegmentTold(e, 0x31, false, e.len != 0),
              SegmentTold(p, 0x32, true, p.len > 1));
      var len := (a.len - 1) % 0x10000;
      LoadSegment(a, 0x30, true, IMG_ALLOC_RO, len, len != 0, ws1);
      LoadSegment(e, 0x31, false, IMG_ALLOC_EEPROM, e.len, e.len != 0, ws2);
      LoadSegment(p, 0x32, true, IMG_ALLOC_PARAM, p.len, p.len > 1, ws3);
    }

    /** The pointers of the program. */
    method SetPointers(s: Start, code: seq<byte>)
      requires |code| >= 0x18 && r.obj == 3 && r.result == 2 && Busy(load, 3)
      modifies this
      ensures r.obj == 3 && r.result == 2 && Busy(load, 3) && OthersSame(old(load), load, 3)
      ensures r.memaddr == 0xffff && Writes(load) == Writes(old(load))
      ensures AllTold(load) == AllTold(old(load)) + PointersTold(s, code)
    {
      ghost var ps := PointersTold(s, code);
      RegroupFour(AllTold(load), ps[0], ps[1], ps[2], ps[3]);
      Pointer(SetPointer(s.runaddr, code), IMG_SET_PROG);
      Pointer([3, 3, Hi(s.initaddr), Lo(s.initaddr), Hi(s.saveaddr), Lo(s.saveaddr), Hi(s.sphandler),
               Lo(s.sphandler), 0, 0], IMG_SET_TASK_PTR);
      Pointer([3, 4, Hi(s.objPtr), Lo(s.objPtr), s.objCount % 256, 0, 0, 0, 0, 0], IMG_SET_OBJ);
      Pointer([3, 5, Hi(s.appcallback), Lo(s.appcallback), Hi(s.groupobjPtr), Lo(s.groupobjPtr), Hi(s.seg0),
               Lo(s.seg0), Hi(s.seg1), Lo(s.seg1)], IMG_SET_TASK2);
    }

    /** The pointers of the program, and the end. */
    method FinishProgram(s: Start, code: seq<byte>)
      requires |code| >= 0x18 && r.obj == 3 && r.result == 2 && Busy(load, 3)
      modifies this
      ensures Protocol(Steps(load, 3)) && OthersSame(old(load), load, 3) && Writes(load) == Writes(old(load))
      ensures AllTold(load) == AllTold(old(load)) + PointersTold(s, code)
    {
      SetPointers(s, code);
      FinishObject(IMG_FINISH_PROC);
    }

    /** The RAM segments, which are allocated but not written, and the init segment. */
    method LoadRam()
      requires r.obj == 3 && r.result == 2 && r.memaddr == 0xffff && Busy(load, 3)
      modifies this
      ensures r.obj == 3 && r.result == 2 && Busy(load, 3) && OthersSame(old(load), load, 3)
      ensures Writes(load) == Writes(old(load)) + InitWrites() && AllTold(load) == AllTold(old(load)) + RamTold()
    {
      Pointer(GenAlloc(0x00C8, 0x0018, 0x32, 1, false), IMG_ALLOC_LORAM);
      Pointer(GenAlloc(0x0972, 0x004A, 0x32, 2, false), IMG_ALLOC_HIRAM);
      Allocate(INIT, 0x32, 3, false, IMG_ALLOC_INIT, 1);
      WriteOnly(0x103, 0x13);
    }

    method LoadProgram(s: Start, code: seq<byte>)
      requires |code| >= 0x18 && NotNegative(s) && r.memaddr == 0xffff
      requires Protocol(Steps(load, 1)) && Protocol(Steps(load, 2)) && Steps(load, 3) == [UNLOAD]
      modifies this
      ensures Protocol(Steps(load, 1)) && Protocol(Steps(load, 2)) && Protocol(Steps(load, 3))
      ensures Writes(load) == Writes(old(load)) + InitWrites() + SegmentWrites(s)
      ensures AllTold(load) == AllTold(old(load)) + RamTold() + SegmentsTold(s) + PointersTold(s, code)
    {
      StartObject(3, IMG_LOAD_PROG);
      LoadRam();
      LoadSegments(s);
      FinishProgram(s, code);
    }

    /** The whole list for a BCU2: each of the objects 1, 2 and 3 is sent unload, start, controls and complete, in
        this order, with the answers 0, 2, 2 and 1. */
    method Requests(s: Start, code: seq<byte>)
      requires |code| >= 0x18 && NotNegative(s) && s.addrtabStart == 0x116 && s.addrtabSize >= 4
      requires load == [] && r.req == Zero(4) && r.result == 0 && r.memaddr == 0xffff
      modifies this
      ensures Protocol(Steps(load, 1)) && Protocol(Steps(load, 2)) && Protocol(Steps(load, 3))
      ensures Writes(load) == AllWrites(s) && AllTold(load) == LayoutTold(s, code)
    {
      Unload();
      assert Writes(load) + AddrtabWrites(s) == AddrtabWrites(s);
      assert AllTold(load) + AddrtabTold(s, code) == AddrtabTold(s, code);
      LoadAddressTable(s, code);
      LoadAssociationTable(s, code);
      LoadProgram(s, code);
    }
  }

  // PrepareLoadImage.

  const IMG_UNRECOG_FORMAT := 1
  const IMG_INVALID_FORMAT := 2
  const IMG_NO_BCUTYPE := 3
  const IMG_UNKNOWN_BCUTYPE := 4
  const IMG_NO_CODE := 5
  const IMG_NO_SIZE := 6
  const IMG_NO_START := 25
  const IMG_WRONG_CHECKLIM := 58
  const IMG_INVALID_KEY := 59

  datatype BCUImage = BCUImage(bcutype: word, code: seq<byte>, addr: word, keys: seq<key>, load: seq<Request>)

  /** findStream */
  function Find(str: seq<Stream>, p: Stream -> bool): (r: Option<Stream>)
    ensures r.Some? ==> r.value in str && p(r.value)
    ensures r.None? ==> forall s :: s in str ==> !p(s)
  {
    if str == [] then None else if p(str[0]) then Some(str[0]) else Find(str[1..], p)
  }

  function FindType(str: seq<Stream>): Option<Stream> {
    Find(str, (s: Stream) => s.BCUType?)
  }

  function FindCode(str: seq<Stream>): Option<Stream> {
    Find(str, (s: Stream) => s.Code?)
  }

  function FindSize1(str: seq<Stream>): Option<Stream> {
    Find(str, (s: Stream) => s.BCU1Size?)
  }

  function FindSize2(str: seq<Stream>): Option<Stream> {
    Find(str, (s: Stream) => s.BCU2Size?)
  }

  function FindStart(str: seq<Stream>): Option<Stream> {
    Find(str, (s: Stream) => s.BCU2Start?)
  }

  function FindKey(str: seq<Stream>): Option<Stream> {
    Find(str, (s: Stream) => s.BCU2Key?)
  }

  ghost predicate Bcu1Ok(str: seq<Stream>, code: seq<byte>) {
    match FindSize1(str)
    case Some(BCU1Size(n)) =>
      && |n| == 4 && n[2] as int + n[3] + n[1] <= 18 && 0x18 <= n[0] <= 0xfe && n[0] == |code|
      && 8 <= code[8] as int <= |code| + 1
    case _ => false
  }

  predicate SizesOk(n: seq<word>, codeSize: nat) {
    |n| == 6 && n[2] as int + n[3] <= 18 && n[4] as int + n[5] <= 24 && 0x18 <= n[0] <= 0x36f && n[0] == codeSize
  }

  ghost predicate Bcu2Ok(str: seq<Stream>, code: seq<byte>) {
    && FindSize2(str).Some? && SizesOk(FindSize2(str).value.sizes, |code|)
    && FindStart(str).Some? && |FindStart(str).value.fields| == 21
    && LayoutOk(StartOf(FindStart(str).value.fields), |code|)
    && (FindKey(str).Some? ==> |FindKey(str).value.keys| == 4)
  }

  /** The images that are loadable. */
  ghost predicate Loadable(str: seq<Stream>) {
    && (forall s :: s in str ==> !s.Invalid?)
    && FindType(str).Some? && FindCode(str).Some?
    && var t, code := FindType(str).value.bcutype, FindCode(str).value.code;
       || (t == 0x0012 && Bcu1Ok(str, code))
       || ((t == 0x0020 || t == 0x0021) && Bcu2Ok(str, code))
  }

  /** The two address bytes, in the memory that starts with the code. */
  function AddrOf(mem: seq<byte>): word
    requires |mem| > 0x18
  {
    Word(mem[0x17], mem[0x18])
  }

  method PrepareBcu1(str: seq<Stream>, code: seq<byte>) returns (result: nat)
    requires forall s :: s in str && s.BCU1Size? ==> |s.sizes| == 4
    ensures result == IMG_IMAGE_LOADABLE <==> Bcu1Ok(str, code)
  {
    var f := FindSize1(str);
    if f.None? {
      return IMG_NO_SIZE;
    }
    var n := f.value.sizes;
    if n[2] as int + n[3] + n[1] > 18 {
      return IMG_LODATA_OVERFLOW;
    }
    if n[0] > 0xfe {
      return IMG_TEXT_OVERFLOW;
    }
    if n[0] != |code| {
      return IMG_WRONG_SIZE;
    }
    if n[0] < 0x18 {
      return IMG_NO_ADDRESS;
    }
    if code[8] < 8 || code[8] > |code| + 1 {
      return IMG_WRONG_CHECKLIM;
    }
    return IMG_IMAGE_LOADABLE;
  }

  method CheckSizes(n: seq<word>, codeSize: nat) returns (result: nat)
    requires |n| == 6
    ensures result == IMG_IMAGE_LOADABLE <==> SizesOk(n, codeSize)
  {
    if n[2] as int + n[3] > 18 {
      return IMG_LODATA_OVERFLOW;
    }
    if n[4] as int + n[5] > 24 {
      return IMG_HIDATA_OVERFLOW;
    }
    if n[0] > 0x36f {
      return IMG_TEXT_OVERFLOW;
    }
    if n[0] != codeSize {
      return IMG_WRONG_SIZE;
    }
    return if n[0] < 0x18 then IMG_NO_ADDRESS else IMG_IMAGE_LOADABLE;
  }

  method PrepareBcu2(str: seq<Stream>, code: seq<byte>) returns (result: nat)
    requires forall s :: s in str && s.BCU2Size? ==> |s.sizes| == 6
    requires forall s :: s in str && s.BCU2Start? ==> |s.fields| == 21
    ensures result == IMG_IMAGE_LOADABLE <==> Bcu2Ok(str, code)
  {
    var f := FindSize2(str);
    if f.None? {
      return IMG_NO_SIZE;
    }
    result := CheckSizes(f.value.sizes, |code|);
    if result != IMG_IMAGE_LOADABLE {
      return;
    }
    var s := FindStart(str);
    if s.None? {
      return IMG_NO_START;
    }
    result := CheckLayout(StartOf(s.value.fields), |code|);
    if result != IMG_IMAGE_LOADABLE {
      return;
    }
    var k := FindKey(str);
    if k.Some? && |k.value.keys| != 4 {
      return IMG_INVALID_KEY;
    }
  }

  ghost predicate AllProtocol(load: seq<Request>) {
    Protocol(Steps(load, 1)) && Protocol(Steps(load, 2)) && Protocol(Steps(load, 3))
  }

  lemma ParsedStreams(im: seq<byte>)
    requires |im| < 0x10000 && ImageOf(im).Some?
    ensures forall s :: s in ImageOf(im).value ==> s.Invalid? || WellFormed(s)
  {
    ImageCanonical(im, ImageOf(im).value);
  }

  /** The install key and the three level keys; without a key stream, all bits are set. */
  function KeysOfImage(str: seq<Stream>): seq<key> {
    match FindKey(str)
    case Some(BCU2Key(keys)) => keys
    case _ => [0xFFFFFFFF, 0xFFFFFFFF, 0xFFFFFFFF, 0xFFFFFFFF]
  }

  lemma RegroupTwo<T>(a: seq<T>, b: seq<T>, c: seq<T>)
    ensures a + b + c == a + (b + c)
  {
  }

  lemma Regroup<T>(a: seq<T>, b: seq<T>, c: seq<T>, d: seq<T>)
    ensures a + b + c + d == a + (b + c + d)
  {
  }

  lemma RegroupFour<T>(a: seq<T>, x: T, y: T, z: T, w: T)
    ensures a + [x] + [y] + [z] + [w] == a + [x, y, z, w]
  {
  }

  /** What a loaded BCU2 image promises of its requests. */
  ghost predicate RequestsOk(s: Start, codeSize: nat, load: seq<Request>) {
    && AllProtocol(load)
    && (AllInPlace(Writes(load)) <==> TablesNonEmpty(s))
    && (AllInCode(Writes(load), codeSize) <==> TablesNonEmpty(s) && CodeSpans(s, codeSize))
  }

  /** The requests for a BCU2. */
  method LoadBcu2(s: Start, code: seq<byte>, len: word) returns (load: seq<Request>)
    requires LayoutOk(s, |code|) && 0x18 <= |code| <= 0x36f
    ensures Writes(load) == AllWrites(s) && AllTold(load) == LayoutTold(s, code) && RequestsOk(s, |code|, load)
  {
    var l := new Loader(len);
    l.Requests(s, code);
    load := l.load;
    WritesExactly(s, |code|);
  }

  /** An image is loadable if and only if 16 bits can count its bytes, it parses, and its streams pass the checks;
      `ended` is false if the parser is still at work after so many turns. For a BCU2 the requests follow the load
      protocol of each object. `beyond` is what is read behind the end of the code, `len` an uninitialised field. */
  method PrepareLoadImage(im: seq<byte>, turns: nat, beyond: byte, len: word)
    returns (ended: bool, result: nat, img: Option<BCUImage>)
    ensures ended == Reading(im, turns).Ended?
    ensures ended ==> (result == IMG_IMAGE_LOADABLE <==>
                       |im| < 0x10000 && ImageOf(im).Some? && Loadable(ImageOf(im).value))
    ensures img.Some? <==> ended && result == IMG_IMAGE_LOADABLE
    ensures img.Some? ==>
              var str := ImageOf(im).value;
              && FindType(str) == Some(BCUType(img.value.bcutype)) && FindCode(str) == Some(Code(img.value.code))
              && |img.value.code| >= 0x18 && img.value.addr == AddrOf(img.value.code + [beyond])
    ensures img.Some? && img.value.bcutype != 0x0012 ==>
              var str := ImageOf(im).value;
              && img.value.keys == KeysOfImage(str) && Bcu2Ok(str, img.value.code)
              && RequestsOk(StartOf(FindStart(str).value.fields), |img.value.code|, img.value.load)
              && AllTold(img.value.load) == LayoutTold(StartOf(FindStart(str).value.fields), img.value.code)
  {
    var i;
    ended, i := ReadImage(im, turns);
    if i == null {
      return ended, IMG_UNRECOG_FORMAT, None;
    }
    var str := i.str;
    ParsedStreams(im);
    result, img := Prepare(str, beyond, len);
  }

  method Prepare(str: seq<Stream>, beyond: byte, len: word) returns (result: nat, img: Option<BCUImage>)
    requires forall s :: s in str ==> s.Invalid? || WellFormed(s)
    ensures result == IMG_IMAGE_LOADABLE <==> Loadable(str)
    ensures img.Some? <==> result == IMG_IMAGE_LOADABLE
    ensures img.Some? ==> FindType(str) == Some(BCUType(img.value.bcutype))
                          && FindCode(str) == Some(Code(img.value.code))
                          && |img.value.code| >= 0x18 && img.value.addr == AddrOf(img.value.code + [beyond])
    ensures img.Some? && img.value.bcutype != 0x0012 ==>
              && img.value.keys == KeysOfImage(str) && Bcu2Ok(str, img.value.code)
              && RequestsOk(StartOf(FindStart(str).value.fields), |img.value.code|, img.value.load)
              && AllTold(img.value.load) == LayoutTold(StartOf(FindStart(str).value.fields), img.value.code)
  {
    if exists s :: s in str && s.Invalid? {
      return IMG_INVALID_FORMAT, None;
    }
    var b, c := FindType(str), FindCode(str);
    if b.None? {
      return IMG_NO_BCUTYPE, None;
    }
    if c.None? {
      return IMG_NO_CODE, None;
    }
    var t, code := b.value.bcutype, c.value.code;
    if t == 0x0012 {
      result := PrepareBcu1(str, code);
      if result != IMG_IMAGE_LOADABLE {
        return result, None;
      }
      return result, Some(BCUImage(t, code, AddrOf(code + [beyond]), [], []));
    }
    if t == 0x0020 || t == 0x0021 {
      result := PrepareBcu2(str, code);
      if result != IMG_IMAGE_LOADABLE {
        return result, None;
      }
      var load := LoadBcu2(StartOf(FindStart(str).value.fields), code, len);
      return result, Some(BCUImage(t, code, AddrOf(code + [beyond]), KeysOfImage(str), load));
    }
    return IMG_UNKNOWN_BCUTYPE, None;
  }

  /** The address does not depend on what lies behind the code if and only if the code has more than 0x18 bytes. */
  lemma AddressExactly(code: seq<byte>)
    requires |code| >= 0x18
    ensures (forall x: byte, y: byte :: AddrOf(code + [x]) == AddrOf(code + [y])) <==> |code| > 0x18
  {
    if |code| == 0x18 {
      assert AddrOf(code + [0]) != AddrOf(code + [1]);
    }
  }

  // Loadable images at which the code does what its checks do not exclude.

  /** A layout with a text from here to there, and nothing else but the smallest tables. */
  function TextOnly(start: word, end: word): Start {
    Start(0x116, 4, 0x11a, 1, start, end, 0, 0, 0, 0, 0, 0, 0, 0, 0, 0, 0, 0, 0, 0)
  }

  lemma TextOnlyOk(start: word, end: word)
    requires 0x11b <= start <= end
    ensures LayoutOk(TextOnly(start, end), 0x18)
  {
    var g := Segments(TextOnly(start, end));
    forall i, j | 0 <= i < j < |g| ensures Disjoint(g[i], g[j]) {
    }
  }

  lemma TableWritesAmong(s: Start, w: Write)
    requires s.addrtabStart == 0x116 && s.addrtabSize >= 4 && (w in AssoctabWrites(s) || w in ReadonlyWrites(s))
    ensures w in AllWrites(s)
  {
  }

  /** An empty text: 65535 bytes are to be written from its start on. */
  lemma EmptyText(s: Start, codeSize: nat)
    requires LayoutOk(s, codeSize) && 0x18 <= codeSize <= 0x36f && s.readonlyStart == s.readonlyEnd != 0xffff
    ensures Write(Segment(s.readonlyStart, 0xffff), Segment(s.readonlyStart, 0)) in AllWrites(s)
    ensures !AllInPlace(AllWrites(s)) && !AllInCode(AllWrites(s), codeSize)
  {
    WritesExactly(s, codeSize);
    TableWritesAmong(s, Write(Segment(s.readonlyStart, 0xffff), Segment(s.readonlyStart, 0)));
  }

  /** An empty association table, likewise. */
  lemma EmptyAssociations(s: Start, codeSize: nat)
    requires LayoutOk(s, codeSize) && 0x18 <= codeSize <= 0x36f && s.assoctabSize == 0 && s.assoctabStart != 0xffff
    ensures Write(Segment(s.assoctabStart, 0xffff), Segment(s.assoctabStart, 0)) in AllWrites(s)
    ensures !AllInPlace(AllWrites(s)) && !AllInCode(AllWrites(s), codeSize)
  {
    WritesExactly(s, codeSize);
    TableWritesAmong(s, Write(Segment(s.assoctabStart, 0xffff), Segment(s.assoctabStart, 0)));
  }

  /** A text that ends behind the program: every write is in place, but not in the code. */
  lemma LongText(s: Start, codeSize: nat)
    requires LayoutOk(s, codeSize) && 0x18 <= codeSize <= 0x36f && TablesNonEmpty(s)
    requires s.readonlyStart as int + 1 < s.readonlyEnd && s.readonlyEnd - 1 > 0x100 + codeSize
    ensures AllInPlace(AllWrites(s)) && !AllInCode(AllWrites(s), codeSize)
  {
    WritesExactly(s, codeSize);
  }

  /** There are such layouts. */
  lemma LayoutsAccepted()
    ensures LayoutOk(TextOnly(0x200, 0x200), 0x18)
    ensures LayoutOk(TextOnly(0x200, 0x202).(assoctabSize := 0), 0x18)
    ensures LayoutOk(TextOnly(0x200, 0x8000), 0x18) && TablesNonEmpty(TextOnly(0x200, 0x8000))
  {
    TextOnlyOk(0x200, 0x200);
    TextOnlyOk(0x200, 0x202);
    TextOnlyOk(0x200, 0x8000);
    NoAssociationsOk(TextOnly(0x200, 0x202), 0x18);
  }

  lemma NoAssociationsOk(s: Start, codeSize: nat)
    requires LayoutOk(s, codeSize)
    ensures LayoutOk(s.(assoctabSize := 0), codeSize)
  {
    var g, h := Segments(s), Segments(s.(assoctabSize := 0));
    forall i, j | 0 <= i < j < |h| ensures Disjoint(h[i], h[j]) {
      if i == 1 || j == 1 {
        EmptyDisjoint(h[i], h[j]);
      } else {
        assert Disjoint(g[i], g[j]);
      }
    }
  }

  function StartFields(s: Start): seq<word> {
    [s.addrtabStart, s.addrtabSize, s.assoctabStart, s.assoctabSize, s.readonlyStart, s.readonlyEnd, s.paramStart,
     s.paramEnd, s.objPtr, s.objCount, s.appcallback, s.groupobjPtr, s.seg0, s.seg1, s.sphandler, s.initaddr,
     s.runaddr, s.saveaddr, s.eepromStart, s.eepromEnd, 0]
  }

  /** A BCU2 image with this layout and a program of 0x18 bytes. */
  function SmallImage(s: Start): seq<Stream> {
    [BCUType(0x0020), Code(seq(0x18, _ => 0)), BCU2Size([0x18, 0, 0, 0, 0, 0]), BCU2Start(StartFields(s), 0)]
  }

  lemma FindNext(s: Stream, str: seq<Stream>, p: Stream -> bool)
    ensures Find([s] + str, p) == if p(s) then Some(s) else Find(str, p)
  {
    assert ([s] + str)[1..] == str;
  }

  lemma FindFour(a: Stream, b: Stream, c: Stream, d: Stream, p: Stream -> bool)
    ensures Find([a, b, c, d], p)
            == if p(a) then Some(a) else if p(b) then Some(b) else if p(c) then Some(c)
               else if p(d) then Some(d) else None
  {
    assert [a, b, c, d] == [a] + [b, c, d] && [b, c, d] == [b] + [c, d] && [c, d] == [c] + [d] && [d] == [d] + [];
    FindNext(a, [b, c, d], p);
    FindNext(b, [c, d], p);
    FindNext(c, [d], p);
    FindNext(d, [], p);
  }

  lemma SmallImageStreams(s: Start)
    ensures var str := SmallImage(s);
            && FindType(str) == Some(str[0]) && FindCode(str) == Some(str[1]) && FindSize2(str) == Some(str[2])
            && FindStart(str) == Some(str[3]) && FindKey(str) == None
  {
    var str := SmallImage(s);
    var a, b, c, d := str[0], str[1], str[2], str[3];
    FindFour(a, b, c, d, (s: Stream) => s.BCUType?);
    FindFour(a, b, c, d, (s: Stream) => s.Code?);
    FindFour(a, b, c, d, (s: Stream) => s.BCU2Size?);
    FindFour(a, b, c, d, (s: Stream) => s.BCU2Start?);
    FindFour(a, b, c, d, (s: Stream) => s.BCU2Key?);
  }

  /** Loadable images with these layouts exist, with programs of exactly 0x18 bytes, */
  lemma SmallImageLoadable(s: Start)
    requires LayoutOk(s, 0x18)
    ensures Loadable(SmallImage(s)) && FindCode(SmallImage(s)) == Some(Code(seq(0x18, _ => 0)))
    ensures FindStart(SmallImage(s)) == Some(BCU2Start(StartFields(s), 0)) && StartOf(StartFields(s)) == s
  {
    SmallImageStreams(s);
    SmallImageBcu2(s);
  }

  lemma SmallImageBcu2(s: Start)
    requires LayoutOk(s, 0x18)
    ensures Bcu2Ok(SmallImage(s), seq(0x18, _ => 0)) && forall x :: x in SmallImage(s) ==> !x.Invalid?
  {
    SmallImageStreams(s);
    assert StartOf(StartFields(s)) == s;
  }

  /** and they are read from their bytes. */
  lemma SmallImageRead(s: Start)
    ensures |ImageBytes(SmallImage(s))| < 0x10000 && ImageOf(ImageBytes(SmallImage(s))) == Some(SmallImage(s))
  {
    var str := SmallImage(s);
    SmallImageSizes(s);
    ImageRoundTrip(str);
    HeaderRoundTrip(Join(StreamBytes, str));
    OneWord((|Join(StreamBytes, str)| + 10) % 0x10000);
  }

  lemma StreamSize(s: Stream)
    requires !s.Invalid?
    ensures |StreamBytes(s)| == |Body(s)| + 4
  {
    TwoWords((|Body(s)| + 2) % 0x10000, Kind(s));
  }

  lemma WordStreamSizes(ws: seq<word>, slot: byte)
    ensures |Body(BCU2Size(ws))| == 2 * |ws| && |Body(BCU2Start(ws, slot))| == 2 * |ws| + 1
  {
    WordsRoundTrip(ws);
  }

  lemma SmallImageOk(s: Start)
    ensures ImageOk(SmallImage(s))
  {
    var str := SmallImage(s);
    var a, b, c, d := str[0], str[1], str[2], str[3];
    WordStreamSizes(c.sizes, 0);
    WordStreamSizes(d.fields, 0);
    assert |Body(a)| == 2 && |Body(b)| == 0x18;
    forall x | x in str ensures x == a || x == b || x == c || x == d {
    }
  }

  lemma SmallImageSizes(s: Start)
    ensures var str := SmallImage(s); ImageOk(str) && |Join(StreamBytes, str)| <= 200
  {
    SmallImageOk(s);
    var str := SmallImage(s);
    var a, b, c, d := str[0], str[1], str[2], str[3];
    WordStreamSizes(c.sizes, 0);
    WordStreamSizes(d.fields, 0);
    StreamSize(a);
    StreamSize(b);
    StreamSize(c);
    StreamSize(d);
    JoinFour(StreamBytes, a, b, c, d);
  }

  lemma JoinFour(enc: Stream -> seq<byte>, a: Stream, b: Stream, c: Stream, d: Stream)
    ensures |Join(enc, [a, b, c, d])| == |enc(a)| + |enc(b)| + |enc(c)| + |enc(d)|
  {
    assert [a, b, c, d] == [a] + [b, c, d] && [b, c, d] == [b] + [c, d] && [c, d] == [c] + [d] && [d] == [d] + [];
    JoinFirst(enc, a, [b, c, d]);
    JoinFirst(enc, b, [c, d]);
    JoinFirst(enc, c, [d]);
    JoinFirst(enc, d, []);
  }
}
