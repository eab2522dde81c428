/**
 * The FT1.2 serial link (eibd/backend/ft12.cpp): framing with a checksum and an alternating bit, the
 * incremental receiver and the sender.
 */
module Ft12 {
  import opened Bytes
  import opened Streaming

  /** What the receiver reads and changes; mode: 0 nothing sent, 1 waiting for an acknowledgement; len: what was
      last assigned to the variable of that name. */
  datatype Link = Link(
    mode: int, recvflag: bool, last: seq<byte>, len: nat, inqueue: seq<seq<byte>>, repeatcount: nat)

  /** Output of the receiver: an acknowledgement byte to the line, or a packet handed up. */
  datatype Out = AckByte | Packet(data: seq<byte>)

  const ACK: byte := 0xE5

  /** Checksum of the bytes, in a byte. */
  function Sum(s: seq<byte>): byte {
    if s == [] then 0 else (Sum(s[..|s| - 1]) + s[|s| - 1]) % 256
  }

  /** A variable-length frame. */
  function Frame(control: byte, p: seq<byte>): seq<byte>
    requires |p| < 255
  {
    [0x68, |p| + 1, |p| + 1, 0x68, control] + p + [Sum([control] + p), 0x16]
  }

  /** The control byte of the next new frame for a receiver with this flag. */
  function Control(flag: bool): byte {
    if flag then 0xD3 else 0xF3
  }

  /** A long frame is new if its control byte is the expected one, or if it is the other one of the two and
      its payload differs from the last payload. */
  predicate IsNew(s: Link, control: byte, p: seq<byte>) {
    control == Control(s.recvflag) || (control == Control(!s.recvflag) && p != s.last)
  }

  /** case 0x10, four bytes present */
  function OnShort(s: Link, buf: seq<byte>): Move<Link, Out>
    requires |buf| >= 4
  {
    if buf[1] != buf[2] || buf[3] != 0x16 then Take(4, s, [])
    else
      Take(4, if buf[1] == Control(s.recvflag) then s.(recvflag := !s.recvflag) else s,
           [AckByte] + if buf[1] % 16 == 0 then [Packet([0xA0])] else [])
  }

  /** case 0x68, as it is meant: a complete frame is deleted as a whole. */
  function OnLong(s: Link, buf: seq<byte>): Move<Link, Out>
    requires buf != []
  {
    if |buf| < 7 then Wait
    else if buf[1] != buf[2] || buf[3] != 0x68 then Take(1, s, [])
    else
      var len := buf[1] as int + 6;
      if |buf| < len then Wait
      else if buf[len - 2] != Sum(buf[4..len - 2]) || buf[len - 1] != 0x16 then Take(len, s.(len := len), [])
      else if len > 6 && IsNew(s, buf[4], buf[5..len - 2]) then
        Take(len, s.(recvflag := buf[4] == 0xF3, last := buf[5..len - 2], len := len),
             [AckByte, Packet(buf[5..len - 2])])
      else Take(len, s, [AckByte])
  }

  /** One turn of the inner loop of Run, as it is meant. */
  function Step(s: Link, buf: seq<byte>): Move<Link, Out> {
    if buf == [] then Wait
    else if buf[0] == ACK && s.mode == 1 then
      Take(1, s.(inqueue := if s.inqueue == [] then [] else s.inqueue[1..], mode := 0, repeatcount := 0), [])
    else if buf[0] == 0x10 then (if |buf| < 4 then Wait else OnShort(s, buf))
    else if buf[0] == 0x68 then OnLong(s, buf)
    else Take(1, s, [])
  }

  /** A complete intact long frame that is not new: the one path on which the C++ code does not assign `len`
      before it deletes `len` bytes. */
  predicate IsRepeat(s: Link, buf: seq<byte>) {
    && |buf| >= 7 && buf[0] == 0x68 && buf[1] == buf[2] && buf[3] == 0x68
    && var len := buf[1] as int + 6;
       && |buf| >= len && buf[len - 2] == Sum(buf[4..len - 2]) && buf[len - 1] == 0x16
       && !(len > 6 && IsNew(s, buf[4], buf[5..len - 2]))
  }

  /** What deletepart (0, len) deletes. */
  function Deleted(len: nat, buf: seq<byte>): nat {
    if len < |buf| then len else |buf|
  }

  /** One turn as it is written: a repeated frame deletes what the variable happens to say. */
  function Written(s: Link, buf: seq<byte>): Move<Link, Out> {
    if IsRepeat(s, buf) then Take(Deleted(s.len, buf), s, [AckByte]) else Step(s, buf)
  }

  function Rank(s: Link): nat {
    0
  }

  lemma StepDecided(s: Link, a: seq<byte>, b: seq<byte>)
    ensures DecidedBy(Step, Rank, s, a, b)
  {
    if |a| >= 7 && a[0] == 0x68 && |a| >= a[1] as int + 6 {
      var len := a[1] as int + 6;
      assert (a + b)[4..len - 2] == a[4..len - 2];
      assert len > 6 ==> (a + b)[5..len - 2] == a[5..len - 2];
    }
  }

  /** A turn as written is decided by a prefix exactly if that is no repeated frame or the variable is not 0 and says
      no more than its length. */
  lemma WrittenDecided(s: Link, a: seq<byte>)
    ensures (forall b :: DecidedBy(Written, Rank, s, a, b)) <==> (IsRepeat(s, a) ==> 0 < s.len <= |a|)
  {
    forall b ensures IsRepeat(s, a) ==> IsRepeat(s, a + b) {
      if IsRepeat(s, a) {
        RepeatDecided(s, a, b);
      }
    }
    if IsRepeat(s, a) {
      assert DecidedBy(Written, Rank, s, a, [0]) ==> 0 < s.len <= |a|;
    }
    forall b | IsRepeat(s, a) ==> 0 < s.len <= |a| ensures DecidedBy(Written, Rank, s, a, b) {
      StepDecided(s, a, b);
      if Step(s, a).Take? {
        RepeatDecided(s, a, b);
      }
    }
  }

  lemma StepPrefixDecided()
    ensures PrefixDecided(Step, Rank)
  {
    forall s, a, b ensures DecidedBy(Step, Rank, s, a, b) {
      StepDecided(s, a, b);
    }
  }

  /** Reading chunk after chunk is one read. */
  lemma AsOneRead(s: Link, chunks: seq<seq<byte>>)
    ensures Feed(Step, Rank, s, chunks) == Drive(Step, Rank, s, Flatten(chunks))
  {
    StepPrefixDecided();
    FeedIsDrive(Step, Rank, s, chunks);
  }

  // Reads with the rest of the outer loop between them.

  /** What goes on besides the reads: a frame is queued; or the end of a turn of the outer loop, with the timer run
      out or not, and the line taking the whole frame or not. */
  datatype Sending = Queue(frame: seq<byte>) | TurnEnd(timer: bool, complete: bool)

  function Queued(s: Link, frame: seq<byte>): Link {
    s.(inqueue := s.inqueue + [frame])
  }

  /** After a timeout, or with nothing sent, the head of the queue is sent. */
  function AfterTurn(s: Link, timer: bool, complete: bool): Link {
    var mode := if s.mode == 1 && timer then 0 else s.mode;
    if mode == 0 && s.inqueue != [] then s.(repeatcount := s.repeatcount + 1, mode := if complete then 1 else 0)
    else s.(mode := mode)
  }

  function Send(s: Link, empty: bool, e: Sending): Link {
    match e
    case Queue(frame) => Queued(s, frame)
    case TurnEnd(timer, complete) => AfterTurn(s, timer, complete)
  }

  /** What the receiver goes by. */
  datatype Receiver = Receiver(recvflag: bool, last: seq<byte>, len: nat)

  function Receiving(s: Link): Receiver {
    Receiver(s.recvflag, s.last, s.len)
  }

  lemma StepAlike(s: Link, t: Link, buf: seq<byte>)
    ensures Alike(Step, Rank, Receiving, s, t, buf)
  {
  }

  lemma SendingKeepsReceiver()
    ensures KeyDecides(Step, Rank, Receiving) && KeepsKey(Send, Receiving)
  {
    forall s, t, buf ensures Alike(Step, Rank, Receiving, s, t, buf) {
      StepAlike(s, t, buf);
    }
  }

  /** The packets, the acknowledgement bytes, the flag and the leftover buffer depend on the bytes received, not on
      how the reads split them nor on what is sent in between. */
  lemma ReadsDoNotMatter(s: Link, es: seq<Event<Sending>>, t: Link, fs: seq<Event<Sending>>)
    requires Receiving(s) == Receiving(t) && BytesOf(es) == BytesOf(fs)
    ensures SameResult(Receiving, Session(Step, Rank, Send, s, es), Session(Step, Rank, Send, t, fs))
  {
    StepPrefixDecided();
    SendingKeepsReceiver();
    SameBytes(Step, Rank, Send, Receiving, s, es, t, fs);
  }

  function SendThenRead(): seq<Event<Sending>> {
    [] + [Aside(TurnEnd(false, true))] + [Read([ACK])]
  }

  function ReadThenSend(): seq<Event<Sending>> {
    [] + [Read([ACK])] + [Aside(TurnEnd(false, true))]
  }

  /** The send queue does depend on it: the byte 0xE5 takes the head away if the head has been sent before the byte
      is read, and not if it comes after. */
  lemma SendQueueDependsOnReads(s: Link, f: seq<byte>)
    requires s.mode == 0 && s.inqueue == [f]
    ensures BytesOf(SendThenRead()) == BytesOf(ReadThenSend()) == [ACK]
    ensures Session(Step, Rank, Send, s, SendThenRead()).state.inqueue == []
    ensures Session(Step, Rank, Send, s, ReadThenSend()).state.inqueue == [f]
  {
    var turn, read := Aside(TurnEnd(false, true)), Read([ACK]);
    var none: seq<Event<Sending>> := [];
    SessionNext(Step, Rank, Send, s, none, turn);
    SessionNext(Step, Rank, Send, s, none + [turn], read);
    SessionNext(Step, Rank, Send, s, none, read);
    SessionNext(Step, Rank, Send, s, none + [read], turn);
    OneAck(AfterTurn(s, false, true));
    OneAck(s);
    assert [f][1..] == [];
  }

  lemma OneAck(s: Link)
    ensures Drive(Step, Rank, s, [] + [ACK]) == Result(Step(s, [ACK]).next, [], [])
  {
    assert [] + [ACK] == [ACK];
    OneTurn(Step, Rank, s, [ACK]);
  }

  predicate IsPartial(rest: seq<byte>) {
    || rest == [] || (rest[0] == 0x10 && |rest| < 4)
    || (rest[0] == 0x68 && (|rest| < 7 || |rest| < rest[1] as int + 6))
  }

  /** The loop as written consumes everything it can: what is left over is the start of a frame whose end is missing,
      unless the loop is stuck at a repeated frame with 0 in the variable. */
  lemma {:induction false} LeftoverIsPartial(s: Link, buf: seq<byte>)
    ensures var r := Drive(Written, Rank, s, buf);
            IsPartial(r.rest) || (IsRepeat(r.state, r.rest) && r.state.len == 0)
    decreases |buf|
  {
    var m := Written(s, buf);
    if buf != [] && m.Take? && m.n > 0 {
      StepAdvances(s, buf);
      LeftoverIsPartial(m.next, buf[m.n..]);
    }
  }

  lemma StepAdvances(s: Link, buf: seq<byte>)
    ensures Step(s, buf).Take? ==> 0 < Step(s, buf).n <= |buf|
  {
  }

  // Exactly-once reception.

  /** A frame sent by a peer: its payload, and how many more times than once it is sent. */
  datatype PeerFrame = PeerFrame(payload: seq<byte>, repeats: nat)

  /** The bytes of a peer that changes the control byte with every new frame. */
  function PeerBytes(flag: bool, fs: seq<PeerFrame>): seq<byte>
    requires forall f :: f in fs ==> |f.payload| < 255
    decreases |fs|
  {
    if fs == [] then []
    else Copies(Frame(Control(flag), fs[0].payload), fs[0].repeats + 1) + PeerBytes(!flag, fs[1..])
  }

  function Packets(out: seq<Out>): seq<seq<byte>> {
    if out == [] then []
    else (if out[0].Packet? then [out[0].data] else []) + Packets(out[1..])
  }

  function AckCount(out: seq<Out>): nat {
    if out == [] then 0 else (if out[0].AckByte? then 1 else 0) + AckCount(out[1..])
  }

  lemma {:induction false} PacketsAppend(a: seq<Out>, b: seq<Out>)
    ensures Packets(a + b) == Packets(a) + Packets(b)
  {
    if a == [] {
      assert a + b == b;
    } else {
      assert (a + b)[1..] == a[1..] + b;
      PacketsAppend(a[1..], b);
    }
  }

  lemma {:induction false} AckCountAppend(a: seq<Out>, b: seq<Out>)
    ensures AckCount(a + b) == AckCount(a) + AckCount(b)
  {
    if a == [] {
      assert a + b == b;
    } else {
      assert (a + b)[1..] == a[1..] + b;
      AckCountAppend(a[1..], b);
    }
  }

  lemma TurnOutput(p: seq<byte>)
    ensures Packets([AckByte]) == [] && AckCount([AckByte]) == 1
    ensures Packets([AckByte, Packet(p)]) == [p] && AckCount([AckByte, Packet(p)]) == 1
  {
    assert [AckByte, Packet(p)][1..] == [Packet(p)] && [Packet(p)][1..] == [] && [AckByte][1..] == [];
  }

  lemma {:induction false} AcksOnly(n: nat)
    ensures Packets(Copies([AckByte], n)) == [] && AckCount(Copies([AckByte], n)) == n
  {
    if n > 0 {
      AcksOnly(n - 1);
      PacketsAppend([AckByte], Copies([AckByte], n - 1));
      AckCountAppend([AckByte], Copies([AckByte], n - 1));
    }
  }

  function Payloads(fs: seq<PeerFrame>): seq<seq<byte>> {
    if fs == [] then [] else [fs[0].payload] + Payloads(fs[1..])
  }

  function Transmissions(fs: seq<PeerFrame>): nat {
    if fs == [] then 0 else fs[0].repeats + 1 + Transmissions(fs[1..])
  }

  /** One intact frame, alone in the buffer. */
  lemma FrameStep(s: Link, control: byte, p: seq<byte>)
    requires |p| < 255
    ensures var f := Frame(control, p);
            Step(s, f) == if IsNew(s, control, p)
                          then Take(|f|, s.(recvflag := control == 0xF3, last := p, len := |f|), [AckByte, Packet(p)])
                          else Take(|f|, s, [AckByte])
  {
    var f := Frame(control, p);
    assert f[4..|f| - 2] == [control] + p;
    assert f[5..|f| - 2] == p;
  }

  lemma FrameDrive(s: Link, control: byte, p: seq<byte>)
    requires |p| < 255
    ensures Drive(Step, Rank, s, Frame(control, p))
         == if IsNew(s, control, p)
            then Result(s.(recvflag := control == 0xF3, last := p, len := |p| + 7), [], [AckByte, Packet(p)])
            else Result(s, [], [AckByte])
  {
    FrameStep(s, control, p);
    OneTurn(Step, Rank, s, Frame(control, p));
  }

  /** What a new frame with n further copies leads to: one packet, and an acknowledgement each time. */
  function Received(s: Link, f: PeerFrame): Result<Link, Out> {
    Result(s.(recvflag := !s.recvflag, last := f.payload, len := |f.payload| + 7), [],
           [AckByte, Packet(f.payload)] + Copies([AckByte], f.repeats))
  }

  lemma NewFrameDrive(s: Link, f: PeerFrame)
    requires |f.payload| < 255
    ensures Drive(Step, Rank, s, Copies(Frame(Control(s.recvflag), f.payload), f.repeats + 1)) == Received(s, f)
  {
    var c := Control(s.recvflag);
    var b := Frame(c, f.payload);
    var s1 := s.(recvflag := !s.recvflag, last := f.payload, len := |f.payload| + 7);
    StepPrefixDecided();
    FrameDrive(s, c, f.payload);
    FrameDrive(s1, c, f.payload);
    IdleCopies(Step, Rank, s1, b, [AckByte], f.repeats);
    DriveAfter(Step, Rank, s, b, Copies(b, f.repeats), Result(s1, [], [AckByte, Packet(f.payload)]));
  }

  lemma ReceivedOutput(s: Link, f: PeerFrame)
    ensures Packets(Received(s, f).out) == [f.payload] && AckCount(Received(s, f).out) == f.repeats + 1
  {
    var first := [AckByte, Packet(f.payload)];
    TurnOutput(f.payload);
    AcksOnly(f.repeats);
    PacketsAppend(first, Copies([AckByte], f.repeats));
    AckCountAppend(first, Copies([AckByte], f.repeats));
  }

  lemma {:induction false} PeerDrive(s: Link, fs: seq<PeerFrame>)
    requires forall f :: f in fs ==> |f.payload| < 255
    ensures var r := Drive(Step, Rank, s, PeerBytes(s.recvflag, fs));
            r.rest == [] && Packets(r.out) == Payloads(fs) && AckCount(r.out) == Transmissions(fs)
    decreases |fs|
  {
    if fs != [] {
      var r1 := Received(s, fs[0]);
      var rest := PeerBytes(!s.recvflag, fs[1..]);
      StepPrefixDecided();
      NewFrameDrive(s, fs[0]);
      DriveAfter(Step, Rank, s, Copies(Frame(Control(s.recvflag), fs[0].payload), fs[0].repeats + 1), rest, r1);
      PeerDrive(r1.state, fs[1..]);
      ReceivedOutput(s, fs[0]);
      PacketsAppend(r1.out, Drive(Step, Rank, r1.state, rest).out);
      AckCountAppend(r1.out, Drive(Step, Rank, r1.state, rest).out);
    }
  }

  /** The peer's frames have all arrived, once each and in order, every transmission has been acknowledged, and
      nothing is left over. */
  predicate Arrived(r: Result<Link, Out>, fs: seq<PeerFrame>) {
    r.rest == [] && Packets(r.out) == Payloads(fs) && AckCount(r.out) == Transmissions(fs)
  }

  // Short frames, and the sender.

  /** The bytes of a long frame: the length twice, the control byte, the payload, the byte sum. */
  lemma FrameBytes(control: byte, a: byte, b: byte)
    ensures Frame(control, [a, b]) == [0x68, 3, 3, 0x68, control, a, b, (control + a + b) % 256, 0x16]
  {
    SumOfThree(control, a, b);
    assert [control] + [a, b] == [control, a, b];
  }

  lemma SumOfThree(x: byte, y: byte, z: byte)
    ensures Sum([x, y, z]) == (x + y + z) % 256
  {
    SumNext([x, y], z);
    SumNext([x], y);
    SumNext([], x);
    assert [] + [x] == [x] && [x] + [y] == [x, y] && [x, y] + [z] == [x, y, z];
  }

  lemma SumNext(s: seq<byte>, b: byte)
    ensures Sum(s + [b]) == (Sum(s) + b) % 256
  {
    assert (s + [b])[..|s|] == s;
  }

  function ShortFrame(control: byte): seq<byte> {
    [0x10, control, control, 0x16]
  }

  lemma ShortAlone(s: Link, buf: seq<byte>)
    requires |buf| == 4 && buf[0] == 0x10
    ensures var m := Written(s, buf);
            m.Take? && m.n == 4 && Drive(Written, Rank, s, buf) == Result(m.next, [], m.out)
  {
    OneTurn(Written, Rank, s, buf);
  }

  /** Every intact short frame is acknowledged; one with the control byte of the next new frame moves the flag on, one
      whose lower half is 0 is handed up as a reset, and none does anything else. */
  lemma ShortExactly(s: Link, c: byte)
    ensures Drive(Written, Rank, s, ShortFrame(c))
         == Result(if c == (if s.recvflag then 0xD3 else 0xF3) then s.(recvflag := !s.recvflag) else s, [],
                   if c % 16 == 0 then [AckByte, Packet([0xA0])] else [AckByte])
  {
    ShortAlone(s, ShortFrame(c));
  }

  /** A short frame with the control byte of the next new frame is acknowledged and takes its place: the long frame
      after it has to carry the other control byte to be new, and is then handed up. */
  lemma ShortTakesTurn(s: Link, p: seq<byte>)
    requires |p| < 255 && p != s.last
    ensures var r := Drive(Written, Rank, s, ShortFrame(if s.recvflag then 0xD3 else 0xF3));
            && r == Result(s.(recvflag := !s.recvflag), [], [AckByte])
            && Drive(Step, Rank, r.state, Frame(if s.recvflag then 0xF3 else 0xD3, p)).out == [AckByte, Packet(p)]
            && Drive(Step, Rank, r.state, Frame(if s.recvflag then 0xF3 else 0xD3, p)).state.recvflag == s.recvflag
  {
    ShortAlone(s, ShortFrame(Control(s.recvflag)));
    FrameDrive(s.(recvflag := !s.recvflag), Control(!s.recvflag), p);
  }

  /** A short frame whose control bytes differ or whose end is wrong is dropped without an answer. */
  lemma DamagedShort(s: Link, a: byte, b: byte, end: byte)
    requires a != b || end != 0x16
    ensures Drive(Written, Rank, s, [0x10, a, b, end]) == Result(s, [], [])
  {
    ShortAlone(s, [0x10, a, b, end]);
  }

  /** Ends of turns at which the line takes the whole frame, the timer having run out or not. */
  function Ends(s: Link, timers: seq<bool>): Link {
    if timers == [] then s else AfterTurn(Ends(s, timers[..|timers| - 1]), timers[|timers| - 1], true)
  }

  /** An idle sender sends the head at the end of the turn and again after each timeout, without limit, and keeps it;
      the byte 0xE5 then takes it and no other frame off the queue. */
  lemma {:induction false} Resends(s: Link, timers: seq<bool>)
    requires s.mode == 0 && s.inqueue != []
    ensures var t := Ends(AfterTurn(s, false, true), timers);
            && t == s.(mode := 1, repeatcount := s.repeatcount + Set(timers) + 1)
            && Drive(Step, Rank, t, [ACK]) == Result(s.(inqueue := s.inqueue[1..], mode := 0, repeatcount := 0), [], [])
  {
    if timers != [] {
      Resends(s, timers[..|timers| - 1]);
    }
    OneTurn(Step, Rank, Ends(AfterTurn(s, false, true), timers), [ACK]);
  }

  // The length that the code deletes after a repeated frame.

  /** Every repeated frame on the way finds its own length in the variable, up to the end of the buffer. */
  predicate FindsLength(s: Link, buf: seq<byte>)
    decreases |buf|
  {
    var m := Step(s, buf);
    buf == [] || m.Wait?
    || ((IsRepeat(s, buf) ==> Deleted(s.len, buf) == m.n) && m.n > 0 && FindsLength(m.next, buf[m.n..]))
  }

  /** The loop as written goes through the buffer as it is meant to if and only if every repeated frame finds its
      own length; it then ends the same. A length of 0 stops it for good. */
  lemma {:induction false} WrittenExactly(s: Link, buf: seq<byte>)
    ensures Cuts(Written, Rank, s, buf) == Cuts(Step, Rank, s, buf) <==> FindsLength(s, buf)
    ensures FindsLength(s, buf) ==> Drive(Written, Rank, s, buf) == Drive(Step, Rank, s, buf)
    decreases |buf|
  {
    if buf != [] {
      var m, w := Step(s, buf), Written(s, buf);
      if m.Take? {
        StepAdvances(s, buf);
        WrittenExactly(m.next, buf[m.n..]);
        if w.n != m.n {
          assert Cuts(Step, Rank, s, buf)[0] == m.n;
          assert w.n > 0 ==> Cuts(Written, Rank, s, buf)[0] == w.n;
        } else {
          assert Cuts(Written, Rank, s, buf)[1..] == Cuts(Written, Rank, m.next, buf[m.n..]);
          assert Cuts(Step, Rank, s, buf)[1..] == Cuts(Step, Rank, m.next, buf[m.n..]);
        }
      }
    }
  }

  /** The same without the end of the buffer, so that it can be said of a stream that is not all there yet. */
  predicate KeepsLength(s: Link, buf: seq<byte>)
    decreases |buf|
  {
    var m := Step(s, buf);
    buf == [] || m.Wait? || ((IsRepeat(s, buf) ==> s.len == m.n) && m.n > 0 && KeepsLength(m.next, buf[m.n..]))
  }

  lemma {:induction false} KeepsFinds(s: Link, buf: seq<byte>)
    requires KeepsLength(s, buf)
    ensures FindsLength(s, buf)
    decreases |buf|
  {
    var m := Step(s, buf);
    if buf != [] && m.Take? {
      StepAdvances(s, buf);
      KeepsFinds(m.next, buf[m.n..]);
    }
  }

  lemma RepeatDecided(s: Link, a: seq<byte>, b: seq<byte>)
    requires Step(s, a).Take?
    ensures IsRepeat(s, a + b) == IsRepeat(s, a)
  {
    if |a| >= 7 && a[0] == 0x68 && |a| >= a[1] as int + 6 {
      var len := a[1] as int + 6;
      assert (a + b)[4..len - 2] == a[4..len - 2];
      assert len > 6 ==> (a + b)[5..len - 2] == a[5..len - 2];
    }
  }

  /** A frame that counts as repeated, or the start of one, with 0 in the variable. */
  lemma HeldFrame(s: Link, control: byte, p: seq<byte>, buf: seq<byte>)
    requires |p| < 255 && !IsNew(s, control, p) && s.len == 0
    requires buf <= Frame(control, p) || Frame(control, p) <= buf
    ensures Drive(Written, Rank, s, buf) == Result(s, buf, [])
  {
    var f := Frame(control, p);
    if f <= buf {
      FrameStep(s, control, p);
      assert f[4..|f| - 2] == [control] + p && f[5..|f| - 2] == p;
      RepeatDecided(s, f, buf[|f|..]);
      assert buf == f + buf[|f|..];
      assert Written(s, buf) == Take(0, s, [AckByte]);
    }
  }

  lemma {:induction false} HeldSession(s: Link, control: byte, p: seq<byte>, es: seq<Event<Sending>>)
    requires |p| < 255 && !IsNew(s, control, p) && s.len == 0
    requires BytesOf(es) <= Frame(control, p) || Frame(control, p) <= BytesOf(es)
    ensures var r := Session(Written, Rank, Send, s, es);
            Receiving(r.state) == Receiving(s) && r.rest == BytesOf(es) && r.out == []
  {
    if es != [] {
      var k := |es| - 1;
      assert BytesOf(es[..k]) <= BytesOf(es);
      HeldSession(s, control, p, es[..k]);
      var r := Session(Written, Rank, Send, s, es[..k]);
      if es[k].Read? {
        HeldFrame(r.state, control, p, BytesOf(es));
      }
    }
  }

  /** With 0 in the variable, a frame that counts as repeated ends reception: whatever follows it, however the reads
      split it and whatever is sent in between, the loop as written hands nothing up and keeps every byte, where the
      loop as it is meant acknowledges the frame and goes on with what follows. */
  lemma ZeroEndsReception(s: Link, control: byte, p: seq<byte>, more: seq<byte>, es: seq<Event<Sending>>)
    requires |p| < 255 && !IsNew(s, control, p) && s.len == 0 && BytesOf(es) == Frame(control, p) + more
    ensures var r := Session(Written, Rank, Send, s, es);
            Receiving(r.state) == Receiving(s) && r.rest == BytesOf(es) && r.out == []
    ensures var q := Drive(Step, Rank, s, more);
            SameResult(Receiving, Session(Step, Rank, Send, s, es), Result(q.state, q.rest, [AckByte] + q.out))
  {
    HeldSession(s, control, p, es);
    StepPrefixDecided();
    SendingKeepsReceiver();
    SessionIsDrive(Step, Rank, Send, Receiving, s, es);
    FrameDrive(s, control, p);
    DriveAfter(Step, Rank, s, Frame(control, p), more, Result(s, [], [AckByte]));
  }

  /** There is such a frame from reset on: one with the control byte of the other direction. */
  lemma ResetThenZero(q: seq<seq<byte>>)
    ensures var s, f := Link(0, false, [], 0, q, 0), Frame(0x53, [1]);
            && Drive(Written, Rank, s, f) == Result(s, f, [])
            && Drive(Step, Rank, s, f) == Result(s, [], [AckByte])
  {
    var s := Link(0, false, [], 0, q, 0);
    HeldFrame(s, 0x53, [1], Frame(0x53, [1]));
    FrameDrive(s, 0x53, [1]);
  }

  lemma {:induction false} KeepsConcat(s: Link, a: seq<byte>, b: seq<byte>)
    ensures var r := Drive(Step, Rank, s, a);
            KeepsLength(s, a + b) <==> KeepsLength(s, a) && KeepsLength(r.state, r.rest + b)
    decreases |a|
  {
    var m := Step(s, a);
    if a != [] && m.Take? {
      StepDecided(s, a, b);
      StepAdvances(s, a);
      RepeatDecided(s, a, b);
      assert (a + b)[m.n..] == a[m.n..] + b;
      KeepsConcat(m.next, a[m.n..], b);
    } else if a == [] {
      assert a + b == b;
    }
  }

  lemma {:induction false} KeepsAlike(s: Link, t: Link, buf: seq<byte>)
    requires Receiving(s) == Receiving(t)
    ensures KeepsLength(s, buf) == KeepsLength(t, buf)
    decreases |buf|
  {
    var m := Step(s, buf);
    StepAlike(s, t, buf);
    if buf != [] && m.Take? {
      StepAdvances(s, buf);
      KeepsAlike(m.next, Step(t, buf).next, buf[m.n..]);
    }
  }

  /** Whole sessions. */
  lemma {:induction false} WrittenSession(s: Link, es: seq<Event<Sending>>)
    requires KeepsLength(s, BytesOf(es))
    ensures Session(Written, Rank, Send, s, es) == Session(Step, Rank, Send, s, es)
  {
    if es != [] {
      var k := |es| - 1;
      var before := BytesOf(es[..k]);
      StepPrefixDecided();
      SendingKeepsReceiver();
      SessionIsDrive(Step, Rank, Send, Receiving, s, es[..k]);
      var r, d := Session(Step, Rank, Send, s, es[..k]), Drive(Step, Rank, s, before);
      match es[k]
      case Read(chunk) =>
        KeepsConcat(s, before, chunk);
        WrittenSession(s, es[..k]);
        KeepsAlike(r.state, d.state, r.rest + chunk);
        KeepsFinds(r.state, r.rest + chunk);
        WrittenExactly(r.state, r.rest + chunk);
      case Aside(e) =>
        assert before + [] == before;
        WrittenSession(s, es[..k]);
    }
  }

  /** After a piece that is consumed entirely. */
  lemma KeepsAfter(s: Link, a: seq<byte>, b: seq<byte>, whole: seq<byte>, r: Result<Link, Out>)
    requires whole == a + b && r == Drive(Step, Rank, s, a) && r.rest == []
    requires KeepsLength(s, a) && KeepsLength(r.state, b)
    ensures KeepsLength(s, whole)
  {
    assert r.rest + b == b;
    KeepsConcat(s, a, b);
  }

  /** So the loop as written, too, does not depend on the reads nor on what is sent in between, on bytes on which
      the variable holds the right length. */
  lemma WrittenReads(s: Link, es: seq<Event<Sending>>, t: Link, fs: seq<Event<Sending>>)
    requires Receiving(s) == Receiving(t) && BytesOf(es) == BytesOf(fs) && KeepsLength(s, BytesOf(es))
    ensures SameResult(Receiving, Session(Written, Rank, Send, s, es), Session(Written, Rank, Send, t, fs))
  {
    KeepsAlike(s, t, BytesOf(es));
    WrittenSession(s, es);
    WrittenSession(t, fs);
    ReadsDoNotMatter(s, es, t, fs);
  }

  lemma FrameKeeps(s: Link, control: byte, p: seq<byte>)
    requires |p| < 255 && (IsNew(s, control, p) || s.len == |p| + 7)
    ensures KeepsLength(s, Frame(control, p))
  {
    FrameStep(s, control, p);
    var f := Frame(control, p);
    assert f[|f|..] == [];
  }

  lemma {:induction false} IdleKeeps(s: Link, f: seq<byte>, out: seq<Out>, n: nat)
    requires KeepsLength(s, f) && Drive(Step, Rank, s, f) == Result(s, [], out)
    ensures KeepsLength(s, Copies(f, n))
  {
    if n > 0 {
      IdleKeeps(s, f, out, n - 1);
      KeepsAfter(s, f, Copies(f, n - 1), Copies(f, n), Result(s, [], out));
    }
  }

  lemma CopiesKeep(s: Link, control: byte, p: seq<byte>, n: nat)
    requires |p| < 255 && !IsNew(s, control, p) && s.len == |p| + 7
    ensures KeepsLength(s, Copies(Frame(control, p), n))
  {
    FrameKeeps(s, control, p);
    FrameDrive(s, control, p);
    IdleKeeps(s, Frame(control, p), [AckByte], n);
  }

  /** On the bytes of a peer, the variable always holds the right length, whatever it held before. */
  lemma {:induction false} PeerKeeps(s: Link, fs: seq<PeerFrame>)
    requires forall f :: f in fs ==> |f.payload| < 255
    ensures KeepsLength(s, PeerBytes(s.recvflag, fs))
    decreases |fs|
  {
    if fs != [] {
      var p, n := fs[0].payload, fs[0].repeats;
      var c := Control(s.recvflag);
      var f, rest := Frame(c, p), PeerBytes(!s.recvflag, fs[1..]);
      var s1 := Received(s, fs[0]).state;
      FrameKeeps(s, c, p);
      FrameDrive(s, c, p);
      CopiesKeep(s1, c, p, n);
      KeepsAfter(s, f, Copies(f, n), Copies(f, n + 1), Result(s1, [], [AckByte, Packet(p)]));
      NewFrameDrive(s, fs[0]);
      PeerKeeps(s1, fs[1..]);
      KeepsAfter(s, Copies(f, n + 1), rest, PeerBytes(s.recvflag, fs), Received(s, fs[0]));
    }
  }

  /** From reset, for the loop as written and whatever its variable holds at first: whatever the frames, however
      often each is repeated, however the reads split the bytes and whatever is sent in between, the packets handed
      up are the peer's frames, equal neighbours included. */
  lemma ExactlyOnce(s: Link, fs: seq<PeerFrame>, es: seq<Event<Sending>>, r: Result<Link, Out>)
    requires !s.recvflag && (forall f :: f in fs ==> |f.payload| < 255)
    requires BytesOf(es) == PeerBytes(false, fs) && r == Session(Written, Rank, Send, s, es)
    ensures Arrived(r, fs)
  {
    PeerKeeps(s, fs);
    WrittenSession(s, es);
    StepPrefixDecided();
    SendingKeepsReceiver();
    SessionIsDrive(Step, Rank, Send, Receiving, s, es);
    PeerDrive(s, fs);
  }

  // The variable with any value on each turn.

  /** The state, with the value that the variable is found to hold on the k-th turn. */
  datatype Any = Any(link: Link, k: nat, value: nat -> nat)

  function AnyStep(a: Any, buf: seq<byte>): Move<Any, Out> {
    match Written(a.link.(len := a.value(a.k)), buf)
    case Wait => Wait
    case Take(n, next, out) => Take(n, Any(next, a.k + 1, a.value), out)
  }

  function AnyRank(a: Any): nat {
    0
  }

  function AnyDrive(a: Any, buf: seq<byte>): Result<Any, Out> {
    Drive(AnyStep, AnyRank, a, buf)
  }

  ghost predicate AnyArrived(a: Any, fs: seq<PeerFrame>)
    requires forall f :: f in fs ==> |f.payload| < 255
  {
    var r := AnyDrive(a, PeerBytes(a.link.recvflag, fs));
    r.rest == [] && Packets(r.out) == Payloads(fs) && AckCount(r.out) == Transmissions(fs)
  }

  predicate NoneRepeated(fs: seq<PeerFrame>) {
    forall f :: f in fs ==> f.repeats == 0
  }

  /** A new frame at the front is taken whole, whatever the variable holds. */
  lemma AnyNewFrame(a: Any, p: seq<byte>, rest: seq<byte>)
    requires |p| < 255
    ensures var f := Frame(Control(a.link.recvflag), p);
            var link := a.link.(recvflag := !a.link.recvflag, last := p, len := |f|);
            AnyStep(a, f + rest) == Take(|f|, Any(link, a.k + 1, a.value), [AckByte, Packet(p)])
  {
    var s, c := a.link.(len := a.value(a.k)), Control(a.link.recvflag);
    FrameStep(s, c, p);
    StepDecided(s, Frame(c, p), rest);
    RepeatDecided(s, Frame(c, p), rest);
    assert !IsRepeat(s, Frame(c, p)) by {
      assert Frame(c, p)[5..|p| + 5] == p;
    }
  }

  function AfterNew(a: Any, p: seq<byte>): Any {
    Any(a.link.(recvflag := !a.link.recvflag, last := p, len := |p| + 7), a.k + 1, a.value)
  }

  lemma AnyNewDrive(a: Any, p: seq<byte>, rest: seq<byte>)
    requires |p| < 255
    ensures var r := AnyDrive(AfterNew(a, p), rest);
            AnyDrive(a, Frame(Control(a.link.recvflag), p) + rest)
            == Result(r.state, r.rest, [AckByte, Packet(p)] + r.out)
  {
    var f := Frame(Control(a.link.recvflag), p);
    AnyNewFrame(a, p, rest);
    assert (f + rest)[|f|..] == rest;
  }

  lemma {:induction false} AnyArrives(a: Any, fs: seq<PeerFrame>)
    requires (forall f :: f in fs ==> |f.payload| < 255) && NoneRepeated(fs)
    ensures AnyArrived(a, fs)
    decreases |fs|
  {
    if fs != [] {
      var p := fs[0].payload;
      var f, rest := Frame(Control(a.link.recvflag), p), PeerBytes(!a.link.recvflag, fs[1..]);
      assert Copies(f, 1) == f + [] && f + [] == f;
      AnyNewDrive(a, p, rest);
      AnyArrives(AfterNew(a, p), fs[1..]);
      TurnOutput(p);
      PacketsAppend([AckByte, Packet(p)], AnyDrive(AfterNew(a, p), rest).out);
      AckCountAppend([AckByte, Packet(p)], AnyDrive(AfterNew(a, p), rest).out);
    }
  }

  /** If the value is always 0, the first repeated frame stops the loop. */
  lemma {:induction false} ZeroStops(a: Any, fs: seq<PeerFrame>)
    requires (forall f :: f in fs ==> |f.payload| < 255) && !NoneRepeated(fs) && forall k :: a.value(k) == 0
    ensures AnyDrive(a, PeerBytes(a.link.recvflag, fs)).rest != []
    decreases |fs|
  {
    var p, n := fs[0].payload, fs[0].repeats;
    var c := Control(a.link.recvflag);
    var f, rest := Frame(c, p), PeerBytes(!a.link.recvflag, fs[1..]);
    var b := AfterNew(a, p);
    if n == 0 {
      assert Copies(f, 1) == f + [] && f + [] == f;
      AnyNewDrive(a, p, rest);
      ZeroStops(b, fs[1..]);
    } else {
      var more := Copies(f, n - 1) + rest;
      assert Copies(f, n + 1) + rest == f + (f + more);
      AnyNewDrive(a, p, f + more);
      ZeroStuck(b, c, p, more);
    }
  }

  /** A repeated frame at the front, and a value of 0. */
  lemma ZeroStuck(b: Any, c: byte, p: seq<byte>, more: seq<byte>)
    requires |p| < 255 && !IsNew(b.link, c, p) && b.value(b.k) == 0
    ensures AnyDrive(b, Frame(c, p) + more).rest == Frame(c, p) + more != []
  {
    var s, f := b.link.(len := 0), Frame(c, p);
    FrameStep(s, c, p);
    assert f[4..|f| - 2] == [c] + p && f[5..|f| - 2] == p;
    RepeatDecided(s, f, more);
    assert AnyStep(b, f + more) == Take(0, Any(s, b.k + 1, b.value), [AckByte]);
  }

  /** With no say in what the variable holds on each turn, the peer's frames arrive for certain if and only if none
      is sent more than once. */
  lemma AnyLengthExactly(s: Link, fs: seq<PeerFrame>)
    requires !s.recvflag && (forall f :: f in fs ==> |f.payload| < 255)
    ensures (forall value: nat -> nat :: AnyArrived(Any(s, 0, value), fs)) <==> NoneRepeated(fs)
  {
    if NoneRepeated(fs) {
      forall value: nat -> nat ensures AnyArrived(Any(s, 0, value), fs) {
        AnyArrives(Any(s, 0, value), fs);
      }
    } else {
      var zero: nat -> nat := k => 0;
      ZeroStops(Any(s, 0, zero), fs);
      assert !AnyArrived(Any(s, 0, zero), fs);
    }
  }

  /** A turn of the loop as written: it gets on, or it is stuck at a repeated frame. */
  lemma TurnAdds(s: Link, buf: seq<byte>, queue: seq<seq<byte>>, acks: nat, out: seq<Out>)
    requires buf != []
    ensures var m := Written(s, buf);
            m.Take? ==>
              && m.n <= |buf| && (m.n > 0 <==> Advances(Rank, s, buf, m))
              && (m.n == 0 ==> IsRepeat(s, buf) && s.len == 0 && m == Take(0, s, [AckByte]) && buf[m.n..] == buf)
              && queue + Packets(out + m.out) == queue + Packets(out) + Packets(m.out)
              && acks + AckCount(out + m.out) == acks + AckCount(out) + AckCount(m.out)
    ensures Packets([AckByte]) == [] && AckCount([AckByte]) == 1
  {
    TurnOutput([]);
    StepAdvances(s, buf);
    var m := Written(s, buf);
    if m.Take? {
      PacketsAppend(out, m.out);
      AckCountAppend(out, m.out);
    }
  }

  class FT12LowLevelDriver {
    var akt: seq<byte>
    var last: seq<byte>
    var recvflag: bool
    var sendflag: bool
    /** the variable of the loop that keeps its value from turn to turn */
    var len: nat
    var mode: int
    var repeatcount: nat
    /** frames to send with their semaphore, and the semaphore that says that there are none */
    var inqueue: seq<seq<byte>>
    var inSignal: nat
    var sendEmpty: nat
    var outqueue: seq<seq<byte>>
    var outSignal: nat
    /** how many acknowledgement bytes the receiver has written to the line */
    var acks: nat

    ghost function View(): Link
      reads this
    {
      Link(mode, recvflag, last, len, inqueue, repeatcount)
    }

    ghost predicate Valid()
      reads this
    {
      && inSignal == |inqueue| && outSignal == |outqueue|
      && sendEmpty == (if inqueue == [] then 1 else 0)
      && (mode == 1 ==> inqueue != [])
    }

    /** `len` is whatever the variable holds before anything is assigned to it. */
    constructor (len: nat)
      ensures Valid() && View() == Link(0, false, [], len, [], 0)
      ensures akt == [] && !sendflag && outqueue == [] && acks == 0
    {
      this.len := len;
      akt, last, recvflag, sendflag, mode, repeatcount := [], [], false, false, 0, 0;
      inqueue, inSignal, sendEmpty, outqueue, outSignal, acks := [], 0, 1, [], 0, 0;
    }

    /** The checksum loop. */
    static method Checksum(s: seq<byte>) returns (c: byte)
      ensures c == Sum(s)
    {
      c := 0;
      for i := 0 to |s|
        invariant c == Sum(s[..i])
      {
        assert s[..i + 1][..i] == s[..i];
        c := (c + s[i]) % 256;
      }
      assert s[..|s|] == s;
    }

    /** The frame, built in place in a buffer. */
    static method Pdu(control: byte, l: seq<byte>) returns (pdu: array<byte>)
      requires |l| <= 32
      ensures fresh(pdu) && pdu[..] == Frame(control, l)
    {
      var c := Checksum([control] + l);
      pdu := new byte[|l| + 7];
      pdu[0], pdu[1], pdu[2], pdu[3], pdu[4] := 0x68, |l| + 1, |l| + 1, 0x68, control;
      forall k | 0 <= k < |l| {
        pdu[5 + k] := l[k];
      }
      pdu[pdu.Length - 2] := c;
      pdu[pdu.Length - 1] := 0x16;
    }

    /** Send_Packet: the frame is the one a receiver takes apart, with the sender's alternating control byte. */
    method SendPacket(l: seq<byte>)
      requires Valid() && |l| <= 32
      modifies this`inqueue, this`inSignal, this`sendEmpty, this`sendflag
      ensures Valid() && sendflag == !old(sendflag)
      ensures View() == Queued(old(View()), Frame(if old(sendflag) then 0x53 else 0x73, l))
    {
      var pdu := Pdu(if sendflag then 0x53 else 0x73, l);
      sendflag := !sendflag;
      inqueue := inqueue + [pdu[..]];
      sendEmpty := 0;
      inSignal := inSignal + 1;
    }

    method SendReset()
      requires Valid()
      modifies this`inqueue, this`inSignal, this`sendEmpty, this`sendflag, this`recvflag
      ensures Valid() && !sendflag && !recvflag && inqueue == old(inqueue) + [[0x10, 0x40, 0x40, 0x16]]
    {
      sendflag := false;
      recvflag := false;
      inqueue := inqueue + [[0x10, 0x40, 0x40, 0x16]];
      sendEmpty := 0;
      inSignal := inSignal + 1;
    }

    method PutUp(p: seq<byte>)
      modifies this`outqueue, this`outSignal
      ensures outqueue == old(outqueue) + [p] && outSignal == old(outSignal) + 1
    {
      outqueue := outqueue + [p];
      outSignal := outSignal + 1;
    }

    /** An intact long frame with a payload: the sequence check, and the packet if it is new. */
    method Sequence(control: byte, p: seq<byte>)
      requires Valid()
      modifies this`recvflag, this`last, this`len, this`outqueue, this`outSignal
      ensures Valid()
      ensures old(IsNew(View(), control, p)) ==>
                && View() == old(View()).(recvflag := control == 0xF3, last := p, len := |p| + 7)
                && outqueue == old(outqueue) + [p]
      ensures !old(IsNew(View(), control, p)) ==> View() == old(View()) && outqueue == old(outqueue)
    {
      if (control == 0xF3 && recvflag) || (control == 0xD3 && !recvflag) {
        if p != last {
          recvflag := !recvflag;
        }
      }
      if (control == 0xF3 && !recvflag) || (control == 0xD3 && recvflag) {
        recvflag := !recvflag;
        len := |p| + 7;
        last := p;
        PutUp(last);
      }
    }

    /** The rest of case 0x68 for an intact frame of this size. */
    method IntactFrame(size: nat)
      requires Valid() && |akt| >= 7 && akt[0] == 0x68 && akt[1] == akt[2] && akt[3] == 0x68
      requires size == akt[1] as int + 6 <= |akt| && akt[size - 2] == Sum(akt[4..size - 2]) && akt[size - 1] == 0x16
      modifies this
      ensures Valid() && Turned(old(View()), old(akt), old(outqueue), old(acks), true)
    {
      acks := acks + 1;
      if size > 6 {
        TurnOutput(akt[5..size - 2]);
        Sequence(akt[4], akt[5..size - 2]);
      } else {
        TurnOutput([]);
      }
      akt := akt[Deleted(len, akt)..];
    }

    /** case 0x68; false means that more bytes are needed. */
    method LongFrame() returns (more: bool)
      requires Valid() && akt != [] && akt[0] == 0x68
      modifies this
      ensures Valid() && Turned(old(View()), old(akt), old(outqueue), old(acks), more)
    {
      if |akt| < 7 {
        return false;
      }
      if akt[1] != akt[2] || akt[3] != 0x68 {
        akt := akt[1..];
        return true;
      }
      var size := akt[1] as int + 6;
      if |akt| < size {
        return false;
      }
      var c1 := Checksum(akt[4..size - 2]);
      if akt[size - 2] != c1 || akt[size - 1] != 0x16 {
        len := size;
        akt := akt[len..];
        return true;
      }
      IntactFrame(size);
      return true;
    }

    /** case 0x10 */
    method ShortFrame() returns (more: bool)
      requires Valid() && akt != [] && akt[0] == 0x10
      modifies this
      ensures Valid() && Turned(old(View()), old(akt), old(outqueue), old(acks), more)
    {
      if |akt| < 4 {
        return false;
      }
      TurnOutput([0xA0]);
      if akt[1] == akt[2] && akt[3] == 0x16 {
        IntactShort(akt[1]);
      }
      akt := akt[4..];
      return true;
    }

    /** An intact short frame with this control byte. */
    method IntactShort(control: byte)
      requires Valid()
      modifies this`acks, this`recvflag, this`outqueue, this`outSignal
      ensures Valid() && acks == old(acks) + 1
      ensures recvflag == if control == Control(old(recvflag)) then !old(recvflag) else old(recvflag)
      ensures outqueue == old(outqueue) + if control % 16 == 0 then [[0xA0]] else []
    {
      acks := acks + 1;
      if (control == 0xF3 && !recvflag) || (control == 0xD3 && recvflag) {
        recvflag := !recvflag;
      }
      if control % 16 == 0 {
        PutUp([0xA0]);
      }
    }

    /** The state after a turn on (s, buf) that started with these outputs. */
    ghost predicate Turned(s: Link, buf: seq<byte>, packets: seq<seq<byte>>, acked: nat, more: bool)
      reads this
    {
      match Written(s, buf)
      case Wait => !more && View() == s && akt == buf && outqueue == packets && acks == acked
      case Take(n, next, out) =>
        && more && View() == next && n <= |buf| && akt == buf[n..]
        && outqueue == packets + Packets(out) && acks == acked + AckCount(out)
    }

    /** One turn of the inner loop. */
    method Turn() returns (more: bool)
      requires Valid() && akt != []
      modifies this
      ensures Valid() && Turned(old(View()), old(akt), old(outqueue), old(acks), more)
    {
      if akt[0] == ACK && mode == 1 {
        inSignal := inSignal - 1;
        inqueue := inqueue[1..];
        if inqueue == [] {
          sendEmpty := 1;
        }
        akt := akt[1..];
        mode := 0;
        repeatcount := 0;
        return true;
      }
      if akt[0] == 0x10 {
        more := ShortFrame();
        return;
      }
      if akt[0] == 0x68 {
        more := LongFrame();
        return;
      }
      akt := akt[1..];
      return true;
    }

    /** A read: the bytes join the buffer, and the inner loop runs until it needs more. If it is `stuck`, its
        turns from then on acknowledge the same frame and delete nothing; the first of them has been made. */
    method Read(chunk: seq<byte>) returns (stuck: bool)
      requires Valid()
      modifies this
      ensures Valid()
      ensures var r := Drive(Written, Rank, old(View()), old(akt) + chunk);
              && View() == r.state && akt == r.rest
              && outqueue == old(outqueue) + Packets(r.out)
              && acks == old(acks) + AckCount(r.out) + if stuck then 1 else 0
      ensures stuck ==> akt != [] && IsRepeat(View(), akt) && len == 0
      ensures !stuck ==> akt == [] || Written(View(), akt).Wait?
    {
      akt := akt + chunk;
      ghost var out: seq<Out> := [];
      ghost var r0 := Drive(Written, Rank, View(), akt);
      UnfinishedStart(Written, Rank, View(), akt);
      while |akt| > 0
        invariant Valid()
        invariant outqueue == old(outqueue) + Packets(out) && acks == old(acks) + AckCount(out)
        invariant Unfinished(Written, Rank, r0, View(), akt, out)
        decreases |akt|
      {
        ghost var m := Written(View(), akt);
        TurnAdds(View(), akt, old(outqueue), old(acks), out);
        UnfinishedTurn(Written, Rank, r0, View(), akt, out);
        var size := |akt|;
        var more := Turn();
        if !more {
          return false;
        }
        if |akt| == size {
          return true;
        }
        out := out + m.out;
      }
      UnfinishedEnd(Written, Rank, r0, View(), out);
      return false;
    }

    /** The rest of the turn of the outer loop: the acknowledgement timer, and the head of the queue; `complete`
        says whether the line took the whole frame. */
    method SendPart(timer: bool, complete: bool) returns (line: seq<byte>)
      requires Valid()
      modifies this`mode, this`repeatcount
      ensures Valid() && View() == AfterTurn(old(View()), timer, complete)
      ensures line == if old(mode == 0 || (mode == 1 && timer)) && inqueue != [] then inqueue[0] else []
    {
      line := [];
      if mode == 1 && timer {
        mode := 0;
      }
      if mode == 0 && inqueue != [] {
        repeatcount := repeatcount + 1;
        line := inqueue[0];
        if complete {
          mode := 1;
        }
      }
    }
  }
}
