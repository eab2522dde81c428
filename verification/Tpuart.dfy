/**
 * The receive loop of the TPUART driver (eibd/backend/tpuartserial.cpp): segmentation of the byte stream into
 * telegrams, with an acknowledgement for each data telegram as soon as its destination is known.
 */
module Tpuart {
  import opened Bytes
  import opened Streaming
  import opened AddressTables
  import Emi
  import Lpdu

  /** What decides acknowledgements and monitor output; it does not change while bytes are received. */
  datatype Config = Config(mode: bool, vmode: bool, ackallindividual: bool, ackallgroup: bool,
                           individual: set<word>, group: set<word>)

  datatype State = State(conf: Config, acked: bool, waitconfirm: bool, retry: nat, inqueue: seq<seq<byte>>, watch: nat)

  /** Output: an acknowledgement byte to the line, or a call of RecvLPDU. */
  datatype Out = Ack(code: byte) | Telegram(data: seq<byte>)

  /** (b & 0xD0) == 0x90 */
  predicate Standard(b: byte) {
    b / 128 == 1 && b / 64 % 2 == 0 && b / 16 % 2 == 1
  }

  /** (b & 0xD0) == 0x10 */
  predicate Extended(b: byte) {
    b / 128 == 0 && b / 64 % 2 == 0 && b / 16 % 2 == 1
  }

  /** A byte that starts a data telegram: the watchdog's bytes end in three ones. */
  predicate StartsData(b: byte) {
    (Standard(b) || Extended(b)) && b % 8 != 7
  }

  /** The telegram's header is there: the destination and the length are known. */
  predicate HasHeader(t: seq<byte>) {
    |t| >= 6 && StartsData(t[0]) && (Standard(t[0]) || |t| >= 7)
  }

  function Length(t: seq<byte>): nat
    requires HasHeader(t)
  {
    if Standard(t[0]) then t[5] as int % 16 + 8 else t[6] as int + 9
  }

  predicate ToGroup(t: seq<byte>)
    requires HasHeader(t)
  {
    if Standard(t[0]) then t[5] >= 128 else t[1] >= 128
  }

  function Destination(t: seq<byte>): word
    requires HasHeader(t)
  {
    if Standard(t[0]) then Word(t[3], t[4]) else Word(t[4], t[5])
  }

  /** The driver accepts the telegram: accept-all for its kind of address, or its destination is in the table. */
  predicate Accepted(c: Config, t: seq<byte>)
    requires HasHeader(t)
  {
    if ToGroup(t) then c.ackallgroup || Destination(t) in c.group
    else c.ackallindividual || Destination(t) in c.individual
  }

  function AckCode(c: Config, t: seq<byte>): byte
    requires HasHeader(t)
  {
    if Accepted(c, t) then 0x11 else 0x10
  }

  /** RecvLPDU with one byte, for the virtual busmonitor */
  function Monitor(c: Config, b: byte): seq<Out> {
    if !c.mode && c.vmode then [Telegram([b])] else []
  }

  /** The head of the send queue is done with. */
  function Popped(s: State): State {
    s.(waitconfirm := false, retry := 0, inqueue := if s.inqueue == [] then [] else s.inqueue[1..])
  }

  /** in[0] == 0x8B and in[0] == 0x0B: the chip's confirmation of a send */
  function OnConfirm(s: State, positive: bool): State {
    if !s.waitconfirm then s
    else if positive || s.retry + 1 > 3 then Popped(s)
    else s.(waitconfirm := false, retry := s.retry + 1)
  }

  /** A data telegram at the front: the acknowledgement once its header is there, then the telegram once it is
      complete. */
  function OnData(s: State, buf: seq<byte>): Move<State, Out>
    requires buf != [] && StartsData(buf[0])
  {
    if !HasHeader(buf) then Wait
    else if !s.acked then Take(0, s.(acked := true), [Ack(AckCode(s.conf, buf))])
    else if |buf| < Length(buf) then Wait
    else Take(Length(buf), s.(acked := false), [Telegram(buf[..Length(buf)])])
  }

  /** One turn of the inner loop, the acknowledgement being a turn of its own. */
  function Step(s: State, buf: seq<byte>): Move<State, Out> {
    if buf == [] then Wait
    else if buf[0] == 0x8B then Take(1, OnConfirm(s, true), Monitor(s.conf, 0xCC))
    else if buf[0] == 0x0B then Take(1, OnConfirm(s, false), Monitor(s.conf, 0x0C))
    else if buf[0] % 8 == 7 then Take(1, s.(watch := 2), [])
    else if buf[0] == 0xCC || buf[0] == 0xC0 || buf[0] == 0x0C then Take(1, s, [Telegram(buf[..1])])
    else if StartsData(buf[0]) then OnData(s, buf)
    else Take(1, s.(acked := false), [])
  }

  function Rank(s: State): nat {
    if s.acked then 0 else 1
  }

  lemma StepDecided(s: State, a: seq<byte>, b: seq<byte>)
    ensures DecidedBy(Step, Rank, s, a, b)
  {
    if a != [] && HasHeader(a) {
      assert |a| >= Length(a) ==> (a + b)[..Length(a)] == a[..Length(a)];
    }
    if a != [] {
      assert (a + b)[..1] == a[..1];
    }
  }

  lemma StepPrefixDecided()
    ensures PrefixDecided(Step, Rank)
  {
    forall s, a, b ensures DecidedBy(Step, Rank, s, a, b) {
      StepDecided(s, a, b);
    }
  }

  // Reads with the rest of the outer loop between them.

  /** What goes on besides the reads: a frame is queued; or the end of a turn of the outer loop, with the timers of
      the telegram (running or not), of the confirmation and of the watchdog (run out or not). */
  datatype Sending = Queue(frame: seq<byte>) | TurnEnd(to: bool, sendExpired: bool, watchExpired: bool)

  /** No confirmation in time: from the third time on the head of the queue is dropped, and the count stays. */
  function OnSendTimeout(s: State, expired: bool): State {
    if !s.waitconfirm || !expired then s
    else
      s.(waitconfirm := false, retry := s.retry + 1,
         inqueue := if s.retry + 1 >= 3 && s.inqueue != [] then s.inqueue[1..] else s.inqueue)
  }

  function OnWatchdog(s: State, expired: bool): State {
    if (s.watch == 1 || s.watch == 2) && expired then s.(watch := 0) else s
  }

  /** With nothing left over, the head of the queue is sent, or the chip is asked for its state. */
  function SendNext(s: State, empty: bool, to: bool): State {
    if empty && s.inqueue != [] && !s.waitconfirm then s.(waitconfirm := true)
    else if empty && !s.waitconfirm && s.watch == 0 && !s.conf.mode && !to then s.(watch := 1)
    else s
  }

  function Queued(s: State, frame: seq<byte>): State {
    s.(inqueue := s.inqueue + [frame])
  }

  function Send(s: State, empty: bool, e: Sending): State {
    match e
    case Queue(frame) => Queued(s, frame)
    case TurnEnd(to, sendExpired, watchExpired) =>
      SendNext(OnWatchdog(OnSendTimeout(s, sendExpired), watchExpired), empty, to)
  }

  /** What the receiver goes by. */
  datatype Receiver = Receiver(conf: Config, acked: bool)

  function Receiving(s: State): Receiver {
    Receiver(s.conf, s.acked)
  }

  lemma StepAlike(s: State, t: State, buf: seq<byte>)
    ensures Alike(Step, Rank, Receiving, s, t, buf)
  {
  }

  lemma SendingKeepsReceiver()
    ensures KeyDecides(Step, Rank, Receiving) && KeepsKey(Send, Receiving)
  {
    forall s, t, buf ensures Alike(Step, Rank, Receiving, s, t, buf) {
      StepAlike(s, t, buf);
    }
  }

  lemma SessionAsOneRead(s: State, es: seq<Event<Sending>>)
    ensures SameResult(Receiving, Session(Step, Rank, Send, s, es), Drive(Step, Rank, s, BytesOf(es)))
  {
    StepPrefixDecided();
    SendingKeepsReceiver();
    SessionIsDrive(Step, Rank, Send, Receiving, s, es);
  }

  /** While no receive timeout fires, the telegrams handed up, the acknowledgement bytes, the flag and the leftover
      bytes depend on the bytes received, not on how the reads split them nor on what is sent in between. */
  lemma ReadsDoNotMatter(s: State, es: seq<Event<Sending>>, t: State, fs: seq<Event<Sending>>)
    requires Receiving(s) == Receiving(t) && BytesOf(es) == BytesOf(fs)
    ensures SameResult(Receiving, Session(Step, Rank, Send, s, es), Session(Step, Rank, Send, t, fs))
  {
    StepPrefixDecided();
    SendingKeepsReceiver();
    SameBytes(Step, Rank, Send, Receiving, s, es, t, fs);
  }

  // Acknowledgements.

  function Acks(out: seq<Out>): seq<byte> {
    if out == [] then [] else (if out[0].Ack? then [out[0].code] else []) + Acks(out[1..])
  }

  function Telegrams(out: seq<Out>): seq<seq<byte>> {
    if out == [] then [] else (if out[0].Telegram? then [out[0].data] else []) + Telegrams(out[1..])
  }

  /** The acknowledgements that the data telegrams among these should get, in order. */
  function Due(c: Config, ts: seq<seq<byte>>): seq<byte> {
    if ts == [] then [] else (if HasHeader(ts[0]) then [AckCode(c, ts[0])] else []) + Due(c, ts[1..])
  }

  lemma {:induction false} AcksAppend(a: seq<Out>, b: seq<Out>)
    ensures Acks(a + b) == Acks(a) + Acks(b)
  {
    if a == [] {
      assert a + b == b;
    } else {
      assert (a + b)[0] == a[0] && (a + b)[1..] == a[1..] + b;
      AcksAppend(a[1..], b);
    }
  }

  lemma {:induction false} TelegramsAppend(a: seq<Out>, b: seq<Out>)
    ensures Telegrams(a + b) == Telegrams(a) + Telegrams(b)
  {
    if a == [] {
      assert a + b == b;
    } else {
      assert (a + b)[0] == a[0] && (a + b)[1..] == a[1..] + b;
      TelegramsAppend(a[1..], b);
    }
  }

  lemma OutAppend(a: seq<Out>, b: seq<Out>)
    ensures Acks(a + b) == Acks(a) + Acks(b) && Telegrams(a + b) == Telegrams(a) + Telegrams(b)
  {
    AcksAppend(a, b);
    TelegramsAppend(a, b);
  }

  lemma {:induction false} DueAppend(c: Config, a: seq<seq<byte>>, b: seq<seq<byte>>)
    ensures Due(c, a + b) == Due(c, a) + Due(c, b)
  {
    if a == [] {
      assert a + b == b;
    } else {
      assert (a + b)[1..] == a[1..] + b;
      DueAppend(c, a[1..], b);
    }
  }

  /** The acknowledgement of the telegram that is being received. */
  function Pending(s: State, buf: seq<byte>): seq<byte> {
    if s.acked && HasHeader(buf) then [AckCode(s.conf, buf)] else []
  }

  /** The flag says that the telegram at the front of the buffer has been acknowledged. */
  predicate Ok(s: State, buf: seq<byte>) {
    s.acked ==> HasHeader(buf)
  }

  lemma HeaderOfPrefix(c: Config, t: seq<byte>, n: nat)
    requires HasHeader(t) && 7 <= n <= |t|
    ensures HasHeader(t[..n]) && AckCode(c, t[..n]) == AckCode(c, t)
  {
  }

  lemma TurnBalance(s: State, buf: seq<byte>)
    requires buf != [] && Ok(s, buf)
    ensures var m := Step(s, buf);
            m.Take? ==>
              && Advances(Rank, s, buf, m) && m.next.conf == s.conf
              && Ok(m.next, buf[m.n..])
              && Pending(s, buf) + Acks(m.out) == Due(s.conf, Telegrams(m.out)) + Pending(m.next, buf[m.n..])
  {
    var m := Step(s, buf);
    if m.Take? {
      assert m.out != [] ==> m.out[1..] == [];
      assert Telegrams(m.out) != [] ==> Telegrams(m.out)[1..] == [];
      if StartsData(buf[0]) && m.n > 0 {
        HeaderOfPrefix(s.conf, buf, Length(buf));
      }
    }
  }

  lemma Splice(p: seq<byte>, a1: seq<byte>, d1: seq<byte>, p1: seq<byte>, a2: seq<byte>, d2: seq<byte>, p2: seq<byte>)
    requires p + a1 == d1 + p1 && p1 + a2 == d2 + p2
    ensures p + (a1 + a2) == (d1 + d2) + p2
  {
    calc {
      p + (a1 + a2);
      (p + a1) + a2;
      d1 + (p1 + a2);
      (d1 + d2) + p2;
    }
  }

  /** The acknowledgement bytes are exactly those due for the data telegrams handed up, one each and in order, and
      one for the incomplete telegram at the front if the flag says so. */
  predicate Answered(s: State, buf: seq<byte>, r: Result<State, Out>) {
    && r.state.conf == s.conf && Ok(r.state, r.rest)
    && Pending(s, buf) + Acks(r.out) == Due(s.conf, Telegrams(r.out)) + Pending(r.state, r.rest)
  }

  /** However far the receiver gets, that is so. */
  lemma {:induction false} AcksAreDue(s: State, buf: seq<byte>)
    requires Ok(s, buf)
    ensures Answered(s, buf, Drive(Step, Rank, s, buf))
    decreases |buf|, Rank(s)
  {
    if buf != [] {
      var m := Step(s, buf);
      if m.Take? {
        TurnBalance(s, buf);
        AcksAreDue(m.next, buf[m.n..]);
        var r := Drive(Step, Rank, m.next, buf[m.n..]);
        OutAppend(m.out, r.out);
        DueAppend(s.conf, Telegrams(m.out), Telegrams(r.out));
        Splice(Pending(s, buf), Acks(m.out), Due(s.conf, Telegrams(m.out)), Pending(m.next, buf[m.n..]),
               Acks(r.out), Due(s.conf, Telegrams(r.out)), Pending(r.state, r.rest));
      }
    }
  }

  /** From an idle receiver, over any split into reads and whatever is sent in between: one acknowledgement for each
      data telegram. */
  lemma OneAckEach(s: State, es: seq<Event<Sending>>, r: Result<State, Out>)
    requires !s.acked && r == Session(Step, Rank, Send, s, es)
    ensures Acks(r.out) == Due(s.conf, Telegrams(r.out)) + Pending(r.state, r.rest)
  {
    SessionAsOneRead(s, es);
    AcksAreDue(s, BytesOf(es));
    FromIdle(s, BytesOf(es), r);
  }

  lemma FromIdle(s: State, buf: seq<byte>, r: Result<State, Out>)
    requires Answered(s, buf, r) && !s.acked
    ensures Acks(r.out) == Due(s.conf, Telegrams(r.out)) + Pending(r.state, r.rest)
  {
    assert [] + Acks(r.out) == Acks(r.out);
  }

  // Segmentation.

  /** What the bus sends: a complete data telegram, or one of the single-byte acknowledgements. */
  predicate WellFormed(t: seq<byte>) {
    t == [0xCC] || t == [0xC0] || t == [0x0C] || (HasHeader(t) && |t| == Length(t))
  }

  lemma TurnOutput(c: byte, t: seq<byte>)
    ensures Acks([Telegram(t)]) == [] && Telegrams([Telegram(t)]) == [t]
    ensures Acks([Ack(c)] + [Telegram(t)]) == [c] && Telegrams([Ack(c)] + [Telegram(t)]) == [t]
  {
    assert [Telegram(t)][1..] == [];
    assert ([Ack(c)] + [Telegram(t)])[1..] == [Telegram(t)];
  }

  /** A data telegram alone in the buffer; the acknowledgement is left out if the flag is still set. */
  lemma DataDrive(s: State, t: seq<byte>)
    requires HasHeader(t) && |t| == Length(t)
    ensures var first := if s.acked then [] else [Ack(AckCode(s.conf, t))];
            Drive(Step, Rank, s, t) == Result(s.(acked := false), [], first + [Telegram(t)])
    ensures Acks(Drive(Step, Rank, s, t).out) == if s.acked then [] else [AckCode(s.conf, t)]
    ensures Telegrams(Drive(Step, Rank, s, t).out) == [t]
  {
    TurnOutput(AckCode(s.conf, t), t);
    assert [] + [Telegram(t)] == [Telegram(t)];
    var s0, s1 := s.(acked := false), s.(acked := true);
    assert t[0..] == t && t[..|t|] == t;
    assert Step(s1, t) == Take(|t|, s0, [Telegram(t)]);
    OneTurn(Step, Rank, s1, t);
    if !s.acked {
      assert Step(s, t) == Take(0, s1, [Ack(AckCode(s.conf, t))]);
      DriveNext(Step, Rank, s, t);
    }
  }

  /** Driven from s, the bytes are these telegrams, and the state is the same again. */
  predicate HandsUp(s: State, buf: seq<byte>, ts: seq<seq<byte>>) {
    var r := Drive(Step, Rank, s, buf);
    r.state == s && r.rest == [] && Telegrams(r.out) == ts
  }

  lemma TelegramDrive(s: State, t: seq<byte>)
    requires WellFormed(t) && !s.acked
    ensures HandsUp(s, t, [t])
  {
    if |t| > 1 {
      DataDrive(s, t);
    } else {
      TurnOutput(0, t);
      assert t[..1] == t;
      assert Step(s, t) == Take(1, s, [Telegram(t)]);
      OneTurn(Step, Rank, s, t);
    }
  }

  lemma HandsUpBoth(s: State, a: seq<byte>, ts: seq<seq<byte>>, b: seq<byte>, us: seq<seq<byte>>)
    requires HandsUp(s, a, ts) && HandsUp(s, b, us)
    ensures HandsUp(s, a + b, ts + us)
  {
    StepPrefixDecided();
    var r := Drive(Step, Rank, s, a);
    DriveAfter(Step, Rank, s, a, b, r);
    OutAppend(r.out, Drive(Step, Rank, s, b).out);
  }

  lemma {:induction false} TelegramsDrive(s: State, ts: seq<seq<byte>>)
    requires (forall t :: t in ts ==> WellFormed(t)) && !s.acked
    ensures HandsUp(s, Flatten(ts), ts)
    decreases |ts|
  {
    if ts == [] {
      DriveNext(Step, Rank, s, []);
    } else {
      TelegramDrive(s, ts[0]);
      TelegramsDrive(s, ts[1..]);
      HandsUpBoth(s, ts[0], [ts[0]], Flatten(ts[1..]), ts[1..]);
      assert [ts[0]] + ts[1..] == ts;
    }
  }

  /** Segmentation undoes concatenation: telegrams sent back to back, read in any pieces and with anything sent in
      between, are handed up one by one, unchanged and in order, and each data telegram is acknowledged once. */
  lemma Segmentation(s: State, ts: seq<seq<byte>>, es: seq<Event<Sending>>, r: Result<State, Out>)
    requires (forall t :: t in ts ==> WellFormed(t)) && !s.acked && BytesOf(es) == Flatten(ts)
    requires r == Session(Step, Rank, Send, s, es)
    ensures Receiving(r.state) == Receiving(s) && r.rest == []
    ensures Telegrams(r.out) == ts && Acks(r.out) == Due(s.conf, ts)
  {
    SessionAsOneRead(s, es);
    OneAckEach(s, es, r);
    TelegramsDrive(s, ts);
    assert Due(s.conf, ts) + [] == Due(s.conf, ts);
  }

  // The frames of the bus.

  /** The driver accepts a frame: accept-all is on for its kind of address, or its destination is in the table. */
  predicate Accepts(c: Config, l: Emi.LData) {
    if l.isGroup then c.ackallgroup || l.dest in c.group else c.ackallindividual || l.dest in c.individual
  }

  function Telegrammed(ls: seq<Emi.LData>): seq<seq<byte>>
    requires forall l :: l in ls ==> Lpdu.OnBus(l)
  {
    if ls == [] then [] else [Lpdu.ToPacket(ls[0])] + Telegrammed(ls[1..])
  }

  /** One byte for each frame. */
  function Answers(c: Config, ls: seq<Emi.LData>): seq<byte> {
    if ls == [] then [] else [if Accepts(c, ls[0]) then 0x11 else 0x10] + Answers(c, ls[1..])
  }

  /** What the receiver reads in the header of a frame. */
  lemma HeaderOfFrame(l: Emi.LData)
    requires Lpdu.OnBus(l)
    ensures var t := Lpdu.ToPacket(l);
            && HasHeader(t) && Length(t) == |t| && (ToGroup(t) <==> l.isGroup) && Destination(t) == l.dest
  {
    var t := Lpdu.ToPacket(l);
    assert t[0] == Lpdu.Front(l)[0];
    Lpdu.ControlBits(l.prio, l.repeated, Lpdu.IsShort(l));
    if Lpdu.IsShort(l) {
      Lpdu.StandardParts(l);
    } else {
      Lpdu.ExtendedParts(l);
    }
  }

  lemma {:induction false} FramesDue(c: Config, ls: seq<Emi.LData>)
    requires forall l :: l in ls ==> Lpdu.OnBus(l)
    ensures var ts := Telegrammed(ls);
            (forall t :: t in ts ==> WellFormed(t)) && Due(c, ts) == Answers(c, ls)
  {
    if ls != [] {
      HeaderOfFrame(ls[0]);
      FramesDue(c, ls[1..]);
      assert Telegrammed(ls)[1..] == Telegrammed(ls[1..]);
    }
  }

  /** The frames of other stations, as they are on the bus: over any session from an idle receiver, whatever the reads
      and whatever is sent in between, each is handed up unchanged, and answered with one byte, 0x11 if the driver
      accepts its destination and 0x10 otherwise. */
  lemma FramesAnswered(s: State, ls: seq<Emi.LData>, es: seq<Event<Sending>>, r: Result<State, Out>)
    requires (forall l :: l in ls ==> Lpdu.OnBus(l)) && !s.acked && BytesOf(es) == Flatten(Telegrammed(ls))
    requires r == Session(Step, Rank, Send, s, es)
    ensures r.rest == [] && Telegrams(r.out) == Telegrammed(ls) && Acks(r.out) == Answers(s.conf, ls)
  {
    FramesDue(s.conf, ls);
    Segmentation(s, Telegrammed(ls), es, r);
  }

  // What becomes of a frame that is sent.

  /** The chip confirms it, denies it, or says nothing until the timer runs out. */
  datatype Outcome = Positive | Negative | Silence

  /** With nothing left over in the buffer: the outcome, and the end of the turn, which sends what is next. */
  function After(s: State, o: Outcome): State {
    match o
    case Positive => SendNext(OnConfirm(s, true), true, false)
    case Negative => SendNext(OnConfirm(s, false), true, false)
    case Silence => SendNext(OnSendTimeout(s, true), true, false)
  }

  function Outcomes(s: State, o: Outcome, n: nat): State {
    if n == 0 then s else After(Outcomes(s, o, n - 1), o)
  }

  /** The head of the queue is gone, and what follows it is under way. */
  predicate NextUnderway(s: State, t: State)
    requires s.inqueue != []
  {
    t.inqueue == s.inqueue[1..] && (t.waitconfirm <==> t.inqueue != [])
  }

  /** A denied frame goes out again, three times if it must, and is dropped when it is denied for the fourth time. */
  lemma {:induction false} Denied(s: State, n: nat)
    requires s.waitconfirm && s.inqueue != [] && s.retry == 0 && n <= 3
    ensures Outcomes(s, Negative, n) == s.(retry := n)
    ensures n == 3 ==> NextUnderway(s, Outcomes(s, Negative, 4)) && Outcomes(s, Negative, 4).retry == 0
  {
    if n > 0 {
      Denied(s, n - 1);
    }
  }

  /** A confirmed frame is done with, however often it was denied before. */
  lemma Done(s: State)
    requires s.waitconfirm && s.inqueue != []
    ensures NextUnderway(s, After(s, Positive)) && After(s, Positive).retry == 0
  {
  }

  /** A frame of which nothing is heard goes out again, and is dropped at the third timeout. */
  lemma {:induction false} Unheard(s: State, n: nat)
    requires s.waitconfirm && s.inqueue != [] && s.retry == 0 && n <= 2
    ensures Outcomes(s, Silence, n) == s.(retry := n)
    ensures n == 2 ==> NextUnderway(s, Outcomes(s, Silence, 3)) && Outcomes(s, Silence, 3).retry == 3
  {
    if n > 0 {
      Unheard(s, n - 1);
    }
  }

  /** But the count is not reset then: a timeout drops a frame if and only if there have been two failures since the
      last confirmation or denial that released one, be they of this frame or of one before it. */
  lemma DroppedBySilence(s: State)
    requires s.waitconfirm && s.inqueue != []
    ensures NextUnderway(s, After(s, Silence)) <==> s.retry >= 2
    ensures s.retry < 2 ==> After(s, Silence) == s.(retry := s.retry + 1)
  {
    if s.retry < 2 {
      assert |After(s, Silence).inqueue| == |s.inqueue|;
    }
  }

  /** So after a frame that nothing was heard of, the next one is dropped at its first timeout. */
  lemma NextUnheard(s: State)
    requires s.waitconfirm && |s.inqueue| > 1 && s.retry == 0
    ensures var t := Outcomes(s, Silence, 3);
            t.waitconfirm && t.inqueue == s.inqueue[1..] && NextUnderway(t, After(t, Silence))
  {
    Unheard(s, 2);
    DroppedBySilence(Outcomes(s, Silence, 3));
  }

  // The receive timeout.

  /** The loop when the timer of an incomplete telegram has run out: bytes are dropped until the front is
      something complete; the flag `acked` stays as it is. */
  function Expire(s: State, buf: seq<byte>): Result<State, Out>
    decreases |buf|, Rank(s)
  {
    if buf == [] then Result(s, [], [])
    else
      match Step(s, buf)
      case Wait => Expire(s, buf[1..])
      case Take(n, next, out) =>
        if n == 0 && Rank(next) < Rank(s) then
          var r := Expire(next, buf);
          Result(r.state, r.rest, out + r.out)
        else Drive(Step, Rank, s, buf)
  }

  /** Why the acknowledgements are promised only while no timeout fires: a telegram that was acknowledged and
      then timed out can leave the flag set, */
  lemma TimeoutLeavesFlag(s: State)
    requires !s.acked
    ensures var r1 := Drive(Step, Rank, s, [0xBC, 0x11, 0x10, 0x11, 0x12, 0x14]);
            && Ok(r1.state, r1.rest) && r1.state.acked && Acks(r1.out) == Pending(r1.state, r1.rest)
            && Expire(r1.state, r1.rest) == Result(s.(acked := true), [], [])
  {
    var b: seq<byte> := [0xBC, 0x11, 0x10, 0x11, 0x12, 0x14];
    var s1 := s.(acked := true);
    assert b[0..] == b && Step(s, b) == Take(0, s1, [Ack(AckCode(s.conf, b))]) && Step(s1, b).Wait?;
    assert Drive(Step, Rank, s1, b) == Result(s1, b, []);
    DriveNext(Step, Rank, s, b);
    assert Drive(Step, Rank, s, b) == Result(s1, b, [Ack(AckCode(s.conf, b))] + []);
    assert [Ack(AckCode(s.conf, b))][1..] == [];
    assert b[1..] == [0x11, 0x10, 0x11, 0x12, 0x14];
    ShortExpire(s1, b[1..]);
    WaitExpires(s1, b);
  }

  lemma {:induction false} ShortExpire(s: State, b: seq<byte>)
    requires |b| <= 5 && forall i :: 0 <= i < |b| ==> StartsData(b[i])
    ensures Expire(s, b) == Result(s, [], [])
    decreases |b|
  {
    if b != [] {
      ShortWaits(s, b);
      ShortExpire(s, b[1..]);
      WaitExpires(s, b);
    }
  }

  lemma ShortWaits(s: State, b: seq<byte>)
    requires 0 < |b| <= 5 && StartsData(b[0])
    ensures Step(s, b).Wait?
  {
  }

  /** With nothing to do but wait, the timeout drops a byte. */
  lemma WaitExpires(s: State, b: seq<byte>)
    requires b != [] && Step(s, b).Wait?
    ensures Expire(s, b) == Expire(s, b[1..])
  {
  }

  /** and the next data telegram is acknowledged if and only if the flag is not set when it comes. */
  lemma AckOnlyIfFlagClear(s: State, t: seq<byte>)
    requires HasHeader(t) && |t| == Length(t)
    ensures var r := Drive(Step, Rank, s, t);
            && Telegrams(r.out) == [t] && r.rest == []
            && (Acks(r.out) == [AckCode(s.conf, t)] <==> !s.acked)
  {
    DataDrive(s, t);
  }

  /** The bytes that leave the flag alone: confirmations, the watchdog's, and acknowledgements of others. */
  predicate LeavesAlone(b: byte) {
    b == 0x8B || b == 0x0B || b % 8 == 7 || b == 0xCC || b == 0xC0 || b == 0x0C
  }

  predicate AllLeaveAlone(buf: seq<byte>) {
    forall i :: 0 <= i < |buf| ==> LeavesAlone(buf[i])
  }

  /** The start of a data telegram whose end is missing. */
  predicate Incomplete(buf: seq<byte>) {
    buf != [] && StartsData(buf[0]) && (HasHeader(buf) ==> |buf| < Length(buf))
  }

  /** Read from each of the first n, the bytes are an incomplete data telegram, and the rest leave the flag alone. */
  ghost predicate CrumblesAt(buf: seq<byte>, n: nat) {
    n <= |buf| && (forall i :: 0 <= i < n ==> Incomplete(buf[i..])) && AllLeaveAlone(buf[n..])
  }

  ghost predicate Crumbles(buf: seq<byte>) {
    exists n: nat :: CrumblesAt(buf, n)
  }

  lemma CrumblesNext(buf: seq<byte>)
    requires Incomplete(buf)
    ensures Crumbles(buf) <==> Crumbles(buf[1..])
  {
    var rest := buf[1..];
    assert buf[0..] == buf && forall i :: 0 <= i < |rest| ==> rest[i..] == buf[i + 1..];
    if n: nat :| CrumblesAt(buf, n) {
      assert n > 0 by {
        assert n == 0 ==> LeavesAlone(buf[n..][0]);
      }
      assert rest[n - 1..] == buf[n..];
      assert CrumblesAt(rest, n - 1);
    }
    if n: nat :| CrumblesAt(rest, n) {
      forall i | 0 <= i < n + 1 ensures Incomplete(buf[i..]) {
        assert i > 0 ==> Incomplete(rest[i - 1..]);
      }
      assert rest[n..] == buf[n + 1..];
      assert CrumblesAt(buf, n + 1);
    }
  }

  lemma CrumblesEnd(buf: seq<byte>)
    requires !Incomplete(buf)
    ensures Crumbles(buf) <==> AllLeaveAlone(buf)
  {
    assert buf[0..] == buf;
    assert CrumblesAt(buf, 0) <==> AllLeaveAlone(buf);
    assert forall n: nat :: CrumblesAt(buf, n) ==> n == 0;
  }

  /** A turn takes a byte that leaves the flag alone and keeps it; or there is another byte in front, and it waits, or
      sets the flag and keeps the byte, or leaves the flag clear. */
  lemma TurnFlag(s: State, buf: seq<byte>)
    requires buf != []
    ensures var m := Step(s, buf);
            if LeavesAlone(buf[0]) then
              && m.Take? && m.n == 1 && m.next.acked == s.acked
              && (AllLeaveAlone(buf) <==> AllLeaveAlone(buf[1..]))
            else
              !AllLeaveAlone(buf) && (m.Take? ==> Advances(Rank, s, buf, m) && (m.n == 0 || !m.next.acked))
  {
    if LeavesAlone(buf[0]) {
      assert buf == [buf[0]] + buf[1..];
    }
  }

  lemma {:induction false} DriveFlag(s: State, buf: seq<byte>)
    ensures var r := Drive(Step, Rank, s, buf);
            r.rest == [] && r.state.acked <==> s.acked && AllLeaveAlone(buf)
    decreases |buf|, Rank(s)
  {
    if buf != [] {
      var m := Step(s, buf);
      TurnFlag(s, buf);
      if m.Take? {
        DriveFlag(m.next, buf[m.n..]);
      }
    }
  }

  /** The receive timeout ends with an empty buffer and the flag set if and only if the leftover is of that form, and
      the flag was set or the leftover has a header. */
  lemma {:induction false} ExpireFlag(s: State, buf: seq<byte>)
    ensures var r := Expire(s, buf);
            r.rest == [] && r.state.acked <==> (s.acked || HasHeader(buf)) && Crumbles(buf)
    decreases |buf|, Rank(s)
  {
    if Incomplete(buf) {
      CrumblesNext(buf);
    } else {
      CrumblesEnd(buf);
    }
    if buf != [] {
      var m := Step(s, buf);
      if m.Wait? {
        WaitExpires(s, buf);
        ExpireFlag(s, buf[1..]);
      } else if m.n == 0 {
        ExpireFlag(m.next, buf);
      } else {
        DriveFlag(s, buf);
      }
    }
  }

  lemma {:induction false} DriveWaits(s: State, buf: seq<byte>)
    ensures var r := Drive(Step, Rank, s, buf); r.rest == [] || Step(r.state, r.rest).Wait?
    decreases |buf|, Rank(s)
  {
    if buf != [] {
      var m := Step(s, buf);
      if m.Take? {
        DriveWaits(m.next, buf[m.n..]);
      }
    }
  }

  /** So for the leftover of any session from an idle receiver: which timeouts leave an empty buffer and have the next
      data telegram go without an acknowledgement. */
  lemma TimeoutExactly(s: State, es: seq<Event<Sending>>, t: seq<byte>, r: Result<State, Out>, e: Result<State, Out>)
    requires !s.acked && r == Session(Step, Rank, Send, s, es) && e == Expire(r.state, r.rest)
    requires HasHeader(t) && |t| == Length(t)
    ensures e.rest == [] && Acks(Drive(Step, Rank, e.state, t).out) == [] <==> HasHeader(r.rest) && Crumbles(r.rest)
    ensures Telegrams(Drive(Step, Rank, e.state, t).out) == [t]
  {
    SessionAsOneRead(s, es);
    AcksAreDue(s, BytesOf(es));
    DriveWaits(s, BytesOf(es));
    var d := Drive(Step, Rank, s, BytesOf(es));
    StepAlike(d.state, r.state, d.rest);
    ExpireFlag(r.state, r.rest);
    DataDrive(e.state, t);
  }

  // The driver.

  /** The same as Streaming.Unfinished for the loop after a timeout. */
  ghost predicate Expiring(r0: Result<State, Out>, s: State, buf: seq<byte>, out: seq<Out>) {
    var r := Expire(s, buf);
    r0 == Result(r.state, r.rest, out + r.out)
  }

  lemma ExpiringTurn(r0: Result<State, Out>, s: State, buf: seq<byte>, out: seq<Out>)
    requires Expiring(r0, s, buf, out) && buf != []
    ensures var m := Step(s, buf);
            && (m.Wait? ==> Expiring(r0, s, buf[1..], out))
            && (m.Take? && m.n == 0 ==> Expiring(r0, m.next, buf, out + m.out))
            && (m.Take? && m.n > 0 ==> Unfinished(Step, Rank, r0, s, buf, out))
  {
    var m := Step(s, buf);
    if m.Take? && m.n == 0 {
      var r := Expire(m.next, buf);
      assert out + (m.out + r.out) == (out + m.out) + r.out;
    }
  }

  /** The logs of the driver: acknowledgement bytes and calls of RecvLPDU. */
  ghost predicate Logged(line0: seq<byte>, line: seq<byte>, received0: seq<seq<byte>>, received: seq<seq<byte>>,
                         out: seq<Out>)
  {
    line == line0 + Acks(out) && received == received0 + Telegrams(out)
  }

  lemma LoggedAppend(line0: seq<byte>, line1: seq<byte>, line2: seq<byte>, received0: seq<seq<byte>>,
                     received1: seq<seq<byte>>, received2: seq<seq<byte>>, a: seq<Out>, b: seq<Out>)
    requires Logged(line0, line1, received0, received1, a) && Logged(line1, line2, received1, received2, b)
    ensures Logged(line0, line2, received0, received2, a + b)
  {
    OutAppend(a, b);
  }

  lemma OneOutput(o: Out)
    ensures Acks([o]) == (if o.Ack? then [o.code] else [])
    ensures Telegrams([o]) == if o.Telegram? then [o.data] else []
  {
    assert [o][1..] == [];
  }

  class TPUARTSerialLayer2Driver {
    var buffer: seq<byte>
    var acked: bool
    var to: bool
    var waitconfirm: bool
    var retry: nat
    var watch: nat
    var mode: bool
    var vmode: bool
    var ackallindividual: bool
    var ackallgroup: bool
    const indaddr: Table
    const groupaddr: Table
    var inqueue: seq<seq<byte>>
    var inSignal: nat
    /** what was written to the line, and what RecvLPDU was called with */
    var line: seq<byte>
    var received: seq<seq<byte>>

    ghost function View(): State
      reads this, indaddr, groupaddr
    {
      State(Config(mode, vmode, ackallindividual, ackallgroup, indaddr.Addresses(), groupaddr.Addresses()),
            acked, waitconfirm, retry, inqueue, watch)
    }

    ghost predicate Valid()
      reads this, indaddr, groupaddr
    {
      && indaddr.Valid() && groupaddr.Valid() && inSignal == |inqueue| && (waitconfirm ==> inqueue != [])
    }

    constructor (a: word)
      ensures Valid() && fresh(indaddr) && fresh(groupaddr)
      ensures View() == State(Config(false, false, false, false, {a}, {}), false, false, 0, [], 0)
      ensures buffer == [] && line == [] && received == [] && !to
    {
      indaddr := new Table();
      groupaddr := new Table();
      buffer, acked, to, waitconfirm, retry, watch := [], false, false, false, 0, 0;
      mode, vmode, ackallindividual, ackallgroup := false, false, false, false;
      inqueue, inSignal, line, received := [], 0, [], [];
      new;
      var ok := indaddr.Add(a);
    }

    /** The acknowledgement byte for the telegram at the front. */
    method SendAck()
      requires Valid() && HasHeader(buffer) && !acked
      modifies this`acked, this`line
      ensures Valid() && View() == old(View()).(acked := true)
      ensures line == old(line) + [AckCode(View().conf, buffer)]
    {
      var all, found;
      if ToGroup(buffer) {
        all := ackallgroup;
        found := groupaddr.Contains(Destination(buffer));
      } else {
        all := ackallindividual;
        found := indaddr.Contains(Destination(buffer));
      }
      line := line + [if all || found then 0x11 else 0x10];
      acked := true;
    }

    method RecvLPDU(data: seq<byte>)
      modifies this`received
      ensures received == old(received) + [data]
    {
      received := received + [data];
    }

    /** in[0] == 0x8B and in[0] == 0x0B */
    method Confirm(positive: bool)
      requires Valid()
      modifies this`waitconfirm, this`retry, this`inqueue, this`inSignal
      ensures Valid() && View() == OnConfirm(old(View()), positive)
    {
      if waitconfirm {
        waitconfirm := false;
        retry := if positive then retry else retry + 1;
        if positive || retry > 3 {
          inqueue := inqueue[1..];
          inSignal := inSignal - 1;
          retry := 0;
        }
      }
    }

    /** The state after a turn on (s, buf) that started with these logs. */
    ghost predicate Turned(s: State, buf: seq<byte>, line0: seq<byte>, received0: seq<seq<byte>>, more: bool)
      reads this, indaddr, groupaddr
    {
      match Step(s, buf)
      case Wait => !more && View() == s && buffer == buf && line == line0 && received == received0
      case Take(n, next, out) =>
        && more && View() == next && n <= |buf| && buffer == buf[n..]
        && Logged(line0, line, received0, received, out)
    }

    /** A telegram byte at the front, the acknowledgement having been sent if the header is there. */
    method Data() returns (more: bool)
      requires Valid() && buffer != [] && StartsData(buffer[0]) && (HasHeader(buffer) ==> acked)
      modifies this`buffer, this`acked, this`received
      ensures Valid() && Turned(old(View()), old(buffer), old(line), old(received), more)
    {
      if !HasHeader(buffer) {
        return false;
      }
      var len := Length(buffer);
      if |buffer| < len {
        return false;
      }
      OneOutput(Telegram(buffer[..len]));
      acked := false;
      RecvLPDU(buffer[..len]);
      buffer := buffer[len..];
      return true;
    }

    /** One turn of the inner loop after the acknowledgement; false means that more bytes are needed. */
    method Turn() returns (more: bool)
      requires Valid() && buffer != [] && (HasHeader(buffer) ==> acked)
      modifies this
      ensures Valid() && Turned(old(View()), old(buffer), old(line), old(received), more)
      ensures to == old(to) && (more ==> |buffer| < |old(buffer)|)
    {
      if StartsData(buffer[0]) {
        more := Data();
        return;
      }
      SingleByte();
      return true;
    }

    /** The cases that consume one byte. */
    method SingleByte()
      requires Valid() && buffer != [] && !StartsData(buffer[0])
      modifies this`buffer, this`acked, this`received, this`waitconfirm, this`retry, this`inqueue, this`inSignal,
               this`watch
      ensures Valid() && Turned(old(View()), old(buffer), old(line), old(received), true)
      ensures |buffer| == |old(buffer)| - 1
    {
      var b := buffer[0];
      if b == 0x8B || b == 0x0B {
        Confirmation(b == 0x8B);
      } else if b % 8 == 7 {
        watch := 2;
      } else if b == 0xCC || b == 0xC0 || b == 0x0C {
        OneOutput(Telegram(buffer[..1]));
        RecvLPDU(buffer[..1]);
      } else {
        acked := false;
      }
      buffer := buffer[1..];
    }

    /** The chip's confirmation byte, shown to a virtual busmonitor. */
    method Confirmation(positive: bool)
      requires Valid()
      modifies this`received, this`waitconfirm, this`retry, this`inqueue, this`inSignal
      ensures Valid() && View() == OnConfirm(old(View()), positive)
      ensures Logged(old(line), line, old(received), received,
                     Monitor(old(View().conf), if positive then 0xCC else 0x0C))
    {
      var m := if positive then 0xCC else 0x0C;
      OneOutput(Telegram([m]));
      if !mode && vmode {
        RecvLPDU([m]);
      }
      Confirm(positive);
    }

    /** The result has been reached. */
    ghost predicate Finished(r: Result<State, Out>, line0: seq<byte>, received0: seq<seq<byte>>)
      reads this, indaddr, groupaddr
    {
      View() == r.state && buffer == r.rest && Logged(line0, line, received0, received, r.out)
    }

    /** What the inner loop keeps; it is to end in r0, and has put out `out`. */
    ghost predicate Running(r0: Result<State, Out>, out: seq<Out>, line0: seq<byte>, received0: seq<seq<byte>>,
                            expired: bool)
      reads this, indaddr, groupaddr
    {
      && Valid()
      && Logged(line0, line, received0, received, out)
      && if to && expired then Expiring(r0, View(), buffer, out) else Unfinished(Step, Rank, r0, View(), buffer, out)
    }

    /** The acknowledgement at the start of a turn. */
    method Acknowledge(ghost r0: Result<State, Out>, ghost out: seq<Out>, ghost line0: seq<byte>,
                       ghost received0: seq<seq<byte>>, expired: bool)
      returns (ghost more: seq<Out>)
      requires buffer != [] && Running(r0, out, line0, received0, expired)
      modifies this`acked, this`line
      ensures Running(r0, out + more, line0, received0, expired) && (HasHeader(buffer) ==> acked)
    {
      more := [];
      assert out + [] == out;
      if HasHeader(buffer) && !acked {
        AckTurn(to && expired, r0, View(), buffer, out);
        more := [Ack(AckCode(View().conf, buffer))];
        OneOutput(more[0]);
        ghost var line1 := line;
        SendAck();
        LoggedAppend(line0, line1, line, received0, received, received, out, more);
      }
    }

    /** The rest of the turn. If there is nothing to do but wait, the result r0 is reached. */
    method Consume(ghost r0: Result<State, Out>, ghost out: seq<Out>, ghost line0: seq<byte>,
                   ghost received0: seq<seq<byte>>, expired: bool)
      returns (done: bool, ghost more: seq<Out>)
      requires buffer != [] && Running(r0, out, line0, received0, expired) && (HasHeader(buffer) ==> acked)
      modifies this
      ensures !done ==> Running(r0, out + more, line0, received0, expired) && |buffer| < |old(buffer)|
      ensures !done ==> !to || (old(to) && expired)
      ensures done ==> Valid() && Finished(r0, line0, received0) && buffer != [] && to
    {
      ghost var m := Step(View(), buffer);
      NextTurn(to && expired, r0, View(), buffer, out);
      ghost var line1, received1 := line, received;
      more := if m.Take? then m.out else [];
      assert out + [] == out;
      var moved := Turn();
      if moved {
        LoggedAppend(line0, line1, line, received0, received1, received, out, more);
        to := false;
        return false, more;
      }
      if !to || !expired {
        to := true;
        return true, more;
      }
      buffer := buffer[1..];
      return false, more;
    }

    /** Send_L_Data: the frame is queued. */
    method QueueFrame(frame: seq<byte>)
      requires Valid()
      modifies this`inqueue, this`inSignal
      ensures Valid() && View() == Queued(old(View()), frame)
    {
      inqueue := inqueue + [frame];
      inSignal := inSignal + 1;
    }

    /** The end of a turn of the outer loop. */
    method EndTurn(sendExpired: bool, watchExpired: bool)
      requires Valid()
      modifies this`waitconfirm, this`retry, this`inqueue, this`inSignal, this`watch
      ensures Valid() && View() == Send(old(View()), buffer == [], TurnEnd(to, sendExpired, watchExpired))
    {
      CheckSend(sendExpired);
      CheckWatchdog(watchExpired);
      if buffer == [] && inqueue != [] && !waitconfirm {
        waitconfirm := true;
      } else if buffer == [] && !waitconfirm && watch == 0 && !mode && !to {
        watch := 1;
      }
    }

    method CheckSend(expired: bool)
      requires Valid()
      modifies this`waitconfirm, this`retry, this`inqueue, this`inSignal
      ensures Valid() && View() == OnSendTimeout(old(View()), expired)
    {
      if waitconfirm && expired {
        retry := retry + 1;
        waitconfirm := false;
        if retry >= 3 {
          inqueue := inqueue[1..];
          inSignal := inSignal - 1;
        }
      }
    }

    method CheckWatchdog(expired: bool)
      requires Valid()
      modifies this`watch
      ensures Valid() && View() == OnWatchdog(old(View()), expired)
    {
      if watch == 1 && expired && !mode {
        watch := 0;
      }
      if watch == 1 && expired && mode {
        watch := 0;
      }
      if watch == 2 && expired {
        watch := 0;
      }
    }

    /** A read: the bytes join the buffer, and the inner loop runs. `expired` says that the timer of an incomplete
        telegram has run out. */
    method Read(chunk: seq<byte>, expired: bool)
      requires Valid()
      modifies this
      ensures Valid()
      ensures var r := if old(to) && expired then Expire(old(View()), old(buffer) + chunk)
                       else Drive(Step, Rank, old(View()), old(buffer) + chunk);
              Finished(r, old(line), old(received))
      ensures buffer != [] ==> to
      ensures !(old(to) && expired) && buffer == [] && old(buffer) + chunk != [] ==> !to
    {
      buffer := buffer + chunk;
      ghost var r0 := if to && expired then Expire(View(), buffer) else Drive(Step, Rank, View(), buffer);
      Started(to && expired, View(), buffer, line, received);
      Loop(r0, line, received, expired);
    }

    /** The inner loop. */
    method Loop(ghost r0: Result<State, Out>, ghost line0: seq<byte>, ghost received0: seq<seq<byte>>, expired: bool)
      requires Running(r0, [], line0, received0, expired)
      modifies this
      ensures Valid() && Finished(r0, line0, received0)
      ensures buffer != [] ==> to
      ensures !(old(to) && expired) && buffer == [] && old(buffer) != [] ==> !to
    {
      ghost var out: seq<Out>, more := [], [];
      while |buffer| > 0
        invariant Running(r0, out, line0, received0, expired)
        invariant !(old(to) && expired) && (to != old(to) || |buffer| < |old(buffer)|) ==> !to
        decreases |buffer|
      {
        more := Acknowledge(r0, out, line0, received0, expired);
        out := out + more;
        var done;
        done, more := Consume(r0, out, line0, received0, expired);
        out := out + more;
        if done {
          return;
        }
      }
      EmptyEnd(to && expired, r0, View(), out);
    }
  }

  lemma Started(expiring: bool, s: State, buf: seq<byte>, line: seq<byte>, received: seq<seq<byte>>)
    ensures var r0 := if expiring then Expire(s, buf) else Drive(Step, Rank, s, buf);
            if expiring then Expiring(r0, s, buf, []) else Unfinished(Step, Rank, r0, s, buf, [])
    ensures Logged(line, line, received, received, [])
  {
    UnfinishedStart(Step, Rank, s, buf);
  }

  lemma EmptyEnd(expiring: bool, r0: Result<State, Out>, s: State, out: seq<Out>)
    requires if expiring then Expiring(r0, s, [], out) else Unfinished(Step, Rank, r0, s, [], out)
    ensures r0 == Result(s, [], out)
  {
    assert out + [] == out;
    if !expiring {
      UnfinishedEnd(Step, Rank, r0, s, out);
    }
  }

  /** The acknowledgement at the start of a turn. */
  lemma AckTurn(expiring: bool, r0: Result<State, Out>, s: State, buf: seq<byte>, out: seq<Out>)
    requires if expiring then Expiring(r0, s, buf, out) else Unfinished(Step, Rank, r0, s, buf, out)
    requires HasHeader(buf) && !s.acked
    ensures var s', out' := s.(acked := true), out + [Ack(AckCode(s.conf, buf))];
            if expiring then Expiring(r0, s', buf, out') else Unfinished(Step, Rank, r0, s', buf, out')
  {
    HeaderTurn(s, buf);
    NextTurn(expiring, r0, s, buf, out);
  }

  lemma HeaderTurn(s: State, buf: seq<byte>)
    requires HasHeader(buf) && !s.acked
    ensures Step(s, buf) == Take(0, s.(acked := true), [Ack(AckCode(s.conf, buf))]) && buf[0..] == buf
  {
  }

  lemma NextTurn(expiring: bool, r0: Result<State, Out>, s: State, buf: seq<byte>, out: seq<Out>)
    requires if expiring then Expiring(r0, s, buf, out) else Unfinished(Step, Rank, r0, s, buf, out)
    requires buf != []
    ensures var m := Step(s, buf);
            match m
            case Wait => if expiring then Expiring(r0, s, buf[1..], out) else r0 == Result(s, buf, out)
            case Take(n, next, o) =>
              && n <= |buf|
              && (if expiring && n == 0 then Expiring(r0, next, buf[n..], out + o)
                  else Unfinished(Step, Rank, r0, next, buf[n..], out + o))
  {
    StepDecided(s, buf, []);
    assert buf + [] == buf && buf[0..] == buf;
    if expiring {
      ExpiringTurn(r0, s, buf, out);
    }
    if !expiring || (Step(s, buf).Take? && Step(s, buf).n > 0) {
      UnfinishedTurn(Step, Rank, r0, s, buf, out);
    }
  }
}
