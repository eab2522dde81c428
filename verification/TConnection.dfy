/**
 * The connection-oriented transport (class T_Connection of eibd/libserver/layer4.cpp), once the connect request
 * has been sent: `Conn` is the state of T_Connection::Run as a value, `T_Connection` the class.
 */
module TConnection {
  import opened Bytes
  import opened Tpdu

  /** Annotation of a packet sent: which payload it carries or acknowledges, counted without wrapping. */
  datatype Tag = Data(n: nat) | Confirms(n: nat) | Other

  datatype Sent = Sent(pdu: seq<byte>, tag: Tag)

  /** History that no step reads: payloads submitted, how many of them are acknowledged, payloads delivered,
      transmissions of the present head. */
  datatype Log = Log(submitted: seq<payload>, acked: nat, delivered: seq<payload>, tries: nat)

  /** mode: 0 closed, 1 idle, 2 waiting for an acknowledgement; sent: what layer 3 was given. */
  datatype Conn = Conn(
    mode: int, sendno: serial, recvno: serial, repcount: int,
    input: seq<payload>, out: seq<seq<byte>>, sent: seq<Sent>, log: Log)
  {
    function Sends(pdu: seq<byte>, tag: Tag): Conn {
      this.(sent := sent + [Sent(pdu, tag)])
    }

    /** One more transmission of the head. */
    function SendsHead(): Conn
      requires input != []
    {
      this.(sent := sent + [Sent(DataPacket(sendno, input[0]), Data(log.acked))], log := log.(tries := log.tries + 1))
    }
  }

  const OPENED := Conn(1, 0, 0, 0, [], [], [], Log([], 0, [], 0))

  /** What ends the wait of one turn of the loop. */
  datatype Event = Packet(pdu: seq<byte>) | Input | Timer | Stop

  /** What every step keeps. */
  ghost predicate Ok(c: Conn) {
    && 0 <= c.mode <= 2 && 0 <= c.repcount <= 3
    && c.log.acked <= |c.log.submitted| && c.input == c.log.submitted[c.log.acked..]
    && c.sendno == c.log.acked % 16 && c.recvno == |c.log.delivered| % 16
    && (c.mode == 2 ==> c.input != [] && c.log.tries == c.repcount + 1)
    && (c.mode == 1 ==> c.log.tries == 0) && c.log.tries <= 4
    && c.out == c.log.delivered + if c.mode == 0 then [[]] else []
  }

  /** Send: the payload joins the input queue. */
  function Submit(c: Conn, p: payload): Conn {
    c.(input := c.input + [p], log := c.log.(submitted := c.log.submitted + [p]))
  }

  /** The code after the loop. */
  function Finish(c: Conn): Conn {
    c.(mode := 0, out := c.out + [[]]).Sends([0x81], Other)
  }

  function OnData(c: Conn, serno: serial, data: payload): Conn {
    if serno == c.recvno then
      c.(out := c.out + [Masked(data)], recvno := (c.recvno + 1) % 16,
         log := c.log.(delivered := c.log.delivered + [Masked(data)]))
       .Sends(AckPacket(c.recvno), Confirms(|c.log.delivered|))
    else if serno == (c.recvno - 1) % 16 then
      c.Sends(AckPacket(serno), if c.log.delivered == [] then Other else Confirms(|c.log.delivered| - 1))
    else Finish(c)
  }

  function OnNack(c: Conn, serno: serial): Conn
    requires Ok(c)
  {
    if serno != c.sendno || c.input == [] || c.repcount >= 3 || c.mode != 2 then Finish(c)
    else c.(repcount := c.repcount + 1).SendsHead()
  }

  function OnAck(c: Conn, serno: serial): Conn
    requires Ok(c)
  {
    if serno != c.sendno || c.mode != 2 then Finish(c)
    else
      c.(mode := 1, input := c.input[1..], sendno := (c.sendno + 1) % 16,
         log := c.log.(acked := c.log.acked + 1, tries := 0))
  }

  function OnPacket(c: Conn, pdu: seq<byte>): Conn
    requires Ok(c)
  {
    match FromPacket(pdu)
    case Connect => Finish(c)
    case Disconnect => Finish(c)
    case DataConnected(serno, data) => OnData(c, serno, data)
    case Nack(serno) => OnNack(c, serno)
    case Ack(serno) => OnAck(c, serno)
    case _ => c
  }

  function OnInput(c: Conn): Conn
    requires Ok(c)
  {
    if c.mode == 1 && c.input != [] then c.(repcount := 0, mode := 2).SendsHead() else c
  }

  function OnTimer(c: Conn): Conn
    requires Ok(c)
  {
    if c.mode == 2 && c.repcount < 3 then c.(repcount := c.repcount + 1).SendsHead() else Finish(c)
  }

  /** One turn of the loop, with the code after it once the loop ends; a closed connection does nothing. */
  function Iterate(c: Conn, e: Event): Conn
    requires Ok(c)
  {
    if c.mode == 0 then c
    else
      match e
      case Packet(pdu) => OnPacket(c, pdu)
      case Input => OnInput(c)
      case Timer => OnTimer(c)
      case Stop => Finish(c)
  }

  lemma DataKeepsOk(c: Conn, serno: serial, data: payload)
    requires Ok(c) && c.mode != 0
    ensures Ok(OnData(c, serno, data))
  {
  }

  lemma AckKeepsOk(c: Conn, serno: serial)
    requires Ok(c) && c.mode != 0
    ensures Ok(OnAck(c, serno)) && Ok(OnNack(c, serno))
  {
  }

  lemma IterateKeepsOk(c: Conn, e: Event)
    requires Ok(c)
    ensures Ok(Iterate(c, e))
  {
    if c.mode != 0 && e.Packet? {
      match FromPacket(e.pdu)
      case DataConnected(serno, data) => DataKeepsOk(c, serno, data);
      case Nack(serno) => AckKeepsOk(c, serno);
      case Ack(serno) => AckKeepsOk(c, serno);
      case _ =>
    }
  }

  lemma SubmitKeepsOk(c: Conn, p: payload)
    requires Ok(c)
    ensures Ok(Submit(c, p))
  {
  }

  // Runs of one machine in any surroundings.

  datatype Act = Submits(p: payload) | Turns(e: Event)

  function Do(c: Conn, a: Act): (c': Conn)
    requires Ok(c)
    ensures Ok(c')
  {
    IterateKeepsOk(c, if a.Turns? then a.e else Stop);
    match a
    case Submits(p) => SubmitKeepsOk(c, p); Submit(c, p)
    case Turns(e) => Iterate(c, e)
  }

  function Run(acts: seq<Act>): (c: Conn)
    ensures Ok(c)
  {
    if acts == [] then OPENED else Do(Run(acts[..|acts| - 1]), acts[|acts| - 1])
  }

  /** How often payload n has been transmitted. */
  function Transmissions(sent: seq<Sent>, n: nat): nat {
    if sent == [] then 0
    else Transmissions(sent[..|sent| - 1], n) + if sent[|sent| - 1].tag == Data(n) then 1 else 0
  }

  lemma TransmissionsAppend(sent: seq<Sent>, s: Sent, n: nat)
    ensures Transmissions(sent + [s], n) == Transmissions(sent, n) + if s.tag == Data(n) then 1 else 0
  {
    assert (sent + [s])[..|sent|] == sent;
  }

  /** Every transmission of payload n has number n mod 16 and the same bytes, and there are at most four. */
  ghost predicate SentOk(c: Conn) {
    && (forall s :: s in c.sent && s.tag.Data? ==>
          s.tag.n < |c.log.submitted| && s.pdu == DataPacket(s.tag.n % 16, c.log.submitted[s.tag.n]))
    && (forall n: nat :: Transmissions(c.sent, n) <= 4)
    && (forall n: nat :: n > c.log.acked ==> Transmissions(c.sent, n) == 0)
    && Transmissions(c.sent, c.log.acked) == c.log.tries
  }

  /** A packet of the step from c to c': a data packet is one more transmission of the head under its number. */
  ghost predicate SendStep(c: Conn, c': Conn, s: Sent) {
    && c'.sent == c.sent + [s] && c'.log.submitted == c.log.submitted
    && (s.tag.Data? ==>
          && s.tag.n == c.log.acked == c'.log.acked < |c.log.submitted|
          && s.pdu == DataPacket(c.log.acked % 16, c.log.submitted[c.log.acked])
          && c'.log.tries == c.log.tries + 1)
    && (!s.tag.Data? ==> c'.log.acked == c.log.acked && c'.log.tries == c.log.tries)
  }

  /** A step without a packet; an acknowledgement moves on to the next payload. */
  predicate SilentStep(c: Conn, c': Conn) {
    && c'.sent == c.sent && c'.log.submitted == c.log.submitted
    && ((c'.log.acked == c.log.acked && c'.log.tries == c.log.tries)
        || (c'.log.acked == c.log.acked + 1 && c'.log.tries == 0))
  }

  lemma StepSends(c: Conn, e: Event)
    requires Ok(c)
    ensures SilentStep(c, Iterate(c, e))
         || (|Iterate(c, e).sent| > 0 && SendStep(c, Iterate(c, e), Iterate(c, e).sent[|Iterate(c, e).sent| - 1]))
  {
  }

  lemma StepKeepsSentOk(c: Conn, e: Event)
    requires Ok(c) && SentOk(c)
    ensures SentOk(Iterate(c, e))
  {
    var c' := Iterate(c, e);
    IterateKeepsOk(c, e);
    StepSends(c, e);
    if !SilentStep(c, c') {
      var s := c'.sent[|c'.sent| - 1];
      forall n: nat {
        TransmissionsAppend(c.sent, s, n);
      }
    }
  }

  /** Over any run: each payload goes out at most four times, always with one number and the same bytes. */
  lemma {:induction false} TransmissionBound(acts: seq<Act>)
    ensures SentOk(Run(acts))
  {
    if acts != [] {
      var c := Run(acts[..|acts| - 1]);
      TransmissionBound(acts[..|acts| - 1]);
      match acts[|acts| - 1]
      case Submits(p) =>
      case Turns(e) => StepKeepsSentOk(c, e);
    }
  }

  /** Over any run: the output queue has received the delivered payloads and, once and only after the
      connection closed, the empty terminator; a waiting connection has a head; the rest of the input queue is
      what has been submitted and not acknowledged. */
  lemma Bookkeeping(acts: seq<Act>)
    ensures var c := Run(acts);
            && c.out == c.log.delivered + (if c.mode == 0 then [[]] else [])
            && [] !in c.log.delivered
            && (c.mode == 2 ==> c.input != [])
            && c.log.acked <= |c.log.submitted| && c.input == c.log.submitted[c.log.acked..]
            && c.sendno == c.log.acked % 16 && c.recvno == |c.log.delivered| % 16
  {
  }

  // A peer that says nothing.

  function Turn(c: Conn, es: seq<Event>): (c': Conn)
    requires Ok(c)
    ensures Ok(c')
    decreases |es|
  {
    if es == [] then c else IterateKeepsOk(c, es[0]); Turn(Iterate(c, es[0]), es[1..])
  }

  function Timers(es: seq<Event>): nat {
    if es == [] then 0 else (if es[0].Timer? then 1 else 0) + Timers(es[1..])
  }

  /** How many more timeouts an open connection can survive without hearing from the peer. */
  function Patience(c: Conn): int {
    if c.mode == 0 then 0 else if c.mode == 1 then 4 else 4 - c.repcount
  }

  lemma {:induction false} PatienceRunsOut(c: Conn, es: seq<Event>)
    requires Ok(c) && forall e :: e in es ==> !e.Packet?
    ensures Timers(es) >= Patience(c) ==> Turn(c, es).mode == 0
    decreases |es|
  {
    if es != [] {
      var c1 := Iterate(c, es[0]);
      IterateKeepsOk(c, es[0]);
      assert Patience(c1) <= Patience(c) - (if es[0].Timer? && c.mode != 0 then 1 else 0);
      PatienceRunsOut(c1, es[1..]);
    } else if c.mode == 2 {
      assert Patience(c) >= 1;
    }
  }

  /** With a silent peer the connection is closed after at most four timeouts, whatever is queued. */
  lemma SilentPeerCloses(c: Conn, es: seq<Event>)
    requires Ok(c) && (forall e :: e in es ==> !e.Packet?) && Timers(es) >= 4
    ensures Turn(c, es).mode == 0
  {
    PatienceRunsOut(c, es);
  }

  // The repetition of an unacknowledged payload.

  /** What has the head sent again: a timeout, or a negative acknowledgement with its number. */
  predicate AsksAgain(serno: serial, e: Event) {
    e == Timer || e == Packet(NackPacket(serno))
  }

  lemma OneRepetition(c: Conn, e: Event)
    requires Ok(c) && c.mode == 2 && AsksAgain(c.sendno, e)
    ensures var c' := Iterate(c, e);
            if c.repcount < 3 then c' == c.(repcount := c.repcount + 1).SendsHead()
            else c' == c.(mode := 0, out := c.out + [[]], sent := c.sent + [Sent([0x81], Other)])
  {
    NackRoundTrips(c.sendno);
  }

  lemma OneMore<T>(s: seq<T>, x: T, n: nat)
    ensures s + [x] + Copies([x], n) == s + Copies([x], n + 1)
  {
    assert s + [x] + Copies([x], n) == s + ([x] + Copies([x], n));
  }

  lemma {:induction false} RepeatsHead(c: Conn, es: seq<Event>)
    requires Ok(c) && c.mode == 2 && (forall e :: e in es ==> AsksAgain(c.sendno, e)) && c.repcount + |es| <= 3
    ensures var t := Turn(c, es);
            && t.mode == 2 && t.repcount == c.repcount + |es| && t.input == c.input && t.sendno == c.sendno
            && t.out == c.out && t.log.acked == c.log.acked
            && t.sent == c.sent + Copies([Sent(DataPacket(c.sendno, c.input[0]), Data(c.log.acked))], |es|)
    decreases |es|
  {
    var s := Sent(DataPacket(c.sendno, c.input[0]), Data(c.log.acked));
    if es == [] {
      assert c.sent + [] == c.sent;
    } else {
      OneRepetition(c, es[0]);
      var c1 := Iterate(c, es[0]);
      IterateKeepsOk(c, es[0]);
      RepeatsHead(c1, es[1..]);
      OneMore(c.sent, s, |es| - 1);
    }
  }

  lemma FirstSent(c: Conn)
    requires Ok(c) && c.mode == 1 && c.input != []
    ensures var c1 := Iterate(c, Input);
            && Ok(c1) && c1.mode == 2 && c1.repcount == 0 && c1.input == c.input && c1.sendno == c.sendno
            && c1.out == c.out && c1.log.acked == c.log.acked
            && c1.sent == c.sent + [Sent(DataPacket(c.sendno, c.input[0]), Data(c.log.acked))]
  {
    IterateKeepsOk(c, Input);
  }

  /** From an idle connection with a payload to send: it goes out, and again after each timeout or negative
      acknowledgement, four times in all and always with the same number and bytes, while the connection stays open and
      waits; the next one closes it, with a disconnect and the terminator, and no earlier one does. */
  lemma Repetition(c: Conn, es: seq<Event>, last: Event)
    requires Ok(c) && c.mode == 1 && c.input != [] && |es| <= 3
    requires AsksAgain(c.sendno, last) && forall e :: e in es ==> AsksAgain(c.sendno, e)
    ensures Ok(Iterate(c, Input))
    ensures var t := Turn(Iterate(c, Input), es);
            && t.mode == 2 && t.input == c.input && t.out == c.out
            && t.sent == c.sent + Copies([Sent(DataPacket(c.sendno, c.input[0]), Data(c.log.acked))], |es| + 1)
    ensures var t := Turn(Iterate(c, Input), es);
            |es| == 3 ==>
              Iterate(t, last) == t.(mode := 0, out := c.out + [[]], sent := t.sent + [Sent([0x81], Other)])
  {
    FirstSent(c);
    var c1 := Iterate(c, Input);
    RepeatsHead(c1, es);
    OneMore(c.sent, Sent(DataPacket(c.sendno, c.input[0]), Data(c.log.acked)), |es|);
    OneRepetition(Turn(c1, es), last);
  }

  /** What closes an open connection at once, with a disconnect and the terminator: the end of the program, the peer's
      connect or disconnect request, a timeout of an idle connection, and any acknowledgement that is not for the
      waiting head. */
  lemma Closings(c: Conn, e: Event, serno: serial)
    requires Ok(c) && c.mode != 0
    requires || e == Stop || e == Packet([0x80]) || e == Packet([0x81]) || (e == Timer && c.mode == 1)
             || ((e == Packet(AckPacket(serno)) || e == Packet(NackPacket(serno)))
                 && (serno != c.sendno || c.mode == 1))
    ensures Iterate(c, e) == c.(mode := 0, out := c.out + [[]], sent := c.sent + [Sent([0x81], Other)])
  {
    PacketRoundTrips(serno, [0]);
    NackRoundTrips(serno);
  }

  class T_Connection {
    var mode: int
    var sendno: serial
    var recvno: serial
    var repcount: int
    /** payloads to send, packets received from layer 3, payloads received, with their semaphores */
    var input: seq<payload>
    var insem: nat
    var buf: seq<seq<byte>>
    var bufsem: nat
    var out: seq<seq<byte>>
    var outsem: nat
    /** the registration at layer 3 */
    var registered: bool
    /** what layer 3 was given */
    ghost var sent: seq<Sent>
    ghost var log: Log

    ghost function View(): Conn
      reads this
    {
      Conn(mode, sendno, recvno, repcount, input, out, sent, log)
    }

    /** The semaphores count the queues; the input semaphore is one short while the head is under way. */
    ghost predicate Valid()
      reads this
    {
      && bufsem == |buf| && outsem == |out| && (mode != 0 ==> registered)
      && (mode == 1 ==> insem == |input|)
      && (mode == 2 ==> insem == |input| - 1)
    }

    constructor ()
      ensures Valid() && View() == OPENED && buf == []
    {
      mode, sendno, recvno, repcount, registered := 1, 0, 0, 0, true;
      input, insem, buf, bufsem, out, outsem := [], 0, [], 0, [], 0;
      sent, log := [], Log([], 0, [], 0);
    }

    method Send(p: payload)
      requires Valid()
      modifies this`input, this`insem, this`log
      ensures Valid() && View() == Submit(old(View()), p)
    {
      input := input + [p];
      insem := insem + 1;
      log := log.(submitted := log.submitted + [p]);
    }

    method GetLData(pdu: seq<byte>)
      requires Valid()
      modifies this`buf, this`bufsem
      ensures Valid() && buf == old(buf) + [pdu]
    {
      buf := buf + [pdu];
      bufsem := bufsem + 1;
    }

    method Get() returns (p: seq<byte>)
      requires Valid() && out != []
      modifies this`out, this`outsem
      ensures Valid() && [p] + out == old(out)
    {
      outsem := outsem - 1;
      p := out[0];
      out := out[1..];
    }

    method Put(p: seq<byte>)
      modifies this`out, this`outsem
      ensures out == old(out) + [p] && outsem == old(outsem) + 1
    {
      out := out + [p];
      outsem := outsem + 1;
    }

    method SendData()
      requires input != []
      modifies this`sent, this`log
      ensures View() == old(View()).SendsHead()
    {
      sent := sent + [Sent(DataPacket(sendno, input[0]), Data(log.acked))];
      log := log.(tries := log.tries + 1);
    }

    method SendAck(serno: serial, ghost tag: Tag)
      modifies this`sent
      ensures View() == old(View()).Sends(AckPacket(serno), tag)
    {
      sent := sent + [Sent(AckPacket(serno), tag)];
    }

    /** A data packet with the expected number or the one before. */
    method TakeData(serno: serial, data: payload)
      requires Valid() && (serno == recvno || serno == (recvno - 1) % 16)
      modifies this`out, this`outsem, this`sent, this`recvno, this`log
      ensures Valid() && View() == OnData(old(View()), serno, data)
    {
      if serno == recvno {
        ghost var n := |log.delivered|;
        Put(Masked(data));
        log := log.(delivered := log.delivered + [Masked(data)]);
        SendAck(recvno, Confirms(n));
        recvno := (recvno + 1) % 16;
      } else {
        SendAck(serno, if log.delivered == [] then Other else Confirms(|log.delivered| - 1));
      }
    }

    /** The switch on a received packet; a connection it closes keeps everything but its mode. */
    method Switch(pdu: seq<byte>)
      requires Valid() && mode != 0 && Ok(View())
      modifies this
      ensures Valid() && buf == old(buf)
      ensures mode == 0 ==> View() == old(View()).(mode := 0) && OnPacket(old(View()), pdu) == Finish(View())
      ensures mode != 0 ==> View() == OnPacket(old(View()), pdu)
    {
      match FromPacket(pdu)
      case Disconnect => mode := 0;
      case Connect => mode := 0;
      case DataConnected(serno, data) =>
        if serno != recvno && serno != (recvno - 1) % 16 {
          mode := 0;
        } else {
          TakeData(serno, data);
        }
      case Nack(serno) =>
        if serno != sendno || input == [] || repcount >= 3 || mode != 2 {
          mode := 0;
        } else {
          repcount := repcount + 1;
          SendData();
        }
      case Ack(serno) =>
        if serno != sendno || mode != 2 {
          mode := 0;
        } else {
          mode := 1;
          input := input[1..];
          sendno := (sendno + 1) % 16;
          log := log.(acked := log.acked + 1, tries := 0);
        }
      case _ =>
    }

    /** The event that one turn of the loop handles: a packet first, then input if idle, then the timer. */
    ghost function Chosen(stop: bool, timer: bool): Option<Event>
      reads this
    {
      if stop then Some(Stop)
      else if buf != [] then Some(Packet(buf[0]))
      else if input != [] && mode == 1 then Some(Event.Input)
      else if timer then Some(Timer)
      else None
    }

    /** One turn of the loop in Run, and what follows the loop if it ends. */
    method RunOnce(stop: bool, timer: bool)
      requires Valid() && mode != 0 && Ok(View())
      modifies this
      ensures Valid()
      ensures View() == if old(Chosen(stop, timer)).Some?
                        then Iterate(old(View()), old(Chosen(stop, timer)).value) else old(View())
      ensures buf == if !stop && old(buf) != [] then old(buf)[1..] else old(buf)
      ensures mode == 0 ==> !registered
    {
      if stop {
        End();
        return;
      }
      if bufsem > 0 {
        bufsem := bufsem - 1;
        var pdu := buf[0];
        buf := buf[1..];
        Switch(pdu);
      } else if insem > 0 && mode == 1 {
        repcount := 0;
        insem := insem - 1;
        SendData();
        mode := 2;
      } else if timer {
        if mode == 2 && repcount < 3 {
          repcount := repcount + 1;
          SendData();
        } else {
          mode := 0;
        }
      }
      if mode == 0 {
        End();
      }
    }

    /** The code after the loop: disconnect, deregister, and the empty terminator for the reader. */
    method End()
      requires Valid()
      modifies this
      ensures Valid() && View() == Finish(old(View())) && buf == old(buf) && !registered
    {
      sent := sent + [Sent([0x81], Other)];
      mode := 0;
      registered := false;
      Put([]);
    }
  }
}
