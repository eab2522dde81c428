/**
 * The client end of a KNXnet/IP tunnel (eibd/backend/eibnettunnel.cpp) in a connected link-layer session:
 * `Client` is the state of EIBNetIPTunnel::Run as a value with its step functions, `EIBNetIPTunnel` the class.
 */
module TunnelClient {
  import opened Bytes
  import opened EibNetIp
  import Emi

  /** What the driver hands to layer 3; Copy is a frame's own encoding, for busmonitors. */
  datatype Received = Data(l: Emi.LData) | Copy(l: Emi.LData) | Busmonitor(pdu: Option<seq<byte>>)

  /** What is fixed for the session: by the connect response, and whether the driver is in busmonitor mode or has a
      virtual busmonitor. */
  datatype Session = Session(channel: byte, myaddr: word, noqueue: bool, busmonitor: bool, vmode: bool)

  /** mod: 0 not connected, 1 idle, 2 waiting for an acknowledgement, 3 waiting for a confirmation;
      sent: what has been passed to the socket. */
  datatype Client = Client(
    session: Session,
    mod: int, sno: byte, rno: byte, retry: int, drop: int, heartbeat: int,
    inqueue: seq<seq<byte>>, outqueue: seq<Received>, sent: seq<Message>, log: History)
  {
    function Send(m: Message): Client {
      this.(sent := sent + [m])
    }
  }

  /** The state after a successful connect response. */
  function Connected(session: Session): Client {
    Client(session, 1, 0, 0, 0, 0, 0, [], [], [], NO_HISTORY)
  }

  /** What every step of the session keeps. */
  ghost predicate Ok(c: Client) {
    && 0 <= c.mod <= 3 && 0 <= c.retry <= 3 && 0 <= c.drop <= 3 && 0 <= c.heartbeat <= 5
    // the drop counter counts the frames given up since the last acknowledgement
    && (c.mod != 0 ==> c.drop < 3 && c.drop == GivenUpSince(c.log.done))
    && Conserved(c.log, c.inqueue)
    // the head of the queue is what was last sent, under the current number
    && (c.mod == 2 ==> c.inqueue != [] && c.log.last == Some(TunnelRequest(c.session.channel, c.sno, c.inqueue[0])))
    // transmissions of the head
    && (c.mod != 0 ==> c.log.tries == c.retry + if c.mod == 2 then 1 else 0)
    && c.log.tries <= 4
  }

  /** The copy for a virtual busmonitor. */
  function VCopy(session: Session, l: Emi.LData): seq<Received> {
    if session.vmode then [Copy(l)] else []
  }

  /** Send_L_Data: the frame is queued and looped back to layer 3. */
  function Submit(c: Client, l: Emi.LData): Client
    requires Emi.Encodable(l)
  {
    var f := Emi.ToCemi(Emi.DATA_REQ, l);
    c.(inqueue := c.inqueue + [f], outqueue := c.outqueue + VCopy(c.session, l) + [Data(l)],
       log := c.log.(submitted := c.log.submitted + [f]))
  }

  /** What layer 3 gets for a data indication. */
  function Indicated(session: Session, l: Emi.LData): seq<Received> {
    if session.busmonitor then [Copy(l)]
    else VCopy(session, l) + [Data(if !l.isGroup && l.dest == session.myaddr then l.(dest := 0) else l)]
  }

  /** What the client does with an accepted cEMI frame. */
  function Deliver(c: Client, cemi: seq<byte>): Client
  {
    if cemi == [] then c
    else if cemi[0] == Emi.DATA_CON then
      if c.mod == 3 then c.(mod := 1) else c
    else if cemi[0] == Emi.BUSMON_IND then
      c.(outqueue := c.outqueue + [Busmonitor(Emi.FromCemiBusmonitor(cemi))])
    else if cemi[0] == Emi.DATA_IND && Emi.FromCemi(cemi).Some? then
      c.(outqueue := c.outqueue + Indicated(c.session, Emi.FromCemi(cemi).value))
    else c
  }

  function OnRequest(c: Client, r: TunnelRequest): Client
  {
    var ack := Ack(TunnelAck(c.session.channel, r.seqno, 0));
    if c.mod == 0 || r.channel != c.session.channel then c
    else if (r.seqno + 1) % 256 == c.rno then c.Send(ack)
    else if r.seqno != c.rno then
      // the driver adds 0x100 to a lower number, but in a byte, so the distance test sees the plain number
      if r.seqno >= c.rno + 5 then c.(mod := 0).Send(DisconnectRequest(c.session.channel)) else c
    else
      var c' := c.(rno := if c.rno + 1 > 0xff then 0 else c.rno + 1,
                   log := c.log.(accepted := c.log.accepted + [r.cemi]));
      Deliver(c'.Send(ack), r.cemi)
  }

  /** An acknowledgement that releases the head of the queue. */
  predicate Releases(c: Client, a: TunnelAck) {
    c.mod == 2 && c.inqueue != [] && a.channel == c.session.channel && a.seqno == c.sno && a.status == 0
  }

  function OnAck(c: Client, a: TunnelAck): Client
  {
    if !Releases(c, a) then c
    else
      c.(sno := if c.sno + 1 > 0xff then 0 else c.sno + 1, mod := if c.session.noqueue then 3 else 1,
         inqueue := c.inqueue[1..], retry := 0, drop := 0,
         log := c.log.(done := c.log.done + [true], tries := 0))
  }

  function OnMessage(c: Client, m: Message): Client
  {
    match m
    case Request(r) => OnRequest(c, r)
    case Ack(a) => OnAck(c, a)
    case StateResponse(ch, status) =>
      if ch != c.session.channel then c
      else if status == 0 then (if c.heartbeat > 0 then c.(heartbeat := c.heartbeat - 1) else c)
      else if status == 0x21 then c.(mod := 0).Send(DisconnectRequest(c.session.channel))
      else c
    case DisconnectRequest(ch) =>
      if c.mod == 0 || ch != c.session.channel then c else c.(mod := 0).Send(DisconnectResponse(c.session.channel, 0))
    case DisconnectResponse(ch, _) =>
      if c.mod == 0 || ch != c.session.channel then c else c.(mod := 0)
    case _ => c
  }

  /** The acknowledgement or confirmation timer has run out: the fourth time the head is given up, and with
      the third frame given up in a row the session ends. */
  function OnTimeout(c: Client): Client
  {
    if c.mod == 3 then c.(mod := 1)
    else if c.mod != 2 || c.inqueue == [] then c
    else if c.retry + 1 <= 3 then c.(mod := 1, retry := c.retry + 1)
    else
      var c' := c.(mod := 1, retry := 0, drop := c.drop + 1, inqueue := c.inqueue[1..],
                   log := c.log.(done := c.log.done + [false], tries := 0));
      if c'.drop >= 3 then c'.(mod := 0).Send(DisconnectRequest(c.session.channel)) else c'
  }

  /** The 30 second timer has run out. */
  function OnHeartbeat(c: Client): Client {
    if c.mod == 0 then c
    else if c.heartbeat < 5 then c.(heartbeat := c.heartbeat + 1).Send(StateRequest(c.session.channel))
    else c.(mod := 0).Send(DisconnectRequest(c.session.channel))
  }

  function SendHead(c: Client): Client
  {
    if c.mod == 1 && c.inqueue != [] then
      var r := TunnelRequest(c.session.channel, c.sno, c.inqueue[0]);
      c.(mod := 2, log := c.log.(tries := c.log.tries + 1, last := Some(r))).Send(Request(r))
    else c
  }

  /** One turn of the event loop: a packet or none, the two timers, the head of the queue. An acknowledgement
      that leads to mod 3 restarts the first timer. */
  function Iterate(c: Client, m: Option<Message>, timer: bool, timer1: bool): Client
  {
    var c1 := if m.Some? then OnMessage(c, m.value) else c;
    var restarted := m.Some? && m.value.Ack? && Releases(c, m.value.ack) && c.session.noqueue;
    var c2 := if timer && !restarted then OnTimeout(c1) else c1;
    var c3 := if timer1 then OnHeartbeat(c2) else c2;
    SendHead(c3)
  }

  lemma ConnectedOk(session: Session)
    ensures Ok(Connected(session))
  {
  }

  lemma RequestKeepsOk(c: Client, r: TunnelRequest)
    requires Ok(c)
    ensures Ok(OnRequest(c, r))
  {
  }

  lemma AckKeepsOk(c: Client, a: TunnelAck)
    requires Ok(c)
    ensures Ok(OnAck(c, a))
  {
    GivenUpAppend(c.log.done, true);
  }

  lemma MessageKeepsOk(c: Client, m: Message)
    requires Ok(c)
    ensures Ok(OnMessage(c, m))
  {
    if m.Request? {
      RequestKeepsOk(c, m.req);
    } else if m.Ack? {
      AckKeepsOk(c, m.ack);
    }
  }

  lemma TimeoutKeepsOk(c: Client)
    requires Ok(c)
    ensures Ok(OnTimeout(c))
  {
    if c.mod == 2 && c.inqueue != [] && c.retry >= 3 {
      GivenUpAppend(c.log.done, false);
    }
  }

  lemma HeartbeatKeepsOk(c: Client)
    requires Ok(c)
    ensures Ok(OnHeartbeat(c))
  {
  }

  lemma SendKeepsOk(c: Client)
    requires Ok(c)
    ensures Ok(SendHead(c))
  {
  }

  /** One turn keeps the session invariant, for every packet and every state of the timers. */
  lemma IterateKeepsOk(c: Client, m: Option<Message>, timer: bool, timer1: bool)
    requires Ok(c)
    ensures Ok(Iterate(c, m, timer, timer1))
  {
    var c1 := if m.Some? then OnMessage(c, m.value) else c;
    assert Ok(c1) by { if m.Some? { MessageKeepsOk(c, m.value); } }
    var restarted := m.Some? && m.value.Ack? && Releases(c, m.value.ack) && c.session.noqueue;
    var c2 := if timer && !restarted then OnTimeout(c1) else c1;
    assert Ok(c2) by { TimeoutKeepsOk(c1); }
    var c3 := if timer1 then OnHeartbeat(c2) else c2;
    assert Ok(c3) by { HeartbeatKeepsOk(c2); }
    SendKeepsOk(c3);
  }

  lemma SubmitKeepsOk(c: Client, l: Emi.LData)
    requires Ok(c) && Emi.Encodable(l)
    ensures Ok(Submit(c, l))
  {
  }

  // The repetition of an unacknowledged request.

  /** Turns without a packet, the acknowledgement timer having run out at each or not. */
  function Quiet(c: Client, timeouts: seq<bool>): Client {
    if timeouts == [] then c
    else Iterate(Quiet(c, timeouts[..|timeouts| - 1]), None, timeouts[|timeouts| - 1], false)
  }

  /** From c on, the head has been sent n times under its number and waits, and nothing else has happened. */
  predicate SentTimes(c: Client, t: Client, n: nat)
    requires c.inqueue != []
  {
    var m := Request(TunnelRequest(c.session.channel, c.sno, c.inqueue[0]));
    && t.mod == 2 && t.retry == n - 1 && t.sent == c.sent + Copies([m], n)
    && t.inqueue == c.inqueue && t.sno == c.sno && t.session == c.session && t.drop == c.drop
    && t.log.done == c.log.done && t.outqueue == c.outqueue
  }

  lemma {:induction false} Repeats(c: Client, timeouts: seq<bool>)
    requires c.mod == 1 && c.retry == 0 && c.inqueue != [] && Set(timeouts) <= 3
    ensures SentTimes(c, Quiet(Iterate(c, None, false, false), timeouts), Set(timeouts) + 1)
  {
    var m := Request(TunnelRequest(c.session.channel, c.sno, c.inqueue[0]));
    if timeouts == [] {
      assert Copies([m], 1) == [m] + [] == [m];
    } else {
      var k := |timeouts| - 1;
      Repeats(c, timeouts[..k]);
      CopiesNext([m], Set(timeouts[..k]) + 1);
    }
  }

  /** With no packet from the server: the head is sent at once and again after each timeout, four times in all and
      always with the same number and bytes, and stays in the queue; at the next timeout it is given up, and the next
      frame goes out under that number, unless this was the third frame given up in a row, which ends the session. */
  lemma Retransmission(c: Client, timeouts: seq<bool>)
    requires c.mod == 1 && c.retry == 0 && c.inqueue != [] && Set(timeouts) <= 3
    ensures var t := Quiet(Iterate(c, None, false, false), timeouts);
            && t.sent == c.sent + Copies([Request(TunnelRequest(c.session.channel, c.sno, c.inqueue[0]))],
                                         Set(timeouts) + 1)
            && t.mod == 2 && t.inqueue == c.inqueue && t.sno == c.sno && t.log.done == c.log.done
    ensures var t := Quiet(Iterate(c, None, false, false), timeouts);
            Set(timeouts) == 3 ==>
              var t' := Iterate(t, None, true, false);
              && t'.inqueue == c.inqueue[1..] && t'.log.done == c.log.done + [false] && t'.sno == c.sno
              && (c.drop + 1 >= 3 ==> t'.mod == 0 && t'.sent == t.sent + [DisconnectRequest(c.session.channel)])
              && (c.drop + 1 < 3 && |c.inqueue| == 1 ==> t'.mod == 1 && t'.sent == t.sent)
              && (c.drop + 1 < 3 && |c.inqueue| > 1 ==>
                    && t'.mod == 2 && t'.retry == 0
                    && t'.sent == t.sent + [Request(TunnelRequest(c.session.channel, c.sno, c.inqueue[1]))])
  {
    Repeats(c, timeouts);
  }

  /** An acknowledgement with the number of a waiting head releases it and lets the next frame go out under the next
      number, at once or, if the server confirms frames, when a confirmation or its timeout comes; any other
      acknowledgement changes nothing. */
  lemma Acknowledged(c: Client, a: TunnelAck)
    requires c.mod == 2 && c.inqueue != []
    ensures a.channel == c.session.channel && a.seqno == c.sno && a.status == 0 ==>
              var t := Iterate(c, Some(Ack(a)), false, false);
              && t.inqueue == c.inqueue[1..] && t.sno == (c.sno + 1) % 256 && t.log.done == c.log.done + [true]
              && t.retry == 0 && t.drop == 0
              && (c.session.noqueue ==> t.mod == 3 && t.sent == c.sent)
              && (!c.session.noqueue && |c.inqueue| == 1 ==> t.mod == 1 && t.sent == c.sent)
              && (!c.session.noqueue && |c.inqueue| > 1 ==>
                    && t.mod == 2
                    && t.sent == c.sent + [Request(TunnelRequest(c.session.channel, t.sno, c.inqueue[1]))])
    ensures a.channel != c.session.channel || a.seqno != c.sno || a.status != 0 ==>
              Iterate(c, Some(Ack(a)), false, false) == c
  {
  }

  /** A client that waits for a confirmation takes up sending again with any accepted confirmation, or when the timer
      runs out, and with no other packet of the exchange. */
  lemma Confirmed(c: Client, r: TunnelRequest)
    requires c.mod == 3 && r.channel == c.session.channel && r.seqno == c.rno && r.cemi != []
    ensures var t := Iterate(c, Some(Request(r)), false, false);
            var sent := c.sent + [Ack(TunnelAck(r.channel, r.seqno, 0))];
            && (r.cemi[0] != 0x2E ==> t.mod == 3 && t.sent == sent)
            && (r.cemi[0] == 0x2E && c.inqueue == [] ==> t.mod == 1 && t.sent == sent)
            && (r.cemi[0] == 0x2E && c.inqueue != [] ==>
                  && t.mod == 2
                  && t.sent == sent + [Request(TunnelRequest(c.session.channel, c.sno, c.inqueue[0]))])
    ensures var t := Iterate(c, None, true, false);
            if c.inqueue == [] then t.mod == 1 && t.sent == c.sent
            else t.mod == 2 && t.sent == c.sent + [Request(TunnelRequest(c.session.channel, c.sno, c.inqueue[0]))]
  {
  }

  /** A request of the session with a number that is neither the expected one nor the one before is not acknowledged
      and delivers nothing; it ends the session if and only if the number is at least five above the expected one. */
  lemma OutOfSequence(c: Client, r: TunnelRequest)
    requires c.mod != 0 && r.channel == c.session.channel
    requires r.seqno != c.rno && (r.seqno + 1) % 256 != c.rno
    ensures var t := OnRequest(c, r);
            && t.rno == c.rno && t.outqueue == c.outqueue && t.log == c.log && t.inqueue == c.inqueue
            && (t.mod == 0 <==> r.seqno >= c.rno + 5)
            && t.sent == c.sent + if t.mod == 0 then [DisconnectRequest(c.session.channel)] else []
  {
  }

  function Beats(c: Client, n: nat): Client {
    if n == 0 then c else OnHeartbeat(Beats(c, n - 1))
  }

  /** With no response to the heartbeats: a state request for each of them until five are unanswered; the next one ends
      the session. A response in between makes room for one more. */
  lemma {:induction false} Heartbeats(c: Client, n: nat)
    requires c.mod != 0 && c.heartbeat >= 0 && c.heartbeat + n <= 5
    ensures var t := Beats(c, n);
            && t == c.(heartbeat := c.heartbeat + n,
                       sent := c.sent + Copies([StateRequest(c.session.channel)], n))
            && (t.heartbeat == 5 ==>
                  Beats(c, n + 1) == t.(mod := 0, sent := t.sent + [DisconnectRequest(c.session.channel)]))
            && (n > 0 ==>
                  OnMessage(t, StateResponse(c.session.channel, 0)) == t.(heartbeat := c.heartbeat + n - 1))
  {
    if n > 0 {
      Heartbeats(c, n - 1);
      CopiesNext([StateRequest(c.session.channel)], n - 1);
    } else {
      assert c.sent + [] == c.sent;
    }
  }

  /** A session that has ended stays so, and hears and says nothing. */
  lemma Ended(c: Client, m: Option<Message>, timer: bool, timer1: bool)
    requires c.mod == 0
    ensures var t := Iterate(c, m, timer, timer1);
            && t.mod == 0 && t.inqueue == c.inqueue && t.outqueue == c.outqueue && t.log == c.log
            && (t.sent == c.sent
                || (m.Some? && m.value == StateResponse(c.session.channel, 0x21)
                    && t.sent == c.sent + [DisconnectRequest(c.session.channel)]))
  {
  }

  /** What ends a session from outside: the server's request, which is answered, its response, or its answer that it
      does not know the channel. */
  lemma EndedByServer(c: Client, channel: byte, status: byte)
    requires c.mod != 0
    ensures OnMessage(c, DisconnectRequest(channel))
         == if channel == c.session.channel then c.(mod := 0, sent := c.sent + [DisconnectResponse(channel, 0)]) else c
    ensures OnMessage(c, DisconnectResponse(channel, status))
         == if channel == c.session.channel then c.(mod := 0) else c
    ensures OnMessage(c, StateResponse(channel, 0x21))
         == if channel == c.session.channel then c.(mod := 0, sent := c.sent + [DisconnectRequest(channel)]) else c
  {
  }

  /** What reading a request does to the parts of the client that the exchange shows. */
  predicate Reads(c: Client, c': Client, r: TunnelRequest) {
    var sent' := c.sent + [Ack(TunnelAck(r.channel, r.seqno, 0))];
    && c'.session == c.session && c'.sno == c.sno
    && c'.log.submitted == c.log.submitted && c'.log.done == c.log.done
    && (c.mod == 0 ==> c' == c)
    && (c.mod != 0 && r.channel == c.session.channel && (r.seqno + 1) % 256 == c.rno ==>
          c'.sent == sent' && c'.rno == c.rno && c'.log.accepted == c.log.accepted)
    && (c.mod != 0 && r.channel == c.session.channel && r.seqno == c.rno ==>
          && c'.sent == sent' && c'.rno == (if c.rno + 1 > 0xff then 0 else c.rno + 1)
          && c'.log.accepted == c.log.accepted + [r.cemi])
  }

  lemma RequestEffect(c: Client, r: TunnelRequest)
    ensures Reads(c, OnRequest(c, r), r)
  {
  }

  /** c' differs from c in what the other end cannot see, except for a control packet sent. */
  predicate Unseen(c: Client, c': Client) {
    && c'.session == c.session && c'.sno == c.sno && c'.rno == c.rno
    && c'.log.submitted == c.log.submitted && c'.log.done == c.log.done && c'.log.accepted == c.log.accepted
    && (c'.sent == c.sent ||
        (c'.sent != [] && c'.sent[..|c'.sent| - 1] == c.sent
         && !c'.sent[|c'.sent| - 1].Request? && !c'.sent[|c'.sent| - 1].Ack?))
  }

  lemma ControlEffect(c: Client, m: Message)
    requires !m.Request? && !m.Ack?
    ensures Unseen(c, OnMessage(c, m)) && Unseen(c, OnHeartbeat(c))
  {
  }

  /** The timer releases nothing, or gives the head up. */
  lemma TimeoutEffect(c: Client)
    ensures var c' := OnTimeout(c);
            if c.mod == 2 && c.inqueue != [] && c.retry >= 3
            then Unseen(c.(log := c.log.(done := c.log.done + [false])), c')
            else Unseen(c, c')
  {
  }

  /** EIBNetIPTunnel with the local variables of Run as fields. */
  class EIBNetIPTunnel {
    const session: Session
    var mod: int
    var sno: byte
    var rno: byte
    var retry: int
    var drop: int
    var heartbeat: int
    var inqueue: seq<seq<byte>>
    var insignal: nat
    var outqueue: seq<Received>
    var outsignal: nat
    /** everything passed to the socket */
    var sent: seq<Message>
    ghost var log: History

    ghost function View(): Client
      reads this
    {
      Client(session, mod, sno, rno, retry, drop, heartbeat, inqueue, outqueue, sent, log)
    }

    /** The semaphores count the queues, and a waiting client has a head. */
    ghost predicate Valid()
      reads this
    {
      insignal == |inqueue| && outsignal == |outqueue| && (mod == 2 ==> inqueue != [])
    }

    constructor (session: Session)
      ensures Valid() && View() == Connected(session) && this.session == session
    {
      this.session := session;
      mod, sno, rno, retry, drop, heartbeat := 1, 0, 0, 0, 0, 0;
      inqueue, insignal, outqueue, outsignal, sent := [], 0, [], 0, [];
      log := NO_HISTORY;
    }

    method SendLData(l: Emi.LData)
      requires Valid() && Emi.Encodable(l)
      modifies this
      ensures Valid() && View() == Submit(old(View()), l)
    {
      var f := Emi.ToCemi(Emi.DATA_REQ, l);
      inqueue := inqueue + [f];
      insignal := insignal + 1;
      log := log.(submitted := log.submitted + [f]);
      if session.vmode {
        Put(Copy(l));
      }
      Put(Data(l));
    }

    method GetLData() returns (r: Received)
      requires Valid() && outqueue != []
      modifies this
      ensures Valid()
      ensures [r] + outqueue == old(outqueue) && View() == old(View()).(outqueue := outqueue)
    {
      outsignal := outsignal - 1;
      r := outqueue[0];
      outqueue := outqueue[1..];
    }

    method Put(r: Received)
      modifies this`outqueue, this`outsignal
      ensures outqueue == old(outqueue) + [r] && outsignal == old(outsignal) + 1
    {
      outqueue := outqueue + [r];
      outsignal := outsignal + 1;
    }

    /** A data indication goes to layer 3. */
    method Indicate(c: Emi.LData)
      requires Valid()
      modifies this`outqueue, this`outsignal
      ensures Valid() && View() == old(View()).(outqueue := old(outqueue) + Indicated(session, c))
    {
      if session.busmonitor {
        Put(Copy(c));
        return;
      }
      if session.vmode {
        Put(Copy(c));
      }
      var l := c;
      if !l.isGroup && l.dest == session.myaddr {
        l := l.(dest := 0);
      }
      Put(Data(l));
    }

    /** The tail of case TUNNEL_REQUEST, for an accepted frame. */
    method DeliverFrame(cemi: seq<byte>)
      requires Valid() && cemi != []
      modifies this`mod, this`outqueue, this`outsignal
      ensures Valid() && View() == Deliver(old(View()), cemi)
    {
      if cemi[0] == Emi.DATA_CON {
        if mod == 3 {
          mod := 1;
        }
        return;
      }
      if cemi[0] == Emi.BUSMON_IND {
        Put(Busmonitor(Emi.FromCemiBusmonitor(cemi)));
        return;
      }
      if cemi[0] != Emi.DATA_IND {
        return;
      }
      var c := Emi.FromCemi(cemi);
      if c.Some? {
        Indicate(c.value);
      }
    }

    /** case TUNNEL_REQUEST */
    method ReceiveRequest(treq: TunnelRequest)
      requires Valid() && treq.cemi != []
      modifies this
      ensures Valid()
      ensures View() == OnRequest(old(View()), treq)
    {
      if mod == 0 || treq.channel != session.channel {
        return;
      }
      if (treq.seqno + 1) % 256 == rno {
        sent := sent + [Ack(TunnelAck(session.channel, treq.seqno, 0))];
        return;
      }
      if treq.seqno != rno {
        if treq.seqno >= rno + 5 {
          sent := sent + [DisconnectRequest(session.channel)];
          mod := 0;
        }
        return;
      }
      rno := if rno + 1 > 0xff then 0 else rno + 1;
      log := log.(accepted := log.accepted + [treq.cemi]);
      sent := sent + [Ack(TunnelAck(session.channel, treq.seqno, 0))];
      DeliverFrame(treq.cemi);
    }

    /** case TUNNEL_RESPONSE; the result says whether the confirmation timer was started */
    method ReceiveAck(tresp: TunnelAck) returns (restarted: bool)
      requires Valid()
      modifies this
      ensures Valid() && View() == OnAck(old(View()), tresp)
      ensures restarted == (old(Releases(View(), tresp)) && session.noqueue)
    {
      restarted := false;
      if mod == 0 || tresp.channel != session.channel || tresp.seqno != sno || tresp.status != 0 {
        return;
      }
      if mod == 2 {
        sno := if sno + 1 > 0xff then 0 else sno + 1;
        insignal := insignal - 1;
        inqueue := inqueue[1..];
        log := log.(done := log.done + [true], tries := 0);
        if session.noqueue {
          mod := 3;
          restarted := true;
        } else {
          mod := 1;
        }
        retry := 0;
        drop := 0;
      }
    }

    /** The remaining packets of the session. */
    method ReceiveControl(m: Message)
      requires Valid() && !m.Request? && !m.Ack?
      modifies this
      ensures Valid()
      ensures View() == OnMessage(old(View()), m)
    {
      match m
      case StateResponse(ch, status) =>
        if ch == session.channel {
          if status == 0 {
            if heartbeat > 0 {
              heartbeat := heartbeat - 1;
            }
          } else if status == 0x21 {
            sent := sent + [DisconnectRequest(session.channel)];
            mod := 0;
          }
        }
      case DisconnectRequest(ch) =>
        if mod != 0 && ch == session.channel {
          sent := sent + [DisconnectResponse(session.channel, 0)];
          mod := 0;
        }
      case DisconnectResponse(ch, _) =>
        if mod != 0 && ch == session.channel {
          mod := 0;
        }
      case _ =>
    }

    method CheckTimeout()
      requires Valid()
      modifies this
      ensures Valid()
      ensures View() == OnTimeout(old(View()))
    {
      if mod == 2 {
        mod := 1;
        retry := retry + 1;
        if retry > 3 {
          insignal := insignal - 1;
          inqueue := inqueue[1..];
          log := log.(done := log.done + [false], tries := 0);
          retry := 0;
          drop := drop + 1;
          if drop >= 3 {
            sent := sent + [DisconnectRequest(session.channel)];
            mod := 0;
          }
        }
      } else if mod == 3 {
        mod := 1;
      }
    }

    method CheckHeartbeat()
      requires Valid()
      modifies this`mod, this`heartbeat, this`sent
      ensures Valid()
      ensures View() == OnHeartbeat(old(View()))
    {
      if mod != 0 {
        if heartbeat < 5 {
          sent := sent + [StateRequest(session.channel)];
          heartbeat := heartbeat + 1;
        } else {
          sent := sent + [DisconnectRequest(session.channel)];
          mod := 0;
        }
      }
    }

    method SendTop()
      requires Valid()
      modifies this`mod, this`sent, this`log
      ensures Valid()
      ensures View() == SendHead(old(View()))
    {
      if inqueue != [] && mod == 1 {
        var r := TunnelRequest(session.channel, sno, inqueue[0]);
        sent := sent + [Request(r)];
        mod := 2;
        log := log.(tries := log.tries + 1, last := Some(r));
      }
    }

    method Receive(m: Message) returns (restarted: bool)
      requires Valid() && (m.Request? ==> m.req.cemi != [])
      modifies this
      ensures Valid()
      ensures View() == OnMessage(old(View()), m)
      ensures restarted == (m.Ack? && old(Releases(View(), m.ack)) && session.noqueue)
    {
      restarted := false;
      match m
      case Request(r) => ReceiveRequest(r);
      case Ack(a) => restarted := ReceiveAck(a);
      case _ => ReceiveControl(m);
    }

    /** One turn of the loop in Run. */
    method RunOnce(m: Option<Message>, timer: bool, timer1: bool)
      requires Valid() && (m.Some? && m.value.Request? ==> m.value.req.cemi != [])
      modifies this
      ensures Valid()
      ensures View() == Iterate(old(View()), m, timer, timer1)
    {
      var restarted := false;
      if m.Some? {
        restarted := Receive(m.value);
      }
      if timer && !restarted {
        CheckTimeout();
      }
      if timer1 {
        CheckHeartbeat();
      }
      SendTop();
    }
  }
}
