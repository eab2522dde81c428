/**
 * The two ends of a tunnel joined by four FIFO channels that lose and duplicate: one for the requests and one
 * for the acknowledgements of each direction. (A single FIFO per direction behaves like a special case.)
 */
module TunnelSystem {
  import opened Bytes
  import opened EibNetIp
  import opened TunnelLink
  import opened TunnelWire
  import Emi
  import C = TunnelClient
  import S = TunnelServer

  datatype Net = Net(
    client: C.Client, server: S.ConnState,
    upReqs: seq<Message>, upAcks: seq<Message>, downReqs: seq<Message>, downAcks: seq<Message>)

  /** Where a turn of an event loop takes its packet from; control packets may come from anywhere. */
  datatype Source = Nothing | Requests | Acks | Control(m: Message)

  datatype Channel = UpReqs | UpAcks | DownReqs | DownAcks

  datatype Event =
    | ClientSubmits(l: Emi.LData)
    | ServerEnqueues(l: Emi.LData)
    | ClientTurn(from: Source, timer: bool, timer1: bool)
    | ServerTurn(from: Source, expired: bool)
    | Lose(ch: Channel, k: nat)
    | Copy(ch: Channel, k: nat)

  /** A fresh session: both ends connected, nothing in flight. */
  function Fresh(session: C.Session): Net {
    Net(C.Connected(session), S.NewConnection(session.channel, 0), [], [], [], [])
  }

  function RequestsOf(ms: seq<Message>): seq<Message> {
    if ms == [] then []
    else
      var m := ms[|ms| - 1];
      RequestsOf(ms[..|ms| - 1]) + if m.Request? then [m] else []
  }

  function AcksOf(ms: seq<Message>): seq<Message> {
    if ms == [] then []
    else
      var m := ms[|ms| - 1];
      AcksOf(ms[..|ms| - 1]) + if m.Ack? then [m] else []
  }

  /** Moves what the ends have passed to their sockets into the channels. */
  function Flush(n: Net): Net {
    n.(client := n.client.(sent := []), server := n.server.(sent := []),
       upReqs := n.upReqs + RequestsOf(n.client.sent), downAcks := n.downAcks + AcksOf(n.client.sent),
       downReqs := n.downReqs + RequestsOf(n.server.sent), upAcks := n.upAcks + AcksOf(n.server.sent))
  }

  function HeadOf(ms: seq<Message>): Option<Message> {
    if ms == [] then None else Some(ms[0])
  }

  function TailOf(ms: seq<Message>): seq<Message> {
    if ms == [] then [] else ms[1..]
  }

  function ClientPacket(n: Net, from: Source): Option<Message> {
    match from
    case Nothing => None
    case Requests => HeadOf(n.downReqs)
    case Acks => HeadOf(n.upAcks)
    case Control(m) => if m.Request? || m.Ack? then None else Some(m)
  }

  function ClientPops(n: Net, from: Source): Net {
    match from
    case Requests => n.(downReqs := TailOf(n.downReqs))
    case Acks => n.(upAcks := TailOf(n.upAcks))
    case _ => n
  }

  function ServerReads(s: S.ConnState, m: Option<Message>): S.ConnState {
    match m
    case Some(Request(r)) => S.OnRequest(s, r)
    case Some(Ack(a)) => S.OnAck(s, a)
    case _ => s
  }

  function ServerPacket(n: Net, from: Source): Option<Message> {
    match from
    case Requests => HeadOf(n.upReqs)
    case Acks => HeadOf(n.downAcks)
    case _ => None
  }

  function ServerPops(n: Net, from: Source): Net {
    match from
    case Requests => n.(upReqs := TailOf(n.upReqs))
    case Acks => n.(downAcks := TailOf(n.downAcks))
    case _ => n
  }

  function LoseAt(n: Net, ch: Channel, k: nat): Net {
    match ch
    case UpReqs => if k < |n.upReqs| then n.(upReqs := Without(n.upReqs, k)) else n
    case UpAcks => if k < |n.upAcks| then n.(upAcks := Without(n.upAcks, k)) else n
    case DownReqs => if k < |n.downReqs| then n.(downReqs := Without(n.downReqs, k)) else n
    case DownAcks => if k < |n.downAcks| then n.(downAcks := Without(n.downAcks, k)) else n
  }

  function CopyAt(n: Net, ch: Channel, k: nat): Net {
    match ch
    case UpReqs => if k < |n.upReqs| then n.(upReqs := Doubled(n.upReqs, k)) else n
    case UpAcks => if k < |n.upAcks| then n.(upAcks := Doubled(n.upAcks, k)) else n
    case DownReqs => if k < |n.downReqs| then n.(downReqs := Doubled(n.downReqs, k)) else n
    case DownAcks => if k < |n.downAcks| then n.(downAcks := Doubled(n.downAcks, k)) else n
  }

  function Step(n: Net, e: Event): Net {
    match e
    case ClientSubmits(l) => if Emi.Encodable(l) then n.(client := C.Submit(n.client, l)) else n
    case ServerEnqueues(l) =>
      if Emi.Encodable(l) && l.hopcount > 0 then n.(server := S.Enqueue(n.server, l)) else n
    case ClientTurn(from, timer, timer1) =>
      Flush(ClientPops(n, from).(client := C.Iterate(n.client, ClientPacket(n, from), timer, timer1)))
    // the server reads a packet or none, then visits its send loop
    case ServerTurn(from, expired) =>
      Flush(ServerPops(n, from).(server := S.SendTurn(ServerReads(n.server, ServerPacket(n, from)), expired)))
    case Lose(ch, k) => LoseAt(n, ch, k)
    case Copy(ch, k) => CopyAt(n, ch, k)
  }

  function Steps(session: C.Session, es: seq<Event>): Net {
    if es == [] then Fresh(session) else Step(Steps(session, es[..|es| - 1]), es[|es| - 1])
  }

  /** The state after a run of events from a fresh session. */
  function Run(session: C.Session, es: seq<Event>): Net {
    Steps(session, es)
  }

  /** Client to server, counting what the sockets have not yet sent. */
  function Up(n: Net): Wire {
    Wire(n.client.session.channel, n.client.log.submitted, n.client.log.done, n.client.sno,
         n.server.rno, n.server.log.accepted,
         n.upReqs + RequestsOf(n.client.sent), n.upAcks + AcksOf(n.server.sent))
  }

  /** Server to client. */
  function Down(n: Net): Wire {
    Wire(n.client.session.channel, n.server.log.submitted, n.server.log.done, n.server.sno,
         n.client.rno, n.client.log.accepted,
         n.downReqs + RequestsOf(n.server.sent), n.downAcks + AcksOf(n.client.sent))
  }

  /** What holds of the two ends alone: the client's frames are ones the server decodes. */
  ghost predicate EndsOk(n: Net) {
    && C.Ok(n.client) && S.Ok(n.server) && n.server.typ == 0
    && n.client.session.channel == n.server.channel
    && (forall f :: f in n.client.log.submitted ==> Emi.FromCemi(f).Some?)
  }

  ghost predicate Good(n: Net, up: Link, down: Link) {
    EndsOk(n) && Rel(up, Up(n)) && Rel(down, Down(n))
  }

  /** Good from its parts. */
  lemma GoodFrom(n: Net, up: Link, down: Link, wu: Wire, wd: Wire)
    requires EndsOk(n) && Rel(up, wu) && Rel(down, wd) && wu == Up(n) && wd == Down(n)
    ensures Good(n, up, down)
  {
  }

  lemma Snoc(ms: seq<Message>, m: Message)
    ensures RequestsOf(ms + [m]) == RequestsOf(ms) + if m.Request? then [m] else []
    ensures AcksOf(ms + [m]) == AcksOf(ms) + if m.Ack? then [m] else []
  {
    assert (ms + [m])[..|ms|] == ms;
  }

  // What a turn does to a direction: at the receiving end it takes the oldest request, at the sending end the
  // oldest acknowledgement; each lemma below carries the relation to the unbounded counters over.

  /** w' is w after the receiver has read the oldest request, or not attended to it. */
  ghost predicate ReadsRequest(w: Wire, w': Wire, attends: bool)
    requires w.reqs != [] && w.reqs[0].Request?
  {
    var r := w.reqs[0].req;
    var w1 := w.(reqs := w.reqs[1..]);
    var w2 := w1.(acks := w.acks + [WireAck(w.channel, r.seqno)]);
    if !attends then w' == w1
    else if (r.seqno + 1) % 256 == w.rno then w' == w2
    else w' == w2.(rno := Next(w.rno), accepted := w.accepted + [r.cemi])
  }

  lemma CarryRequest(l: Link, w: Wire, w': Wire, attends: bool) returns (l': Link)
    requires Rel(l, w) && w.reqs != [] && w.reqs[0].Request? && ReadsRequest(w, w', attends)
    ensures Rel(l', w')
  {
    if attends {
      RequestRel(l, w);
      l' := ReceiveRequest(l);
    } else {
      LoseRel(l, w, 0);
      assert w' == w.(reqs := Without(w.reqs, 0));
      l' := LoseRequest(l, 0);
    }
  }

  /** What reading a request adds to what has been passed to the socket. */
  lemma ClientAnswers(c: C.Client, c': C.Client, r: TunnelRequest)
    requires C.Reads(c, c', r) && r.channel == c.session.channel
    requires (r.seqno + 1) % 256 == c.rno || r.seqno == c.rno
    ensures RequestsOf(c'.sent) == RequestsOf(c.sent)
    ensures AcksOf(c'.sent) == AcksOf(c.sent) + if c.mod != 0 then [WireAck(r.channel, r.seqno)] else []
  {
    Snoc(c.sent, WireAck(r.channel, r.seqno));
  }

  lemma ClientRequestWires(n: Net, n': Net)
    requires n.downReqs != [] && n.downReqs[0].Request? && n.downReqs[0].req.channel == n.client.session.channel
    requires (n.downReqs[0].req.seqno + 1) % 256 == n.client.rno || n.downReqs[0].req.seqno == n.client.rno
    requires n' == n.(downReqs := n.downReqs[1..], client := n'.client)
    requires C.Reads(n.client, n'.client, n.downReqs[0].req)
    ensures Up(n') == Up(n)
    ensures Down(n).reqs != [] && Down(n).reqs[0] == n.downReqs[0]
    ensures ReadsRequest(Down(n), Down(n'), n.client.mod != 0)
  {
    var r, w := n.downReqs[0].req, Down(n);
    ClientAnswers(n.client, n'.client, r);
    assert w.reqs[1..] == n.downReqs[1..] + RequestsOf(n.server.sent);
    if n.client.mod != 0 {
      assert Down(n').acks == w.acks + [WireAck(w.channel, r.seqno)];
    }
  }

  lemma ClientTakesRequest(n: Net, n': Net, up: Link, down: Link) returns (down': Link)
    requires Good(n, up, down) && n.downReqs != []
    requires n' == n.(downReqs := n.downReqs[1..], client := C.OnMessage(n.client, n.downReqs[0]))
    ensures Good(n', up, down')
  {
    assert Down(n).reqs[0] == n.downReqs[0];
    RequestRel(down, Down(n));
    C.RequestEffect(n.client, n.downReqs[0].req);
    ClientRequestWires(n, n');
    down' := CarryRequest(down, Down(n), Down(n'), n.client.mod != 0);
    C.MessageKeepsOk(n.client, n.downReqs[0]);
  }

  /** w' is w after the sender has read the oldest acknowledgement. */
  ghost predicate ReadsAck(w: Wire, w': Wire, waiting: bool)
    requires w.acks != [] && w.acks[0].Ack?
  {
    var w1 := w.(acks := w.acks[1..]);
    w' == if waiting && w.acks[0].ack.seqno == w.sno then w1.(sno := Next(w.sno), done := w.done + [true]) else w1
  }

  lemma CarryAck(l: Link, w: Wire, w': Wire, waiting: bool) returns (l': Link)
    requires Rel(l, w) && w.acks != [] && w.acks[0].Ack? && (waiting ==> |w.done| < |w.submitted|)
    requires ReadsAck(w, w', waiting)
    ensures Rel(l', w')
  {
    AckRel(l, w, waiting);
    l' := ReceiveAck(l, waiting);
  }

  lemma ClientAckWires(n: Net, n': Net)
    requires n.upAcks != [] && n.upAcks[0].Ack?
    requires n.upAcks[0].ack == TunnelAck(n.client.session.channel, n.upAcks[0].ack.seqno, 0)
    requires n.client.mod == 2 ==> n.client.inqueue != []
    requires n' == n.(upAcks := n.upAcks[1..], client := C.OnAck(n.client, n.upAcks[0].ack))
    ensures Up(n).acks != [] && Up(n).acks[0] == n.upAcks[0]
    ensures ReadsAck(Up(n), Up(n'), n.client.mod == 2) && Down(n') == Down(n)
  {
    assert Up(n).acks[1..] == n.upAcks[1..] + AcksOf(n.server.sent);
  }

  lemma ClientTakesAck(n: Net, n': Net, up: Link, down: Link) returns (up': Link)
    requires Good(n, up, down) && n.upAcks != []
    requires n' == n.(upAcks := n.upAcks[1..], client := C.OnMessage(n.client, n.upAcks[0]))
    ensures Good(n', up', down)
  {
    var w, waiting := Up(n), n.client.mod == 2;
    assert w.acks[0] == n.upAcks[0];
    AckHead(up, w);
    ClientAckWires(n, n');
    up' := CarryAck(up, w, Up(n'), waiting);
    C.MessageKeepsOk(n.client, n.upAcks[0]);
    GoodFrom(n', up', down, Up(n'), Down(n'));
  }

  lemma UnseenWires(n: Net, n': Net)
    requires C.Unseen(n.client, n'.client) && n' == n.(client := n'.client)
    ensures Up(n') == Up(n) && Down(n') == Down(n)
  {
    if n'.client.sent != n.client.sent {
      var k := |n'.client.sent| - 1;
      assert n'.client.sent == n'.client.sent[..k] + [n'.client.sent[k]];
      Snoc(n.client.sent, n'.client.sent[k]);
    }
  }

  /** A packet that is neither request nor acknowledgement, and the heartbeat, do not touch the exchange. */
  lemma ClientControls(n: Net, n': Net, up: Link, down: Link, m: Message)
    requires Good(n, up, down) && !m.Request? && !m.Ack?
    requires n' == n.(client := C.OnMessage(n.client, m)) || n' == n.(client := C.OnHeartbeat(n.client))
    ensures Good(n', up, down)
  {
    C.ControlEffect(n.client, m);
    UnseenWires(n, n');
    C.MessageKeepsOk(n.client, m);
    C.HeartbeatKeepsOk(n.client);
  }

  lemma ClientTimesOut(n: Net, n': Net, up: Link, down: Link) returns (up': Link)
    requires Good(n, up, down) && n' == n.(client := C.OnTimeout(n.client))
    ensures Good(n', up', down)
  {
    C.TimeoutEffect(n.client);
    if n.client.mod == 2 && n.client.retry >= 3 {
      var n1 := n.(client := n.client.(log := n.client.log.(done := n.client.log.done + [false])));
      UnseenWires(n1, n');
      GiveUpRel(up, Up(n));
      up' := GiveUp(up);
    } else {
      UnseenWires(n, n');
      up' := up;
    }
    C.TimeoutKeepsOk(n.client);
  }

  lemma ClientSendWires(n: Net, n': Net)
    requires C.Ok(n.client) && n' == n.(client := C.SendHead(n.client))
    requires n.client.mod == 1 && n.client.inqueue != []
    ensures var w := Up(n);
            && |w.done| < |w.submitted|
            && Up(n') == w.(reqs := w.reqs + [WireRequest(w.channel, w.sno, w.submitted[|w.done|])])
    ensures Down(n') == Down(n)
  {
    var c := n.client;
    assert c.inqueue[0] == c.log.submitted[|c.log.done|];
    Snoc(c.sent, WireRequest(c.session.channel, c.sno, c.inqueue[0]));
  }

  lemma ClientSends(n: Net, n': Net, up: Link, down: Link) returns (up': Link)
    requires Good(n, up, down) && n' == n.(client := C.SendHead(n.client))
    ensures Good(n', up', down)
  {
    C.SendKeepsOk(n.client);
    if n.client.mod == 1 && n.client.inqueue != [] {
      ClientSendWires(n, n');
      TransmitRel(up, Up(n));
      up' := Transmit(up);
    } else {
      up' := up;
    }
  }

  lemma ClientSubmits(n: Net, n': Net, up: Link, down: Link, l: Emi.LData) returns (up': Link)
    requires Good(n, up, down) && Emi.Encodable(l) && n' == n.(client := C.Submit(n.client, l))
    ensures Good(n', up', down)
  {
    var f := Emi.ToCemi(Emi.DATA_REQ, l);
    Emi.RoundTrip(Emi.DATA_REQ, l);
    C.SubmitKeepsOk(n.client, l);
    SubmitRel(up, Up(n), f);
    assert Up(n') == Up(n).(submitted := Up(n).submitted + [f]);
    assert Down(n') == Down(n);
    up' := Submit(up);
  }

  // The server's phases.

  lemma ServerRequestWires(n: Net, n': Net)
    requires n.upReqs != [] && n.upReqs[0].Request? && n.upReqs[0].req.channel == n.client.session.channel
    requires (n.upReqs[0].req.seqno + 1) % 256 == n.server.rno || n.upReqs[0].req.seqno == n.server.rno
    requires n' == n.(upReqs := n.upReqs[1..], server := n'.server)
    requires S.Reads(n.server, n'.server, n.upReqs[0].req)
    ensures Up(n).reqs != [] && Up(n).reqs[0] == n.upReqs[0]
    ensures ReadsRequest(Up(n), Up(n'), true)
  {
    var r, w := n.upReqs[0].req, Up(n);
    assert w.reqs[1..] == n.upReqs[1..] + RequestsOf(n.client.sent);
    Snoc(n.server.sent, WireAck(r.channel, r.seqno));
    assert Up(n').acks == w.acks + [WireAck(w.channel, r.seqno)];
  }

  /** In the other direction, the server may submit a confirmation. */
  lemma ServerRequestConfirms(n: Net, n': Net)
    requires n.upReqs != [] && n.upReqs[0].Request?
    requires (n.upReqs[0].req.seqno + 1) % 256 == n.server.rno || n.upReqs[0].req.seqno == n.server.rno
    requires n' == n.(upReqs := n.upReqs[1..], server := n'.server)
    requires S.Reads(n.server, n'.server, n.upReqs[0].req)
    ensures var w := Down(n); Down(n') == w || exists f :: Down(n') == w.(submitted := w.submitted + [f])
  {
    var r, w := n.upReqs[0].req, Down(n);
    Snoc(n.server.sent, WireAck(r.channel, r.seqno));
    assert Down(n').reqs == w.reqs;
    if n'.server.log.submitted != n.server.log.submitted {
      var f :| n'.server.log.submitted == n.server.log.submitted + [f];
      assert Down(n') == w.(submitted := w.submitted + [f]);
    }
  }

  lemma ServerConfirms(w: Wire, w': Wire, down: Link) returns (down': Link)
    requires Rel(down, w) && (w' == w || exists f :: w' == w.(submitted := w.submitted + [f]))
    ensures Rel(down', w')
  {
    down' := down;
    if w' != w {
      var f :| w' == w.(submitted := w.submitted + [f]);
      SubmitRel(down, w, f);
      down' := Submit(down);
    }
  }

  lemma ServerRequestEnds(n: Net, n': Net)
    requires EndsOk(n) && n.upReqs != [] && n.upReqs[0].Request?
    requires n' == n.(upReqs := n.upReqs[1..], server := S.OnRequest(n.server, n.upReqs[0].req))
    requires S.Reads(n.server, n'.server, n.upReqs[0].req)
    ensures EndsOk(n')
  {
    S.RequestKeepsOk(n.server, n.upReqs[0].req);
  }

  /** The oldest request is for the session, carries a frame, and has the expected number or the one before. */
  lemma UpHead(n: Net, up: Link)
    requires EndsOk(n) && Rel(up, Up(n)) && n.upReqs != []
    ensures Up(n).reqs != [] && Up(n).reqs[0] == n.upReqs[0] && n.upReqs[0].Request?
    ensures n.upReqs[0].req.channel == n.client.session.channel && Emi.FromCemi(n.upReqs[0].req.cemi).Some?
    ensures (n.upReqs[0].req.seqno + 1) % 256 == n.server.rno || n.upReqs[0].req.seqno == n.server.rno
  {
    assert Up(n).reqs[0] == n.upReqs[0];
    RequestRel(up, Up(n));
  }

  lemma ServerTakesRequest(n: Net, n': Net, up: Link, down: Link) returns (up': Link, down': Link)
    requires Good(n, up, down) && n.upReqs != []
    requires n.upReqs[0].Request? ==>
               n' == n.(upReqs := n.upReqs[1..], server := S.OnRequest(n.server, n.upReqs[0].req))
    ensures n.upReqs[0].Request? && Good(n', up', down')
  {
    UpHead(n, up);
    S.RequestEffect(n.server, n.upReqs[0].req);
    ServerRequestWires(n, n');
    ServerRequestConfirms(n, n');
    up' := CarryRequest(up, Up(n), Up(n'), true);
    down' := ServerConfirms(Down(n), Down(n'), down);
    ServerRequestEnds(n, n');
    GoodFrom(n', up', down', Up(n'), Down(n'));
  }

  lemma ServerTakesAck(n: Net, n': Net, up: Link, down: Link) returns (down': Link)
    requires Good(n, up, down) && n.downAcks != []
    requires n.downAcks[0].Ack? ==>
               n' == n.(downAcks := n.downAcks[1..], server := S.OnAck(n.server, n.downAcks[0].ack))
    ensures n.downAcks[0].Ack? && Good(n', up, down')
  {
    assert Down(n).acks[0] == n.downAcks[0];
    assert Down(n).acks[1..] == n.downAcks[1..] + AcksOf(n.client.sent);
    var waiting := n.server.state != 0;
    assert exists s :: Down(n).acks[0] == WireAck(Down(n).channel, s) by { AckRel(down, Down(n), waiting); }
    assert Up(n') == Up(n);
    down' := CarryAck(down, Down(n), Down(n'), waiting);
    S.StepsKeepOk(n.server, n.downAcks[0].ack, false);
  }

  /** What a visit of the send loop adds to what has been passed to the socket. */
  lemma ServerTransmits(s: S.ConnState, expired: bool)
    requires S.Ok(s) && s.typ == 0
    ensures var s' := S.SendTurn(s, expired);
            && s'.rno == s.rno && s'.sno == s.sno && s'.channel == s.channel
            && s'.log.accepted == s.log.accepted && s'.log.submitted == s.log.submitted
            && AcksOf(s'.sent) == AcksOf(s.sent)
            && (|| (s'.log.done == s.log.done && RequestsOf(s'.sent) == RequestsOf(s.sent))
                || (|s.log.done| < |s.log.submitted|
                    && ((s'.log.done == s.log.done + [false] && RequestsOf(s'.sent) == RequestsOf(s.sent))
                        || (s'.log.done == s.log.done
                            && RequestsOf(s'.sent)
                               == RequestsOf(s.sent)
                                  + [WireRequest(s.channel, s.sno, s.log.submitted[|s.log.done|])]))))
  {
    if s.out != [] {
      assert s.out[0] == s.log.submitted[|s.log.done|];
      Snoc(s.sent, WireRequest(s.channel, s.sno, s.out[0]));
    }
  }

  lemma ServerSendWires(n: Net, n': Net, expired: bool)
    requires S.Ok(n.server) && n.server.typ == 0
    requires n.client.session.channel == n.server.channel
    requires n' == n.(server := S.SendTurn(n.server, expired))
    ensures Up(n') == Up(n)
    ensures var w := Down(n);
            || Down(n') == w
            || (|w.done| < |w.submitted|
                && (Down(n') == w.(done := w.done + [false])
                    || Down(n') == w.(reqs := w.reqs + [WireRequest(w.channel, w.sno, w.submitted[|w.done|])])))
  {
    ServerTransmits(n.server, expired);
  }

  lemma ServerSends(n: Net, n': Net, up: Link, down: Link, expired: bool) returns (down': Link)
    requires Good(n, up, down) && n' == n.(server := S.SendTurn(n.server, expired))
    ensures Good(n', up, down')
  {
    ServerSendWires(n, n', expired);
    S.StepsKeepOk(n.server, TunnelAck(0, 0, 0), expired);
    var w := Down(n);
    if Down(n') == w {
      down' := down;
    } else if Down(n') == w.(done := w.done + [false]) {
      GiveUpRel(down, w);
      down' := GiveUp(down);
    } else {
      TransmitRel(down, w);
      down' := Transmit(down);
    }
  }

  lemma ServerEnqueues(n: Net, n': Net, up: Link, down: Link, l: Emi.LData) returns (down': Link)
    requires Good(n, up, down) && Emi.Encodable(l) && l.hopcount > 0
    requires n' == n.(server := S.Enqueue(n.server, l))
    ensures Good(n', up, down')
  {
    var f := Emi.ToCemi(Emi.DATA_IND, l.(hopcount := l.hopcount - 1));
    S.EnqueueKeepsOk(n.server, l);
    SubmitRel(down, Down(n), f);
    assert Down(n') == Down(n).(submitted := Down(n).submitted + [f]);
    assert Up(n') == Up(n);
    down' := Submit(down);
  }

  // The network.

  lemma WithoutAppend<T>(a: seq<T>, b: seq<T>, k: nat)
    requires k < |a|
    ensures Without(a, k) + b == Without(a + b, k) && Doubled(a, k) + b == Doubled(a + b, k)
  {
  }

  lemma UpChannelsKeep(n: Net, ch: Channel, k: nat, up: Link, down: Link) returns (lost: Link, copied: Link)
    requires Good(n, up, down) && (ch.UpReqs? || ch.UpAcks?)
    ensures Good(LoseAt(n, ch, k), lost, down) && Good(CopyAt(n, ch, k), copied, down)
  {
    lost, copied := up, up;
    var w := Up(n);
    LoseRel(up, w, k);
    CopyRel(up, w, k);
    if ch.UpReqs? && k < |n.upReqs| {
      lost, copied := LoseRequest(up, k), CopyRequest(up, k);
      WithoutAppend(n.upReqs, RequestsOf(n.client.sent), k);
      assert Up(LoseAt(n, ch, k)) == w.(reqs := Without(w.reqs, k));
      assert Up(CopyAt(n, ch, k)) == w.(reqs := Doubled(w.reqs, k));
    } else if ch.UpAcks? && k < |n.upAcks| {
      lost, copied := LoseAck(up, k), CopyAck(up, k);
      WithoutAppend(n.upAcks, AcksOf(n.server.sent), k);
      assert Up(LoseAt(n, ch, k)) == w.(acks := Without(w.acks, k));
      assert Up(CopyAt(n, ch, k)) == w.(acks := Doubled(w.acks, k));
    }
    assert Down(LoseAt(n, ch, k)) == Down(CopyAt(n, ch, k)) == Down(n);
  }

  lemma DownChannelsKeep(n: Net, ch: Channel, k: nat, up: Link, down: Link) returns (lost: Link, copied: Link)
    requires Good(n, up, down) && (ch.DownReqs? || ch.DownAcks?)
    ensures Good(LoseAt(n, ch, k), up, lost) && Good(CopyAt(n, ch, k), up, copied)
  {
    lost, copied := down, down;
    var w := Down(n);
    LoseRel(down, w, k);
    CopyRel(down, w, k);
    if ch.DownReqs? && k < |n.downReqs| {
      lost, copied := LoseRequest(down, k), CopyRequest(down, k);
      WithoutAppend(n.downReqs, RequestsOf(n.server.sent), k);
      assert Down(LoseAt(n, ch, k)) == w.(reqs := Without(w.reqs, k));
      assert Down(CopyAt(n, ch, k)) == w.(reqs := Doubled(w.reqs, k));
    } else if ch.DownAcks? && k < |n.downAcks| {
      lost, copied := LoseAck(down, k), CopyAck(down, k);
      WithoutAppend(n.downAcks, AcksOf(n.client.sent), k);
      assert Down(LoseAt(n, ch, k)) == w.(acks := Without(w.acks, k));
      assert Down(CopyAt(n, ch, k)) == w.(acks := Doubled(w.acks, k));
    }
    assert Up(LoseAt(n, ch, k)) == Up(CopyAt(n, ch, k)) == Up(n);
  }

  lemma FlushKeeps(n: Net, up: Link, down: Link)
    requires Good(n, up, down)
    ensures Good(Flush(n), up, down)
  {
    assert Up(Flush(n)) == Up(n);
    assert Down(Flush(n)) == Down(n);
  }

  // Events as sequences of phases, and runs.

  datatype Phase =
    | ClientSubmit(l: Emi.LData)
    | ServerEnqueue(l: Emi.LData)
    | ClientRead(from: Source)
    | ClientTimer
    | ClientHeartbeat
    | ClientSend
    | ServerRead(from: Source)
    | ServerSend(expired: bool)
    | Network(ch: Channel, k: nat, copies: bool)
    | FlushSockets

  function Apply(n: Net, p: Phase): Net {
    match p
    case ClientSubmit(l) => if Emi.Encodable(l) then n.(client := C.Submit(n.client, l)) else n
    case ServerEnqueue(l) => if Emi.Encodable(l) && l.hopcount > 0 then n.(server := S.Enqueue(n.server, l)) else n
    case ClientRead(from) =>
      var m := ClientPacket(n, from);
      if m.Some? then ClientPops(n, from).(client := C.OnMessage(n.client, m.value)) else n
    case ClientTimer => n.(client := C.OnTimeout(n.client))
    case ClientHeartbeat => n.(client := C.OnHeartbeat(n.client))
    case ClientSend => n.(client := C.SendHead(n.client))
    case ServerRead(from) =>
      var m := ServerPacket(n, from);
      if m.Some? then ServerPops(n, from).(server := ServerReads(n.server, m)) else n
    case ServerSend(expired) => n.(server := S.SendTurn(n.server, expired))
    case Network(ch, k, copies) => if copies then CopyAt(n, ch, k) else LoseAt(n, ch, k)
    case FlushSockets => Flush(n)
  }

  function ApplyEach(n: Net, ps: seq<Phase>): Net
    decreases |ps|
  {
    if ps == [] then n else ApplyEach(Apply(n, ps[0]), ps[1..])
  }

  function ApplyAll(n: Net, ps: seq<Phase>): Net {
    ApplyEach(n, ps)
  }

  /** A phase that a flag switches on. */
  function If(on: bool, p: Phase): seq<Phase> {
    if on then [p] else []
  }

  /** The acknowledgement that restarts the first timer. */
  predicate Restarts(n: Net, from: Source) {
    var m := ClientPacket(n, from);
    m.Some? && m.value.Ack? && C.Releases(n.client, m.value.ack) && n.client.session.noqueue
  }

  function Phases(n: Net, e: Event): seq<Phase> {
    match e
    case ClientSubmits(l) => [ClientSubmit(l)]
    case ServerEnqueues(l) => [ServerEnqueue(l)]
    case ClientTurn(from, timer, timer1) =>
      If(true, ClientRead(from))
      + (If(timer && !Restarts(n, from), ClientTimer) + If(timer1, ClientHeartbeat) + [ClientSend, FlushSockets])
    case ServerTurn(from, expired) => [ServerRead(from), ServerSend(expired), FlushSockets]
    case Lose(ch, k) => [Network(ch, k, false)]
    case Copy(ch, k) => [Network(ch, k, true)]
  }

  lemma {:induction false} ApplyAppend(n: Net, a: seq<Phase>, b: seq<Phase>)
    ensures ApplyAll(n, a + b) == ApplyAll(ApplyAll(n, a), b)
    decreases |a|
  {
    if a == [] {
      assert a + b == b;
    } else {
      assert (a + b)[1..] == a[1..] + b;
      ApplyAppend(Apply(n, a[0]), a[1..], b);
    }
  }

  lemma ApplyIf(n: Net, on: bool, p: Phase)
    ensures ApplyAll(n, If(on, p)) == if on then Apply(n, p) else n
  {
    assert [p][1..] == [];
    assert ApplyAll(Apply(n, p), []) == Apply(n, p);
  }

  lemma ApplyTwo(n: Net, p: Phase, q: Phase)
    ensures ApplyAll(n, [p, q]) == Apply(Apply(n, p), q)
  {
    assert [p, q][1..] == [q] && [q][1..] == [];
    assert ApplyAll(Apply(n, p), [q]) == ApplyAll(Apply(Apply(n, p), q), []);
  }

  /** What the phases of a client turn do after the packet. */
  lemma ClientPhases(n: Net, timer: bool, timer1: bool)
    ensures var n1 := if timer then Apply(n, ClientTimer) else n;
            var n2 := if timer1 then Apply(n1, ClientHeartbeat) else n1;
            Apply(Apply(n2, ClientSend), FlushSockets)
            == ApplyAll(n, If(timer, ClientTimer) + If(timer1, ClientHeartbeat) + [ClientSend, FlushSockets])
  {
    var a, b := If(timer, ClientTimer), If(timer1, ClientHeartbeat);
    ApplyAppend(n, a + b, [ClientSend, FlushSockets]);
    ApplyAppend(n, a, b);
    ApplyIf(n, timer, ClientTimer);
    ApplyIf(ApplyAll(n, a), timer1, ClientHeartbeat);
    ApplyTwo(ApplyAll(n, a + b), ClientSend, FlushSockets);
  }

  lemma ClientTurnStep(n: Net, from: Source, timer: bool, timer1: bool)
    ensures var n0 := Apply(n, ClientRead(from));
            var n1 := if timer && !Restarts(n, from) then Apply(n0, ClientTimer) else n0;
            var n2 := if timer1 then Apply(n1, ClientHeartbeat) else n1;
            Step(n, ClientTurn(from, timer, timer1)) == Apply(Apply(n2, ClientSend), FlushSockets)
  {
    ClientReadShape(n, from);
  }

  lemma ClientTurnIsPhases(n: Net, from: Source, timer: bool, timer1: bool)
    ensures var e := Event.ClientTurn(from, timer, timer1); Step(n, e) == ApplyAll(n, Phases(n, e))
  {
    var on := timer && !Restarts(n, from);
    var rest := If(on, ClientTimer) + If(timer1, ClientHeartbeat) + [ClientSend, FlushSockets];
    ApplyAppend(n, If(true, ClientRead(from)), rest);
    ApplyIf(n, true, ClientRead(from));
    ClientPhases(Apply(n, ClientRead(from)), on, timer1);
    ClientTurnStep(n, from, timer, timer1);
  }

  /** A turn of either loop is its phases in order. */
  lemma StepIsPhases(n: Net, e: Event)
    ensures Step(n, e) == ApplyAll(n, Phases(n, e))
  {
    match e
    case ClientTurn(from, timer, timer1) => ClientTurnIsPhases(n, from, timer, timer1);
    case ServerTurn(from, expired) => ServerTurnIsPhases(n, from, expired);
    case _ => OnePhase(n, e);
  }

  lemma OnePhase(n: Net, e: Event)
    requires !e.ClientTurn? && !e.ServerTurn?
    ensures Step(n, e) == ApplyAll(n, Phases(n, e))
  {
    var p := Phases(n, e)[0];
    ApplyIf(n, true, p);
    assert Phases(n, e) == If(true, p);
  }

  lemma ServerTurnIsPhases(n: Net, from: Source, expired: bool)
    ensures var e := Event.ServerTurn(from, expired); Step(n, e) == ApplyAll(n, Phases(n, e))
  {
    var p, q := ServerRead(from), ServerSend(expired);
    ApplyAppend(n, If(true, p), [q, FlushSockets]);
    ApplyIf(n, true, p);
    ApplyTwo(Apply(n, p), q, FlushSockets);
    assert [p] + [q, FlushSockets] == [p, q, FlushSockets];
    ServerReadShape(n, from);
  }

  lemma ServerReadShape(n: Net, from: Source)
    ensures Apply(n, ServerRead(from)) == ServerPops(n, from).(server := ServerReads(n.server, ServerPacket(n, from)))
  {
  }

  lemma ClientReadShape(n: Net, from: Source)
    ensures Apply(n, ClientRead(from))
         == ClientPops(n, from).(client := if ClientPacket(n, from).Some?
                                           then C.OnMessage(n.client, ClientPacket(n, from).value) else n.client)
  {
  }

  lemma PhaseKeeps(n: Net, p: Phase, up: Link, down: Link) returns (up': Link, down': Link)
    requires Good(n, up, down)
    ensures Good(Apply(n, p), up', down')
  {
    up', down' := up, down;
    var n' := Apply(n, p);
    match p
    case ClientSubmit(l) => if Emi.Encodable(l) { up' := ClientSubmits(n, n', up, down, l); }
    case ServerEnqueue(l) => if Emi.Encodable(l) && l.hopcount > 0 { down' := ServerEnqueues(n, n', up, down, l); }
    case ClientRead(from) => up', down' := ClientReadKeeps(n, from, up, down);
    case ClientTimer => up' := ClientTimesOut(n, n', up, down);
    case ClientHeartbeat => ClientControls(n, n', up, down, StateRequest(0));
    case ClientSend => up' := ClientSends(n, n', up, down);
    case ServerRead(from) => up', down' := ServerReadKeeps(n, from, up, down);
    case ServerSend(expired) => down' := ServerSends(n, n', up, down, expired);
    case Network(ch, k, copies) =>
      if ch.UpReqs? || ch.UpAcks? {
        var lost, copied := UpChannelsKeep(n, ch, k, up, down);
        up' := if copies then copied else lost;
      } else {
        var lost, copied := DownChannelsKeep(n, ch, k, up, down);
        down' := if copies then copied else lost;
      }
    case FlushSockets => FlushKeeps(n, up, down);
  }

  lemma ClientReadKeeps(n: Net, from: Source, up: Link, down: Link) returns (up': Link, down': Link)
    requires Good(n, up, down)
    ensures Good(Apply(n, ClientRead(from)), up', down')
  {
    up', down' := up, down;
    var m := ClientPacket(n, from);
    var n' := Apply(n, ClientRead(from));
    if m.Some? {
      match from
      case Requests => down' := ClientTakesRequest(n, n', up, down);
      case Acks => up' := ClientTakesAck(n, n', up, down);
      case Control(_) => ClientControls(n, n', up, down, m.value);
    }
  }

  lemma ServerReadKeeps(n: Net, from: Source, up: Link, down: Link) returns (up': Link, down': Link)
    requires Good(n, up, down)
    ensures Good(Apply(n, ServerRead(from)), up', down')
  {
    up', down' := up, down;
    var n' := Apply(n, ServerRead(from));
    if ServerPacket(n, from).Some? {
      if from.Requests? {
        UpHeadIsRequest(n, up);
        up', down' := ServerTakesRequest(n, n', up, down);
      } else {
        DownHeadIsAck(n, down);
        down' := ServerTakesAck(n, n', up, down);
      }
    }
  }

  lemma UpHeadIsRequest(n: Net, up: Link)
    requires Rel(up, Up(n)) && n.upReqs != []
    ensures n.upReqs[0].Request?
  {
    assert Up(n).reqs[0] == n.upReqs[0];
    RequestRel(up, Up(n));
  }

  lemma DownHeadIsAck(n: Net, down: Link)
    requires Rel(down, Down(n)) && n.downAcks != []
    ensures n.downAcks[0].Ack?
  {
    assert Down(n).acks[0] == n.downAcks[0];
    AckRel(down, Down(n), false);
  }

  lemma {:induction false} PhasesKeep(n: Net, ps: seq<Phase>, up: Link, down: Link) returns (up': Link, down': Link)
    requires Good(n, up, down)
    ensures Good(ApplyAll(n, ps), up', down')
    decreases |ps|
  {
    if ps == [] {
      up', down' := up, down;
    } else {
      var u, d := PhaseKeeps(n, ps[0], up, down);
      up', down' := PhasesKeep(Apply(n, ps[0]), ps[1..], u, d);
    }
  }

  lemma FreshWires(session: C.Session)
    ensures Up(Fresh(session)) == Down(Fresh(session)) == Wire(session.channel, [], [], 0, 0, [], [], [])
  {
  }

  lemma FreshEnds(session: C.Session)
    ensures EndsOk(Fresh(session))
  {
    C.ConnectedOk(session);
    S.NewConnectionOk(session.channel, 0);
  }

  lemma FreshGood(session: C.Session)
    ensures Good(Fresh(session), START, START)
  {
    var w := Wire(session.channel, [], [], 0, 0, [], [], []);
    StartRel(session.channel);
    FreshWires(session);
    FreshEnds(session);
    GoodFrom(Fresh(session), START, START, w, w);
  }

  /** Every reachable state stands in the relation to some state of the unbounded protocol. */
  lemma {:induction false} RunGood(session: C.Session, es: seq<Event>) returns (up: Link, down: Link)
    ensures Good(Run(session, es), up, down)
  {
    if es == [] {
      FreshGood(session);
      up, down := START, START;
    } else {
      var k := |es| - 1;
      var u, d := RunGood(session, es[..k]);
      StepIsPhases(Run(session, es[..k]), es[k]);
      up, down := PhasesKeep(Run(session, es[..k]), Phases(Run(session, es[..k]), es[k]), u, d);
    }
  }
}
