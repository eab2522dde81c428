/**
 * The channels of TunnelSystem carry parsed packets. Nothing is lost by that: in every reachable state, what is
 * in flight comes out of the datagram codec as it went in.
 */
module TunnelTransport {
  import opened Bytes
  import opened EibNetIp
  import opened TunnelSystem
  import opened TunnelWire
  import opened TunnelLink
  import opened TunnelTheorems
  import C = TunnelClient
  import S = TunnelServer

  /** The size of an encoded frame with up to 254 bytes of data. */
  predicate Sized(f: seq<byte>) {
    10 <= |f| <= 263
  }

  ghost predicate AllSized(fs: seq<seq<byte>>) {
    forall f :: f in fs ==> Sized(f)
  }

  /** A turn of the client submits nothing. */
  lemma ClientSubmitted(c: C.Client, m: Option<Message>, timer: bool, timer1: bool)
    ensures C.Iterate(c, m, timer, timer1).log.submitted == c.log.submitted
  {
    if m.Some? {
      MessageSubmitted(c, m.value);
    }
  }

  lemma MessageSubmitted(c: C.Client, m: Message)
    ensures C.OnMessage(c, m).log.submitted == c.log.submitted
  {
    if m.Request? {
      C.RequestEffect(c, m.req);
    }
  }

  /** A request that the server reads makes it submit the confirmation, or nothing. */
  lemma RequestSubmitted(s: S.ConnState, r: TunnelRequest)
    requires AllSized(s.log.submitted)
    ensures AllSized(S.OnRequest(s, r).log.submitted)
  {
    var f := S.Confirmation(r.cemi);
    if f.Some? {
      assert Sized(f.value);
    }
    assert S.OnRequest(s, r).log.submitted == s.log.submitted
        || (f.Some? && S.OnRequest(s, r).log.submitted == s.log.submitted + [f.value]);
  }

  lemma ServerSubmitted(s: S.ConnState, m: Option<Message>, expired: bool)
    requires AllSized(s.log.submitted)
    ensures AllSized(S.SendTurn(ServerReads(s, m), expired).log.submitted)
  {
    if m.Some? && m.value.Request? {
      RequestSubmitted(s, m.value.req);
    }
    assert S.SendTurn(ServerReads(s, m), expired).log.submitted == ServerReads(s, m).log.submitted;
  }

  ghost predicate SubmittedSized(n: Net) {
    AllSized(n.client.log.submitted) && AllSized(n.server.log.submitted)
  }

  lemma StepSized(n: Net, e: Event)
    requires SubmittedSized(n)
    ensures SubmittedSized(Step(n, e))
  {
    match e
    case ClientTurn(from, timer, timer1) => ClientSubmitted(n.client, ClientPacket(n, from), timer, timer1);
    case ServerTurn(from, expired) => ServerSubmitted(n.server, ServerPacket(n, from), expired);
    case _ =>
  }

  lemma {:induction false} RunSized(session: C.Session, es: seq<Event>)
    ensures SubmittedSized(Run(session, es))
  {
    if es != [] {
      RunSized(session, es[..|es| - 1]);
      StepSized(Run(session, es[..|es| - 1]), es[|es| - 1]);
    }
  }

  /** Written as a datagram and read again, m is the same packet. */
  predicate Survives(m: Message) {
    match m
    case Request(r) =>
      var p := FromDatagram(Datagram(RequestToPacket(r)));
      p.Some? && ParseRequest(p.value) == Some(r) && ParseAck(p.value) == None
    case Ack(a) =>
      var p := FromDatagram(Datagram(AckToPacket(a)));
      p.Some? && ParseAck(p.value) == Some(a) && ParseRequest(p.value) == None
    case _ => false
  }

  lemma WireSurvives(l: Link, w: Wire)
    requires Rel(l, w) && AllSized(w.submitted)
    ensures forall m :: m in w.reqs || m in w.acks ==> Survives(m)
  {
    forall m | m in w.reqs ensures Survives(m) {
      var i :| 0 <= i < |w.reqs| && w.reqs[i] == m;
      var f := w.submitted[l.reqs[i].frame];
      assert f in w.submitted;
      RequestSurvives(w.channel, l.reqs[i].slot % 256, f);
    }
    forall m | m in w.acks ensures Survives(m) {
      var i :| 0 <= i < |w.acks| && w.acks[i] == m;
      AckSurvives(w.channel, l.acks[i] % 256);
    }
  }

  lemma RequestSurvives(channel: byte, seqno: byte, f: seq<byte>)
    requires Sized(f)
    ensures Survives(WireRequest(channel, seqno, f))
  {
    var r := TunnelRequest(channel, seqno, f);
    RequestRoundTrip(r);
    DatagramRoundTrip(RequestToPacket(r));
  }

  lemma AckSurvives(channel: byte, seqno: byte)
    ensures Survives(WireAck(channel, seqno))
  {
    AckRoundTrip(TunnelAck(channel, seqno, 0));
  }

  ghost predicate AllSurvive(n: Net) {
    && (forall m :: m in n.upReqs || m in n.upAcks ==> Survives(m))
    && (forall m :: m in n.downReqs || m in n.downAcks ==> Survives(m))
  }

  lemma GoodSurvives(n: Net, u: Link, d: Link)
    requires Good(n, u, d) && SubmittedSized(n)
    ensures AllSurvive(n)
  {
    WireSurvives(u, Up(n));
    WireSurvives(d, Down(n));
    assert forall m :: m in n.upReqs ==> m in Up(n).reqs;
    assert forall m :: m in n.upAcks ==> m in Up(n).acks;
    assert forall m :: m in n.downReqs ==> m in Down(n).reqs;
    assert forall m :: m in n.downAcks ==> m in Down(n).acks;
  }

  /** In every reachable state, all requests and acknowledgements in flight survive the wire. */
  lemma WireTransparent(session: C.Session, n: Net)
    requires Reachable(session, n)
    ensures AllSurvive(n)
  {
    var es :| n == Run(session, es);
    var u, d := RunGood(session, es);
    RunSized(session, es);
    GoodSurvives(n, u, d);
  }
}
