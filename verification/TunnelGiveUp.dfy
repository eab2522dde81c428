/**
 * Runs in which the client gives frames up. The number stays, so the acknowledgement of a frame given up releases
 * the next one: a frame can be acknowledged that the server never accepts, and once a frame has been given up since
 * the last acknowledgement, nothing that the client knows tells whether the next one proves anything of its head.
 */
module TunnelGiveUp {
  import opened Bytes
  import opened EibNetIp
  import opened TunnelSystem
  import opened TunnelWire
  import Emi
  import C = TunnelClient
  import S = TunnelServer

  const TIMEOUT := ClientTurn(Nothing, true, false)

  lemma Extend(session: C.Session, es: seq<Event>, e: Event) returns (longer: seq<Event>)
    ensures longer == es + [e] && Run(session, longer) == Step(Run(session, es), e)
  {
    longer := es + [e];
    assert longer[..|es|] == es;
  }

  /** Between turns; the client holds frames `fs`, and waits with this many retries. */
  predicate Waiting(n: Net, fs: seq<seq<byte>>, retry: int, drop: int) {
    && n.client.sent == [] && n.server.sent == [] && fs != []
    && n.client.inqueue == fs && n.client.mod == 2 && n.client.sno == 0
    && n.client.retry == retry && n.client.drop == drop
  }

  /** The client has made a turn of its own, at which it sent this frame. */
  predicate Sends(n: Net, n': Net, f: seq<byte>) {
    && n'.server == n.server && n'.upAcks == n.upAcks
    && n'.client.session == n.client.session && n'.client.log.submitted == n.client.log.submitted
    && n'.upReqs == n.upReqs + [WireRequest(n.client.session.channel, 0, f)]
  }

  lemma FirstTurn(n: Net, fs: seq<seq<byte>>)
    requires n.client.sent == [] && n.server.sent == [] && fs != []
    requires n.client.inqueue == fs && n.client.mod == 1 && n.client.sno == n.client.retry == n.client.drop == 0
    ensures var n' := Step(n, ClientTurn(Nothing, false, false));
            && Waiting(n', fs, 0, 0) && Sends(n, n', fs[0]) && n'.client.log.done == n.client.log.done
  {
    Snoc([], WireRequest(n.client.session.channel, 0, fs[0]));
  }

  lemma RepeatTurn(n: Net, fs: seq<seq<byte>>, retry: int, drop: int)
    requires Waiting(n, fs, retry, drop) && retry < 3
    ensures var n' := Step(n, TIMEOUT);
            && Waiting(n', fs, retry + 1, drop) && Sends(n, n', fs[0]) && n'.client.log.done == n.client.log.done
  {
    Snoc([], WireRequest(n.client.session.channel, 0, fs[0]));
  }

  lemma GiveUpTurn(n: Net, fs: seq<seq<byte>>, drop: int)
    requires Waiting(n, fs, 3, drop) && drop < 2 && |fs| >= 2
    ensures var n' := Step(n, TIMEOUT);
            && Waiting(n', fs[1..], 0, drop + 1) && Sends(n, n', fs[1])
            && n'.client.log.done == n.client.log.done + [false]
  {
    Snoc([], WireRequest(n.client.session.channel, 0, fs[1]));
  }

  lemma ServerAccepts(n: Net, f: seq<byte>)
    requires n.client.sent == [] && n.server == S.NewConnection(n.client.session.channel, 0) && n.upAcks == []
    requires n.upReqs == [WireRequest(n.client.session.channel, 0, f)] && Emi.FromCemi(f).Some?
    ensures var n' := Step(n, ServerTurn(Requests, false));
            && n'.client == n.client && n'.server.sent == [] && n'.server.log.accepted == [f]
            && n'.upAcks == [WireAck(n.client.session.channel, 0)]
  {
    var r := n.upReqs[0].req;
    S.NewConnectionOk(r.channel, 0);
    S.RequestEffect(n.server, r);
    var s := S.OnRequest(n.server, r);
    Snoc([], WireAck(r.channel, 0));
    if s.out != [] {
      Snoc(s.sent, WireRequest(s.channel, s.sno, s.out[0]));
    }
  }

  /** A turn of the client alone depends on the client alone. */
  lemma ClientAlone(n: Net, m: Net, timer: bool)
    requires n.client == m.client
    ensures Step(n, ClientTurn(Nothing, timer, false)).client == Step(m, ClientTurn(Nothing, timer, false)).client
  {
  }

  function Frames(ls: seq<Emi.LData>): (fs: seq<seq<byte>>)
    requires forall l :: l in ls ==> Emi.Encodable(l)
    ensures |fs| == |ls|
  {
    if ls == [] then [] else Frames(ls[..|ls| - 1]) + [Emi.ToCemi(Emi.DATA_REQ, ls[|ls| - 1])]
  }

  lemma {:induction false} FramesDecode(ls: seq<Emi.LData>)
    requires forall l :: l in ls ==> Emi.Encodable(l)
    ensures forall f :: f in Frames(ls) ==> Emi.FromCemi(f).Some?
  {
    if ls != [] {
      FramesDecode(ls[..|ls| - 1]);
      Emi.RoundTrip(Emi.DATA_REQ, ls[|ls| - 1]);
    }
  }

  /** Everything submitted, nothing sent yet. */
  lemma {:induction false} Submitted(session: C.Session, ls: seq<Emi.LData>) returns (es: seq<Event>)
    requires forall l :: l in ls ==> Emi.Encodable(l)
    ensures var n := Run(session, es);
            && n.client.inqueue == n.client.log.submitted == Frames(ls) && n.client.log.done == []
            && n.client.session == session && n.client.sent == [] && n.client.mod == 1
            && n.client.sno == n.client.retry == n.client.drop == 0
            && n.server == S.NewConnection(session.channel, 0) && n.upReqs == [] && n.upAcks == []
  {
    es := [];
    if ls != [] {
      es := Submitted(session, ls[..|ls| - 1]);
      es := Extend(session, es, ClientSubmits(ls[|ls| - 1]));
    }
  }

  /** Two states with the same client: in n the server has accepted f and acknowledged it; in m it has heard
      nothing, and the last request under way is the client's head. */
  ghost predicate Twins(n: Net, m: Net, f: seq<byte>, fs: seq<seq<byte>>, retry: int, drop: int) {
    var ch := n.client.session.channel;
    && Waiting(n, fs, retry, drop) && Waiting(m, fs, retry, drop) && n.client == m.client
    && n.server.log.accepted == [f] && n.upAcks == [WireAck(ch, 0)]
    && m.server == S.NewConnection(ch, 0) && m.upAcks == []
    && m.upReqs != [] && m.upReqs[|m.upReqs| - 1] == WireRequest(ch, 0, fs[0])
  }

  lemma RepeatTwins(n: Net, m: Net, f: seq<byte>, fs: seq<seq<byte>>, retry: int, drop: int)
    requires Twins(n, m, f, fs, retry, drop) && retry < 3
    ensures Twins(Step(n, TIMEOUT), Step(m, TIMEOUT), f, fs, retry + 1, drop)
    ensures Step(n, TIMEOUT).client.log.submitted == n.client.log.submitted
    ensures Step(n, TIMEOUT).client.log.done == n.client.log.done
  {
    RepeatTurn(n, fs, retry, drop);
    RepeatTurn(m, fs, retry, drop);
    ClientAlone(n, m, true);
  }

  lemma GiveUpTwins(n: Net, m: Net, f: seq<byte>, fs: seq<seq<byte>>, drop: int)
    requires Twins(n, m, f, fs, 3, drop) && drop < 2 && |fs| >= 2
    ensures Twins(Step(n, TIMEOUT), Step(m, TIMEOUT), f, fs[1..], 0, drop + 1)
    ensures Step(n, TIMEOUT).client.log.submitted == n.client.log.submitted
    ensures Step(n, TIMEOUT).client.log.done == n.client.log.done + [false]
  {
    GiveUpTurn(n, fs, drop);
    GiveUpTurn(m, fs, drop);
    ClientAlone(n, m, true);
  }

  /** Three repetitions, and the head is given up, in both runs. */
  lemma GiveUp(session: C.Session, a: seq<Event>, b: seq<Event>, f: seq<byte>, fs: seq<seq<byte>>, drop: int)
    returns (a': seq<Event>, b': seq<Event>)
    requires Twins(Run(session, a), Run(session, b), f, fs, 0, drop) && drop < 2 && |fs| >= 2
    ensures Twins(Run(session, a'), Run(session, b'), f, fs[1..], 0, drop + 1)
    ensures Run(session, a').client.log.submitted == Run(session, a).client.log.submitted
    ensures Run(session, a').client.log.done == Run(session, a).client.log.done + [false]
  {
    a', b' := a, b;
    var i := 0;
    while i < 3
      invariant 0 <= i <= 3 && Twins(Run(session, a'), Run(session, b'), f, fs, i, drop)
      invariant Run(session, a').client.log.submitted == Run(session, a).client.log.submitted
      invariant Run(session, a').client.log.done == Run(session, a).client.log.done
    {
      RepeatTwins(Run(session, a'), Run(session, b'), f, fs, i, drop);
      a' := Extend(session, a', TIMEOUT);
      b' := Extend(session, b', TIMEOUT);
      i := i + 1;
    }
    GiveUpTwins(Run(session, a'), Run(session, b'), f, fs, drop);
    a' := Extend(session, a', TIMEOUT);
    b' := Extend(session, b', TIMEOUT);
  }

  /** All frames submitted, the first one sent, and in the one run accepted. */
  lemma StartTwins(session: C.Session, ls: seq<Emi.LData>) returns (a: seq<Event>, b: seq<Event>)
    requires ls != [] && forall l :: l in ls ==> Emi.Encodable(l)
    ensures Frames(ls) != [] && Twins(Run(session, a), Run(session, b), Frames(ls)[0], Frames(ls), 0, 0)
    ensures Run(session, a).client.log.submitted == Frames(ls) && Run(session, a).client.log.done == []
    ensures Run(session, a).client.session == session
  {
    var fs := Frames(ls);
    FramesDecode(ls);
    b := Submitted(session, ls);
    FirstTurn(Run(session, b), fs);
    b := Extend(session, b, ClientTurn(Nothing, false, false));
    ServerAccepts(Run(session, b), fs[0]);
    a := Extend(session, b, ServerTurn(Requests, false));
  }

  lemma LoseFirst(n: Net)
    requires n.upReqs != []
    ensures Step(n, Lose(UpReqs, 0)) == n.(upReqs := n.upReqs[1..])
  {
    assert Without(n.upReqs, 0) == n.upReqs[1..];
  }

  /** The first k requests under way are lost. */
  lemma {:induction false} LoseMany(session: C.Session, es: seq<Event>, n: Net, k: nat) returns (longer: seq<Event>)
    requires n == Run(session, es) && k <= |n.upReqs|
    ensures Run(session, longer) == n.(upReqs := n.upReqs[k..])
    decreases k
  {
    if k == 0 {
      longer := es;
      assert n.upReqs[0..] == n.upReqs;
    } else {
      LoseFirst(n);
      var m := n.(upReqs := n.upReqs[1..]);
      longer := Extend(session, es, Lose(UpReqs, 0));
      longer := LoseMany(session, longer, m, k - 1);
      assert m.upReqs[k - 1..] == n.upReqs[k..];
    }
  }

  /** An acknowledgement is under way that releases the client's head. */
  predicate Releasing(n: Net) {
    && n.client.inqueue != [] && n.upAcks != [] && n.upAcks[0].Ack?
    && C.Releases(n.client, n.upAcks[0].ack) && n.server.log.accepted != []
  }

  /** The frame that the server accepted last is the client's head. */
  predicate HeadAccepted(n: Net)
    requires Releasing(n)
  {
    n.server.log.accepted[|n.server.log.accepted| - 1] == n.client.inqueue[0]
  }

  /** With one or two frames given up since the last acknowledgement, two runs lead to the same client and the same
      acknowledgement; after the one the server has accepted the head, after the other it has not. So the client
      can tell only if its drop counter is 0. */
  lemma DropDecides(session: C.Session, ls: seq<Emi.LData>) returns (a: seq<Event>, b: seq<Event>)
    requires 2 <= |ls| <= 3 && (forall l :: l in ls ==> Emi.Encodable(l))
    requires Frames(ls)[0] != Frames(ls)[|ls| - 1]
    ensures var n, m := Run(session, a), Run(session, b);
            && n.client == m.client && n.client.drop == |ls| - 1 && Releasing(n) && Releasing(m)
            && n.upAcks[0] == m.upAcks[0] && !HeadAccepted(n) && HeadAccepted(m)
  {
    var fs := Frames(ls);
    FramesDecode(ls);
    a, b := StartTwins(session, ls);
    a, b := GiveUp(session, a, b, fs[0], fs, 0);
    if |ls| == 3 {
      a, b := GiveUp(session, a, b, fs[0], fs[1..], 1);
    }
    b := Overtake(session, a, b, fs[0], fs[|fs| - 1], |ls| - 1);
  }

  /** In the run in which the server has heard nothing, it now accepts the head. */
  lemma Overtake(session: C.Session, a: seq<Event>, b: seq<Event>, f: seq<byte>, head: seq<byte>, drop: int)
    returns (b': seq<Event>)
    requires Twins(Run(session, a), Run(session, b), f, [head], 0, drop) && Emi.FromCemi(head).Some? && f != head
    ensures var n, m := Run(session, a), Run(session, b');
            && n.client == m.client && n.client.drop == drop && Releasing(n) && Releasing(m)
            && n.upAcks[0] == m.upAcks[0] && !HeadAccepted(n) && HeadAccepted(m)
  {
    var m := Run(session, b);
    var k := |m.upReqs| - 1;
    b' := LoseMany(session, b, m, k);
    assert m.upReqs[k..] == [m.upReqs[k]];
    ServerAccepts(Run(session, b'), head);
    b' := Extend(session, b', ServerTurn(Requests, false));
  }

  lemma AckTurn(n: Net, g: seq<byte>)
    requires Waiting(n, [g], 0, 1) && n.upAcks == [WireAck(n.client.session.channel, 0)]
    ensures var n' := Step(n, ClientTurn(Acks, false, false));
            && n'.server == n.server && n'.client.log.submitted == n.client.log.submitted
            && n'.client.log.done == n.client.log.done + [true]
  {
    var c := C.OnAck(n.client, n.upAcks[0].ack);
    assert c.inqueue == [];
    assert C.SendHead(c) == c;
  }

  /** Two frames submitted; the second is acknowledged, only the first is accepted. */
  lemma AcknowledgedNotAccepted(session: C.Session, l1: Emi.LData, l2: Emi.LData) returns (es: seq<Event>)
    requires Emi.Encodable(l1) && Emi.Encodable(l2)
    ensures var n := Run(session, es);
            && n.client.log.submitted == [Emi.ToCemi(Emi.DATA_REQ, l1), Emi.ToCemi(Emi.DATA_REQ, l2)]
            && n.client.log.done == [false, true]
            && n.server.log.accepted == [Emi.ToCemi(Emi.DATA_REQ, l1)]
  {
    var f, g := Emi.ToCemi(Emi.DATA_REQ, l1), Emi.ToCemi(Emi.DATA_REQ, l2);
    assert [l1, l2][..1] == [l1] && [l1][..0] == [];
    assert Frames([l1, l2]) == Frames([l1]) + [g] && Frames([l1]) == Frames([]) + [f];
    var b;
    es, b := StartTwins(session, [l1, l2]);
    es, b := GiveUp(session, es, b, f, [f, g], 0);
    assert [f, g][1..] == [g];
    AckTurn(Run(session, es), g);
    es := Extend(session, es, ClientTurn(Acks, false, false));
  }
}
