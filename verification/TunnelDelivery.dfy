/**
 * What the two layers above a tunnelling session get from each other, in frames: the theorems about cEMI bytes composed
 * with the codec.
 */
module TunnelDelivery {
  import opened Bytes
  import opened EibNetIp
  import opened TunnelLink
  import opened TunnelSystem
  import opened TunnelTheorems
  import opened TunnelTransport
  import opened TunnelWire
  import C = TunnelClient
  import Emi
  import S = TunnelServer

  ghost predicate AllEncodable(ls: seq<Emi.LData>) {
    forall l :: l in ls ==> Emi.Encodable(l)
  }

  ghost function Encoded(code: byte, ls: seq<Emi.LData>): (fs: seq<seq<byte>>)
    requires AllEncodable(ls)
    ensures |fs| == |ls| && forall k :: 0 <= k < |ls| ==> fs[k] == Emi.ToCemi(code, ls[k])
  {
    seq(|ls|, k requires 0 <= k < |ls| => Emi.ToCemi(code, ls[k]))
  }

  lemma EncodedAppend(code: byte, a: seq<Emi.LData>, b: seq<Emi.LData>)
    requires AllEncodable(a) && AllEncodable(b)
    ensures AllEncodable(a + b) && Encoded(code, a + b) == Encoded(code, a) + Encoded(code, b)
  {
  }

  /** What picks of encoded frames are the encodings of. */
  lemma EncodedPicks(code: byte, at: seq<nat>, fs: seq<seq<byte>>, whole: seq<Emi.LData>)
    returns (ls: seq<Emi.LData>)
    requires AllEncodable(whole) && PicksInOrder(at, fs, Encoded(code, whole))
    ensures PicksInOrder(at, ls, whole) && AllEncodable(ls) && fs == Encoded(code, ls)
  {
    ls := seq(|at|, k requires 0 <= k < |at| => whole[at[k]]);
  }

  /** Positions at which nothing is passed over. */
  lemma NothingPassedOver<T(!new)>(at: seq<nat>, part: seq<T>, whole: seq<T>)
    requires PicksInOrder(at, part, whole) && forall k :: 0 <= k < |at| ==> at[k] <= k
    ensures |part| <= |whole| && part == whole[..|part|]
  {
    InOrderBound(at, |whole|);
    forall k | 0 <= k < |at| ensures at[k] == k {
      InOrderBound(at[..k + 1], k + 1);
    }
  }

  lemma {:induction false} InOrderBound(at: seq<nat>, n: nat)
    requires (forall i, j :: 0 <= i < j < |at| ==> at[i] < at[j]) && forall k :: 0 <= k < |at| ==> at[k] < n
    ensures |at| <= n && (at != [] ==> |at| - 1 <= at[|at| - 1])
  {
    if at != [] {
      InOrderBound(at[..|at| - 1], at[|at| - 1]);
    }
  }

  // From the client's layer 3 to the server's.

  /** The frame that an event submits at the client. */
  function Submission(e: Event): (ls: seq<Emi.LData>)
    ensures forall l :: l in ls ==> Emi.Encodable(l)
  {
    if e.ClientSubmits? && Emi.Encodable(e.l) then [e.l] else []
  }

  function SubmittedBy(es: seq<Event>): (ls: seq<Emi.LData>)
    ensures forall l :: l in ls ==> Emi.Encodable(l)
  {
    if es == [] then [] else SubmittedBy(es[..|es| - 1]) + Submission(es[|es| - 1])
  }

  lemma StepSubmits(n: Net, e: Event)
    ensures Step(n, e).client.log.submitted == n.client.log.submitted + Encoded(Emi.DATA_REQ, Submission(e))
  {
    match e
    case ClientTurn(from, timer, timer1) => ClientSubmitted(n.client, ClientPacket(n, from), timer, timer1);
    case _ =>
  }

  lemma {:induction false} RunSubmits(session: C.Session, es: seq<Event>)
    ensures Run(session, es).client.log.submitted == Encoded(Emi.DATA_REQ, SubmittedBy(es))
  {
    if es != [] {
      RunSubmits(session, es[..|es| - 1]);
      StepSubmits(Run(session, es[..|es| - 1]), es[|es| - 1]);
      EncodedAppend(Emi.DATA_REQ, SubmittedBy(es[..|es| - 1]), Submission(es[|es| - 1]));
    }
  }

  /** What the server's layer 3 gets of such frames: those with hops left, one hop on, with normal and urgent priority
      exchanged and the repeat flag cleared. */
  function Onward(ls: seq<Emi.LData>): seq<Emi.LData> {
    if ls == [] then []
    else
      var l := ls[|ls| - 1];
      Onward(ls[..|ls| - 1])
      + if l.hopcount > 0
        then [l.(prio := Emi.Swap(l.prio), repeated := false, hopcount := l.hopcount - 1)]
        else []
  }

  lemma {:induction false} OnwardIsForwarded(ls: seq<Emi.LData>)
    requires AllEncodable(ls)
    ensures S.AllForLayer3(Encoded(Emi.DATA_REQ, ls)) == Onward(ls)
  {
    if ls != [] {
      var k := |ls| - 1;
      OnwardIsForwarded(ls[..k]);
      assert Encoded(Emi.DATA_REQ, ls)[..k] == Encoded(Emi.DATA_REQ, ls[..k]);
      Emi.RoundTrip(Emi.DATA_REQ, ls[k]);
    }
  }

  /** After any run, the server's layer 3 has got what frames submitted at the client carry, in order and none twice,
      at least all that are acknowledged and at most one more; if the client has given none up, the first ones. */
  lemma ServerLayer3(session: C.Session, es: seq<Event>) returns (at: seq<nat>, ls: seq<Emi.LData>)
    ensures var n := Run(session, es);
            && PicksInOrder(at, ls, SubmittedBy(es)) && n.server.forwarded == Onward(ls)
            && Acknowledged(n.client.log.done) <= |ls| <= Acknowledged(n.client.log.done) + 1
            && (GivenUp(n.client.log.done) == 0 ==> |ls| <= |SubmittedBy(es)| && ls == SubmittedBy(es)[..|ls|])
  {
    var n := Run(session, es);
    var u, d := RunGood(session, es);
    at := u.accepted;
    RelSafe(u, Up(n));
    RunSubmits(session, es);
    ls := EncodedPicks(Emi.DATA_REQ, at, n.server.log.accepted, SubmittedBy(es));
    OnwardIsForwarded(ls);
    if GivenUp(n.client.log.done) == 0 {
      NothingPassedOver(at, ls, SubmittedBy(es));
    }
  }

  // From the server's layer 3 to the client's.

  /** The frame that an event queues at the server, one hop on. */
  function Enqueuing(e: Event): (ls: seq<Emi.LData>)
    ensures |ls| <= 1
    ensures forall l :: l in ls ==> Emi.Encodable(l)
  {
    if e.ServerEnqueues? && Emi.Encodable(e.l) && e.l.hopcount > 0
    then [e.l.(hopcount := e.l.hopcount - 1)] else []
  }

  function EnqueuedBy(es: seq<Event>): (ls: seq<Emi.LData>)
    ensures forall l :: l in ls ==> Emi.Encodable(l)
  {
    if es == [] then [] else EnqueuedBy(es[..|es| - 1]) + Enqueuing(es[|es| - 1])
  }

  predicate IsIndication(f: seq<byte>) {
    f != [] && f[0] == Emi.DATA_IND
  }

  function IndicationsOf(fs: seq<seq<byte>>): seq<seq<byte>> {
    if fs == [] then []
    else
      var f := fs[|fs| - 1];
      IndicationsOf(fs[..|fs| - 1]) + if IsIndication(f) then [f] else []
  }

  lemma {:induction false} IndicationsAppend(a: seq<seq<byte>>, b: seq<seq<byte>>)
    ensures IndicationsOf(a + b) == IndicationsOf(a) + IndicationsOf(b)
  {
    if b == [] {
      assert a + b == a;
    } else {
      assert (a + b)[..|a + b| - 1] == a + b[..|b| - 1];
      IndicationsAppend(a, b[..|b| - 1]);
    }
  }

  /** The indications of picks are picks of the indications; with nothing passed over, the first ones. */
  lemma {:induction false} IndicationPicks(at: seq<nat>, part: seq<seq<byte>>, whole: seq<seq<byte>>)
    returns (at': seq<nat>)
    requires PicksInOrder(at, part, whole)
    ensures PicksInOrder(at', IndicationsOf(part), IndicationsOf(whole))
    decreases |at|
  {
    at' := [];
    if at != [] {
      var k := |at| - 1;
      var before, rest := whole[..at[k]], whole[at[k] + 1..];
      at' := IndicationPicks(at[..k], part[..k], before);
      assert whole == before + [whole[at[k]]] + rest;
      IndicationsAppend(before, [whole[at[k]]]);
      IndicationsAppend(before + [whole[at[k]]], rest);
      if IsIndication(part[k]) {
        at' := at' + [|IndicationsOf(before)|];
      }
    }
  }

  /** The server queues indications and confirmations. */
  ghost predicate AllQueued(fs: seq<seq<byte>>) {
    forall f :: f in fs ==> f != [] && (f[0] == Emi.DATA_IND || f[0] == Emi.DATA_CON)
  }

  lemma RequestQueues(s: S.ConnState, r: TunnelRequest)
    requires AllQueued(s.log.submitted)
    ensures AllQueued(S.OnRequest(s, r).log.submitted)
    ensures IndicationsOf(S.OnRequest(s, r).log.submitted) == IndicationsOf(s.log.submitted)
  {
    var f := S.Confirmation(r.cemi);
    if f.Some? {
      IndicationsAppend(s.log.submitted, [f.value]);
    }
    assert S.OnRequest(s, r).log.submitted == s.log.submitted
        || (f.Some? && S.OnRequest(s, r).log.submitted == s.log.submitted + [f.value]);
  }

  lemma ServerTurnQueues(s: S.ConnState, m: Option<Message>, expired: bool)
    requires AllQueued(s.log.submitted)
    ensures var fs := S.SendTurn(ServerReads(s, m), expired).log.submitted;
            AllQueued(fs) && IndicationsOf(fs) == IndicationsOf(s.log.submitted)
  {
    if m.Some? && m.value.Request? {
      RequestQueues(s, m.value.req);
    }
    assert S.SendTurn(ServerReads(s, m), expired).log.submitted == ServerReads(s, m).log.submitted;
  }

  /** The frames queued in an event, confirmations aside, are these. */
  ghost predicate Queues(fs: seq<seq<byte>>, fs': seq<seq<byte>>, ls: seq<Emi.LData>)
    requires AllEncodable(ls)
  {
    AllQueued(fs') && IndicationsOf(fs') == IndicationsOf(fs) + Encoded(Emi.DATA_IND, ls)
  }

  lemma QueuesNone(fs: seq<seq<byte>>, fs': seq<seq<byte>>)
    requires AllQueued(fs') && IndicationsOf(fs') == IndicationsOf(fs)
    ensures Queues(fs, fs', [])
  {
  }

  lemma QueuesOne(fs: seq<seq<byte>>, f: seq<byte>)
    requires AllQueued(fs) && IsIndication(f)
    ensures AllQueued(fs + [f]) && IndicationsOf(fs + [f]) == IndicationsOf(fs) + [f]
  {
    assert (fs + [f])[..|fs|] == fs;
  }

  lemma QueuesThese(fs: seq<seq<byte>>, ls: seq<Emi.LData>)
    requires AllQueued(fs) && AllEncodable(ls) && |ls| <= 1
    ensures Queues(fs, fs + Encoded(Emi.DATA_IND, ls), ls)
  {
    var more := Encoded(Emi.DATA_IND, ls);
    if ls == [] {
      assert fs + more == fs;
      QueuesNone(fs, fs);
    } else {
      var f := Emi.ToCemi(Emi.DATA_IND, ls[0]);
      assert more == [f];
      QueuesOne(fs, f);
    }
  }

  lemma StepQueues(n: Net, e: Event)
    requires AllQueued(n.server.log.submitted) && n.server.typ == 0
    ensures Queues(n.server.log.submitted, Step(n, e).server.log.submitted, Enqueuing(e))
  {
    var fs, fs' := n.server.log.submitted, Step(n, e).server.log.submitted;
    match e
    case ServerTurn(from, expired) =>
      ServerTurnLog(n, from, expired);
      ServerTurnQueues(n.server, ServerPacket(n, from), expired);
      QueuesNone(fs, fs');
    case _ =>
      OthersQueue(n, e);
      QueuesThese(fs, Enqueuing(e));
  }

  lemma ServerTurnLog(n: Net, from: Source, expired: bool)
    ensures Step(n, ServerTurn(from, expired)).server.log
         == S.SendTurn(ServerReads(n.server, ServerPacket(n, from)), expired).log
  {
  }

  lemma OthersQueue(n: Net, e: Event)
    requires !e.ServerTurn? && n.server.typ == 0
    ensures Step(n, e).server.log.submitted
         == n.server.log.submitted + Encoded(Emi.DATA_IND, Enqueuing(e))
  {
  }

  lemma TypeZero(session: C.Session, es: seq<Event>)
    ensures Run(session, es).server.typ == 0
  {
    var u, d := RunGood(session, es);
  }

  lemma {:induction false} RunQueues(session: C.Session, es: seq<Event>)
    ensures var fs := Run(session, es).server.log.submitted;
            AllQueued(fs) && IndicationsOf(fs) == Encoded(Emi.DATA_IND, EnqueuedBy(es))
  {
    if es != [] {
      var before := es[..|es| - 1];
      RunQueues(session, before);
      TypeZero(session, before);
      StepQueues(Run(session, before), es[|es| - 1]);
      EncodedAppend(Emi.DATA_IND, EnqueuedBy(before), Enqueuing(es[|es| - 1]));
    }
  }

  /** What the client's outqueue gets for an accepted frame. */
  function Shown(session: C.Session, f: seq<byte>): seq<C.Received> {
    if f == [] then []
    else if f[0] == Emi.BUSMON_IND then [C.Busmonitor(Emi.FromCemiBusmonitor(f))]
    else if f[0] == Emi.DATA_IND && Emi.FromCemi(f).Some? then C.Indicated(session, Emi.FromCemi(f).value)
    else []
  }

  function ShownAll(session: C.Session, fs: seq<seq<byte>>): seq<C.Received> {
    if fs == [] then [] else ShownAll(session, fs[..|fs| - 1]) + Shown(session, fs[|fs| - 1])
  }

  lemma {:induction false} ShownIndications(session: C.Session, fs: seq<seq<byte>>)
    requires AllQueued(fs)
    ensures ShownAll(session, fs) == ShownAll(session, IndicationsOf(fs))
  {
    if fs != [] {
      var k := |fs| - 1;
      forall f | f in fs[..k] ensures f in fs {
      }
      ShownIndications(session, fs[..k]);
      var before := IndicationsOf(fs[..k]);
      if IsIndication(fs[k]) {
        assert (before + [fs[k]])[..|before|] == before;
      } else {
        assert before + [] == before;
      }
    }
  }

  /** What it gets of one frame: in busmonitor mode a copy, otherwise the frame, for destination 0 if it is to the
      session's own address, after a copy for a virtual busmonitor. */
  function Arrives(session: C.Session, l: Emi.LData): seq<C.Received> {
    if session.busmonitor then [C.Copy(l)]
    else
      (if session.vmode then [C.Copy(l)] else [])
      + [C.Data(if !l.isGroup && l.dest == session.myaddr then l.(dest := 0) else l)]
  }

  /** What it gets of frames queued at the server: normal and urgent priority are exchanged, the repeat flag is kept. */
  function Arriving(session: C.Session, ls: seq<Emi.LData>): seq<C.Received> {
    if ls == [] then []
    else
      var l := ls[|ls| - 1];
      Arriving(session, ls[..|ls| - 1]) + Arrives(session, l.(prio := Emi.Swap(l.prio)))
  }

  lemma {:induction false} ArrivingIsShown(session: C.Session, ls: seq<Emi.LData>)
    requires AllEncodable(ls)
    ensures ShownAll(session, Encoded(Emi.DATA_IND, ls)) == Arriving(session, ls)
  {
    if ls != [] {
      var k := |ls| - 1;
      ArrivingIsShown(session, ls[..k]);
      assert Encoded(Emi.DATA_IND, ls)[..k] == Encoded(Emi.DATA_IND, ls[..k]);
      Emi.RoundTrip(Emi.DATA_IND, ls[k]);
    }
  }

  /** What it gets of the client's own frames. */
  function Looped(session: C.Session, ls: seq<Emi.LData>): seq<C.Received> {
    if ls == [] then []
    else
      var l := ls[|ls| - 1];
      Looped(session, ls[..|ls| - 1]) + ((if session.vmode then [C.Copy(l)] else []) + [C.Data(l)])
  }

  /** A packet is accepted and shown, or neither. */
  lemma MessageShown(c: C.Client, m: Message)
    ensures var c' := C.OnMessage(c, m);
            && c'.session == c.session
            && ((c'.log.accepted == c.log.accepted && c'.outqueue == c.outqueue)
                || (m.Request? && c'.log.accepted == c.log.accepted + [m.req.cemi]
                    && c'.outqueue == c.outqueue + Shown(c.session, m.req.cemi)))
  {
  }

  /** Nothing but a packet has to do with either. */
  lemma TurnShown(c: C.Client, m: Option<Message>, timer: bool, timer1: bool)
    ensures var c' := C.Iterate(c, m, timer, timer1);
            var c1 := if m.Some? then C.OnMessage(c, m.value) else c;
            c'.session == c1.session && c'.log.accepted == c1.log.accepted && c'.outqueue == c1.outqueue
  {
  }

  ghost predicate ClientMerges(c: C.Client, submitted: seq<Emi.LData>) {
    Merges(c.outqueue, Looped(c.session, submitted), ShownAll(c.session, c.log.accepted))
  }

  lemma ClientTurnMerges(c: C.Client, m: Option<Message>, timer: bool, timer1: bool, submitted: seq<Emi.LData>)
    requires ClientMerges(c, submitted)
    ensures var c' := C.Iterate(c, m, timer, timer1); ClientMerges(c', submitted) && c'.session == c.session
  {
    TurnShown(c, m, timer, timer1);
    if m.Some? {
      MessageShown(c, m.value);
      if C.OnMessage(c, m.value).log.accepted != c.log.accepted {
        var fs, f := c.log.accepted, m.value.req.cemi;
        assert (fs + [f])[..|fs|] == fs;
        MergeMore(c.outqueue, Looped(c.session, submitted), ShownAll(c.session, fs), Shown(c.session, f));
      }
    }
  }

  lemma SubmitMerges(c: C.Client, l: Emi.LData, submitted: seq<Emi.LData>)
    requires Emi.Encodable(l) && ClientMerges(c, submitted)
    ensures ClientMerges(C.Submit(c, l), submitted + [l])
  {
    var s := c.session;
    var more := C.VCopy(s, l) + [C.Data(l)];
    assert (submitted + [l])[..|submitted|] == submitted;
    assert c.outqueue + C.VCopy(s, l) + [C.Data(l)] == c.outqueue + more;
    MergeMore(c.outqueue, Looped(s, submitted), ShownAll(s, c.log.accepted), more);
  }

  lemma StepMerges(n: Net, e: Event, submitted: seq<Emi.LData>)
    requires ClientMerges(n.client, submitted)
    ensures ClientMerges(Step(n, e).client, submitted + Submission(e))
    ensures Step(n, e).client.session == n.client.session
  {
    assert submitted + [] == submitted;
    match e
    case ClientSubmits(l) => if Emi.Encodable(l) { SubmitMerges(n.client, l, submitted); }
    case ClientTurn(from, timer, timer1) =>
      ClientTurnMerges(n.client, ClientPacket(n, from), timer, timer1, submitted);
      SentAside(C.Iterate(n.client, ClientPacket(n, from), timer, timer1), Step(n, e).client, submitted);
    case _ => OthersMerge(n, e);
  }

  /** What has been passed to the socket has nothing to do with it. */
  lemma SentAside(c: C.Client, c': C.Client, submitted: seq<Emi.LData>)
    requires ClientMerges(c, submitted) && c' == c.(sent := c'.sent)
    ensures ClientMerges(c', submitted)
  {
  }

  lemma OthersMerge(n: Net, e: Event)
    requires !e.ClientSubmits? && !e.ClientTurn?
    ensures Step(n, e).client.(sent := []) == n.client.(sent := []) && Submission(e) == []
  {
  }

  lemma {:induction false} RunMerges(session: C.Session, es: seq<Event>)
    ensures ClientMerges(Run(session, es).client, SubmittedBy(es)) && Run(session, es).client.session == session
  {
    if es != [] {
      RunMerges(session, es[..|es| - 1]);
      StepMerges(Run(session, es[..|es| - 1]), es[|es| - 1], SubmittedBy(es[..|es| - 1]));
    }
  }

  /** The encoding as indications is injective, so a prefix of the encodings comes from a prefix. */
  lemma EncodedPrefix(ls: seq<Emi.LData>, whole: seq<Emi.LData>)
    requires AllEncodable(ls) && AllEncodable(whole)
    requires Encoded(Emi.DATA_IND, ls) <= Encoded(Emi.DATA_IND, whole)
    ensures |ls| <= |whole| && ls == whole[..|ls|]
  {
    forall k | 0 <= k < |ls| ensures ls[k] == whole[k] {
      assert Encoded(Emi.DATA_IND, ls)[k] == Encoded(Emi.DATA_IND, whole)[k];
      Emi.IndicationInjective(ls[k], whole[k]);
    }
  }

  /** Picks of queued frames show what picks of the indications show. */
  lemma PicksShown(session: C.Session, at: seq<nat>, part: seq<seq<byte>>, fs: seq<seq<byte>>, whole: seq<Emi.LData>)
    returns (at': seq<nat>, ls: seq<Emi.LData>)
    requires PicksInOrder(at, part, fs) && AllQueued(fs)
    requires AllEncodable(whole) && IndicationsOf(fs) == Encoded(Emi.DATA_IND, whole)
    ensures PicksInOrder(at', ls, whole) && AllEncodable(ls) && IndicationsOf(part) == Encoded(Emi.DATA_IND, ls)
    ensures ShownAll(session, part) == Arriving(session, ls)
  {
    at' := IndicationPicks(at, part, fs);
    ls := EncodedPicks(Emi.DATA_IND, at', IndicationsOf(part), whole);
    forall f | f in part ensures f in fs {
      var k :| 0 <= k < |part| && part[k] == f;
      assert part[k] == fs[at[k]];
    }
    ShownIndications(session, part);
    ArrivingIsShown(session, ls);
  }

  /** The first frames show the first frames. */
  lemma PrefixShown(part: seq<seq<byte>>, fs: seq<seq<byte>>, ls: seq<Emi.LData>, whole: seq<Emi.LData>)
    requires part <= fs && AllEncodable(ls) && AllEncodable(whole)
    requires IndicationsOf(part) == Encoded(Emi.DATA_IND, ls) && IndicationsOf(fs) == Encoded(Emi.DATA_IND, whole)
    ensures |ls| <= |whole| && ls == whole[..|ls|]
  {
    assert fs == part + fs[|part|..];
    IndicationsAppend(part, fs[|part|..]);
    EncodedPrefix(ls, whole);
  }

  /** After any run, what the client's outqueue has got is its own frames looped back, merged with frames queued at the
      server, in order and none twice: those that the accepted indications carry, of which none is passed over if the
      server has given none up. */
  lemma ClientLayer3(session: C.Session, es: seq<Event>) returns (at: seq<nat>, ls: seq<Emi.LData>)
    ensures var n := Run(session, es);
            && PicksInOrder(at, ls, EnqueuedBy(es)) && AllEncodable(ls)
            && IndicationsOf(n.client.log.accepted) == Encoded(Emi.DATA_IND, ls)
            && Merges(n.client.outqueue, Looped(session, SubmittedBy(es)), Arriving(session, ls))
            && (GivenUp(n.server.log.done) == 0 ==> |ls| <= |EnqueuedBy(es)| && ls == EnqueuedBy(es)[..|ls|])
  {
    var n := Run(session, es);
    var u, d := RunGood(session, es);
    RunQueues(session, es);
    RunMerges(session, es);
    RelSafe(d, Down(n));
    at, ls := PicksShown(session, d.accepted, n.client.log.accepted, n.server.log.submitted, EnqueuedBy(es));
    if GivenUp(n.server.log.done) == 0 {
      AgreementOnWire(d, Down(n));
      PrefixShown(n.client.log.accepted, n.server.log.submitted, ls, EnqueuedBy(es));
    }
  }
}
