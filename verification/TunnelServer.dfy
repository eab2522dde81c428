/**
 * The server end of KNXnet/IP tunnels (eibd/libserver/eibnetserver.cpp): `ConnState` is one connection as a
 * value with its step functions, `EIBnetServer` the class that keeps an array of them.
 */
module TunnelServer {
  import opened Bytes
  import opened EibNetIp
  import Emi

  /**
   * state: 0 idle, otherwise the number of times the head of `out` has been sent under `sno`; outsignal: the
   * semaphore of the queue; forwarded: the frames passed to layer 3 for this connection; sent: what has been passed
   * to the socket for it.
   */
  datatype ConnState = ConnState(
    channel: byte, typ: int, state: int, sno: byte, rno: byte,
    out: seq<seq<byte>>, outsignal: int, forwarded: seq<Emi.LData>, sent: seq<Message>, log: History)
  {
    function Send(m: Message): ConnState {
      this.(sent := sent + [m])
    }

    function Put(f: seq<byte>): ConnState {
      this.(out := out + [f], outsignal := outsignal + 1, log := log.(submitted := log.submitted + [f]))
    }

    /** The head leaves the queue, and the connection is idle. */
    function Get(acked: bool): ConnState
      requires out != []
    {
      this.(out := out[1..], outsignal := outsignal - 1, state := 0,
            log := log.(done := log.done + [acked], tries := 0))
    }
  }

  function NewConnection(channel: byte, typ: int): ConnState {
    ConnState(channel, typ, 0, 0, 0, [], 0, [], [], NO_HISTORY)
  }

  ghost predicate Ok(s: ConnState) {
    && 0 <= s.state <= 10
    // the semaphore counts the queue
    && s.outsignal == |s.out|
    && Conserved(s.log, s.out)
    // the head of the queue is what was last sent, under the current number
    && (s.state > 0 ==> s.out != [] && s.log.last == Some(TunnelRequest(s.channel, s.sno, s.out[0])))
    && s.log.tries == s.state
    // layer 3 is given what the accepted requests carry, in order
    && (s.typ == 0 ==> s.forwarded == AllForLayer3(s.log.accepted))
  }

  /** The frame that layer 3 is given for an accepted request, one hop on. */
  function ForLayer3(cemi: seq<byte>): Option<Emi.LData> {
    var c := Emi.FromCemi(cemi);
    if c.Some? && c.value.hopcount > 0 && (cemi[0] == Emi.DATA_REQ || cemi[0] == Emi.DATA_IND)
    then Some(c.value.(hopcount := c.value.hopcount - 1))
    else None
  }

  function AllForLayer3(cemis: seq<seq<byte>>): seq<Emi.LData> {
    if cemis == [] then []
    else
      var l := ForLayer3(cemis[|cemis| - 1]);
      AllForLayer3(cemis[..|cemis| - 1]) + if l.Some? then [l.value] else []
  }

  /** The confirmation that the server queues for an accepted request, when the encoder takes the frame. */
  function Confirmation(cemi: seq<byte>): Option<seq<byte>> {
    var l := ForLayer3(cemi);
    if l.Some? && cemi[0] == Emi.DATA_REQ && Emi.Encodable(l.value)
    then Some(Emi.ToCemi(Emi.DATA_CON, l.value))
    else None
  }

  /** The effect of a request with the expected number on a connection of type 0. */
  function Deliver(s: ConnState, cemi: seq<byte>): ConnState {
    var s1 := if Confirmation(cemi).Some? then s.Put(Confirmation(cemi).value) else s;
    if ForLayer3(cemi).Some? then s1.(forwarded := s1.forwarded + [ForLayer3(cemi).value]) else s1
  }

  function OnRequest(s: ConnState, r: TunnelRequest): ConnState {
    if s.rno == (r.seqno + 1) % 256 then s.Send(Ack(TunnelAck(r.channel, r.seqno, 0)))
    else if s.rno != r.seqno then s
    else
      var status := if s.typ == 0 && Emi.FromCemi(r.cemi).Some? then 0 else 0x29;
      var s1 := if s.typ == 0 then Deliver(s, r.cemi) else s;
      s1.(rno := if s.rno + 1 > 0xff then 0 else s.rno + 1,
          log := s1.log.(accepted := s1.log.accepted + [r.cemi])).Send(Ack(TunnelAck(r.channel, r.seqno, status)))
  }

  /** A new request with a frame that the decoder takes and the encoder of the confirmation does not. */
  predicate Aborts(s: ConnState, r: TunnelRequest) {
    var l := ForLayer3(r.cemi);
    s.rno == r.seqno && s.typ == 0 && l.Some? && r.cemi[0] == Emi.DATA_REQ && !Emi.Encodable(l.value)
  }

  /** An acknowledgement that releases the head of the queue. */
  predicate Releases(s: ConnState, a: TunnelAck) {
    s.sno == a.seqno && a.status == 0 && s.state != 0 && s.out != [] && (s.typ == 0 || s.typ == 1)
  }

  function OnAck(s: ConnState, a: TunnelAck): ConnState {
    if !Releases(s, a) then s
    else
      s.(sno := if s.sno + 1 > 0xff then 0 else s.sno + 1).Get(true)
  }

  /** One visit of the send loop: the first transmission of a new head, or after the timer another one, or the
      tenth time the head is given up. */
  function SendTurn(s: ConnState, expired: bool): ConnState {
    if s.out == [] || (s.state != 0 && !expired) then s
    else if s.state + 1 > 10 then
      s.Get(false)
    else
      var r := TunnelRequest(s.channel, s.sno, s.out[0]);
      s.(state := s.state + 1, log := s.log.(tries := s.log.tries + 1, last := Some(r)))
       .Send(if s.typ == 2 then ConfigRequest(r) else Request(r))
  }

  /** A frame that arrives at a tunnel under the expected number, as either kind of cEMI frame that a client sends: with
      hops left, layer 3 gets it one hop on, and for a request the client gets a confirmation, which shows it its own
      frame, one hop on, with the priority it was submitted with. */
  lemma Confirms(s: ConnState, seqno: byte, code: byte, l: Emi.LData)
    requires s.typ == 0 && s.rno == seqno && Emi.Encodable(l) && (code == 0x11 || code == 0x29)
    ensures var t := OnRequest(s, TunnelRequest(s.channel, seqno, Emi.ToCemi(code, l)));
            && t.sent == s.sent + [Ack(TunnelAck(s.channel, seqno, 0))] && t.rno == (s.rno + 1) % 256
            && t.forwarded == s.forwarded
                              + (if l.hopcount == 0 then []
                                 else [l.(prio := Emi.Swap(l.prio), repeated := code == 0x29 && l.repeated,
                                          hopcount := l.hopcount - 1)])
            && (if code == 0x11 && l.hopcount > 0
                then |t.out| == |s.out| + 1 && t.out[..|s.out|] == s.out && t.out[|s.out|] != []
                     && t.out[|s.out|][0] == 0x2E
                     && Emi.FromCemi(t.out[|s.out|]) == Some(l.(repeated := false, hopcount := l.hopcount - 1))
                else t.out == s.out)
  {
    ForwardedFrame(code, l);
    if l.hopcount > 0 {
      ConfirmedFrame(code, l);
    }
  }

  function OneHopOn(code: byte, l: Emi.LData): Emi.LData
    requires l.hopcount > 0
  {
    l.(prio := Emi.Swap(l.prio), repeated := code == 0x29 && l.repeated, hopcount := l.hopcount - 1)
  }

  lemma ForwardedFrame(code: byte, l: Emi.LData)
    requires Emi.Encodable(l) && (code == 0x11 || code == 0x29)
    ensures var f := Emi.ToCemi(code, l);
            && Emi.FromCemi(f).Some?
            && ForLayer3(f) == if l.hopcount == 0 then None else Some(OneHopOn(code, l))
  {
    Emi.RoundTrip(code, l);
  }

  lemma ConfirmedFrame(code: byte, l: Emi.LData)
    requires Emi.Encodable(l) && (code == 0x11 || code == 0x29) && l.hopcount > 0
    ensures var f := Confirmation(Emi.ToCemi(code, l));
            if code != 0x11 then f.None?
            else f.Some? && f.value != [] && f.value[0] == 0x2E
                 && Emi.FromCemi(f.value) == Some(l.(repeated := false, hopcount := l.hopcount - 1))
  {
    ForwardedFrame(code, l);
    Emi.RoundTrip(0x2E, OneHopOn(code, l));
    Emi.SwapInvolution(l.prio);
  }

  /** What a tunnel does with any other number, and with the last one again: the acknowledgement is repeated, and
      nothing else happens. */
  lemma OtherNumbers(s: ConnState, r: TunnelRequest)
    requires r.seqno != s.rno
    ensures OnRequest(s, r)
         == if (r.seqno + 1) % 256 == s.rno then s.(sent := s.sent + [Ack(TunnelAck(r.channel, r.seqno, 0))]) else s
  {
  }

  /** A frame that cannot be decoded, or on a channel that takes none, is answered with an error but counted. */
  lemma Refused(s: ConnState, r: TunnelRequest)
    requires r.seqno == s.rno && (s.typ != 0 || Emi.FromCemi(r.cemi).None?)
    ensures var t := OnRequest(s, r);
            && t.sent == s.sent + [Ack(TunnelAck(r.channel, r.seqno, 0x29))] && t.rno == (s.rno + 1) % 256
            && t.out == s.out && t.forwarded == s.forwarded
  {
  }

  // The repetition of an unacknowledged request.

  /** Visits of the send loop, the send timer having run out before each or not. */
  function Visits(s: ConnState, expired: seq<bool>): ConnState {
    if expired == [] then s
    else SendTurn(Visits(s, expired[..|expired| - 1]), expired[|expired| - 1])
  }

  /** What goes to the socket for the head of the queue. */
  function HeadRequest(s: ConnState): Message
    requires s.out != []
  {
    var r := TunnelRequest(s.channel, s.sno, s.out[0]);
    if s.typ == 2 then ConfigRequest(r) else Request(r)
  }

  /** From s on, the head has been sent n times under its number, and nothing else has happened. */
  predicate SentTimes(s: ConnState, t: ConnState, n: nat)
    requires s.out != []
  {
    && t.state == n && t.sent == s.sent + Copies([HeadRequest(s)], n)
    && t.out == s.out && t.sno == s.sno && t.channel == s.channel && t.typ == s.typ && t.log.done == s.log.done
  }

  lemma {:induction false} Repeats(s: ConnState, first: bool, expired: seq<bool>)
    requires s.state == 0 && s.out != [] && Set(expired) <= 9
    ensures SentTimes(s, Visits(SendTurn(s, first), expired), Set(expired) + 1)
  {
    var m := HeadRequest(s);
    if expired == [] {
      assert Copies([m], 1) == [m] + [] == [m];
    } else {
      var k := |expired| - 1;
      Repeats(s, first, expired[..k]);
      CopiesNext([m], Set(expired[..k]) + 1);
    }
  }

  /** With no acknowledgement: the head is sent at the first visit and again at each one after the timer has run out,
      ten times in all and always with the same number and bytes, and stays in the queue; the next such visit sends
      nothing and gives up that frame and no other. An acknowledgement in between releases it. */
  lemma Retransmission(s: ConnState, first: bool, expired: seq<bool>)
    requires s.state == 0 && s.out != [] && Set(expired) <= 9
    ensures var r := TunnelRequest(s.channel, s.sno, s.out[0]);
            var t := Visits(SendTurn(s, first), expired);
            && t.sent == s.sent + Copies([if s.typ == 2 then ConfigRequest(r) else Request(r)], Set(expired) + 1)
            && t.out == s.out && t.sno == s.sno && t.log.done == s.log.done
    ensures var t := Visits(SendTurn(s, first), expired);
            Set(expired) == 9 ==>
              var t' := SendTurn(t, true);
              && t'.sent == t.sent && t'.out == s.out[1..] && t'.sno == s.sno && t'.state == 0
              && t'.log.done == s.log.done + [false]
    ensures var t := Visits(SendTurn(s, first), expired);
            s.typ == 0 || s.typ == 1 ==>
              var t' := OnAck(t, TunnelAck(s.channel, s.sno, 0));
              && t'.sent == t.sent && t'.out == s.out[1..] && t'.sno == (s.sno + 1) % 256 && t'.state == 0
              && t'.log.done == s.log.done + [true]
    ensures forall a: TunnelAck :: a.seqno != s.sno || a.status != 0 ==>
              OnAck(Visits(SendTurn(s, first), expired), a) == Visits(SendTurn(s, first), expired)
  {
    Repeats(s, first, expired);
  }

  /** Get_L_Data for a connection of type 0: the frame is queued as an indication, one hop on. */
  function Enqueue(s: ConnState, l: Emi.LData): ConnState
    requires Emi.Encodable(l) && l.hopcount > 0
  {
    if s.typ == 0 then s.Put(Emi.ToCemi(Emi.DATA_IND, l.(hopcount := l.hopcount - 1))) else s
  }

  lemma NewConnectionOk(channel: byte, typ: int)
    ensures Ok(NewConnection(channel, typ))
  {
  }

  lemma RequestKeepsOk(s: ConnState, r: TunnelRequest)
    requires Ok(s)
    ensures Ok(OnRequest(s, r)) && OnRequest(s, r).channel == s.channel
  {
    assert (s.log.accepted + [r.cemi])[..|s.log.accepted|] == s.log.accepted;
  }

  lemma StepsKeepOk(s: ConnState, a: TunnelAck, expired: bool)
    requires Ok(s)
    ensures Ok(OnAck(s, a)) && Ok(SendTurn(s, expired))
    ensures OnAck(s, a).channel == SendTurn(s, expired).channel == s.channel
  {
  }

  /** What reading a request does to the parts of the connection that the exchange shows. */
  ghost predicate Reads(s: ConnState, s': ConnState, r: TunnelRequest) {
    var sent' := s.sent + [Ack(TunnelAck(r.channel, r.seqno, 0))];
    && s'.channel == s.channel && s'.typ == s.typ && s'.sno == s.sno && s'.log.done == s.log.done
    && (s'.log.submitted == s.log.submitted || exists f :: s'.log.submitted == s.log.submitted + [f])
    && ((r.seqno + 1) % 256 == s.rno ==>
          s'.sent == sent' && s'.rno == s.rno && s'.log.accepted == s.log.accepted)
    && (r.seqno == s.rno ==>
          && s'.sent == sent' && s'.rno == (if s.rno + 1 > 0xff then 0 else s.rno + 1)
          && s'.log.accepted == s.log.accepted + [r.cemi])
  }

  lemma RequestEffect(s: ConnState, r: TunnelRequest)
    requires s.typ == 0 && Emi.FromCemi(r.cemi).Some? && Ok(s)
    ensures Reads(s, OnRequest(s, r), r)
  {
    if Confirmation(r.cemi).Some? {
      assert s.Put(Confirmation(r.cemi).value).log.submitted == s.log.submitted + [Confirmation(r.cemi).value];
    }
  }

  lemma EnqueueKeepsOk(s: ConnState, l: Emi.LData)
    requires Ok(s) && Emi.Encodable(l) && l.hopcount > 0
    ensures Ok(Enqueue(s, l)) && Enqueue(s, l).channel == s.channel
  {
  }

  // Routing.

  /** An individual address behind this server that has talked to another one. */
  datatype NatEntry = NatEntry(src: word, dest: word)

  function ToEntry(l: Emi.LData, n: NatEntry): seq<Emi.LData> {
    if n.dest == l.source then [l.(dest := n.src)] else []
  }

  /** A copy of the frame for each entry of its sender. */
  function Translated(nats: seq<NatEntry>, l: Emi.LData): seq<Emi.LData> {
    if nats == [] then [] else Translated(nats[..|nats| - 1], l) + ToEntry(l, nats[|nats| - 1])
  }

  /** What is routed: a frame to the server's own address goes to everyone that its sender has talked to, if there is
      such a one. */
  function Routed(nats: seq<NatEntry>, l: Emi.LData): seq<Emi.LData> {
    if l.isGroup || l.dest != 0 || Translated(nats, l) == [] then [l] else Translated(nats, l)
  }

  /** With distinct entries, no copy is routed twice, and exactly the ones for the sender's entries are. */
  lemma {:induction false} TranslatedExactly(nats: seq<NatEntry>, l: Emi.LData, x: Emi.LData)
    requires forall i, j :: 0 <= i < j < |nats| ==> nats[i] != nats[j]
    ensures multiset(Translated(nats, l))[x]
         == if x == l.(dest := x.dest) && NatEntry(x.dest, l.source) in nats then 1 else 0
  {
    if nats != [] {
      var k := |nats| - 1;
      var before, e := nats[..k], NatEntry(x.dest, l.source);
      TranslatedExactly(before, l, x);
      assert nats[k] !in before;
      assert e in nats <==> e in before || e == nats[k];
      assert multiset(ToEntry(l, nats[k]))[x] == if x == l.(dest := x.dest) && e == nats[k] then 1 else 0;
    }
  }

  /** A frame to the server's own address whose sender has talked to someone goes to each of those, and any other
      frame as it is, once. */
  lemma RoutedExactly(nats: seq<NatEntry>, l: Emi.LData, x: Emi.LData)
    requires forall i, j :: 0 <= i < j < |nats| ==> nats[i] != nats[j]
    ensures multiset(Routed(nats, l))[x]
         == if !l.isGroup && l.dest == 0 && (exists n :: n in nats && n.dest == l.source)
            then if x == l.(dest := x.dest) && NatEntry(x.dest, l.source) in nats then 1 else 0
            else if x == l then 1 else 0
  {
    TranslatedExactly(nats, l, x);
    SomeTranslated(nats, l);
  }

  lemma {:induction false} SomeTranslated(nats: seq<NatEntry>, l: Emi.LData)
    ensures Translated(nats, l) != [] <==> exists n :: n in nats && n.dest == l.source
  {
    if nats != [] {
      var k := |nats| - 1;
      SomeTranslated(nats[..k], l);
      assert nats == nats[..k] + [nats[k]];
    }
  }

  lemma {:induction false} RoutedEncodable(nats: seq<NatEntry>, l: Emi.LData)
    requires Emi.Encodable(l)
    ensures forall x :: x in Translated(nats, l) ==> Emi.Encodable(x)
    ensures forall x :: x in Routed(nats, l) ==> Emi.Encodable(x)
  {
    if nats != [] {
      RoutedEncodable(nats[..|nats| - 1], l);
    }
  }

  ghost predicate InUse(conns: seq<ConnState>, channel: int) {
    exists i :: 0 <= i < |conns| && conns[i].channel == channel
  }

  function Channels(conns: seq<ConnState>): (cs: set<int>)
    ensures |cs| <= |conns|
    ensures forall k :: k in cs <==> InUse(conns, k)
  {
    if conns == [] then {}
    else
      var cs := Channels(conns[1..]);
      assert forall k :: InUse(conns, k) <==> k == conns[0].channel || InUse(conns[1..], k) by {
        forall k | InUse(conns[1..], k) ensures InUse(conns, k) {
          var i :| 0 <= i < |conns[1..]| && conns[1..][i].channel == k;
          assert conns[i + 1].channel == k;
        }
        forall k | InUse(conns, k) && k != conns[0].channel ensures InUse(conns[1..], k) {
          var i :| 0 <= i < |conns| && conns[i].channel == k;
          assert conns[1..][i - 1].channel == k;
        }
      }
      cs + {conns[0].channel as int}
  }

  /** n - 1 different numbers in use need n - 1 connections, so 255 connections exhaust the byte and no fewer. */
  lemma LeastUnusedBound(conns: seq<ConnState>, n: int)
    requires n >= 1 && forall k :: 1 <= k < n ==> InUse(conns, k)
    ensures n <= |conns| + 1
  {
    assert Channels(conns) == Below(n) + (Channels(conns) - Below(n));
  }

  function Below(n: int): (b: set<int>)
    requires n >= 1
    ensures |b| == n - 1 && forall k :: k in b <==> 1 <= k < n
  {
    if n == 1 then {} else Below(n - 1) + {n - 1}
  }

  lemma WithoutChannel(conns: seq<ConnState>, i: nat)
    requires i < |conns| && forall j, k :: 0 <= j < k < |conns| ==> conns[j].channel != conns[k].channel
    ensures forall c :: c in Without(conns, i) <==> c in conns && c.channel != conns[i].channel
  {
    var rest := Without(conns, i);
    forall c | c in conns && c.channel != conns[i].channel ensures c in rest {
      var j :| 0 <= j < |conns| && conns[j] == c;
      assert rest[if j < i then j else j - 1] == c;
    }
  }

  class EIBnetServer {
    const route: bool
    var state: seq<ConnState>
    var natstate: seq<NatEntry>
    /** the frames sent as routing indications */
    var routed: seq<Emi.LData>

    /** Connections are well formed and their channels are distinct and not 0, and so are the entries distinct. */
    ghost predicate Valid()
      reads this
    {
      && (forall i :: 0 <= i < |state| ==> Ok(state[i]) && state[i].channel != 0)
      && (forall i, j :: 0 <= i < j < |state| ==> state[i].channel != state[j].channel)
      && (forall i, j :: 0 <= i < j < |natstate| ==> natstate[i] != natstate[j])
    }

    constructor (route: bool)
      ensures Valid() && state == [] && natstate == [] && routed == [] && this.route == route
    {
      this.route := route;
      state, natstate, routed := [], [], [];
    }

    /** addNAT */
    method AddNat(l: Emi.LData)
      requires Valid()
      modifies this`natstate
      ensures Valid()
      ensures forall n :: n in natstate <==> n in old(natstate) || (!l.isGroup && n == NatEntry(l.source, l.dest))
    {
      if l.isGroup {
        return;
      }
      var i := 0;
      while i < |natstate|
        invariant 0 <= i <= |natstate|
        invariant forall j :: 0 <= j < i ==> natstate[j] != NatEntry(l.source, l.dest)
      {
        if natstate[i].src == l.source && natstate[i].dest == l.dest {
          return;
        }
        i := i + 1;
      }
      natstate := natstate + [NatEntry(l.source, l.dest)];
    }

    /** The routing of Get_L_Data; the destination is changed in the frame for each entry, and changed back. */
    method Route(l: Emi.LData)
      requires Emi.Encodable(l)
      modifies this`routed
      ensures routed == old(routed) + Routed(natstate, l)
      ensures forall x :: x in Routed(natstate, l) ==> Emi.Encodable(x)
    {
      RoutedEncodable(natstate, l);
      if l.dest == 0 && !l.isGroup {
        var cnt := RouteTranslated(l);
        if cnt != 0 {
          return;
        }
      }
      routed := routed + [l];
    }

    method RouteTranslated(l: Emi.LData) returns (cnt: nat)
      modifies this`routed
      ensures routed == old(routed) + Translated(natstate, l) && cnt == |Translated(natstate, l)|
    {
      var i := 0;
      cnt := 0;
      while i < |natstate|
        invariant 0 <= i <= |natstate| && cnt == |Translated(natstate[..i], l)|
        invariant routed == old(routed) + Translated(natstate[..i], l)
      {
        assert natstate[..i + 1][..i] == natstate[..i];
        if natstate[i].dest == l.source {
          routed := routed + [l.(dest := natstate[i].src)];
          cnt := cnt + 1;
        }
        i := i + 1;
      }
      assert natstate[..i] == natstate;
    }

    /** addClient: the least number not in use, if a byte holds it, becomes a new connection. */
    method AddClient(typ: int) returns (id: int)
      requires Valid()
      modifies this`state
      ensures Valid()
      ensures id >= 1 && !InUse(old(state), id)
      ensures forall k :: 1 <= k < id ==> InUse(old(state), k)
      ensures id <= |old(state)| + 1
      ensures state == if id <= 0xff then old(state) + [NewConnection(id, typ)] else old(state)
    {
      id := 1;
      var i := 0;
      ghost var used := set j | 0 <= j < |state| :: state[j].channel as int;
      while i < |state|
        invariant 0 <= i <= |state| && id >= 1 && state == old(state)
        invariant forall k :: 1 <= k < id ==> InUse(state, k)
        invariant forall j :: 0 <= j < i ==> state[j].channel != id
        decreases (set c | c in used && c >= id), |state| - i
      {
        if state[i].channel == id {
          ghost var before := set c | c in used && c >= id;
          assert id in before;
          assert InUse(state, id);
          id := id + 1;
          i := 0;
        } else {
          i := i + 1;
        }
      }
      LeastUnusedBound(state, id);
      if id <= 0xff {
        state := state + [NewConnection(id, typ)];
      }
    }

    /** The search for a channel that every service starts with. */
    method Find(channel: byte) returns (i: nat)
      ensures i <= |state|
      ensures i < |state| ==> state[i].channel == channel
      ensures i == |state| ==> forall j :: 0 <= j < |state| ==> state[j].channel != channel
    {
      i := 0;
      while i < |state|
        invariant i <= |state|
        invariant forall j :: 0 <= j < i ==> state[j].channel != channel
      {
        if state[i].channel == channel {
          return;
        }
        i := i + 1;
      }
    }

    /** DISCONNECT_REQUEST: only the connection with that channel goes. */
    method Disconnect(channel: byte) returns (res: byte)
      requires Valid()
      modifies this`state
      ensures Valid()
      ensures res == if exists i :: 0 <= i < |old(state)| && old(state)[i].channel == channel then 0 else 0x21
      ensures forall c :: c in state <==> c in old(state) && c.channel != channel
    {
      var i := Find(channel);
      if i == |state| {
        return 0x21;
      }
      WithoutChannel(state, i);
      state := Without(state, i);
      return 0;
    }

    /** Get_L_Data: a frame from layer 3 that has hops left and is not our own goes on by one hop: it is routed if the
        server does that, and queued for every connection of type 0. */
    method GetLData(l: Emi.LData, own: bool)
      requires Valid() && Emi.Encodable(l)
      modifies this`state, this`routed
      ensures Valid()
      ensures |state| == |old(state)|
      ensures forall i :: 0 <= i < |state| ==>
                state[i] == if own || l.hopcount == 0 then old(state)[i] else Enqueue(old(state)[i], l)
      ensures routed == old(routed) + if own || l.hopcount == 0 || !route then []
                                      else Routed(natstate, l.(hopcount := l.hopcount - 1))
    {
      if l.hopcount == 0 || own {
        return;
      }
      if route {
        Route(l.(hopcount := l.hopcount - 1));
      }
      QueueAll(l);
    }

    /** The frame, one hop on, for every connection of type 0. */
    method QueueAll(l: Emi.LData)
      requires Valid() && Emi.Encodable(l) && l.hopcount > 0
      modifies this`state
      ensures Valid()
      ensures |state| == |old(state)|
      ensures forall i :: 0 <= i < |state| ==> state[i] == Enqueue(old(state)[i], l)
    {
      var i := 0;
      while i < |state|
        invariant 0 <= i <= |state| == |old(state)|
        invariant forall j :: 0 <= j < i ==> state[j] == Enqueue(old(state)[j], l)
        invariant forall j :: i <= j < |state| ==> state[j] == old(state)[j]
        invariant Valid()
      {
        EnqueueKeepsOk(state[i], l);
        var s := Queue(state[i], l);
        state := state[i := s];
        i := i + 1;
      }
    }

    static method Queue(s: ConnState, l: Emi.LData) returns (s': ConnState)
      requires Emi.Encodable(l) && l.hopcount > 0
      ensures s' == Enqueue(s, l)
    {
      s' := s;
      if s.typ == 0 {
        s' := s.Put(Emi.ToCemi(Emi.DATA_IND, l.(hopcount := l.hopcount - 1)));
      }
    }

    /** TUNNEL_REQUEST; false stands for the failed assertion of the confirmation encoder, which ends the program. */
    method ReceiveRequest(r: TunnelRequest) returns (ok: bool)
      requires Valid()
      modifies this`state
      ensures Valid()
      ensures ok <==> forall i :: 0 <= i < |old(state)| && old(state)[i].channel == r.channel ==>
                        !Aborts(old(state)[i], r)
      ensures |state| == |old(state)|
      ensures ok ==> forall i :: 0 <= i < |state| ==>
                state[i] == if old(state)[i].channel == r.channel then OnRequest(old(state)[i], r) else old(state)[i]
      ensures !ok ==> state == old(state)
    {
      var i := Find(r.channel);
      if i == |state| {
        return true;
      }
      var s;
      ok, s := Answer(state[i], r);
      if ok {
        RequestKeepsOk(state[i], r);
        state := state[i := s];
      }
    }

    static method Answer(s: ConnState, r: TunnelRequest) returns (ok: bool, s': ConnState)
      ensures ok <==> !Aborts(s, r)
      ensures ok ==> s' == OnRequest(s, r)
    {
      if s.rno == (r.seqno + 1) % 256 {
        return true, s.Send(Ack(TunnelAck(r.channel, r.seqno, 0)));
      }
      if s.rno != r.seqno {
        return true, s;
      }
      var status;
      ok, status, s' := Accept(s, r);
      if ok {
        s' := s'.(rno := if s.rno + 1 > 0xff then 0 else s.rno + 1,
                  log := s'.log.(accepted := s'.log.accepted + [r.cemi]));
        s' := s'.Send(Ack(TunnelAck(r.channel, r.seqno, status)));
      }
    }

    /** What the server does with the frame of a request with the expected number. */
    static method Accept(s: ConnState, r: TunnelRequest) returns (ok: bool, status: byte, s': ConnState)
      requires s.rno == r.seqno
      ensures ok <==> !Aborts(s, r)
      ensures ok ==> s' == if s.typ == 0 then Deliver(s, r.cemi) else s
      ensures ok ==> status == if s.typ == 0 && Emi.FromCemi(r.cemi).Some? then 0 else 0x29
    {
      status, s' := 0x29, s;
      if s.typ == 0 {
        var c := Emi.FromCemi(r.cemi);
        if c.Some? {
          status := 0;
          if c.value.hopcount > 0 {
            var l := c.value.(hopcount := c.value.hopcount - 1);
            if r.cemi[0] == Emi.DATA_REQ {
              if !Emi.Encodable(l) {
                return false, status, s';
              }
              s' := s'.Put(Emi.ToCemi(Emi.DATA_CON, l));
            }
            if r.cemi[0] == Emi.DATA_REQ || r.cemi[0] == Emi.DATA_IND {
              s' := s'.(forwarded := s'.forwarded + [l]);
            }
          }
        }
      }
      return true, status, s';
    }

    /** TUNNEL_RESPONSE */
    method ReceiveAck(a: TunnelAck)
      requires Valid()
      modifies this`state
      ensures Valid()
      ensures |state| == |old(state)|
      ensures forall i :: 0 <= i < |state| ==>
                state[i] == if old(state)[i].channel == a.channel then OnAck(old(state)[i], a) else old(state)[i]
    {
      var i := Find(a.channel);
      if i == |state| {
        return;
      }
      var s := state[i];
      StepsKeepOk(s, a, false);
      if s.sno != a.seqno || a.status != 0 || s.state == 0 || (s.typ != 0 && s.typ != 1) {
        return;
      }
      s := s.(sno := if s.sno + 1 > 0xff then 0 else s.sno + 1).Get(true);
      state := state[i := s];
    }

    /** The send loop at the end of each turn; `expired` holds the channels whose send timer has run out. */
    method SendLoop(expired: set<byte>)
      requires Valid()
      modifies this`state
      ensures Valid()
      ensures |state| == |old(state)|
      ensures forall i :: 0 <= i < |state| ==> state[i] == SendTurn(old(state)[i], old(state)[i].channel in expired)
    {
      var i := 0;
      while i < |state|
        invariant 0 <= i <= |state| == |old(state)|
        invariant forall j :: 0 <= j < i ==> state[j] == SendTurn(old(state)[j], old(state)[j].channel in expired)
        invariant forall j :: i <= j < |state| ==> state[j] == old(state)[j]
        invariant Valid()
      {
        StepsKeepOk(state[i], TunnelAck(0, 0, 0), state[i].channel in expired);
        var s := Visit(state[i], state[i].channel in expired);
        state := state[i := s];
        i := i + 1;
      }
    }

    static method Visit(s: ConnState, expired: bool) returns (s': ConnState)
      requires Ok(s)
      ensures s' == SendTurn(s, expired)
    {
      s' := s;
      if (s.state != 0 && expired) || (s.state == 0 && s.out != []) {
        s' := s'.(state := s.state + 1);
        if s'.state > 10 {
          return s'.Get(false);
        }
        var r := TunnelRequest(s.channel, s.sno, s.out[0]);
        s' := s'.(log := s.log.(tries := s.log.tries + 1, last := Some(r)));
        s' := s'.Send(if s.typ == 2 then ConfigRequest(r) else Request(r));
      }
    }
  }
}
