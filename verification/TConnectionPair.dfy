/**
 * Two connected transports over channels that lose, duplicate and reorder packets, as the bus and the devices
 * behind it may. Stray packets that are neither data nor acknowledgements may arrive at any time.
 */
module TConnectionPair {
  import opened Bytes
  import opened Tpdu
  import opened TConnection

  /** Side a is the one that acts; `toB` and `toA` hold the packets under way. */
  datatype Pair = Pair(a: Conn, b: Conn, toB: seq<Sent>, toA: seq<Sent>)

  function Swap(p: Pair): Pair {
    Pair(p.b, p.a, p.toA, p.toB)
  }

  datatype Move =
    | Submits(p: payload)
    | Turns(e: Event)            // Input, Timer, Stop, or a stray packet
    | Arrives(k: nat, again: bool)  // the k-th packet under way to a arrives; `again`: a copy stays behind
    | Loses(k: nat)                 // the k-th packet under way to a is lost

  datatype Step = Step(atB: bool, move: Move)

  /** Packets that belong to the exchange are sent by the peer, not injected. */
  predicate Stray(e: Event) {
    e.Packet? ==> !FromPacket(e.pdu).DataConnected? && !FromPacket(e.pdu).Ack?
  }

  /** Side a takes a turn; what it sends is under way to b. */
  function ATurns(p: Pair, e: Event): Pair
    requires Ok(p.a)
  {
    var a' := Iterate(p.a, e);
    p.(a := a', toB := p.toB + a'.sent[|p.a.sent|..])
  }

  function AMoves(p: Pair, m: Move): Pair
    requires Ok(p.a)
  {
    match m
    case Submits(x) => p.(a := Submit(p.a, x))
    case Turns(e) => if Stray(e) then ATurns(p, e) else p
    case Arrives(k, again) =>
      if k < |p.toA| then
        ATurns(p.(toA := if again then p.toA else Without(p.toA, k)), Packet(p.toA[k].pdu))
      else p
    case Loses(k) => if k < |p.toA| then p.(toA := Without(p.toA, k)) else p
  }

  function DoStep(p: Pair, s: Step): Pair
    requires Ok(p.a) && Ok(p.b)
  {
    if s.atB then Swap(AMoves(Swap(p), s.move)) else AMoves(p, s.move)
  }

  /** A packet that arrives at c is late by how many payloads have since been delivered or acknowledged there. */
  function Lateness(c: Conn, t: Tag): int {
    match t
    case Data(n) => |c.log.delivered| - n
    case Confirms(n) => c.log.acked - n
    case Other => 0
  }

  predicate Timely(p: Pair, s: Step) {
    var q := if s.atB then Swap(p) else p;
    s.move.Arrives? && s.move.k < |q.toA| ==> Lateness(q.a, q.toA[s.move.k].tag) < 16
  }

  // One direction: from s to r, with the packets `sr` under way to r and `rs` back.

  function MaskedAll(ps: seq<payload>): seq<payload> {
    seq(|ps|, i requires 0 <= i < |ps| => Masked(ps[i]))
  }

  ghost predicate DataOk(s: Conn, m: Sent) {
    m.tag.Data? ==>
      && m.tag.n <= s.log.acked && m.tag.n < |s.log.submitted|
      && (s.mode == 1 ==> m.tag.n < s.log.acked)
      && m.pdu == DataPacket(m.tag.n % 16, s.log.submitted[m.tag.n])
  }

  ghost predicate ConfirmOk(r: Conn, m: Sent) {
    m.tag.Confirms? ==> m.tag.n < |r.log.delivered| && m.pdu == AckPacket(m.tag.n % 16)
  }

  predicate OtherOk(m: Sent) {
    m.tag.Other? ==> FromPacket(m.pdu) == Disconnect
  }

  ghost predicate DirOk(s: Conn, r: Conn, sr: seq<Sent>, rs: seq<Sent>) {
    && s.log.acked <= |r.log.delivered| <= s.log.acked + 1 && |r.log.delivered| <= |s.log.submitted|
    && (s.mode == 1 ==> |r.log.delivered| == s.log.acked)
    && r.log.delivered == MaskedAll(s.log.submitted[..|r.log.delivered|])
    && (forall m :: m in sr ==> DataOk(s, m))
    && (forall m :: m in rs ==> ConfirmOk(r, m))
  }

  ghost predicate Inv(p: Pair) {
    && Ok(p.a) && Ok(p.b)
    && DirOk(p.a, p.b, p.toB, p.toA) && DirOk(p.b, p.a, p.toA, p.toB)
    && (forall m :: m in p.toA || m in p.toB ==> OtherOk(m))
  }

  // What one turn does to the counts, and what it sends.

  /** c' has sent one more packet than c, or none. */
  ghost predicate News(c: Conn, c': Conn) {
    && c'.log.submitted == c.log.submitted
    && (c'.sent == c.sent || (|c'.sent| == |c.sent| + 1 && c.sent == c'.sent[..|c.sent|]))
    && (forall m :: m in c'.sent[|c.sent|..] ==> DataOk(c', m) && ConfirmOk(c', m) && OtherOk(m) && Latest(c', m))
  }

  /** What c sends concerns its present head, or the payload it delivered last. */
  predicate Latest(c: Conn, m: Sent) {
    && (m.tag.Data? ==> m.tag.n == c.log.acked)
    && (m.tag.Confirms? ==> m.tag.n + 1 == |c.log.delivered|)
  }

  /** Numbers mod 16 tell payloads apart that are less than 16 apart. */
  lemma SerialNumbers(n: nat, d: nat)
    requires n <= d < n + 16
    ensures n % 16 == d % 16 <==> n == d
    ensures n % 16 == (d % 16 - 1) % 16 <==> n + 1 == d
  {
    assert (d % 16 - 1) % 16 == (d + 15) % 16;
  }

  /** Nothing is delivered and no acknowledgement taken. */
  ghost predicate Unmoved(c: Conn, c': Conn) {
    && News(c, c') && c'.log.acked == c.log.acked && c'.log.delivered == c.log.delivered
    && (c'.mode == 1 ==> c.mode == 1)
  }

  lemma FinishUnmoved(c: Conn)
    requires Ok(c)
    ensures Unmoved(c, Finish(c))
  {
  }

  /** The head goes out, for the first time or again. */
  lemma HeadUnmoved(c: Conn)
    requires Ok(c) && c.input != []
    ensures c.mode == 2 ==> Unmoved(c, c.(repcount := c.repcount + 1).SendsHead())
    ensures Unmoved(c, c.(repcount := 0, mode := 2).SendsHead())
  {
  }

  lemma SameUnmoved(c: Conn)
    requires Ok(c)
    ensures Unmoved(c, c)
  {
  }

  lemma StrayPacket(c: Conn, pdu: seq<byte>)
    requires Ok(c) && Stray(Packet(pdu))
    ensures Unmoved(c, Iterate(c, Packet(pdu)))
  {
    FinishUnmoved(c);
    if c.input != [] {
      HeadUnmoved(c);
    }
    SameUnmoved(c);
  }

  lemma InnerTurn(c: Conn, e: Event)
    requires Ok(c) && !e.Packet?
    ensures Unmoved(c, Iterate(c, e))
  {
    FinishUnmoved(c);
    if c.input != [] {
      HeadUnmoved(c);
    }
    SameUnmoved(c);
  }

  /** A turn that takes no data and no acknowledgement. */
  lemma StrayTurn(c: Conn, e: Event)
    requires Ok(c) && Stray(e)
    ensures Ok(Iterate(c, e)) && Unmoved(c, Iterate(c, e))
  {
    IterateKeepsOk(c, e);
    if e.Packet? {
      StrayPacket(c, e.pdu);
    } else {
      InnerTurn(c, e);
    }
  }

  /** A data packet gets to OnData. */
  lemma DataArrives(c: Conn, serno: nat, x: payload)
    requires Ok(c) && c.mode != 0 && serno < 16
    ensures Iterate(c, Packet(DataPacket(serno, x))) == OnData(c, serno, DataPacket(serno, x))
  {
    PacketRoundTrips(serno, x);
  }

  lemma DataEffect(c: Conn, n: nat, data: payload)
    requires Ok(c) && c.mode != 0 && n <= |c.log.delivered| < n + 16
    ensures var c' := OnData(c, n % 16, data);
            && News(c, c') && c'.log.acked == c.log.acked && (c'.mode == 1 ==> c.mode == 1)
            && c'.log.delivered
               == (if n == |c.log.delivered| then c.log.delivered + [Masked(data)] else c.log.delivered)
            && (n + 1 < |c.log.delivered| ==> c'.mode == 0)
  {
    SerialNumbers(n, |c.log.delivered|);
  }

  /** Payload n arrives, less than 16 payloads late: it is delivered if it is the next one, acknowledged again
      if it is the last one, and closes the connection otherwise. */
  lemma DataTurn(c: Conn, n: nat, x: payload)
    requires Ok(c) && c.mode != 0 && n <= |c.log.delivered| < n + 16
    ensures var c' := Iterate(c, Packet(DataPacket(n % 16, x)));
            && Ok(c') && News(c, c') && c'.log.acked == c.log.acked
            && (c'.mode == 1 ==> c.mode == 1)
            && c'.log.delivered == (if n == |c.log.delivered| then c.log.delivered + [Masked(x)] else c.log.delivered)
            && (n + 1 < |c.log.delivered| ==> c'.mode == 0)
  {
    var pdu := DataPacket(n % 16, x);
    PacketRoundTrips(n % 16, x);
    IterateKeepsOk(c, Packet(pdu));
    DataArrives(c, n % 16, x);
    DataEffect(c, n, pdu);
  }

  /** The acknowledgement of payload n arrives, less than 16 payloads late: it releases the head if that is
      payload n and is under way, and closes the connection otherwise. */
  lemma ConfirmTurn(c: Conn, n: nat)
    requires Ok(c) && c.mode != 0 && n <= c.log.acked < n + 16
    ensures var c' := Iterate(c, Packet(AckPacket(n % 16)));
            && Ok(c') && News(c, c') && c'.log.delivered == c.log.delivered
            && (if n == c.log.acked && c.mode == 2
                then c'.log.acked == c.log.acked + 1 && c'.mode == 1
                else c'.log.acked == c.log.acked && c'.mode == 0)
  {
    PacketRoundTrips(n % 16, [0]);
    SerialNumbers(n, c.log.acked);
    IterateKeepsOk(c, Packet(AckPacket(n % 16)));
  }

  // The invariant is kept.

  lemma Fewer(p: Pair, k: nat)
    requires Inv(p) && k < |p.toA|
    ensures Inv(p.(toA := Without(p.toA, k)))
  {
    assert forall m :: m in Without(p.toA, k) ==> m in p.toA;
  }

  /** A turn of a that changes neither count. */
  lemma QuietTurnKeeps(p: Pair, a': Conn)
    requires Inv(p) && Ok(a') && News(p.a, a')
    requires a'.log.acked == p.a.log.acked && a'.log.delivered == p.a.log.delivered && (a'.mode == 1 ==> p.a.mode == 1)
    ensures Inv(p.(a := a', toB := p.toB + a'.sent[|p.a.sent|..]))
  {
  }

  /** A turn of a that delivers the next payload of b. */
  lemma DeliveryKeeps(p: Pair, a': Conn, x: payload)
    requires Inv(p) && Ok(a') && News(p.a, a')
    requires a'.log.acked == p.a.log.acked && (a'.mode == 1 ==> p.a.mode == 1)
    requires var n := |p.a.log.delivered|;
             && n == p.b.log.acked < |p.b.log.submitted| && p.b.mode != 1 && x == p.b.log.submitted[n]
             && a'.log.delivered == p.a.log.delivered + [Masked(x)]
    ensures Inv(p.(a := a', toB := p.toB + a'.sent[|p.a.sent|..]))
  {
    var n := |p.a.log.delivered|;
    var all := p.b.log.submitted;
    assert MaskedAll(all[..n + 1]) == MaskedAll(all[..n]) + [Masked(x)];
  }

  /** A turn of a that takes the acknowledgement of its head. */
  lemma ReleaseKeeps(p: Pair, a': Conn)
    requires Inv(p) && Ok(a') && News(p.a, a')
    requires a'.log.acked == p.a.log.acked + 1 == |p.b.log.delivered| && a'.log.delivered == p.a.log.delivered
    ensures Inv(p.(a := a', toB := p.toB + a'.sent[|p.a.sent|..]))
  {
  }

  /** A packet under way to a arrives in time. */
  lemma ArrivalKeeps(p: Pair, m: Sent)
    requires Inv(p) && m in p.toA && Lateness(p.a, m.tag) < 16
    ensures Inv(ATurns(p, Packet(m.pdu)))
  {
    var a' := Iterate(p.a, Packet(m.pdu));
    if p.a.mode == 0 {
      assert ATurns(p, Packet(m.pdu)) == p by { assert p.toB + [] == p.toB; }
    } else {
      match m.tag
      case Data(n) =>
        assert DataOk(p.b, m);
        DataTurn(p.a, n, p.b.log.submitted[n]);
        if n == |p.a.log.delivered| {
          DeliveryKeeps(p, a', p.b.log.submitted[n]);
        } else {
          QuietTurnKeeps(p, a');
        }
      case Confirms(n) =>
        assert ConfirmOk(p.b, m);
        ConfirmTurn(p.a, n);
        if n == p.a.log.acked && p.a.mode == 2 {
          ReleaseKeeps(p, a');
        } else {
          QuietTurnKeeps(p, a');
        }
      case Other =>
        assert OtherOk(m);
        StrayTurn(p.a, Packet(m.pdu));
        QuietTurnKeeps(p, a');
    }
  }

  lemma MoveKeeps(p: Pair, m: Move)
    requires Inv(p) && Timely(p, Step(false, m))
    ensures Inv(AMoves(p, m))
  {
    match m
    case Submits(x) =>
      SubmitKeepsOk(p.a, x);
      var k := |p.b.log.delivered|;
      assert Submit(p.a, x).log.submitted[..k] == p.a.log.submitted[..k];
    case Turns(e) =>
      if Stray(e) {
        StrayTurn(p.a, e);
        QuietTurnKeeps(p, Iterate(p.a, e));
      }
    case Arrives(k, again) =>
      if k < |p.toA| {
        ArrivalKeeps(p, p.toA[k]);
        if !again {
          Fewer(ATurns(p, Packet(p.toA[k].pdu)), k);
        }
      }
    case Loses(k) =>
      if k < |p.toA| {
        Fewer(p, k);
      }
  }

  lemma StepKeeps(p: Pair, s: Step)
    requires Inv(p) && Timely(p, s)
    ensures Inv(DoStep(p, s))
  {
    MoveKeeps(if s.atB then Swap(p) else p, s.move);
  }

  // Runs.

  const CONNECTED := Pair(OPENED, OPENED, [], [])

  lemma StepOk(p: Pair, s: Step)
    requires Ok(p.a) && Ok(p.b)
    ensures Ok(DoStep(p, s).a) && Ok(DoStep(p, s).b)
  {
    var q := if s.atB then Swap(p) else p;
    match s.move
    case Submits(x) => SubmitKeepsOk(q.a, x);
    case Turns(e) => IterateKeepsOk(q.a, e);
    case Arrives(k, again) => if k < |q.toA| { IterateKeepsOk(q.a, Packet(q.toA[k].pdu)); }
    case Loses(k) =>
  }

  function RunPair(ss: seq<Step>): (p: Pair)
    ensures Ok(p.a) && Ok(p.b)
  {
    if ss == [] then CONNECTED
    else
      var p := RunPair(ss[..|ss| - 1]);
      StepOk(p, ss[|ss| - 1]);
      DoStep(p, ss[|ss| - 1])
  }

  /** No copy arrives 16 or more payloads late. */
  predicate TimelyRun(ss: seq<Step>) {
    ss == [] || (TimelyRun(ss[..|ss| - 1]) && Timely(RunPair(ss[..|ss| - 1]), ss[|ss| - 1]))
  }

  lemma {:induction false} RunInv(ss: seq<Step>)
    requires TimelyRun(ss)
    ensures Inv(RunPair(ss))
  {
    if ss == [] {
      assert Inv(CONNECTED);
    } else {
      RunInv(ss[..|ss| - 1]);
      StepKeeps(RunPair(ss[..|ss| - 1]), ss[|ss| - 1]);
    }
  }

  /** What r has delivered is a prefix of what s submitted, at most one payload ahead of what s knows. */
  predicate PrefixDelivered(s: Conn, r: Conn) {
    && s.log.acked <= |r.log.delivered| <= s.log.acked + 1
    && |r.log.delivered| <= |s.log.submitted|
    && r.log.delivered == MaskedAll(s.log.submitted[..|r.log.delivered|])
  }

  ghost predicate BothDelivered(p: Pair) {
    PrefixDelivered(p.a, p.b) && PrefixDelivered(p.b, p.a)
  }

  lemma InvDelivered(p: Pair)
    requires Inv(p)
    ensures BothDelivered(p)
  {
  }

  /** A state that some run leads to in which no copy arrives 16 or more payloads late. */
  ghost predicate ReachableInTime(p: Pair) {
    exists ss :: TimelyRun(ss) && p == RunPair(ss)
  }

  /** Prefix delivery in both directions, over channels that lose, duplicate and reorder, whatever else
      happens, as long as no copy arrives 16 or more payloads late. */
  lemma PrefixDelivery(p: Pair)
    requires ReachableInTime(p)
    ensures BothDelivered(p)
  {
    var ss :| TimelyRun(ss) && p == RunPair(ss);
    RunInv(ss);
    InvDelivered(p);
  }

  /** The bound is needed: a copy that arrives exactly 16 payloads late is delivered as the next payload. */
  lemma SixteenLateIsNew(c: Conn, n: nat, x: payload)
    requires Ok(c) && c.mode != 0 && |c.log.delivered| == n + 16
    ensures Iterate(c, Packet(DataPacket(n % 16, x))).log.delivered == c.log.delivered + [Masked(x)]
  {
    var pdu := DataPacket(n % 16, x);
    PacketRoundTrips(n % 16, x);
    assert n % 16 == (n + 16) % 16 == c.recvno;
    assert Iterate(c, Packet(pdu)) == OnPacket(c, pdu) == OnData(c, c.recvno, pdu);
  }

  // A run that is late by sixteen at its last step.

  /** After n payloads, all acknowledged; a copy of the packet with the first one is still under way. */
  ghost predicate Rounds(p: Pair, n: nat, x: payload) {
    && Ok(p.a) && Ok(p.b) && p.a.mode == 1 && p.b.mode == 1 && p.a.input == [] && p.toA == []
    && p.a.log.acked == n == |p.a.log.submitted| == |p.b.log.delivered|
    && p.toB == if n == 0 then [] else [Sent(DataPacket(0, x), Data(0))]
  }

  lemma RunNext(ss: seq<Step>, s: Step)
    ensures RunPair(ss + [s]) == DoStep(RunPair(ss), s)
    ensures TimelyRun(ss + [s]) <==> TimelyRun(ss) && Timely(RunPair(ss), s)
  {
    assert (ss + [s])[..|ss|] == ss;
  }

  /** The n-th payload is submitted and sent. */
  lemma SendRound(p: Pair, n: nat, x: payload)
    requires Rounds(p, n, x)
    ensures var q := DoStep(DoStep(p, Step(false, Move.Submits(x))), Step(false, Move.Turns(Event.Input)));
            && Ok(q.a) && q.a.mode == 2 && q.a.input == [x] && q.a.log.acked == n && |q.a.log.submitted| == n + 1
            && q.b == p.b && q.toA == [] && q.toB == p.toB + [Sent(DataPacket(n % 16, x), Data(n))]
  {
    var a1 := Submit(p.a, x);
    SubmitKeepsOk(p.a, x);
    IterateKeepsOk(a1, Event.Input);
    var s := Sent(DataPacket(a1.sendno, x), Data(n));
    assert (a1.sent + [s])[|a1.sent|..] == [s];
  }

  /** It arrives at b, a copy staying behind the first time. */
  lemma TakeRound(p: Pair, n: nat, x: payload)
    requires Ok(p.a) && Ok(p.b) && p.b.mode == 1 && |p.b.log.delivered| == n && p.toA == []
    requires p.toB == (if n == 0 then [] else [Sent(DataPacket(0, x), Data(0))])
                      + [Sent(DataPacket(n % 16, x), Data(n))]
    ensures var s := Step(true, Arrives(if n == 0 then 0 else 1, n == 0));
            var q := DoStep(p, s);
            && Timely(p, s) && Ok(q.b) && q.a == p.a && q.b.mode == 1 && |q.b.log.delivered| == n + 1
            && q.toA == [Sent(AckPacket(n % 16), Confirms(n))] && q.toB == [Sent(DataPacket(0, x), Data(0))]
  {
    var m := Sent(DataPacket(n % 16, x), Data(n));
    PacketRoundTrips(n % 16, x);
    IterateKeepsOk(p.b, Packet(m.pdu));
    var b' := Iterate(p.b, Packet(m.pdu));
    assert b' == OnData(p.b, n % 16, m.pdu);
    assert b'.sent[|p.b.sent|..] == [Sent(AckPacket(n % 16), Confirms(n))];
    assert [] + [Sent(AckPacket(n % 16), Confirms(n))] == [Sent(AckPacket(n % 16), Confirms(n))];
  }

  /** The acknowledgement arrives at a. */
  lemma AckRound(p: Pair, n: nat)
    requires Ok(p.a) && Ok(p.b) && p.a.mode == 2 && |p.a.input| == 1 && p.a.log.acked == n
    requires p.toA == [Sent(AckPacket(n % 16), Confirms(n))]
    ensures var s := Step(false, Arrives(0, false));
            var q := DoStep(p, s);
            && Timely(p, s) && Ok(q.a) && q.a.mode == 1 && q.a.input == [] && q.a.log.acked == n + 1
            && q.a.log.submitted == p.a.log.submitted && q.b == p.b && q.toA == [] && q.toB == p.toB
  {
    PacketRoundTrips(n % 16, [0]);
    IterateKeepsOk(p.a, Packet(p.toA[0].pdu));
    var a' := Iterate(p.a, Packet(p.toA[0].pdu));
    assert a' == OnAck(p.a, n % 16);
    assert p.toB + a'.sent[|p.a.sent|..] == p.toB;
    assert Without(p.toA, 0) == [];
  }

  lemma {:induction false} RunRounds(n: nat, x: payload) returns (ss: seq<Step>)
    ensures TimelyRun(ss) && Rounds(RunPair(ss), n, x)
  {
    if n == 0 {
      ss := [];
    } else {
      ss := RunRounds(n - 1, x);
      var p := RunPair(ss);
      SendRound(p, n - 1, x);
      ss := Longer(ss, Step(false, Move.Submits(x)));
      ss := Longer(ss, Step(false, Move.Turns(Event.Input)));
      TakeRound(RunPair(ss), n - 1, x);
      ss := Longer(ss, Step(true, Arrives(if n == 1 then 0 else 1, n == 1)));
      AckRound(RunPair(ss), n - 1);
      ss := Longer(ss, Step(false, Arrives(0, false)));
    }
  }

  lemma Longer(ss: seq<Step>, s: Step) returns (longer: seq<Step>)
    requires TimelyRun(ss) && Timely(RunPair(ss), s)
    ensures longer == ss + [s] && TimelyRun(longer) && RunPair(longer) == DoStep(RunPair(ss), s)
  {
    RunNext(ss, s);
    longer := ss + [s];
  }

  lemma LateStep(p: Pair, x: payload)
    requires Rounds(p, 16, x)
    ensures Lateness(p.b, p.toB[0].tag) == 16
    ensures var q := DoStep(p, Step(true, Arrives(0, false)));
            |q.b.log.delivered| == 17 && q.a == p.a && !BothDelivered(q)
  {
    SixteenLateIsNew(p.b, 0, x);
  }

  /** The bound is sharp for runs: a timely run, and one step more at which a copy arrives exactly sixteen payloads
      late, after which the receiver has delivered a payload more than was ever submitted. */
  lemma SixteenLateBreaks(x: payload) returns (ss: seq<Step>, last: Step)
    ensures TimelyRun(ss) && last == Step(true, Arrives(0, false))
    ensures var p := RunPair(ss);
            && p.toB != [] && Lateness(p.b, p.toB[0].tag) == 16
            && var q := RunPair(ss + [last]);
               |q.b.log.delivered| == 17 && |q.a.log.submitted| == 16 && !BothDelivered(q)
  {
    ss := RunRounds(16, x);
    last := Step(true, Arrives(0, false));
    RunNext(ss, last);
    LateStep(RunPair(ss), x);
  }

  // FIFO channels are timely.

  predicate Fifo(s: Step) {
    s.move.Arrives? ==> s.move.k == 0
  }

  /** Packets for c are in the order they were sent, and none is behind c's counts by more than one. */
  ghost predicate InOrder(c: Conn, ms: seq<Sent>) {
    && (forall i, j :: 0 <= i < j < |ms| && ms[i].tag.Data? && ms[j].tag.Data? ==> ms[i].tag.n <= ms[j].tag.n)
    && (forall i, j :: 0 <= i < j < |ms| && ms[i].tag.Confirms? && ms[j].tag.Confirms? ==> ms[i].tag.n <= ms[j].tag.n)
    && (forall m :: m in ms ==> Recent(c, m))
  }

  predicate Recent(c: Conn, m: Sent) {
    && (m.tag.Data? ==> m.tag.n + 1 >= |c.log.delivered|)
    && (m.tag.Confirms? ==> m.tag.n + 1 >= c.log.acked)
  }

  ghost predicate FifoInv(p: Pair) {
    Inv(p) && InOrder(p.a, p.toA) && InOrder(p.b, p.toB)
  }

  lemma FifoTimely(p: Pair, s: Step)
    requires FifoInv(p) && Fifo(s)
    ensures Timely(p, s)
  {
    var q := if s.atB then Swap(p) else p;
    if s.move.Arrives? && s.move.k < |q.toA| {
      assert Recent(q.a, q.toA[s.move.k]);
    }
  }

  lemma OrderedWithout(c: Conn, ms: seq<Sent>, k: nat)
    requires InOrder(c, ms) && k < |ms|
    ensures InOrder(c, Without(ms, k))
  {
    var w := Without(ms, k);
    forall m | m in w ensures Recent(c, m) {
      assert m in ms;
    }
    forall i, j | 0 <= i < j < |w|
      ensures w[i].tag.Data? && w[j].tag.Data? ==> w[i].tag.n <= w[j].tag.n
      ensures w[i].tag.Confirms? && w[j].tag.Confirms? ==> w[i].tag.n <= w[j].tag.n
    {
      assert w[i] == ms[if i < k then i else i + 1] && w[j] == ms[if j < k then j else j + 1];
    }
  }

  /** What a sends joins the channel to b in order. */
  lemma NewsInOrder(p: Pair, a': Conn)
    requires FifoInv(p) && News(p.a, a')
    requires p.a.log.acked <= a'.log.acked && |p.a.log.delivered| <= |a'.log.delivered|
    requires p.b.log.acked <= |a'.log.delivered| && |p.b.log.delivered| <= a'.log.acked + 1
    ensures InOrder(p.b, p.toB + a'.sent[|p.a.sent|..])
  {
    var news := a'.sent[|p.a.sent|..];
    var ms := p.toB + news;
    forall m | m in ms ensures Recent(p.b, m) {
      assert m in p.toB || m in news;
    }
    forall i, j | 0 <= i < j < |ms|
      ensures ms[i].tag.Data? && ms[j].tag.Data? ==> ms[i].tag.n <= ms[j].tag.n
      ensures ms[i].tag.Confirms? && ms[j].tag.Confirms? ==> ms[i].tag.n <= ms[j].tag.n
    {
      if j >= |p.toB| && i < |p.toB| {
        assert ms[i] in p.toB && ms[j] in news;
        assert DataOk(p.a, ms[i]) && ConfirmOk(p.a, ms[i]);
      }
    }
  }

  /** The head delivers or acknowledges its own payload at most, and what is behind it is no older. */
  lemma StillRecent(p: Pair, a': Conn)
    requires FifoInv(p) && p.toA != []
    requires |a'.log.delivered| <= |p.a.log.delivered|
          || (p.toA[0].tag.Data? && |a'.log.delivered| == p.toA[0].tag.n + 1)
    requires a'.log.acked <= p.a.log.acked || (p.toA[0].tag.Confirms? && a'.log.acked == p.toA[0].tag.n + 1)
    ensures forall x :: x in p.toA ==> Recent(a', x)
  {
    forall x | x in p.toA ensures Recent(a', x) {
      var i :| 0 <= i < |p.toA| && p.toA[i] == x;
      assert Recent(p.a, x);
    }
  }

  /** The head of the channel arrives; what follows it is not behind the new counts. */
  lemma HeadArrives(p: Pair)
    requires FifoInv(p) && p.toA != []
    ensures var p' := ATurns(p, Packet(p.toA[0].pdu));
            InOrder(p'.a, p'.toA) && InOrder(p'.b, p'.toB)
  {
    var m := p.toA[0];
    var a' := Iterate(p.a, Packet(m.pdu));
    assert Recent(p.a, m);
    if p.a.mode == 0 {
      assert p.toB + [] == p.toB;
    } else {
      match m.tag
      case Data(n) =>
        assert DataOk(p.b, m);
        DataTurn(p.a, n, p.b.log.submitted[n]);
      case Confirms(n) =>
        assert ConfirmOk(p.b, m);
        ConfirmTurn(p.a, n);
      case Other =>
        assert OtherOk(m);
        StrayTurn(p.a, Packet(m.pdu));
    }
    StillRecent(p, a');
    NewsInOrder(p, a');
  }

  lemma OwnTurn(p: Pair, e: Event)
    requires FifoInv(p) && Stray(e)
    ensures var p' := ATurns(p, e); InOrder(p'.a, p'.toA) && InOrder(p'.b, p'.toB)
  {
    StrayTurn(p.a, e);
    NewsInOrder(p, Iterate(p.a, e));
    assert forall x :: x in p.toA ==> Recent(p.a, x);
  }

  lemma FifoMoveKeeps(p: Pair, m: Move)
    requires FifoInv(p) && Fifo(Step(false, m))
    ensures FifoInv(AMoves(p, m))
  {
    FifoTimely(p, Step(false, m));
    MoveKeeps(p, m);
    match m
    case Submits(x) => assert forall y :: y in p.toA ==> Recent(p.a, y);
    case Turns(e) => if Stray(e) { OwnTurn(p, e); }
    case Arrives(k, again) =>
      if k < |p.toA| {
        HeadArrives(p);
        if !again {
          OrderedWithout(ATurns(p, Packet(p.toA[0].pdu)).a, p.toA, 0);
        }
      }
    case Loses(k) => if k < |p.toA| { OrderedWithout(p.a, p.toA, k); }
  }

  lemma FifoStepKeeps(p: Pair, s: Step)
    requires FifoInv(p) && Fifo(s)
    ensures Timely(p, s) && FifoInv(DoStep(p, s))
  {
    FifoTimely(p, s);
    FifoMoveKeeps(if s.atB then Swap(p) else p, s.move);
  }

  lemma {:induction false} FifoRunInv(ss: seq<Step>)
    requires forall s :: s in ss ==> Fifo(s)
    ensures TimelyRun(ss) && FifoInv(RunPair(ss))
  {
    if ss == [] {
      assert FifoInv(CONNECTED);
    } else {
      FifoRunInv(ss[..|ss| - 1]);
      FifoStepKeeps(RunPair(ss[..|ss| - 1]), ss[|ss| - 1]);
    }
  }

  /** A state that some run over FIFO channels leads to. */
  ghost predicate ReachableFifo(p: Pair) {
    exists ss :: (forall s :: s in ss ==> Fifo(s)) && p == RunPair(ss)
  }

  /** Over FIFO channels, with any losses and copies, prefix delivery needs no assumption about age. */
  lemma FifoPrefixDelivery(p: Pair)
    requires ReachableFifo(p)
    ensures ReachableInTime(p) && BothDelivered(p)
  {
    var ss :| (forall s :: s in ss ==> Fifo(s)) && p == RunPair(ss);
    FifoRunInv(ss);
    PrefixDelivery(p);
  }
}
