/**
 * What a tunnelling session guarantees, for every run of both ends over channels that lose and duplicate.
 */
module TunnelTheorems {
  import opened Bytes
  import opened EibNetIp
  import opened TunnelSystem
  import opened TunnelWire
  import opened TunnelLink
  import C = TunnelClient
  import S = TunnelServer

  /** `part` consists of the elements of `whole` at the increasing positions `at`. */
  ghost predicate PicksInOrder<T(!new)>(at: seq<nat>, part: seq<T>, whole: seq<T>) {
    && |at| == |part|
    && (forall i, j :: 0 <= i < j < |at| ==> at[i] < at[j])
    && (forall k :: 0 <= k < |at| ==> at[k] < |whole| && part[k] == whole[at[k]])
  }

  /** How many frames have been acknowledged. */
  function Acknowledged(done: seq<bool>): int {
    |done| - GivenUp(done)
  }

  /** What holds of one direction: frames are accepted in order and at most once, and a frame is skipped only
      for one that the sender gave up; the receiver is ahead of the acknowledgements by at most one. */
  ghost predicate Safe(w: Wire, at: seq<nat>) {
    && PicksInOrder(at, w.accepted, w.submitted)
    && (forall k :: 0 <= k < |at| ==> k <= at[k] <= k + GivenUp(w.done))
    && 0 <= Acknowledged(w.done) <= |w.accepted| <= Acknowledged(w.done) + 1
  }

  lemma RelSafe(l: Link, w: Wire)
    requires Rel(l, w)
    ensures Safe(w, l.accepted)
  {
  }

  /** A state that some run of events leads to. */
  ghost predicate Reachable(session: C.Session, n: Net) {
    exists es :: n == Run(session, es)
  }

  /** It is related, in both directions, to a state of the unbounded protocol. */
  lemma ReachableGood(session: C.Session, n: Net) returns (up: Link, down: Link)
    requires Reachable(session, n)
    ensures Good(n, up, down)
  {
    var es :| n == Run(session, es);
    up, down := RunGood(session, es);
  }

  ghost predicate BothSafe(n: Net) {
    (exists at: seq<nat> :: Safe(Up(n), at)) && (exists at: seq<nat> :: Safe(Down(n), at))
  }

  /** Tunnel safety, both directions, across any number of wraps, losses, duplicates and give-ups. */
  lemma TunnelSafety(session: C.Session, n: Net)
    requires Reachable(session, n)
    ensures BothSafe(n)
  {
    var u, d := ReachableGood(session, n);
    RelSafe(u, Up(n));
    RelSafe(d, Down(n));
  }

  lemma AgreementOnWire(l: Link, w: Wire)
    requires Rel(l, w) && GivenUp(w.done) == 0
    ensures |w.accepted| <= |w.submitted| && w.accepted == w.submitted[..|w.accepted|]
    ensures |w.done| <= |w.accepted| <= |w.done| + 1
  {
  }

  /** When the sender has given nothing up, the accepted frames are a prefix of the submitted ones and the
      acknowledged frames a prefix of those, short of at most one; and layer 3 of the server has been given
      exactly what that prefix carries. */
  predicate Agrees(n: Net) {
    && (GivenUp(n.client.log.done) == 0 ==>
          var k := |n.server.log.accepted|;
          && |n.client.log.done| <= k <= |n.client.log.done| + 1 && k <= |n.client.log.submitted|
          && n.server.log.accepted == n.client.log.submitted[..k]
          && n.server.forwarded == S.AllForLayer3(n.client.log.submitted[..k]))
    && (GivenUp(n.server.log.done) == 0 ==>
          var k := |n.client.log.accepted|;
          && |n.server.log.done| <= k <= |n.server.log.done| + 1 && k <= |n.server.log.submitted|
          && n.client.log.accepted == n.server.log.submitted[..k])
  }

  lemma GoodAgrees(n: Net, u: Link, d: Link)
    requires Good(n, u, d)
    ensures Agrees(n)
  {
    if GivenUp(n.client.log.done) == 0 {
      AgreementOnWire(u, Up(n));
    }
    if GivenUp(n.server.log.done) == 0 {
      AgreementOnWire(d, Down(n));
    }
  }

  lemma TunnelAgreement(session: C.Session, n: Net)
    requires Reachable(session, n)
    ensures Agrees(n)
  {
    var u, d := ReachableGood(session, n);
    GoodAgrees(n, u, d);
  }

  /** m carries the number of the slot after a acknowledgements, or of the slot before. */
  predicate NumberedNear(m: Message, a: int) {
    && (m.Request? || m.Ack?)
    && var s := if m.Request? then m.req.seqno else m.ack.seqno;
       s == a % 256 || (a > 0 && s == (a - 1) % 256)
  }

  lemma InFlightOnWire(l: Link, w: Wire)
    requires Rel(l, w)
    ensures forall m :: m in w.reqs || m in w.acks ==> NumberedNear(m, Acknowledged(w.done))
  {
  }

  /** Everything in flight, in either direction, carries the sender's current number or the one before. */
  ghost predicate AllNear(n: Net) {
    && (forall m :: m in n.upReqs || m in n.upAcks ==> NumberedNear(m, Acknowledged(n.client.log.done)))
    && (forall m :: m in n.downReqs || m in n.downAcks ==> NumberedNear(m, Acknowledged(n.server.log.done)))
  }

  lemma TunnelInFlight(session: C.Session, n: Net)
    requires Reachable(session, n)
    ensures AllNear(n)
  {
    var u, d := ReachableGood(session, n);
    InFlightOnWire(u, Up(n));
    InFlightOnWire(d, Down(n));
    assert forall m :: m in n.upReqs ==> m in Up(n).reqs;
    assert forall m :: m in n.upAcks ==> m in Up(n).acks;
    assert forall m :: m in n.downReqs ==> m in Down(n).reqs;
    assert forall m :: m in n.downAcks ==> m in Down(n).acks;
  }

  /** The oldest request in flight has the receiver's number or the one before. */
  predicate InSequence(reqs: seq<Message>, rno: byte) {
    reqs != [] ==> reqs[0].Request? && (reqs[0].req.seqno == rno || (reqs[0].req.seqno + 1) % 256 == rno)
  }

  lemma GoodInSequence(n: Net, u: Link, d: Link)
    requires Good(n, u, d)
    ensures BothInSequence(n)
  {
    InSequenceOnWire(d, Down(n), n.downReqs, RequestsOf(n.server.sent));
    InSequenceOnWire(u, Up(n), n.upReqs, RequestsOf(n.client.sent));
  }

  lemma InSequenceOnWire(l: Link, w: Wire, reqs: seq<Message>, unsent: seq<Message>)
    requires Rel(l, w) && w.reqs == reqs + unsent
    ensures InSequence(reqs, w.rno)
  {
    if reqs != [] {
      assert w.reqs[0] == reqs[0];
      RequestRel(l, w);
    }
  }

  predicate BothInSequence(n: Net) {
    InSequence(n.downReqs, n.client.rno) && InSequence(n.upReqs, n.server.rno)
  }

  /** Neither end ever sees a wrong sequence number, so the client's disconnection for one never happens. */
  lemma NoSequenceErrors(session: C.Session, n: Net)
    requires Reachable(session, n)
    ensures BothInSequence(n)
  {
    var u, d := ReachableGood(session, n);
    GoodInSequence(n, u, d);
  }

  /** An acknowledgement in slot `slot` answers one of the frames that were head since the last one. */
  lemma AckMeansOneOfTheSlot(l: Link, w: Wire)
    requires Rel(l, w) && w.acks != [] && |w.done| < |w.submitted|
    requires w.acks[0].Ack? && w.acks[0].ack.seqno == w.sno
    ensures w.accepted != [] && GivenUpSince(w.done) <= |w.done|
    ensures w.accepted[|w.accepted| - 1] in w.submitted[|w.done| - GivenUpSince(w.done)..|w.done| + 1]
  {
    AckRel(l, w, true);
    var f := l.accepted[l.slot];
    var from := |w.done| - GivenUpSince(w.done);
    assert w.submitted[from..|w.done| + 1][f - from] == w.submitted[f];
  }

  /** The last accepted frame is the head of the queue or one of the `drop` frames before it. */
  predicate LastIsHeadOrGivenUp(accepted: seq<seq<byte>>, log: History, queue: seq<seq<byte>>, drop: int) {
    && accepted != [] && 0 <= drop <= |log.done| < |log.submitted| && queue != []
    && (var last := accepted[|accepted| - 1];
        && last in log.submitted[|log.done| - drop..|log.done| + 1]
        && (drop == 0 ==> last == queue[0]))
  }

  /** What the oldest acknowledgement in flight proves to an end that releases its head on it. */
  ghost predicate AckProves(n: Net) {
    && (n.upAcks != [] && n.upAcks[0].Ack? && C.Releases(n.client, n.upAcks[0].ack) ==>
          LastIsHeadOrGivenUp(n.server.log.accepted, n.client.log, n.client.inqueue, n.client.drop))
    && (n.downAcks != [] && n.downAcks[0].Ack? && S.Releases(n.server, n.downAcks[0].ack) ==>
          LastIsHeadOrGivenUp(n.client.log.accepted, n.server.log, n.server.out, GivenUpSince(n.server.log.done)))
  }

  lemma GoodAckProves(n: Net, u: Link, d: Link)
    requires Good(n, u, d)
    ensures AckProves(n)
  {
    if n.upAcks != [] && n.upAcks[0].Ack? && C.Releases(n.client, n.upAcks[0].ack) {
      assert Up(n).acks[0] == n.upAcks[0];
      AckOnWire(u, Up(n), n.client.log, n.client.inqueue);
    }
    if n.downAcks != [] && n.downAcks[0].Ack? && S.Releases(n.server, n.downAcks[0].ack) {
      assert Down(n).acks[0] == n.downAcks[0];
      AckOnWire(d, Down(n), n.server.log, n.server.out);
    }
  }

  lemma AckOnWire(l: Link, w: Wire, log: History, queue: seq<seq<byte>>)
    requires Rel(l, w) && w.acks != [] && w.acks[0].Ack? && w.acks[0].ack.seqno == w.sno
    requires w.submitted == log.submitted && w.done == log.done && Conserved(log, queue) && queue != []
    ensures LastIsHeadOrGivenUp(w.accepted, log, queue, GivenUpSince(log.done))
  {
    AckMeansOneOfTheSlot(l, w);
    OneOfTheSlot(w, queue, GivenUpSince(w.done));
  }

  lemma OneOfTheSlot(w: Wire, queue: seq<seq<byte>>, drop: int)
    requires |w.done| < |w.submitted| && queue == w.submitted[|w.done|..] && drop == GivenUpSince(w.done) <= |w.done|
    requires w.accepted != [] && w.accepted[|w.accepted| - 1] in w.submitted[|w.done| - drop..|w.done| + 1]
    ensures drop == 0 ==> w.accepted[|w.accepted| - 1] == queue[0]
  {
    if drop == 0 {
      assert w.submitted[|w.done|..|w.done| + 1] == [queue[0]];
    }
  }

  /** The last frame that the other end has accepted is then the released one or one given up since the previous
      acknowledgement; if there is none, which the client's drop counter says, it is the released frame itself. */
  lemma AcknowledgementMeaning(session: C.Session, n: Net)
    requires Reachable(session, n)
    ensures AckProves(n)
  {
    var u, d := ReachableGood(session, n);
    GoodAckProves(n, u, d);
  }

  /** The accounting of both queues: what was submitted is what was removed followed by what is queued; a
      waiting end last sent its head under its current number; the head has been sent at most 4 times by the
      client and at most 10 times by the server. */
  predicate Balanced(n: Net) {
    && Conserved(n.client.log, n.client.inqueue) && n.client.log.tries <= 4
    && Conserved(n.server.log, n.server.out) && n.server.log.tries <= 10
    && (n.client.mod == 2 ==>
          n.client.inqueue != []
          && n.client.log.last == Some(TunnelRequest(n.client.session.channel, n.client.sno, n.client.inqueue[0])))
    && (n.server.state > 0 ==>
          n.server.out != []
          && n.server.log.last == Some(TunnelRequest(n.client.session.channel, n.server.sno, n.server.out[0])))
  }

  lemma TunnelBookkeeping(session: C.Session, n: Net)
    requires Reachable(session, n)
    ensures Balanced(n)
  {
    var u, d := ReachableGood(session, n);
    GoodBalanced(n, u, d);
  }

  lemma GoodBalanced(n: Net, u: Link, d: Link)
    requires Good(n, u, d)
    ensures Balanced(n)
  {
  }
}
