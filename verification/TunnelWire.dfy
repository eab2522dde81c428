/**
 * One direction of a tunnel as its packets and counters show it, related to the unbounded counters of TunnelLink.
 */
module TunnelWire {
  import opened Bytes
  import opened EibNetIp
  import opened TunnelLink

  /** The sender's queue history and number, the receiver's number and accepted frames, and the two channels. */
  datatype Wire = Wire(
    channel: byte, submitted: seq<seq<byte>>, done: seq<bool>, sno: byte,
    rno: byte, accepted: seq<seq<byte>>,
    reqs: seq<Message>, acks: seq<Message>)

  function WireRequest(channel: byte, seqno: byte, cemi: seq<byte>): Message {
    Request(TunnelRequest(channel, seqno, cemi))
  }

  function WireAck(channel: byte, seqno: byte): Message {
    Ack(TunnelAck(channel, seqno, 0))
  }

  function Next(n: byte): byte {
    if n + 1 > 0xff then 0 else n + 1
  }

  lemma NextOf(a: nat)
    ensures Next(a % 256) == (a + 1) % 256
  {
    NextNumber(a);
  }

  ghost predicate Rel(l: Link, w: Wire) {
    && Inv(l)
    && l.submitted == |w.submitted| && l.removed == |w.done|
    && l.lost == GivenUp(w.done) && l.since == GivenUpSince(w.done)
    && w.sno == l.slot % 256 && w.rno == |l.accepted| % 256
    && |w.accepted| == |l.accepted|
    && (forall k :: 0 <= k < |l.accepted| ==> w.accepted[k] == w.submitted[l.accepted[k]])
    && |w.reqs| == |l.reqs|
    && (forall i :: 0 <= i < |l.reqs| ==>
          w.reqs[i] == WireRequest(w.channel, l.reqs[i].slot % 256, w.submitted[l.reqs[i].frame]))
    && |w.acks| == |l.acks|
    && (forall i :: 0 <= i < |l.acks| ==> w.acks[i] == WireAck(w.channel, l.acks[i] % 256))
  }

  lemma StartRel(channel: byte)
    ensures Rel(START, Wire(channel, [], [], 0, 0, [], [], []))
  {
    EmptyRel(START, Wire(channel, [], [], 0, 0, [], [], []));
  }

  lemma EmptyRel(l: Link, w: Wire)
    requires |w.submitted| == |w.done| == |w.accepted| == |w.reqs| == |w.acks| == w.sno == w.rno == 0
    requires |l.accepted| == |l.reqs| == |l.acks| == l.submitted == l.removed == l.slot == l.since == l.lost == 0
    ensures Rel(l, w)
  {
    assert RequestsInWindow(l) && AcksInWindow(l) && AcceptedInOrder(l);
    assert w.done == [];
  }

  lemma SubmitRel(l: Link, w: Wire, f: seq<byte>)
    requires Rel(l, w)
    ensures Rel(Submit(l), w.(submitted := w.submitted + [f]))
  {
    SubmitKeeps(l);
  }

  lemma TransmitRel(l: Link, w: Wire)
    requires Rel(l, w) && |w.done| < |w.submitted|
    ensures Rel(Transmit(l), w.(reqs := w.reqs + [WireRequest(w.channel, w.sno, w.submitted[|w.done|])]))
  {
    TransmitKeeps(l);
  }

  lemma GiveUpRel(l: Link, w: Wire)
    requires Rel(l, w) && |w.done| < |w.submitted|
    ensures Rel(GiveUp(l), w.(done := w.done + [false]))
  {
    GiveUpKeeps(l);
    GivenUpAppend(w.done, false);
  }

  /** The wire number of the oldest acknowledgement tells its slot. */
  lemma AckHead(l: Link, w: Wire)
    requires Rel(l, w) && w.acks != []
    ensures w.acks[0] == WireAck(w.channel, l.acks[0] % 256)
    ensures w.acks[0].ack.seqno == w.sno <==> l.acks[0] == l.slot
  {
    ReceiveAckKeeps(l, false);
    WireNumbers(l.acks[0], l.slot);
  }

  lemma AckTaken(l: Link, w: Wire)
    requires Rel(l, w) && w.acks != [] && l.acks[0] == l.slot && |w.done| < |w.submitted|
    ensures Rel(ReceiveAck(l, true), w.(acks := w.acks[1..], sno := Next(w.sno), done := w.done + [true]))
  {
    ReceiveAckKeeps(l, true);
    GivenUpAppend(w.done, true);
    NextOf(l.slot);
  }

  lemma AckDropped(l: Link, w: Wire, waiting: bool)
    requires Rel(l, w) && w.acks != [] && !(waiting && l.acks[0] == l.slot)
    ensures Rel(ReceiveAck(l, waiting), w.(acks := w.acks[1..]))
  {
    ReceiveAckKeeps(l, false);
  }

  /** The oldest acknowledgement, at a sender that does or does not wait. It is for the current number or the
      one before; taken, it releases a frame that the receiver has accepted, unless a frame has been given up
      since the last one. */
  lemma AckRel(l: Link, w: Wire, waiting: bool)
    requires Rel(l, w) && w.acks != [] && (waiting ==> |w.done| < |w.submitted|)
    ensures exists s :: w.acks[0] == WireAck(w.channel, s)
    ensures var w' := w.(acks := w.acks[1..]);
            Rel(ReceiveAck(l, waiting),
                if waiting && w.acks[0].ack.seqno == w.sno
                then w'.(sno := Next(w.sno), done := w.done + [true])
                else w')
    ensures waiting && w.acks[0].ack.seqno == w.sno ==> |l.accepted| == l.slot + 1
    ensures waiting && w.acks[0].ack.seqno == w.sno && GivenUpSince(w.done) == 0 ==>
              w.accepted != [] && w.accepted[|w.accepted| - 1] == w.submitted[|w.done|]
  {
    AckHead(l, w);
    if waiting && l.acks[0] == l.slot {
      AckTaken(l, w);
    } else {
      AckDropped(l, w, waiting);
    }
  }

  /** The wire number of the oldest request tells its slot. */
  lemma RequestHead(l: Link, w: Wire)
    requires Rel(l, w) && w.reqs != []
    ensures w.reqs[0] == WireRequest(w.channel, l.reqs[0].slot % 256, w.submitted[l.reqs[0].frame])
    ensures l.reqs[0].slot == |l.accepted| || l.reqs[0].slot == |l.accepted| - 1
    ensures (w.reqs[0].req.seqno + 1) % 256 == w.rno <==> l.reqs[0].slot == |l.accepted| - 1
    ensures w.reqs[0].req.seqno == w.rno <==> l.reqs[0].slot == |l.accepted|
  {
    ReceiveRequestKeeps(l);
    WireNumbers(l.reqs[0].slot, |l.accepted|);
  }

  lemma RequestAccepted(l: Link, w: Wire)
    requires Rel(l, w) && w.reqs != [] && l.reqs[0].slot == |l.accepted|
    ensures var r := w.reqs[0].req;
            Rel(ReceiveRequest(l),
                w.(reqs := w.reqs[1..], acks := w.acks + [WireAck(w.channel, r.seqno)],
                   rno := Next(w.rno), accepted := w.accepted + [r.cemi]))
  {
    ReceiveRequestKeeps(l);
    NextOf(|l.accepted|);
  }

  lemma RequestRepeated(l: Link, w: Wire)
    requires Rel(l, w) && w.reqs != [] && l.reqs[0].slot != |l.accepted|
    ensures Rel(ReceiveRequest(l),
                w.(reqs := w.reqs[1..], acks := w.acks + [WireAck(w.channel, w.reqs[0].req.seqno)]))
  {
    ReceiveRequestKeeps(l);
  }

  /** The oldest request. It carries the receiver's number and is accepted, or the number before and is
      acknowledged again; no other number can arrive. */
  lemma RequestRel(l: Link, w: Wire)
    requires Rel(l, w) && w.reqs != []
    ensures w.reqs[0].Request? && w.reqs[0].req.channel == w.channel && w.reqs[0].req.cemi in w.submitted
    ensures (w.reqs[0].req.seqno + 1) % 256 == w.rno || w.reqs[0].req.seqno == w.rno
    ensures var r := w.reqs[0].req;
            var w' := w.(reqs := w.reqs[1..], acks := w.acks + [WireAck(w.channel, r.seqno)]);
            Rel(ReceiveRequest(l),
                if (r.seqno + 1) % 256 == w.rno then w'
                else w'.(rno := Next(w.rno), accepted := w.accepted + [r.cemi]))
  {
    RequestHead(l, w);
    if l.reqs[0].slot == |l.accepted| {
      RequestAccepted(l, w);
    } else {
      RequestRepeated(l, w);
    }
  }

  lemma LoseRel(l: Link, w: Wire, k: nat)
    requires Rel(l, w)
    ensures k < |w.reqs| ==> Rel(LoseRequest(l, k), w.(reqs := Without(w.reqs, k)))
    ensures k < |w.acks| ==> Rel(LoseAck(l, k), w.(acks := Without(w.acks, k)))
  {
    LossKeeps(l, k);
  }

  lemma CopyRel(l: Link, w: Wire, k: nat)
    requires Rel(l, w)
    ensures k < |w.reqs| ==> Rel(CopyRequest(l, k), w.(reqs := Doubled(w.reqs, k)))
    ensures k < |w.acks| ==> Rel(CopyAck(l, k), w.(acks := Doubled(w.acks, k)))
  {
    CopyKeeps(l, k);
  }
}
