/**
 * One direction of the tunnelling protocol with unbounded counters: a stop-and-wait sender that may give a
 * frame up without advancing its counter, a receiver, and two FIFO channels that lose and duplicate.
 *
 * A slot is the number of acknowledgements the sender has taken; on the wire it travels as slot mod 256.
 * A frame is named by its position in the order of submission.
 */
module TunnelLink {
  import opened Bytes

  /** A request in flight: the slot it was sent under and the frame it carries. */
  datatype Tag = Tag(slot: nat, frame: nat)

  /**
   * submitted: frames handed to the sender; removed: frames it has dequeued (the head is frame `removed`);
   * slot: acknowledgements taken; since: frames given up in the current slot; lost: frames given up in all;
   * accepted: the frame accepted in each slot; reqs, acks: what is in flight, oldest first.
   */
  datatype Link = Link(
    submitted: nat, removed: nat, slot: nat, since: nat, lost: nat,
    accepted: seq<nat>, reqs: seq<Tag>, acks: seq<nat>)

  const START := Link(0, 0, 0, 0, 0, [], [], [])

  ghost predicate Inv(l: Link) {
    && l.since <= l.lost
    && l.removed == l.slot + l.lost <= l.submitted
    && l.slot <= |l.accepted| <= l.slot + 1
    && RequestsInWindow(l)
    && AcksInWindow(l)
    && AcceptedInOrder(l)
  }

  /** The first frame that was sent under the current slot. */
  function Base(l: Link): int {
    l.removed - l.since
  }

  /** Requests in flight belong to the last accepted slot or the next one, oldest first, and those of the
      current slot carry a frame that was head of the queue since the last acknowledgement. */
  ghost predicate RequestsInWindow(l: Link) {
    && (forall i, j :: 0 <= i < j < |l.reqs| ==> l.reqs[i].slot <= l.reqs[j].slot)
    && (forall i :: 0 <= i < |l.reqs| ==>
          && |l.accepted| - 1 <= l.reqs[i].slot <= l.slot
          && l.reqs[i].frame < l.submitted
          && (l.reqs[i].slot == l.slot ==> Base(l) <= l.reqs[i].frame <= l.removed))
  }

  /** Acknowledgements in flight belong to the current slot or the one before, oldest first. */
  ghost predicate AcksInWindow(l: Link) {
    && (forall i, j :: 0 <= i < j < |l.acks| ==> l.acks[i] <= l.acks[j])
    && (forall i :: 0 <= i < |l.acks| ==> l.slot - 1 <= l.acks[i] < |l.accepted|)
  }

  /** Accepted frames increase; slot k was used for a frame at least k and at most k plus the give-ups. */
  ghost predicate AcceptedInOrder(l: Link) {
    && l.slot <= |l.accepted|
    && (forall i, j :: 0 <= i < j < |l.accepted| ==> l.accepted[i] < l.accepted[j])
    && (forall k :: 0 <= k < |l.accepted| ==> k <= l.accepted[k] <= k + l.lost && l.accepted[k] < l.submitted)
    && (forall k :: 0 <= k < l.slot ==> l.accepted[k] < Base(l))
    && (|l.accepted| == l.slot + 1 ==> Base(l) <= l.accepted[l.slot] <= l.removed)
  }

  /** The sequence with the element at position k doubled in place. */
  function Doubled<T>(s: seq<T>, k: nat): (d: seq<T>)
    requires k < |s|
    ensures |d| == |s| + 1 && forall i :: 0 <= i < |d| ==> d[i] == s[if i <= k then i else i - 1]
  {
    s[..k + 1] + s[k..]
  }

  // The steps.

  function Submit(l: Link): Link {
    l.(submitted := l.submitted + 1)
  }

  /** The sender transmits its head, for the first time or again. */
  function Transmit(l: Link): Link {
    l.(reqs := l.reqs + [Tag(l.slot, l.removed)])
  }

  /** The sender drops its head; the counter stays. */
  function GiveUp(l: Link): Link {
    l.(removed := l.removed + 1, since := l.since + 1, lost := l.lost + 1)
  }

  /** The oldest acknowledgement arrives: the sender takes it if it is for the current slot and it waits. */
  function ReceiveAck(l: Link, waiting: bool): Link
    requires l.acks != []
  {
    if l.acks[0] == l.slot && waiting
    then l.(acks := l.acks[1..], removed := l.removed + 1, slot := l.slot + 1, since := 0)
    else l.(acks := l.acks[1..])
  }

  /** The oldest request arrives: accepted and acknowledged if it is for the next slot, acknowledged again if
      it is for the last accepted one. */
  function ReceiveRequest(l: Link): Link
    requires l.reqs != []
  {
    var r := l.reqs[0];
    var l' := l.(reqs := l.reqs[1..], acks := l.acks + [r.slot]);
    if r.slot == |l.accepted| then l'.(accepted := l.accepted + [r.frame]) else l'
  }

  function LoseRequest(l: Link, k: nat): Link
    requires k < |l.reqs|
  {
    l.(reqs := Without(l.reqs, k))
  }

  function LoseAck(l: Link, k: nat): Link
    requires k < |l.acks|
  {
    l.(acks := Without(l.acks, k))
  }

  function CopyRequest(l: Link, k: nat): Link
    requires k < |l.reqs|
  {
    l.(reqs := Doubled(l.reqs, k))
  }

  function CopyAck(l: Link, k: nat): Link
    requires k < |l.acks|
  {
    l.(acks := Doubled(l.acks, k))
  }

  // Every step keeps the invariant.

  lemma SubmitKeeps(l: Link)
    requires Inv(l)
    ensures Inv(Submit(l))
  {
  }

  lemma TransmitKeeps(l: Link)
    requires Inv(l) && l.removed < l.submitted
    ensures Inv(Transmit(l))
  {
  }

  lemma GiveUpKeeps(l: Link)
    requires Inv(l) && l.removed < l.submitted
    ensures Inv(GiveUp(l))
  {
  }

  lemma ReceiveAckKeeps(l: Link, waiting: bool)
    requires Inv(l) && l.acks != [] && (waiting ==> l.removed < l.submitted)
    ensures Inv(ReceiveAck(l, waiting))
    ensures l.acks[0] == l.slot || l.acks[0] == l.slot - 1
  {
  }

  lemma ReceiveRequestKeeps(l: Link)
    requires Inv(l) && l.reqs != []
    ensures Inv(ReceiveRequest(l))
    ensures l.reqs[0].slot == |l.accepted| || l.reqs[0].slot == |l.accepted| - 1
  {
  }

  lemma LoseRequestKeeps(l: Link, k: nat)
    requires Inv(l) && k < |l.reqs|
    ensures Inv(LoseRequest(l, k))
  {
    assert RequestsInWindow(LoseRequest(l, k));
  }

  lemma LoseAckKeeps(l: Link, k: nat)
    requires Inv(l) && k < |l.acks|
    ensures Inv(LoseAck(l, k))
  {
    assert AcksInWindow(LoseAck(l, k));
  }

  lemma LossKeeps(l: Link, k: nat)
    requires Inv(l)
    ensures k < |l.reqs| ==> Inv(LoseRequest(l, k))
    ensures k < |l.acks| ==> Inv(LoseAck(l, k))
  {
    if k < |l.reqs| {
      LoseRequestKeeps(l, k);
    }
    if k < |l.acks| {
      LoseAckKeeps(l, k);
    }
  }

  lemma CopyRequestKeeps(l: Link, k: nat)
    requires Inv(l) && k < |l.reqs|
    ensures Inv(CopyRequest(l, k))
  {
    var r := Doubled(l.reqs, k);
    forall i, j | 0 <= i < j < |r| ensures r[i].slot <= r[j].slot {
      var i', j' := if i <= k then i else i - 1, if j <= k then j else j - 1;
      assert r[i] == l.reqs[i'] && r[j] == l.reqs[j'];
    }
    forall i | 0 <= i < |r| ensures r[i] in l.reqs {
      assert r[i] == l.reqs[if i <= k then i else i - 1];
    }
    assert RequestsInWindow(CopyRequest(l, k));
  }

  lemma CopyAckKeeps(l: Link, k: nat)
    requires Inv(l) && k < |l.acks|
    ensures Inv(CopyAck(l, k))
  {
    var r := Doubled(l.acks, k);
    forall i, j | 0 <= i < j < |r| ensures r[i] <= r[j] {
      var i', j' := if i <= k then i else i - 1, if j <= k then j else j - 1;
      assert r[i] == l.acks[i'] && r[j] == l.acks[j'];
    }
    forall i | 0 <= i < |r| ensures r[i] in l.acks {
      assert r[i] == l.acks[if i <= k then i else i - 1];
    }
    assert AcksInWindow(CopyAck(l, k));
  }

  lemma CopyKeeps(l: Link, k: nat)
    requires Inv(l)
    ensures k < |l.reqs| ==> Inv(CopyRequest(l, k))
    ensures k < |l.acks| ==> Inv(CopyAck(l, k))
  {
    if k < |l.reqs| {
      CopyRequestKeeps(l, k);
    }
    if k < |l.acks| {
      CopyAckKeeps(l, k);
    }
  }

  /** Counters that differ by at most one agree mod 256 only if they are equal: the wire number of anything in
      flight identifies its slot. */
  lemma WireNumbers(a: nat, b: nat)
    requires -1 <= a - b <= 1
    ensures a % 256 == b % 256 <==> a == b
    ensures (a % 256 + 1) % 256 == b % 256 <==> a + 1 == b
  {
    NextNumber(a);
    SameNumber(a, b);
    SameNumber(a + 1, b);
  }

  lemma NextNumber(a: nat)
    ensures (a % 256 + 1) % 256 == (a + 1) % 256
  {
    assert a + 1 == a % 256 + 1 + 256 * (a / 256);
  }

  lemma SameNumber(a: nat, b: nat)
    requires -2 <= a - b <= 2
    ensures a % 256 == b % 256 <==> a == b
  {
    assert a - b == 256 * (a / 256 - b / 256) + (a % 256 - b % 256);
  }
}
