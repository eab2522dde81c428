/**
 * KNXnet/IP datagrams (eibd/libserver/eibnetip.cpp): the packet header and the tunnelling services.
 */
module EibNetIp {
  import opened Bytes

  const TUNNEL_REQUEST: word := 0x0420
  const TUNNEL_RESPONSE: word := 0x0421

  /** EIBNetIPPacket without its source address */
  datatype Packet = Packet(service: word, data: seq<byte>)

  /** EIBnet_TunnelRequest */
  datatype TunnelRequest = TunnelRequest(channel: byte, seqno: byte, cemi: seq<byte>)

  /** EIBnet_TunnelACK */
  datatype TunnelAck = TunnelAck(channel: byte, seqno: byte, status: byte)

  /** The parsed packets that the two ends of a tunnelling session exchange. */
  datatype Message =
    | Request(req: TunnelRequest)
    | ConfigRequest(req: TunnelRequest)
    | Ack(ack: TunnelAck)
    | StateRequest(channel: byte)
    | StateResponse(channel: byte, status: byte)
    | DisconnectRequest(channel: byte)
    | DisconnectResponse(channel: byte, status: byte)

  /**
   * History of one end of a session that no step reads: the frames submitted; for each frame removed from the
   * send queue, whether it was acknowledged (or given up); the cEMI frames accepted; the transmissions of the
   * present head of the queue; the last request sent.
   */
  datatype History = History(
    submitted: seq<seq<byte>>, done: seq<bool>, accepted: seq<seq<byte>>, tries: nat, last: Option<TunnelRequest>)

  const NO_HISTORY := History([], [], [], 0, None)

  /** Nothing vanishes from a send queue: what has been removed is a prefix of what was submitted, and the rest
      is queued. */
  predicate Conserved(log: History, queue: seq<seq<byte>>) {
    |log.done| <= |log.submitted| && queue == log.submitted[|log.done|..]
  }

  /** How many of the removed frames were given up. */
  function GivenUp(done: seq<bool>): nat {
    if done == [] then 0
    else GivenUp(done[..|done| - 1]) + if done[|done| - 1] then 0 else 1
  }

  /** How many were given up since the last acknowledgement. */
  function GivenUpSince(done: seq<bool>): nat {
    if done == [] || done[|done| - 1] then 0 else 1 + GivenUpSince(done[..|done| - 1])
  }

  lemma GivenUpAppend(done: seq<bool>, acked: bool)
    ensures GivenUp(done + [acked]) == GivenUp(done) + if acked then 0 else 1
    ensures GivenUpSince(done + [acked]) == if acked then 0 else GivenUpSince(done) + 1
  {
    assert (done + [acked])[..|done|] == done;
  }

  /** EIBNetIPPacket::ToPacket; the length field keeps 16 bits. */
  function Datagram(p: Packet): seq<byte> {
    var len := (|p.data| + 6) % 0x10000;
    [0x06, 0x10, Hi(p.service), Lo(p.service), Hi(len), Lo(len)] + p.data
  }

  /** EIBNetIPPacket::fromPacket */
  function FromDatagram(c: seq<byte>): Option<Packet> {
    if |c| < 6 || c[0] != 0x06 || c[1] != 0x10 || Word(c[4], c[5]) != |c| then None
    else Some(Packet(Word(c[2], c[3]), c[6..]))
  }

  function RequestToPacket(r: TunnelRequest): Packet {
    Packet(TUNNEL_REQUEST, [4, r.channel, r.seqno, 0] + r.cemi)
  }

  /** parseEIBnet_TunnelRequest */
  function ParseRequest(p: Packet): Option<TunnelRequest> {
    if p.service != TUNNEL_REQUEST || |p.data| < 6 || p.data[0] != 4 then None
    else Some(TunnelRequest(p.data[1], p.data[2], p.data[4..]))
  }

  function AckToPacket(a: TunnelAck): Packet {
    Packet(TUNNEL_RESPONSE, [4, a.channel, a.seqno, a.status])
  }

  /** parseEIBnet_TunnelACK */
  function ParseAck(p: Packet): Option<TunnelAck> {
    if p.service != TUNNEL_RESPONSE || |p.data| != 4 || p.data[0] != 4 then None
    else Some(TunnelAck(p.data[1], p.data[2], p.data[3]))
  }

  /** The two datagrams of the tunnel, byte by byte. */
  lemma TunnelBytes(r: TunnelRequest, a: TunnelAck)
    requires |r.cemi| < 0xfff6
    ensures Datagram(RequestToPacket(r))
            == [6, 0x10, 4, 0x20, (|r.cemi| + 10) / 256, (|r.cemi| + 10) % 256, 4, r.channel, r.seqno, 0] + r.cemi
    ensures Datagram(AckToPacket(a)) == [6, 0x10, 4, 0x21, 0, 10, 4, a.channel, a.seqno, a.status]
  {
    assert |RequestToPacket(r).data| == |r.cemi| + 4;
  }

  lemma DatagramParts(p: Packet)
    ensures var c := Datagram(p);
            && |c| == |p.data| + 6 && c[0] == 0x06 && c[1] == 0x10 && Word(c[2], c[3]) == p.service
            && Word(c[4], c[5]) == |c| % 0x10000 && c[6..] == p.data
  {
    var len := (|p.data| + 6) % 0x10000;
    WordOf(p.service);
    WordOf(len);
    Header(0x06, 0x10, Hi(p.service), Lo(p.service), Hi(len), Lo(len), p.data);
  }

  /** The header survives exactly when the datagram length fits its 16-bit field. */
  lemma DatagramRoundTrip(p: Packet)
    ensures FromDatagram(Datagram(p)) == Some(p) <==> |p.data| + 6 < 0x10000
    ensures FromDatagram(Datagram(p)).Some? ==> FromDatagram(Datagram(p)) == Some(p)
  {
    DatagramParts(p);
    Read(Datagram(p));
  }

  lemma Read(c: seq<byte>)
    requires |c| >= 6 && c[0] == 0x06 && c[1] == 0x10 && Word(c[4], c[5]) == |c| % 0x10000
    ensures FromDatagram(c) == if |c| < 0x10000 then Some(Packet(Word(c[2], c[3]), c[6..])) else None
  {
  }

  lemma WordOf(w: word)
    ensures Word(Hi(w), Lo(w)) == w
  {
  }

  lemma Header(b0: byte, b1: byte, b2: byte, b3: byte, b4: byte, b5: byte, data: seq<byte>)
    ensures var c := [b0, b1, b2, b3, b4, b5] + data;
            && |c| == |data| + 6 && c[0] == b0 && c[1] == b1 && c[2] == b2 && c[3] == b3
            && c[4] == b4 && c[5] == b5 && c[6..] == data
  {
  }

  /** Conversely, an accepted datagram is the encoding of the packet read from it. */
  lemma DatagramCanonical(c: seq<byte>)
    requires FromDatagram(c).Some?
    ensures Datagram(FromDatagram(c).value) == c
  {
    assert c == c[..6] + c[6..];
  }

  /** A tunnel request arrives unchanged exactly when it carries two or more cEMI bytes and fits a datagram;
      otherwise the receiver reads no request at all. */
  lemma RequestRoundTrip(r: TunnelRequest)
    ensures var p := FromDatagram(Datagram(RequestToPacket(r)));
            if 2 <= |r.cemi| < 0x10000 - 10
            then p.Some? && ParseRequest(p.value) == Some(r)
            else p.None? || ParseRequest(p.value) == None
  {
    DatagramRoundTrip(RequestToPacket(r));
    assert RequestToPacket(r).data[4..] == r.cemi;
  }

  /** Every acknowledgement arrives unchanged, and is never read as a request. */
  lemma AckRoundTrip(a: TunnelAck)
    ensures var p := FromDatagram(Datagram(AckToPacket(a)));
            p.Some? && ParseAck(p.value) == Some(a) && ParseRequest(p.value) == None
  {
    DatagramRoundTrip(AckToPacket(a));
  }
}
