/**
 * Transport-layer PDUs (eibd/libserver/tpdu.cpp), as far as a connection uses them.
 */
module Tpdu {
  import opened Bytes

  /** A sequence number of the connection-oriented transport. */
  type serial = x: int | 0 <= x < 16

  /** A payload that the encoder accepts: it asserts that there is at least one byte. */
  type payload = p: seq<byte> | p != [] witness [0]

  datatype Tpdu =
    | Connect
    | Disconnect
    | Ack(serno: serial)
    | Nack(serno: serial)
    | DataConnected(serno: serial, data: payload)
    | DataUnconnected(data: payload)
    | Unknown

  /** TPDU::fromPacket with the init methods: the control byte selects, the length may refuse. */
  function FromPacket(c: seq<byte>): Tpdu {
    if c == [] then Unknown
    else if c[0] / 4 == 0 then DataUnconnected(c)
    else if c[0] / 64 == 1 then DataConnected(c[0] / 4 % 16, c)
    else if |c| != 1 then Unknown
    else if c[0] == 0x80 then Connect
    else if c[0] == 0x81 then Disconnect
    else if c[0] / 64 == 3 && c[0] % 4 == 2 then Ack(c[0] / 4 % 16)
    else if c[0] / 64 == 3 && c[0] % 4 == 3 then Nack(c[0] / 4 % 16)
    else Unknown
  }

  /** T_DATA_CONNECTED_REQ_PDU::ToPacket */
  function DataPacket(serno: serial, p: payload): payload {
    [p[0] % 4 + 0x40 + 4 * serno] + p[1..]
  }

  function AckPacket(serno: serial): seq<byte> {
    [0xC2 + 4 * serno]
  }

  function NackPacket(serno: serial): seq<byte> {
    [0xC3 + 4 * serno]
  }

  /** The payload as the layer above reads it: the upper six bits of the first byte are the transport's. */
  function Masked(p: payload): payload {
    [p[0] % 4] + p[1..]
  }

  lemma PacketRoundTrips(serno: serial, p: payload)
    ensures FromPacket(DataPacket(serno, p)) == DataConnected(serno, DataPacket(serno, p))
    ensures Masked(DataPacket(serno, p)) == Masked(p)
    ensures FromPacket(AckPacket(serno)) == Ack(serno)
  {
    var b := DataPacket(serno, p)[0];
    assert b / 64 == 1 && b / 4 % 16 == serno && b % 4 == p[0] % 4;
    var a := AckPacket(serno)[0];
    assert a / 64 == 3 && a % 4 == 2 && a / 4 % 16 == serno;
  }

  lemma NackRoundTrips(serno: serial)
    ensures FromPacket(NackPacket(serno)) == Nack(serno)
  {
    var n := NackPacket(serno)[0];
    assert n / 64 == 3 && n % 4 == 3 && n / 4 % 16 == serno;
  }
}
