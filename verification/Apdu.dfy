/**
 * The application PDUs of group values (eibd/libserver/apdu.cpp).
 */
module Apdu {
  import opened Bytes

  /** A small value shares its byte with the service. */
  datatype Apdu =
    | GroupRead
    | GroupResponse(data: seq<byte>, small: bool)
    | GroupWrite(data: seq<byte>, small: bool)
    | Other

  /** What the encoders assert; there is none here for the other services. */
  predicate Encodable(a: Apdu) {
    match a
    case GroupRead => true
    case GroupResponse(data, small) => small ==> |data| == 1 && data[0] < 0x40
    case GroupWrite(data, small) => small ==> |data| == 1 && data[0] < 0x40
    case Other => false
  }

  function Value(service: byte, data: seq<byte>, small: bool): seq<byte>
    requires service <= 0x80 && (small ==> |data| == 1 && data[0] < 0x40)
  {
    if small then [0, service + data[0]] else [0, service] + data
  }

  /** The ToPacket methods. */
  function ToPacket(a: Apdu): seq<byte>
    requires Encodable(a)
  {
    match a
    case GroupRead => [0, 0]
    case GroupResponse(data, small) => Value(0x40, data, small)
    case GroupWrite(data, small) => Value(0x80, data, small)
  }

  /** APDU::fromPacket with the init methods, as far as group values are concerned. */
  function FromPacket(c: seq<byte>): Apdu {
    if |c| < 2 || c[0] % 4 != 0 || c[1] >= 0xC0 then Other
    else if c[1] < 0x40 then (if |c| == 2 then GroupRead else Other)
    else
      var small := |c| == 2;
      var data := if small then [c[1] % 64] else c[2..];
      if c[1] < 0x80 then GroupResponse(data, small) else GroupWrite(data, small)
  }

  /** Every group PDU is read as itself, except that a long one without data is read as a small 0. */
  lemma RoundTrip(a: Apdu)
    requires Encodable(a)
    ensures var b := FromPacket(ToPacket(a));
            match a
            case GroupRead => b == a
            case GroupResponse(data, small) => b == if data == [] then GroupResponse([0], true) else a
            case GroupWrite(data, small) => b == if data == [] then GroupWrite([0], true) else a
  {
    if (a.GroupResponse? || a.GroupWrite?) && !a.small {
      assert ToPacket(a)[2..] == a.data;
    }
  }
}
