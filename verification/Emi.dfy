/**
 * The cEMI frame codec (eibd/libserver/emi.cpp): link-layer data frames as KNXnet/IP carries them.
 */
module Emi {
  import opened Bytes

  datatype Priority = System | Urgent | Normal | Low

  /** A link-layer data frame (the fields of L_Data_PDU that cEMI carries). */
  datatype LData = LData(
    prio: Priority,
    repeated: bool,
    isGroup: bool,
    source: word,
    dest: word,
    hopcount: byte,
    data: seq<byte>
  )

  /** What L_Data_ToCEMI asserts of its argument. */
  predicate Encodable(l: LData) {
    1 <= |l.data| < 0xff && l.hopcount < 8
  }

  const DATA_REQ: byte := 0x11
  const DATA_IND: byte := 0x29
  const DATA_CON: byte := 0x2E
  const BUSMON_IND: byte := 0x2B

  /** The encoder's two priority bits. */
  function PriorityBits(p: Priority): byte {
    match p
    case System => 0
    case Normal => 1
    case Urgent => 2
    case Low => 3
  }

  /** The decoder's reading of the two bits: 1 and 2 are read the other way round. */
  function PriorityOf(bits: int): Priority
    requires 0 <= bits < 4
  {
    if bits == 0 then System else if bits == 1 then Urgent else if bits == 2 then Normal else Low
  }

  /** L_Data_ToCEMI */
  function ToCemi(code: byte, l: LData): (pdu: seq<byte>)
    requires Encodable(l)
    ensures |pdu| == |l.data| + 9 && pdu[0] == code
  {
    var notRepeated := if code == DATA_IND then !l.repeated else true;
    [code,
     0,
     0x10 + 4 * PriorityBits(l.prio) + (if |l.data| - 1 <= 0x0f then 0x80 else 0) + (if notRepeated then 0x20 else 0),
     (if l.isGroup then 0x80 else 0) + 16 * l.hopcount,
     Hi(l.source), Lo(l.source),
     Hi(l.dest), Lo(l.dest),
     |l.data| - 1] + l.data
  }

  /** CEMI_to_L_Data: `None` is the null pointer the C++ code returns. */
  function FromCemi(d: seq<byte>): Option<LData> {
    if |d| < 2 then None
    else
      var start := d[1] as int + 2;
      if |d| < 7 + start then None
      else if |d| < 7 + start + d[6 + start] + 1 then None
      else
        Some(LData(
          PriorityOf((d[start] / 4) % 4),
          d[0] == DATA_IND && (d[start] / 32) % 2 == 0,
          d[start + 1] >= 0x80,
          Word(d[start + 2], d[start + 3]),
          Word(d[start + 4], d[start + 5]),
          (d[start + 1] / 16) % 8,
          d[start + 7..start + 7 + d[6 + start] + 1]))
  }

  /** CEMI_to_Busmonitor */
  function FromCemiBusmonitor(d: seq<byte>): Option<seq<byte>> {
    if |d| < 2 || |d| < d[1] as int + 3 then None else Some(d[d[1] as int + 2..])
  }

  /** What one trip through the codec does to a priority. */
  function Swap(p: Priority): Priority {
    match p
    case Urgent => Normal
    case Normal => Urgent
    case _ => p
  }

  /** Two trips restore the priority, and exactly the priorities whose bits are 0 or 3 survive one. */
  lemma SwapInvolution(p: Priority)
    ensures PriorityOf(PriorityBits(p)) == Swap(p) && Swap(Swap(p)) == p
    ensures Swap(p) == p <==> p == System || p == Low
  {
  }

  /** Every encodable frame decodes to itself, with urgent and normal priority exchanged and, unless the
      code is an indication, the repeat flag lost. */
  lemma RoundTrip(code: byte, l: LData)
    requires Encodable(l)
    ensures FromCemi(ToCemi(code, l))
         == Some(l.(prio := Swap(l.prio), repeated := code == DATA_IND && l.repeated))
  {
    var d := ToCemi(code, l);
    assert d[9..9 + |l.data|] == l.data;
    assert d[2] / 32 % 2 == if code == DATA_IND && l.repeated then 0 else 1;
    assert d[2] / 4 % 4 == PriorityBits(l.prio);
    assert d[3] / 16 % 8 == l.hopcount;
  }

  /** The encoding determines the frame: for indications it is injective. */
  lemma IndicationInjective(l1: LData, l2: LData)
    requires Encodable(l1) && Encodable(l2) && ToCemi(DATA_IND, l1) == ToCemi(DATA_IND, l2)
    ensures l1 == l2
  {
    RoundTrip(DATA_IND, l1);
    RoundTrip(DATA_IND, l2);
    SwapInvolution(l1.prio);
    SwapInvolution(l2.prio);
  }

  /** A decoded frame has a payload that the encoder accepts again, unless it fills the length byte. */
  lemma DecodedEncodable(d: seq<byte>)
    requires FromCemi(d).Some?
    ensures 1 <= |FromCemi(d).value.data| <= 0x100 && FromCemi(d).value.hopcount < 8
    ensures Encodable(FromCemi(d).value) <==> d[8 + d[1]] < 0xfe
  {
  }
}
