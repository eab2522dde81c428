/**
 * The link layer's own encoding of a data frame (L_Data_PDU of eibd/libserver/lpdu.cpp), as it is on the bus.
 */
module Lpdu {
  import opened Bytes
  import opened Emi

  /** What L_Data_PDU::ToPacket asserts. */
  predicate OnBus(l: LData) {
    1 <= |l.data| <= 0xff && l.hopcount < 8
  }

  /** Up to 16 bytes fit a standard frame. */
  predicate IsShort(l: LData) {
    |l.data| <= 16
  }

  function Xor(a: byte, b: byte): byte {
    ((a as bv8) ^ (b as bv8)) as int
  }

  function XorAll(s: seq<byte>): byte {
    if s == [] then 0 else Xor(XorAll(s[..|s| - 1]), s[|s| - 1])
  }

  /** The frame without its checksum. */
  function Front(l: LData): seq<byte>
    requires OnBus(l)
  {
    var control := 4 * PriorityBits(l.prio) + (if l.repeated then 0 else 0x20);
    var hops := 16 * l.hopcount + (if l.isGroup then 0x80 else 0);
    if IsShort(l) then
      [0x90 + control, Hi(l.source), Lo(l.source), Hi(l.dest), Lo(l.dest), hops + |l.data| - 1] + l.data
    else
      [0x10 + control, hops, Hi(l.source), Lo(l.source), Hi(l.dest), Lo(l.dest), |l.data| - 1] + l.data
  }

  /** L_Data_PDU::ToPacket */
  function ToPacket(l: LData): seq<byte>
    requires OnBus(l)
  {
    Front(l) + [255 - XorAll(Front(l))]
  }

  /** A frame read from the bus, and whether its length and its checksum are right. */
  datatype Read = Read(l: LData, validLength: bool, validChecksum: bool)

  predicate ChecksumOk(c: seq<byte>)
    requires c != []
  {
    c[|c| - 1] == 255 - XorAll(c[..|c| - 1])
  }

  /** L_Data_PDU::init; an extended frame that was cut off after 23 bytes is kept with eight bytes of data. */
  function FromPacket(c: seq<byte>): Option<Read> {
    if |c| < 6 || c[0] / 64 % 2 != 0 || c[0] / 16 % 2 != 1 || c[0] % 4 != 0 then None
    else if c[0] >= 0x80 then
      var len := c[5] as int % 16 + 1;
      if len + 7 != |c| then None
      else
        Some(Read(LData(PriorityOf(c[0] / 4 % 4), c[0] / 32 % 2 == 0, c[5] >= 0x80, Word(c[1], c[2]), Word(c[3], c[4]),
                        c[5] / 16 % 8, c[6..6 + len]), true, ChecksumOk(c)))
    else if c[1] % 16 != 0 || |c| < 7 then None
    else
      var len := c[6] as int + 1;
      var n := if len + 8 == |c| then len else 8;
      if len + 8 != |c| && |c| != 23 then None
      else
        Some(Read(LData(PriorityOf(c[0] / 4 % 4), c[0] / 32 % 2 == 0, c[1] >= 0x80, Word(c[2], c[3]), Word(c[4], c[5]),
                        c[1] / 16 % 8, c[7..7 + n]), len + 8 == |c|, ChecksumOk(c)))
  }

  /** Every frame survives the bus, with normal and urgent priority exchanged. */
  lemma RoundTrip(l: LData)
    requires OnBus(l)
    ensures FromPacket(ToPacket(l)) == Some(Read(l.(prio := Swap(l.prio)), true, true))
  {
    var c := ToPacket(l);
    assert c[..|c| - 1] == Front(l);
    ControlBits(l.prio, l.repeated, IsShort(l));
    if IsShort(l) {
      StandardParts(l);
      StandardRead(l, c);
    } else {
      ExtendedParts(l);
      ExtendedRead(l, c);
    }
  }

  lemma StandardParts(l: LData)
    requires OnBus(l) && IsShort(l)
    ensures var c := ToPacket(l);
            && |c| == |l.data| + 7 && c[6..6 + |l.data|] == l.data
            && Word(c[1], c[2]) == l.source && Word(c[3], c[4]) == l.dest
            && c[5] % 16 == |l.data| - 1 && c[5] / 16 % 8 == l.hopcount && (c[5] >= 0x80 <==> l.isGroup)
  {
    HopBits(l.hopcount, l.isGroup, |l.data| - 1);
    WordParts(l.source);
    WordParts(l.dest);
  }

  lemma ExtendedParts(l: LData)
    requires OnBus(l) && !IsShort(l)
    ensures var c := ToPacket(l);
            && |c| == |l.data| + 8 && c[7..7 + |l.data|] == l.data
            && Word(c[2], c[3]) == l.source && Word(c[4], c[5]) == l.dest && c[6] == |l.data| - 1
            && c[1] % 16 == 0 && c[1] / 16 % 8 == l.hopcount && (c[1] >= 0x80 <==> l.isGroup)
  {
    HopBits(l.hopcount, l.isGroup, 0);
    WordParts(l.source);
    WordParts(l.dest);
  }

  lemma WordParts(w: word)
    ensures Word(Hi(w), Lo(w)) == w
  {
  }

  predicate ControlOk(l: LData, b: byte) {
    && b / 64 % 2 == 0 && b / 16 % 2 == 1 && b % 4 == 0 && (b >= 0x80 <==> IsShort(l))
    && (b / 32 % 2 == 0 <==> l.repeated) && PriorityOf(b / 4 % 4) == Swap(l.prio)
  }

  lemma StandardRead(l: LData, c: seq<byte>)
    requires IsShort(l) && 1 <= |l.data| && |c| == |l.data| + 7 && ControlOk(l, c[0]) && ChecksumOk(c)
    requires c[6..6 + |l.data|] == l.data && Word(c[1], c[2]) == l.source && Word(c[3], c[4]) == l.dest
    requires c[5] % 16 == |l.data| - 1 && c[5] / 16 % 8 == l.hopcount && (c[5] >= 0x80 <==> l.isGroup)
    ensures FromPacket(c) == Some(Read(l.(prio := Swap(l.prio)), true, true))
  {
  }

  lemma ExtendedRead(l: LData, c: seq<byte>)
    requires !IsShort(l) && |l.data| <= 0xff && |c| == |l.data| + 8 && ControlOk(l, c[0]) && ChecksumOk(c)
    requires c[7..7 + |l.data|] == l.data && Word(c[2], c[3]) == l.source && Word(c[4], c[5]) == l.dest
    requires c[6] == |l.data| - 1
    requires c[1] % 16 == 0 && c[1] / 16 % 8 == l.hopcount && (c[1] >= 0x80 <==> l.isGroup)
    ensures FromPacket(c) == Some(Read(l.(prio := Swap(l.prio)), true, true))
  {
  }

  lemma ControlBits(p: Priority, repeated: bool, standard: bool)
    ensures var b: byte := (if standard then 0x90 else 0x10) + 4 * PriorityBits(p) + (if repeated then 0 else 0x20);
            && b / 64 % 2 == 0 && b / 16 % 2 == 1 && b % 4 == 0 && (b >= 0x80 <==> standard)
            && (b / 32 % 2 == 0 <==> repeated) && b / 4 % 4 == PriorityBits(p) && PriorityOf(b / 4 % 4) == Swap(p)
  {
  }

  lemma HopBits(hops: byte, group: bool, low: nat)
    requires hops < 8 && low < 16
    ensures var b: byte := 16 * hops + (if group then 0x80 else 0) + low;
            b % 16 == low && b / 16 % 8 == hops && (b >= 0x80 <==> group)
  {
  }

  /** So the encoding determines the frame: comparing encodings is comparing frames. */
  lemma Injective(l1: LData, l2: LData)
    requires OnBus(l1) && OnBus(l2)
    ensures ToPacket(l1) == ToPacket(l2) <==> l1 == l2
  {
    if ToPacket(l1) == ToPacket(l2) {
      RoundTrip(l1);
      RoundTrip(l2);
      SwapInvolution(l1.prio);
      SwapInvolution(l2.prio);
      assert l1.(prio := Swap(l1.prio)) == l2.(prio := Swap(l2.prio));
    }
  }

  /** cEMI carries the frame as it is on the bus: an extended one without its checksum behind code and an empty header,
      and a standard one with the hop and length fields taken apart. */
  lemma CemiIsOnBus(l: LData)
    requires OnBus(l) && Encodable(l)
    ensures var f, c := Front(l), ToCemi(DATA_IND, l);
            if IsShort(l)
            then c == [0x29, 0, f[0], f[5] / 16 * 16] + f[1..5] + [f[5] % 16] + f[6..]
            else c == [0x29, 0] + f
  {
    var f := Front(l);
    if IsShort(l) {
      HopBits(l.hopcount, l.isGroup, |l.data| - 1);
      assert f[5] / 16 * 16 == 16 * l.hopcount + (if l.isGroup then 0x80 else 0) && f[5] % 16 == |l.data| - 1;
      assert f[1..5] == [Hi(l.source), Lo(l.source), Hi(l.dest), Lo(l.dest)] && f[6..] == l.data;
    }
  }
}
