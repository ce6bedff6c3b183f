/** Packet arithmetic, packets and the fountain codec's contract. */
module WirehairCore {
  import opened Gf256

  const WINDOW_MAX: nat := 16
  const WH_PACKET_SIZE: nat := 1370
  const REPAIR_MIN_PACKETS: nat := 2
  const ACK_REPAIR_ROUND_PCT: nat := 5
  const UINT32: nat := 0x1_0000_0000
  const UINT16: nat := 0x1_0000

  /** 32-bit arithmetic: the rounding sum wraps. */
  function SourcePackets(segmentBytes: nat): (n: nat)
    requires segmentBytes < UINT32
  {
    if segmentBytes == 0 then 0
    else
      var packets := (segmentBytes + WH_PACKET_SIZE - 1) % UINT32 / WH_PACKET_SIZE;
      if packets < 2 then 2 else packets
  }

  function RepairPackets(source: nat, percent: nat): (n: nat) {
    if source == 0 || percent == 0 then 0
    else
      var repair := (source * percent + 99) / 100;
      if repair < REPAIR_MIN_PACKETS then REPAIR_MIN_PACKETS else repair
  }

  function RepairCeiling(source: nat, percent: nat, ack: bool): (n: nat) {
    var repair := RepairPackets(source, percent);
    if ack && source > repair then source else repair
  }

  /** Source packets cover the segment exactly when the rounding sum does not
      wrap, and beyond one packet with none to spare; near 2^32 the code asks for
      two packets. */
  lemma SourcePacketsCover(n: nat)
    requires n < UINT32
    ensures SourcePackets(n) * WH_PACKET_SIZE >= n <==> n + WH_PACKET_SIZE - 1 < UINT32
    ensures WH_PACKET_SIZE < n && n + WH_PACKET_SIZE - 1 < UINT32 ==> (SourcePackets(n) - 1) * WH_PACKET_SIZE < n
  {
    var t := n + WH_PACKET_SIZE - 1;
    if t < UINT32 {
      var q := t / WH_PACKET_SIZE;
      assert t == q * WH_PACKET_SIZE + t % WH_PACKET_SIZE;
    } else {
      assert t % UINT32 == t - UINT32;
    }
  }

  /** Segments shorter than two packets are zero-padded to two packets. */
  function CodecBytes(segmentBytes: nat): (n: nat) {
    if segmentBytes < 2 * WH_PACKET_SIZE then 2 * WH_PACKET_SIZE else segmentBytes
  }

  function Padded(data: Bytes): (m: Bytes)
    ensures |m| == CodecBytes(|data|) && m[..|data|] == data
  {
    data + seq(CodecBytes(|data|) - |data|, i => ZERO)
  }

  // ---------------------------------------------------------------------
  // The fountain codec.

  datatype DecodeResult = NeedMore | Success(message: Bytes) | Failure

  datatype Symbol = Symbol(id: nat, payload: Bytes)

  datatype Fountain = Fountain(encode: (Bytes, nat) -> Bytes, decode: (nat, seq<Symbol>) -> DecodeResult)

  /** Source packets are slices of the message; repair packets are encoded. */
  function Payload(f: Fountain, message: Bytes, id: nat, source: nat): (p: Bytes) {
    if id < source then
      var from := id * WH_PACKET_SIZE;
      if from >= |message| then []
      else if |message| - from < WH_PACKET_SIZE then message[from..]
      else message[from..from + WH_PACKET_SIZE]
    else f.encode(message, id)
  }

  ghost predicate Genuine(f: Fountain, message: Bytes, source: nat, symbols: seq<Symbol>) {
    forall i :: 0 <= i < |symbols| ==> symbols[i].payload == Payload(f, message, symbols[i].id, source)
  }

  /** If decoding succeeds after only genuine packets, it yields the message. */
  ghost predicate Sound(f: Fountain) {
    forall message, source, symbols ::
      Genuine(f, message, source, symbols) && f.decode(|message|, symbols).Success? ==>
      f.decode(|message|, symbols).message == message
  }

  // ---------------------------------------------------------------------

  datatype Config = Config(segmentBytes: nat, repairPercent: nat, window: nat, origin: nat)

  /** The packet ids of a segment: source and repair together. */
  function PacketCount(c: Config, segmentBytes: nat): (n: nat)
    requires segmentBytes < UINT32
  {
    SourcePackets(segmentBytes) + RepairCeiling(SourcePackets(segmentBytes), c.repairPercent, true)
  }

  /** wirehair_segment_config_valid with acknowledgements on and the default
      window filled in; sizes whose packet count wraps are accepted too. */
  ghost predicate ConfigValid(c: Config) {
    0 < c.segmentBytes < UINT32 && c.repairPercent <= 100 &&
    1 <= c.window <= WINDOW_MAX && c.origin != 0 &&
    SourcePackets(c.segmentBytes) <= 64000 && PacketCount(c, c.segmentBytes) < UINT16
  }

  datatype Packet =
    | DataPacket(segment: nat, index: nat, count: nat, segmentBytes: nat, origin: nat, ackRequest: bool, payload: Bytes)
    | EndPacket(segments: nat)

  /** A header field of sixteen bits. */
  function Low16(x: nat): (y: nat)
    ensures y <= x && y < UINT16 && (x < UINT16 ==> y == x)
  {
    x % UINT16
  }

  /** The packet the sender builds for one packet id of one segment: the header
      keeps sixteen bits of the id and of the count. */
  function BuildPacket(f: Fountain, c: Config, segment: nat, data: Bytes, id: nat): (p: Packet)
    requires |data| < UINT32
  {
    DataPacket(segment, Low16(id), Low16(PacketCount(c, |data|)), |data|, c.origin, true,
               Payload(f, Padded(data), id, SourcePackets(|data|)))
  }

  /** A set of segment ids kept in a ring of sixteen: the sender's pending
      acknowledgements and the receiver's recovered segments. */
  predicate Holds(ids: seq<nat>, valid: seq<bool>, id: nat)
    requires |ids| == |valid| == WINDOW_MAX
  {
    valid[id % WINDOW_MAX] && ids[id % WINDOW_MAX] == id
  }

  lemma SourcePacketsMonotone(m: nat, n: nat)
    requires 0 < m <= n && n + WH_PACKET_SIZE - 1 < UINT32
    ensures 0 < SourcePackets(m) <= SourcePackets(n)
  {}

  /** With acknowledgements every segment may be sent twice over. */
  lemma CountIsTwice(c: Config, n: nat)
    requires 0 < n < UINT32 && c.repairPercent <= 100
    ensures PacketCount(c, n) == 2 * SourcePackets(n)
  {
    hide SourcePackets;
    var source := SourcePackets(n);
    assert source >= 2 by { AtLeastTwo(n); }
    assert source * c.repairPercent <= source * 100;
  }

  lemma AtLeastTwo(n: nat)
    requires 0 < n < UINT32
    ensures SourcePackets(n) >= 2
  {}

  /** Sixteen bits of the count are in the receiver's range exactly when they are
      the whole count. */
  lemma CutCountFits(c: Config, n: nat)
    requires 0 < n < UINT32 && c.repairPercent <= 100
    ensures SourcePackets(n) <= Low16(PacketCount(c, n)) <= PacketCount(c, n) <==> PacketCount(c, n) < UINT16
  {
    hide SourcePackets;
    CountIsTwice(c, n);
    var count := PacketCount(c, n);
    assert count == count / UINT16 * UINT16 + Low16(count);
  }

  /** An accepted configuration keeps every segment's count within sixteen bits
      exactly when its own packet count does not wrap. */
  lemma CountsFitExactly(c: Config)
    requires ConfigValid(c)
    ensures (forall n :: 0 < n <= c.segmentBytes ==> PacketCount(c, n) < UINT16) <==> c.segmentBytes + WH_PACKET_SIZE - 1 < UINT32
  {
    if c.segmentBytes + WH_PACKET_SIZE - 1 < UINT32 {
      forall n | 0 < n <= c.segmentBytes ensures PacketCount(c, n) < UINT16 {
        CountIsTwice(c, n);
        CountIsTwice(c, c.segmentBytes);
        SourcePacketsMonotone(n, c.segmentBytes);
      }
    } else {
      CountIsTwice(c, 100_000_000);
      assert SourcePackets(100_000_000) == 72993;
    }
  }
}
