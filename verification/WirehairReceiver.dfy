/** The receiver of the segment protocol over a map of open segments. */
module WirehairReceiver {
  import opened Gf256
  import opened WirehairCore
  import opened SlotTable

  datatype Slot = Slot(segmentBytes: nat, packetLimit: nat, origin: nat, ackRequested: bool,
                       symbols: seq<Symbol>, recovered: bool, message: Bytes)

  datatype Receiver = Receiver(nextEmit: nat, slots: map<nat, Slot>, endSeen: bool, endCount: nat,
                               complete: bool, aheadDrops: nat, output: seq<Bytes>)

  datatype Ingested = Ingested(receiver: Receiver, acks: seq<nat>, rc: int)

  const INITIAL := Receiver(0, map[], false, 0, false, 0, [])

  predicate Recovered(r: Receiver, id: nat) {
    id < r.nextEmit || (id in r.slots && r.slots[id].recovered)
  }

  /** emit_ready_segments: recovered segments leave in order. The sink takes at
      most sink of them before it refuses. */
  function EmitReady(r: Receiver, sink: nat): (t: Ingested)
    decreases |r.slots|
  {
    if r.nextEmit in r.slots && r.slots[r.nextEmit].recovered then
      var slot := r.slots[r.nextEmit];
      if sink == 0 then Ingested(r, [], -1)
      else
        var data := if slot.segmentBytes <= |slot.message| then slot.message[..slot.segmentBytes] else slot.message;
        RemoveShrinks(r.slots, r.nextEmit);
        EmitReady(r.(nextEmit := r.nextEmit + 1, slots := r.slots - {r.nextEmit}, output := r.output + [data]), sink - 1)
    else
      Ingested(if r.endSeen && r.nextEmit == r.endCount then r.(complete := true) else r, [], 0)
  }

  predicate GeometryOk(c: Config, p: Packet)
    requires p.DataPacket?
  {
    0 < p.segmentBytes <= c.segmentBytes && c.segmentBytes < UINT32 &&
    var source := SourcePackets(p.segmentBytes);
    source <= p.count <= source + RepairCeiling(source, c.repairPercent, true)
  }

  predicate WellFormed(p: Packet)
    requires p.DataPacket?
  {
    0 < |p.payload| <= WH_PACKET_SIZE && p.origin != 0 && p.count != 0 && p.index < p.count
  }

  function FreshSlot(p: Packet): (s: Slot)
    requires p.DataPacket?
  {
    Slot(p.segmentBytes, p.count, p.origin, p.ackRequest, [], false, [])
  }

  /** The acknowledgement goes out when one was asked for and the link takes it. */
  function AckFor(id: nat, wanted: bool, ackOk: bool): (a: seq<nat>) {
    if wanted && ackOk then [id] else []
  }

  /** A packet for an open segment: feed the decoder, and on success acknowledge
      before emitting. */
  function Collect(f: Fountain, r: Receiver, id: nat, p: Packet, ackOk: bool, sink: nat): (t: Ingested)
    requires p.DataPacket? && id in r.slots
  {
    var slot := r.slots[id];
    if slot.packetLimit != p.count || slot.segmentBytes != p.segmentBytes || slot.origin != p.origin then
      Ingested(r, [], -1)
    else if slot.recovered then
      Ingested(r, AckFor(id, slot.ackRequested, ackOk), if slot.ackRequested && !ackOk then -1 else 0)
    else
      var symbols := slot.symbols + [Symbol(p.index, p.payload)];
      var fed := r.(slots := r.slots[id := slot.(symbols := symbols)]);
      match f.decode(CodecBytes(slot.segmentBytes), symbols)
      case NeedMore => Ingested(fed, [], 0)
      case Failure => Ingested(fed, [], -1)
      case Success(message) =>
        var got := r.(slots := r.slots[id := slot.(symbols := symbols, recovered := true, message := message)]);
        if slot.ackRequested && !ackOk then Ingested(got, [], -1)
        else
          var e := EmitReady(got, sink);
          e.(acks := AckFor(id, slot.ackRequested, ackOk))
  }

  /** wirehair_segment_receiver_ingest. At most window segments are open, so the
      slot search fails only when that many are. */
  function Ingest(f: Fountain, c: Config, r: Receiver, p: Packet, ackOk: bool, sink: nat): (t: Ingested) {
    match p
    case EndPacket(n) => EmitReady(r.(endSeen := true, endCount := n), sink)
    case DataPacket(id, _, _, _, origin, ackRequest, _) =>
      if id < r.nextEmit then
        var wanted := ackRequest && origin != 0;
        Ingested(r, AckFor(id, wanted, ackOk), if wanted && !ackOk then -1 else 0)
      else if !WellFormed(p) then Ingested(r, [], -1)
      else if id - r.nextEmit >= c.window then Ingested(r.(aheadDrops := r.aheadDrops + 1), [], 0)
      else if id in r.slots then Collect(f, r, id, p, ackOk, sink)
      else if !GeometryOk(c, p) then Ingested(r, [], -1)
      else if |r.slots| >= c.window then Ingested(r, [], 0)
      else Collect(f, r.(slots := r.slots[id := FreshSlot(p)]), id, p, ackOk, sink)
  }

  // ---------------------------------------------------------------------

  /** From r to t only leading recovered segments left, and all up to the new
      next segment did. */
  ghost predicate LeadingLeft(r: Receiver, t: Receiver) {
    r.nextEmit <= t.nextEmit && t.slots.Keys <= r.slots.Keys &&
    (forall id :: id in t.slots ==> t.slots[id] == r.slots[id]) &&
    (forall id :: id in r.slots && id !in t.slots ==> r.nextEmit <= id < t.nextEmit && r.slots[id].recovered) &&
    (forall id :: r.nextEmit <= id < t.nextEmit ==> id in r.slots && r.slots[id].recovered && id !in t.slots)
  }

  /** The return code says whether the sink refused, after taking all it takes;
      completion comes exactly at the end count. */
  ghost predicate EmissionEnds(r: Receiver, e: Ingested, sink: nat) {
    var t := e.receiver;
    t.endSeen == r.endSeen && t.endCount == r.endCount && t.aheadDrops == r.aheadDrops && e.acks == [] &&
    (e.rc == 0 || e.rc == -1) &&
    (e.rc == 0 ==> !(t.nextEmit in t.slots && t.slots[t.nextEmit].recovered)) &&
    (e.rc == -1 ==> t.nextEmit - r.nextEmit == sink) &&
    (t.complete <==> r.complete || (e.rc == 0 && r.endSeen && t.nextEmit == r.endCount))
  }

  lemma {:induction false} EmitReadySlots(r: Receiver, sink: nat)
    ensures LeadingLeft(r, EmitReady(r, sink).receiver)
    decreases |r.slots|
  {
    if r.nextEmit in r.slots && r.slots[r.nextEmit].recovered && sink != 0 {
      var slot := r.slots[r.nextEmit];
      var data := if slot.segmentBytes <= |slot.message| then slot.message[..slot.segmentBytes] else slot.message;
      RemoveShrinks(r.slots, r.nextEmit);
      EmitReadySlots(r.(nextEmit := r.nextEmit + 1, slots := r.slots - {r.nextEmit}, output := r.output + [data]), sink - 1);
    }
  }

  lemma {:induction false} EmitReadyFlags(r: Receiver, sink: nat)
    ensures EmissionEnds(r, EmitReady(r, sink), sink)
    decreases |r.slots|
  {
    if r.nextEmit in r.slots && r.slots[r.nextEmit].recovered && sink != 0 {
      var slot := r.slots[r.nextEmit];
      var data := if slot.segmentBytes <= |slot.message| then slot.message[..slot.segmentBytes] else slot.message;
      RemoveShrinks(r.slots, r.nextEmit);
      EmitReadyFlags(r.(nextEmit := r.nextEmit + 1, slots := r.slots - {r.nextEmit}, output := r.output + [data]), sink - 1);
    }
  }

  /** Emitting moves recovered segments to the output, in order, and leaves a
      recovered head only if the sink refused. */
  lemma EmitReadyFacts(r: Receiver, sink: nat)
    ensures LeadingLeft(r, EmitReady(r, sink).receiver) && EmissionEnds(r, EmitReady(r, sink), sink)
  {
    hide EmitReady, LeadingLeft, EmissionEnds;
    EmitReadySlots(r, sink);
    EmitReadyFlags(r, sink);
  }
}
