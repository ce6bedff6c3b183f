/** Sender and receiver over a network that loses, duplicates and reorders. */
module WirehairProtocol {
  import opened Arith
  import opened Gf256
  import opened WirehairCore
  import opened WirehairSender
  import opened WirehairReceiver
  import opened SlotTable

  /** net and acks hold everything ever sent in each direction: a message may be
      delivered late, often, in any order, or never. input is the history of
      admitted segments; stalled records that some ingest left a recovered
      segment at the head (the sink or the acknowledgement link refused). */
  datatype World = World(s: Sender, r: Receiver, net: set<Packet>, acks: set<nat>, input: seq<Bytes>, stalled: bool)

  datatype Event =
    | EvAdmit(id: nat, data: Bytes)
    | EvFinish
    | EvAck(ack: nat)
    | EvTick(now: nat, wait: nat, budget: nat)
    | EvEnd(linkOk: bool)
    | EvDeliver(packet: Packet, ackOk: bool, sink: nat)
    | EvPoll(segment: nat)

  const START := World(Sender(0, [], {}, false, false, false, false), INITIAL, {}, {}, [], false)

  ghost predicate HeadRecovered(r: Receiver) {
    r.nextEmit in r.slots && r.slots[r.nextEmit].recovered
  }

  ghost predicate Enabled(w: World, e: Event) {
    (e.EvAck? ==> e.ack in w.acks) && (e.EvDeliver? ==> e.packet in w.net)
  }

  ghost function With<T(!new)>(s: set<T>, q: seq<T>): (r: set<T>)
    ensures forall x :: x in r <==> x in s || x in q
  {
    s + (set i | 0 <= i < |q| :: q[i])
  }

  ghost predicate DataFits(s: Sender) {
    forall j :: 0 <= j < |s.segments| ==> |s.segments[j].data| < UINT32
  }

  ghost function Next(f: Fountain, c: Config, w: World, e: Event): (w': World)
    requires DataFits(w.s)
  {
    match e
    case EvAdmit(id, data) =>
      w.(s := Admit(c, w.s, id, data), input := if AdmitCode(c, w.s, id, data) == 0 then w.input + [data] else w.input)
    case EvFinish => w.(s := w.s.(finished := true))
    case EvAck(id) => w.(s := InputAck(c, w.s, id))
    case EvTick(now, wait, budget) =>
      var t := Tick(f, c, w.s, now, wait, budget);
      w.(s := t.sender, net := With(w.net, t.sent))
    case EvEnd(linkOk) =>
      if !EndDue(w.s) then w
      else if !linkOk then w.(s := w.s.(failed := true))
      else w.(s := w.s.(endEmitted := true), net := w.net + {EndPacket(NextId(w.s))})
    case EvDeliver(p, ackOk, sink) =>
      var t := Ingest(f, c, w.r, p, ackOk, sink);
      w.(r := t.receiver, acks := With(w.acks, t.acks),
         stalled := w.stalled || HeadRecovered(t.receiver))
    case EvPoll(id) =>
      if Recovered(w.r, id) then w.(acks := w.acks + {id}) else w
  }

  // ---------------------------------------------------------------------
  // The invariant.

  ghost predicate InputOk(c: Config, input: seq<Bytes>) {
    forall i :: 0 <= i < |input| ==> 0 < |input[i]| <= c.segmentBytes
  }

  ghost predicate SenderInv(c: Config, s: Sender, input: seq<Bytes>, acks: set<nat>) {
    SenderOk(c, s) && NextId(s) == |input| && s.acks <= acks &&
    (forall j :: 0 <= j < |s.segments| ==>
       s.segments[j].data == input[s.base + j] && (s.segments[j].acked ==> s.base + j in acks))
  }

  /** The sender's packet of that id. */
  ghost predicate IsPacket(f: Fountain, c: Config, p: Packet, data: Bytes, id: nat) {
    p.DataPacket? && |data| < UINT32 && id < PacketCount(c, |data|) && p == BuildPacket(f, c, p.segment, data, id)
  }

  /** The packets of a segment are the ones the sender builds. */
  ghost predicate PacketOk(f: Fountain, c: Config, p: Packet, input: seq<Bytes>) {
    p.DataPacket? && p.segment < |input| && exists id :: IsPacket(f, c, p, input[p.segment], id)
  }

  ghost predicate EndOk(s: Sender, input: seq<Bytes>, n: nat) {
    s.finished && |s.segments| == 0 && n == |input|
  }

  ghost predicate OnWire(f: Fountain, c: Config, s: Sender, input: seq<Bytes>, p: Packet) {
    if p.DataPacket? then PacketOk(f, c, p, input) else EndOk(s, input, p.segments)
  }

  ghost predicate NetInv(f: Fountain, c: Config, w: World) {
    forall p :: p in w.net ==> OnWire(f, c, w.s, w.input, p)
  }

  ghost predicate SlotOk(f: Fountain, c: Config, slot: Slot, data: Bytes) {
    0 < |data| < UINT32 && slot.segmentBytes == |data| && slot.origin == c.origin && slot.ackRequested &&
    slot.packetLimit == PacketCount(c, |data|) < UINT16 &&
    Genuine(f, Padded(data), SourcePackets(|data|), slot.symbols) &&
    (slot.recovered ==> slot.message == Padded(data))
  }

  /** Segments whose packet count the header's sixteen bits hold. */
  ghost predicate Carried(c: Config, segments: seq<Bytes>) {
    forall i :: 0 <= i < |segments| ==> |segments[i]| < UINT32 && PacketCount(c, |segments[i]|) < UINT16
  }

  ghost predicate ReceiverInv(f: Fountain, c: Config, r: Receiver, input: seq<Bytes>) {
    r.nextEmit <= |input| && r.output == input[..r.nextEmit] && Carried(c, r.output) &&
    (forall id :: id in r.slots ==> r.nextEmit <= id < r.nextEmit + c.window && id < |input| && SlotOk(f, c, r.slots[id], input[id])) &&
    (r.endSeen ==> r.endCount == |input|) && (r.complete ==> r.endSeen && r.nextEmit == |input|)
  }

  ghost predicate Inv(f: Fountain, c: Config, w: World) {
    InputOk(c, w.input) && SenderInv(c, w.s, w.input, w.acks) && NetInv(f, c, w) &&
    ReceiverInv(f, c, w.r, w.input) &&
    (w.r.endSeen ==> EndOk(w.s, w.input, w.r.endCount)) &&
    (forall id :: id in w.acks ==> Recovered(w.r, id)) &&
    (forall id :: 0 <= id < w.s.base ==> Recovered(w.r, id)) &&
    (!w.stalled ==> !HeadRecovered(w.r) && w.r.aheadDrops == 0)
  }

  // ---------------------------------------------------------------------
  // Consequences of the invariant.

  /** The two sides are linked: unless a recovered segment is stuck at the head,
      the sender's base has not passed the receiver's next segment. */
  lemma BaseBehindNextEmit(f: Fountain, c: Config, w: World)
    requires Inv(f, c, w) && !HeadRecovered(w.r)
    ensures w.s.base <= w.r.nextEmit
  {
    assert w.s.base > w.r.nextEmit ==> Recovered(w.r, w.r.nextEmit);
  }

  ghost function Interval(lo: nat, hi: nat): (s: set<nat>)
    requires lo <= hi
    ensures |s| == hi - lo && forall x :: x in s <==> lo <= x < hi
    decreases hi
  {
    if lo == hi then {} else Interval(lo, hi - 1) + {hi - 1}
  }

  /** The receiver's geometry check passes a packet of the sender exactly when
      sixteen bits hold the segment's packet count. */
  lemma GeometryExact(f: Fountain, c: Config, p: Packet, input: seq<Bytes>)
    requires PacketOk(f, c, p, input) && InputOk(c, input) && c.segmentBytes < UINT32 && c.repairPercent <= 100
    ensures |input[p.segment]| < UINT32 && (GeometryOk(c, p) <==> PacketCount(c, |input[p.segment]|) < UINT16)
  {
    hide SourcePackets, RepairCeiling, Padded, Payload;
    CutCountFits(c, |input[p.segment]|);
  }

  /** Every packet on the wire for a segment not yet emitted fits the receiver's
      window, and a new segment finds a free slot; the header passes the checks
      exactly when it holds the segment's packet count. */
  lemma DataAlwaysFits(f: Fountain, c: Config, w: World, p: Packet)
    requires ConfigValid(c) && Inv(f, c, w) && !HeadRecovered(w.r)
    requires p in w.net && p.DataPacket? && p.segment >= w.r.nextEmit
    ensures p.segment - w.r.nextEmit < c.window
    ensures p.segment < |w.input| && |w.input[p.segment]| < UINT32 && (GeometryOk(c, p) <==> PacketCount(c, |w.input[p.segment]|) < UINT16)
    ensures c.segmentBytes + WH_PACKET_SIZE - 1 < UINT32 ==> GeometryOk(c, p)
    ensures p.segment !in w.r.slots ==> |w.r.slots| < c.window
  {
    BaseBehindNextEmit(f, c, w);
    assert OnWire(f, c, w.s, w.input, p);
    GeometryExact(f, c, p, w.input);
    CountsFitExactly(c);
    hide PacketOk, SlotOk, GeometryOk, PacketCount;
    if p.segment !in w.r.slots {
      var window := Interval(w.r.nextEmit, w.r.nextEmit + c.window);
      assert w.r.slots.Keys <= window - {p.segment};
      SubsetSize(w.r.slots.Keys, window - {p.segment});
    }
  }

  /** Delivering END completes the receiver with exactly the admitted input. */
  lemma EndCompletes(f: Fountain, c: Config, w: World, n: nat, ackOk: bool, sink: nat)
    requires Inv(f, c, w) && !HeadRecovered(w.r) && EndPacket(n) in w.net
    ensures var t := Ingest(f, c, w.r, EndPacket(n), ackOk, sink);
            t.rc == 0 && t.receiver.complete && t.receiver.output == w.input
  {
    BaseBehindNextEmit(f, c, w);
    assert OnWire(f, c, w.s, w.input, EndPacket(n));
    assert w.r.nextEmit == |w.input|;
    assert w.input[..|w.input|] == w.input;
  }

  // ---------------------------------------------------------------------
  // Sender steps.

  lemma AdmitKeeps(f: Fountain, c: Config, w: World, id: nat, data: Bytes)
    requires ConfigValid(c) && Inv(f, c, w)
    ensures DataFits(w.s) && Inv(f, c, Next(f, c, w, EvAdmit(id, data)))
  {
    hide SourcePackets, RepairCeiling, BuildPacket, Genuine, Padded;
    var w' := Next(f, c, w, EvAdmit(id, data));
    if AdmitCode(c, w.s, id, data) == 0 {
      assert w'.input[..w.r.nextEmit] == w.input[..w.r.nextEmit];
      forall p | p in w.net ensures OnWire(f, c, w'.s, w'.input, p) {
        assert OnWire(f, c, w.s, w.input, p);
        if p.DataPacket? {
          assert w'.input[p.segment] == w.input[p.segment];
          var id :| IsPacket(f, c, p, w.input[p.segment], id);
          assert IsPacket(f, c, p, w'.input[p.segment], id);
        }
      }
      forall x | x in w'.r.slots ensures SlotOk(f, c, w'.r.slots[x], w'.input[x]) {
        assert w'.input[x] == w.input[x];
      }
    }
  }

  /** A sender step keeps the invariant if the sender's own part is kept, only
      recovered segments are released and only built packets are sent. */
  lemma SenderStep(f: Fountain, c: Config, w: World, s': Sender, sent: seq<Packet>)
    requires Inv(f, c, w) && SenderInv(c, s', w.input, w.acks)
    requires s'.finished == w.s.finished && (|w.s.segments| == 0 ==> |s'.segments| == 0)
    requires forall x :: 0 <= x < s'.base ==> Recovered(w.r, x)
    requires forall i :: 0 <= i < |sent| ==> PacketOk(f, c, sent[i], w.input)
    ensures Inv(f, c, w.(s := s', net := With(w.net, sent)))
  {
    hide PacketOk, SlotOk, SenderOk;
    var w' := w.(s := s', net := With(w.net, sent));
    forall p | p in w'.net ensures OnWire(f, c, w'.s, w'.input, p) {
      if p in w.net {
        assert OnWire(f, c, w.s, w.input, p);
      } else {
        var i :| 0 <= i < |sent| && sent[i] == p;
        assert p.DataPacket? by { PacketIsData(f, c, p, w.input); }
      }
    }
  }

  lemma PacketIsData(f: Fountain, c: Config, p: Packet, input: seq<Bytes>)
    requires PacketOk(f, c, p, input)
    ensures p.DataPacket? && p.segment < |input|
  {}

  /** Applying acknowledgements and releasing the base keeps the sender's part
      and releases only segments the receiver has recovered. */
  lemma ReleaseStep(c: Config, s: Sender, input: seq<Bytes>, acks: set<nat>, r: Receiver)
    requires SenderInv(c, s, input, acks)
    requires forall id :: id in acks ==> Recovered(r, id)
    requires forall id :: 0 <= id < s.base ==> Recovered(r, id)
    ensures var t := Release(ApplyAcks(s));
            SenderInv(c, t, input, acks) && t.finished == s.finished && t.failed == s.failed &&
            s.base <= t.base && (|s.segments| == 0 ==> |t.segments| == 0) &&
            forall id :: 0 <= id < t.base ==> Recovered(r, id)
  {
    hide SegmentOk, Release, Recovered;
    var s1 := ApplyAcks(s);
    forall j | 0 <= j < |s1.segments| ensures SegmentOk(c, s1.segments[j]) {
      SegmentOkAcked(c, s.segments[j], s1.segments[j].acked);
    }
    var t := Release(s1);
    ReleaseKeepsData(s1);
    forall j | 0 <= j < |t.segments| ensures t.segments[j] == s1.segments[j + (t.base - s.base)] {
    }
    forall id | 0 <= id < t.base ensures Recovered(r, id) {
      if id >= s.base {
        assert s1.segments[id - s.base].acked;
        assert id in acks;
      }
    }
  }

  lemma SegmentOkAcked(c: Config, g: Segment, acked: bool)
    requires SegmentOk(c, g)
    ensures SegmentOk(c, g.(acked := acked))
  {}

  lemma AckKeeps(f: Fountain, c: Config, w: World, id: nat)
    requires Inv(f, c, w) && id in w.acks
    ensures DataFits(w.s) && Inv(f, c, Next(f, c, w, EvAck(id)))
  {
    hide SlotOk, PacketOk, Recovered, Release, ApplyAcks;
    var m := MarkAck(c, w.s, id);
    ReleaseStep(c, m, w.input, w.acks, w.r);
    SenderStep(f, c, w, Release(ApplyAcks(m)), []);
    var w' := Next(f, c, w, EvAck(id));
    assert With(w.net, []) == w.net;
  }

  lemma VisitFacts(f: Fountain, c: Config, id: nat, g: Segment, isBase: bool, sourcePending: bool,
                   now: nat, wait: nat, budget: nat)
    requires SegmentOk(c, g)
    ensures var v := VisitSegment(f, c, id, g, isBase, sourcePending, now, wait, budget);
            SegmentOk(c, v.segment) && v.segment.data == g.data && v.segment.acked == g.acked &&
            forall i :: 0 <= i < |v.sent| ==>
              g.next + i < Limit(c, g) && v.sent[i] == BuildPacket(f, c, id, g.data, g.next + i)
  {
    hide EmitUpTo, SourcePackets, RepairPackets, BuildPacket;
    EmitKeepsData(f, c, id, g, Min(g.next + SOURCE_BATCH, Source(g)), budget);
    var g1 := if g.dueValid then g else g.(dueNs := now + wait, dueValid := true);
    EmitKeepsData(f, c, id, g1, Min(g1.next + RepairPackets(Source(g), ACK_REPAIR_ROUND_PCT), Limit(c, g)), budget);
  }

  lemma InvIsOk(c: Config, s: Sender, input: seq<Bytes>, acks: set<nat>)
    requires SenderInv(c, s, input, acks)
    ensures SenderOk(c, s)
  {}

  /** One segment's turn keeps the sender's invariant and sends its own packets. */
  lemma VisitedOk(f: Fountain, c: Config, s: Sender, j: nat, sourcePending: bool,
                  now: nat, wait: nat, budget: nat, input: seq<Bytes>, acks: set<nat>)
    requires SenderInv(c, s, input, acks) && j < |s.segments| && InputOk(c, input) && DataFits(s)
    ensures var v := VisitSegment(f, c, s.base + j, s.segments[j], j == 0, sourcePending, now, wait, budget);
            var t := s.(segments := s.segments[j := v.segment]);
            SenderInv(c, t, input, acks) && SenderInv(c, t.(failed := true), input, acks) &&
            SenderInv(c, t.(failed := true, timedOut := true), input, acks) &&
            forall i :: 0 <= i < |v.sent| ==> PacketOk(f, c, v.sent[i], input)
  {
    hide VisitSegment, SourcePackets, RepairCeiling, Payload, Padded;
    var g := s.segments[j];
    var v := VisitSegment(f, c, s.base + j, g, j == 0, sourcePending, now, wait, budget);
    VisitFacts(f, c, s.base + j, g, j == 0, sourcePending, now, wait, budget);
    forall i | 0 <= i < |v.sent| ensures PacketOk(f, c, v.sent[i], input) {
      assert IsPacket(f, c, v.sent[i], input[v.sent[i].segment], g.next + i);
    }
    hide SegmentOk;
  }

  lemma {:induction false} TickFromFacts(f: Fountain, c: Config, s: Sender, j: nat, sourcePending: bool,
                                         now: nat, wait: nat, budget: nat, input: seq<Bytes>, acks: set<nat>)
    requires SenderInv(c, s, input, acks) && j <= |s.segments| && InputOk(c, input)
    ensures DataFits(s)
    ensures var t := TickFrom(f, c, s, j, sourcePending, now, wait, budget);
            SenderInv(c, t.sender, input, acks) && t.sender.base == s.base && |t.sender.segments| == |s.segments| &&
            t.sender.finished == s.finished &&
            forall i :: 0 <= i < |t.sent| ==> PacketOk(f, c, t.sent[i], input)
    decreases |s.segments| - j
  {
    hide VisitSegment, PacketOk, SenderInv, SegmentOk, InputOk;
    SenderFits(c, s) by { InvIsOk(c, s, input, acks); }
    if j < |s.segments| {
      var g := s.segments[j];
      var v := VisitSegment(f, c, s.base + j, g, j == 0, sourcePending, now, wait, budget);
      VisitedOk(f, c, s, j, sourcePending, now, wait, budget, input, acks);
      var t := s.(segments := s.segments[j := v.segment]);
      if v.outcome.Go? {
        TickFromFacts(f, c, t, j + 1, sourcePending, now, wait, v.budget, input, acks);
      }
    }
  }

  lemma TickKeeps(f: Fountain, c: Config, w: World, now: nat, wait: nat, budget: nat)
    requires Inv(f, c, w)
    ensures DataFits(w.s) && Inv(f, c, Next(f, c, w, EvTick(now, wait, budget)))
  {
    hide SlotOk, PacketOk, Recovered, Release, ApplyAcks, TickFrom, SegmentOk;
    assert DataFits(w.s) by { SenderFits(c, w.s); }
    var t := Tick(f, c, w.s, now, wait, budget);
    if w.s.failed {
      SenderStep(f, c, w, w.s, []);
    } else {
      ReleaseStep(c, w.s, w.input, w.acks, w.r);
      var s1 := Release(ApplyAcks(w.s));
      SenderFits(c, s1);
      TickFromFacts(f, c, s1, 0, SourcePending(s1), now, wait, budget, w.input, w.acks);
      SenderStep(f, c, w, t.sender, t.sent);
    }
  }

  lemma SenderFits(c: Config, s: Sender)
    requires SenderOk(c, s)
    ensures DataFits(s)
  {}

  lemma EndKeeps(f: Fountain, c: Config, w: World, linkOk: bool)
    requires Inv(f, c, w)
    ensures DataFits(w.s) && Inv(f, c, Next(f, c, w, EvEnd(linkOk)))
  {
    hide SlotOk, PacketOk, Recovered, SegmentOk;
    SenderFits(c, w.s);
    var w' := Next(f, c, w, EvEnd(linkOk));
    forall p | p in w'.net ensures OnWire(f, c, w'.s, w'.input, p) {
      if p in w.net {
        assert OnWire(f, c, w.s, w.input, p);
      }
    }
  }

  lemma FinishKeeps(f: Fountain, c: Config, w: World)
    requires Inv(f, c, w)
    ensures DataFits(w.s) && Inv(f, c, Next(f, c, w, EvFinish))
  {
    hide SlotOk, PacketOk, Recovered, SegmentOk;
    SenderFits(c, w.s);
    var w' := Next(f, c, w, EvFinish);
    forall p | p in w'.net ensures OnWire(f, c, w'.s, w'.input, p) {
      assert OnWire(f, c, w.s, w.input, p);
    }
  }

  lemma PollKeeps(f: Fountain, c: Config, w: World, id: nat)
    requires Inv(f, c, w)
    ensures DataFits(w.s) && Inv(f, c, Next(f, c, w, EvPoll(id)))
  {
    hide SlotOk, PacketOk, SegmentOk;
    SenderFits(c, w.s);
    var w' := Next(f, c, w, EvPoll(id));
    forall p | p in w'.net ensures OnWire(f, c, w'.s, w'.input, p) {
      assert OnWire(f, c, w.s, w.input, p);
    }
  }

  // ---------------------------------------------------------------------
  // Receiver steps.

  /** What every receiver step keeps and promises. */
  ghost predicate GoodStep(f: Fountain, c: Config, r: Receiver, t: Ingested, input: seq<Bytes>) {
    ReceiverInv(f, c, t.receiver, input) &&
    (forall id :: Recovered(r, id) ==> Recovered(t.receiver, id)) &&
    (forall i :: 0 <= i < |t.acks| ==> Recovered(t.receiver, t.acks[i]))
  }

  ghost function Emitted(r: Receiver): (r': Receiver)
    requires HeadRecovered(r)
  {
    var slot := r.slots[r.nextEmit];
    var data := if slot.segmentBytes <= |slot.message| then slot.message[..slot.segmentBytes] else slot.message;
    r.(nextEmit := r.nextEmit + 1, slots := r.slots - {r.nextEmit}, output := r.output + [data])
  }

  lemma EmitOne(f: Fountain, c: Config, r: Receiver, input: seq<Bytes>)
    requires ReceiverInv(f, c, r, input) && HeadRecovered(r)
    ensures ReceiverInv(f, c, Emitted(r), input)
  {
    hide SourcePackets, RepairCeiling, Genuine;
    assert SlotOk(f, c, r.slots[r.nextEmit], input[r.nextEmit]);
    hide SlotOk;
    var r' := Emitted(r);
    assert r'.output == input[..r'.nextEmit];
  }

  lemma {:induction false} EmitKeepsInv(f: Fountain, c: Config, r: Receiver, sink: nat, input: seq<Bytes>)
    requires ReceiverInv(f, c, r, input)
    ensures ReceiverInv(f, c, EmitReady(r, sink).receiver, input)
    decreases |r.slots|
  {
    if HeadRecovered(r) && sink != 0 {
      EmitOne(f, c, r, input);
      RemoveShrinks(r.slots, r.nextEmit);
      EmitKeepsInv(f, c, Emitted(r), sink - 1, input);
    }
  }

  lemma EmitGood(f: Fountain, c: Config, r: Receiver, sink: nat, input: seq<Bytes>)
    requires ReceiverInv(f, c, r, input)
    ensures GoodStep(f, c, r, EmitReady(r, sink), input)
  {
    hide SlotOk, EmitReady;
    EmitKeepsInv(f, c, r, sink, input);
    EmitReadyFacts(r, sink);
  }

  /** A decoder that has seen only genuine packets and succeeds holds the
      padded segment. */
  lemma FeedSlot(f: Fountain, c: Config, slot: Slot, p: Packet, input: seq<Bytes>)
    requires Sound(f) && PacketOk(f, c, p, input) && SlotOk(f, c, slot, input[p.segment])
    ensures var slot' := slot.(symbols := slot.symbols + [Symbol(p.index, p.payload)]);
            var d := f.decode(CodecBytes(slot.segmentBytes), slot'.symbols);
            SlotOk(f, c, slot', input[p.segment]) &&
            (d.Success? ==> SlotOk(f, c, slot'.(recovered := true, message := d.message), input[p.segment]))
  {
    hide SourcePackets, RepairCeiling, Payload;
    var data := input[p.segment];
    var id :| IsPacket(f, c, p, data, id);
    assert Genuine(f, Padded(data), SourcePackets(|data|), slot.symbols + [Symbol(p.index, p.payload)]);
  }

  lemma ReplaceSlot(f: Fountain, c: Config, r: Receiver, id: nat, slot': Slot, input: seq<Bytes>)
    requires ReceiverInv(f, c, r, input) && r.nextEmit <= id < r.nextEmit + c.window && id < |input|
    requires SlotOk(f, c, slot', input[id]) && (id in r.slots && r.slots[id].recovered ==> slot'.recovered)
    ensures var r' := r.(slots := r.slots[id := slot']);
            ReceiverInv(f, c, r', input) && forall x :: Recovered(r, x) ==> Recovered(r', x)
  {
    hide SlotOk;
  }

  lemma CollectGood(f: Fountain, c: Config, r: Receiver, p: Packet, ackOk: bool, sink: nat, input: seq<Bytes>)
    requires Sound(f) && ReceiverInv(f, c, r, input) && PacketOk(f, c, p, input) && p.segment in r.slots
    ensures GoodStep(f, c, r, Collect(f, r, p.segment, p, ackOk, sink), input)
  {
    PacketIsData(f, c, p, input);
    hide EmitReady, PacketOk, SlotOk, Sound;
    var id := p.segment;
    var slot := r.slots[id];
    FeedSlot(f, c, slot, p, input);
    if !slot.recovered {
      var slot' := slot.(symbols := slot.symbols + [Symbol(p.index, p.payload)]);
      var d := f.decode(CodecBytes(slot.segmentBytes), slot'.symbols);
      ReplaceSlot(f, c, r, id, slot', input);
      if d.Success? {
        var done := slot'.(recovered := true, message := d.message);
        var got := r.(slots := r.slots[id := done]);
        ReplaceSlot(f, c, r, id, done, input);
        EmitGood(f, c, got, sink, input);
        assert Recovered(got, id);
      }
    }
  }

  lemma FreshSlotOk(f: Fountain, c: Config, p: Packet, input: seq<Bytes>)
    requires PacketOk(f, c, p, input) && InputOk(c, input) && GeometryOk(c, p) && c.repairPercent <= 100
    ensures SlotOk(f, c, FreshSlot(p), input[p.segment])
  {
    GeometryExact(f, c, p, input);
    hide SourcePackets, RepairCeiling, Payload, Padded, GeometryOk;
  }

  lemma IngestDataGood(f: Fountain, c: Config, r: Receiver, p: Packet, ackOk: bool, sink: nat, input: seq<Bytes>)
    requires Sound(f) && ConfigValid(c) && InputOk(c, input) && ReceiverInv(f, c, r, input) && PacketOk(f, c, p, input)
    ensures GoodStep(f, c, r, Ingest(f, c, r, p, ackOk, sink), input)
    ensures p.segment - r.nextEmit < c.window ==> Ingest(f, c, r, p, ackOk, sink).receiver.aheadDrops == r.aheadDrops
  {
    hide PacketOk, SlotOk, Sound, Collect, WellFormed, GeometryOk;
    assert p.DataPacket? && p.segment < |input| by { PacketIsData(f, c, p, input); }
    var id := p.segment;
    if id < r.nextEmit {
      assert Recovered(r, id);
    } else if id - r.nextEmit < c.window && (id in r.slots || GeometryOk(c, p)) {
      var r1 := if id in r.slots then r else r.(slots := r.slots[id := FreshSlot(p)]);
      if id !in r.slots {
        FreshSlotOk(f, c, p, input);
        ReplaceSlot(f, c, r, id, FreshSlot(p), input);
      }
      CollectGood(f, c, r1, p, ackOk, sink, input);
      CollectDrops(f, r1, p, ackOk, sink);
    }
  }

  lemma CollectDrops(f: Fountain, r: Receiver, p: Packet, ackOk: bool, sink: nat)
    requires p.DataPacket? && p.segment in r.slots
    ensures var t := Collect(f, r, p.segment, p, ackOk, sink).receiver;
            t.aheadDrops == r.aheadDrops && t.endSeen == r.endSeen && t.endCount == r.endCount
  {
    hide EmitReady;
    var slot := r.slots[p.segment];
    var symbols := slot.symbols + [Symbol(p.index, p.payload)];
    var d := f.decode(CodecBytes(slot.segmentBytes), symbols);
    if d.Success? {
      EmitReadyFacts(r.(slots := r.slots[p.segment := slot.(symbols := symbols, recovered := true, message := d.message)]), sink);
    }
  }

  lemma IngestEndGood(f: Fountain, c: Config, r: Receiver, n: nat, ackOk: bool, sink: nat, input: seq<Bytes>)
    requires ReceiverInv(f, c, r, input) && n == |input|
    ensures GoodStep(f, c, r, Ingest(f, c, r, EndPacket(n), ackOk, sink), input)
    ensures Ingest(f, c, r, EndPacket(n), ackOk, sink).receiver.aheadDrops == r.aheadDrops
  {
    hide EmitReady, SlotOk;
    var r1 := r.(endSeen := true, endCount := n);
    EmitGood(f, c, r1, sink, input);
    EmitReadyFacts(r1, sink);
    assert forall id :: Recovered(r, id) ==> Recovered(r1, id);
  }

  lemma IngestEndSeen(f: Fountain, c: Config, r: Receiver, p: Packet, ackOk: bool, sink: nat)
    ensures var t := Ingest(f, c, r, p, ackOk, sink).receiver;
            if p.EndPacket? then t.endSeen && t.endCount == p.segments
            else t.endSeen == r.endSeen && t.endCount == r.endCount
  {
    hide EmitReady, Collect, WellFormed, GeometryOk;
    if p.EndPacket? {
      EmitReadyFacts(r.(endSeen := true, endCount := p.segments), sink);
    } else if p.segment in r.slots {
      CollectDrops(f, r, p, ackOk, sink);
    } else {
      CollectDrops(f, r.(slots := r.slots[p.segment := FreshSlot(p)]), p, ackOk, sink);
    }
  }

  lemma DeliverKeeps(f: Fountain, c: Config, w: World, p: Packet, ackOk: bool, sink: nat)
    requires Sound(f) && ConfigValid(c) && Inv(f, c, w) && p in w.net
    ensures DataFits(w.s) && Inv(f, c, Next(f, c, w, EvDeliver(p, ackOk, sink)))
  {
    hide SlotOk, PacketOk, SegmentOk, Sound, Ingest, GeometryOk;
    SenderFits(c, w.s);
    var t := Ingest(f, c, w.r, p, ackOk, sink);
    assert OnWire(f, c, w.s, w.input, p);
    if p.DataPacket? {
      IngestDataGood(f, c, w.r, p, ackOk, sink, w.input);
      if !w.stalled && p.segment >= w.r.nextEmit {
        DataAlwaysFits(f, c, w, p);
      }
    } else {
      IngestEndGood(f, c, w.r, p.segments, ackOk, sink, w.input);
    }
    IngestEndSeen(f, c, w.r, p, ackOk, sink);
    hide Recovered, ReceiverInv;
    var w' := Next(f, c, w, EvDeliver(p, ackOk, sink));
    forall id | id in w'.acks ensures Recovered(w'.r, id) {
      if id !in w.acks {
        var i :| 0 <= i < |t.acks| && t.acks[i] == id;
      }
    }
    forall q | q in w'.net ensures OnWire(f, c, w'.s, w'.input, q) {
      assert OnWire(f, c, w.s, w.input, q);
    }
  }

  /** Every step of either side or of the network keeps the invariant. */
  lemma StepKeeps(f: Fountain, c: Config, w: World, e: Event)
    requires Sound(f) && ConfigValid(c) && Inv(f, c, w) && Enabled(w, e)
    ensures DataFits(w.s) && Inv(f, c, Next(f, c, w, e))
  {
    hide Inv, Next, Sound;
    match e
    case EvAdmit(id, data) => AdmitKeeps(f, c, w, id, data);
    case EvFinish => FinishKeeps(f, c, w);
    case EvAck(id) => AckKeeps(f, c, w, id);
    case EvTick(now, wait, budget) => TickKeeps(f, c, w, now, wait, budget);
    case EvEnd(linkOk) => EndKeeps(f, c, w, linkOk);
    case EvDeliver(p, ackOk, sink) => DeliverKeeps(f, c, w, p, ackOk, sink);
    case EvPoll(id) => PollKeeps(f, c, w, id);
  }

  // ---------------------------------------------------------------------
  // Whole runs.

  ghost predicate Run(f: Fountain, c: Config, ws: seq<World>, es: seq<Event>) {
    |ws| == |es| + 1 && ws[0] == START &&
    forall i :: 0 <= i < |es| ==> DataFits(ws[i].s) && Enabled(ws[i], es[i]) && ws[i + 1] == Next(f, c, ws[i], es[i])
  }

  lemma StartInv(f: Fountain, c: Config)
    ensures Inv(f, c, START)
  {}

  lemma {:induction false} RunInv(f: Fountain, c: Config, ws: seq<World>, es: seq<Event>, n: nat)
    requires Sound(f) && ConfigValid(c) && Run(f, c, ws, es) && n < |ws|
    ensures Inv(f, c, ws[n])
  {
    hide Inv, Next, Sound, Enabled, ConfigValid;
    if n == 0 {
      StartInv(f, c);
    } else {
      RunInv(f, c, ws, es, n - 1);
      StepKeeps(f, c, ws[n - 1], es[n - 1]);
      assert ws[n - 1 + 1] == Next(f, c, ws[n - 1], es[n - 1]);
    }
  }

  /** In every reachable state of every run: the output is exactly the admitted
      segments before next_emit, each once and in order, all of them with packet
      counts the header holds; a complete receiver has the whole input and the sender admits no more; and as long as no refusal
      left a segment stuck, the base is not past next_emit and nothing was
      dropped ahead of the window. */
  lemma RunSafety(f: Fountain, c: Config, ws: seq<World>, es: seq<Event>, n: nat)
    requires Sound(f) && ConfigValid(c) && Run(f, c, ws, es) && n < |ws|
    ensures var w := ws[n];
            w.r.nextEmit <= |w.input| && w.r.output == w.input[..w.r.nextEmit] &&
            NextId(w.s) == |w.input| && Carried(c, w.r.output) &&
            (w.r.complete ==> w.r.output == w.input && w.s.finished && |w.s.segments| == 0) &&
            (!w.stalled ==> w.s.base <= w.r.nextEmit && w.r.aheadDrops == 0)
  {
    hide Sound, ConfigValid, Run, SlotOk, PacketOk;
    RunInv(f, c, ws, es, n);
    var w := ws[n];
    if !w.stalled {
      BaseBehindNextEmit(f, c, w);
    }
    assert w.r.complete ==> w.input[..|w.input|] == w.input;
  }

  // ---------------------------------------------------------------------
  // When a segment gets stuck at the head.

  /** The number of recovered segments in a row from next_emit. */
  ghost function ReadyRun(r: Receiver): (n: nat)
    decreases |r.slots|
  {
    if HeadRecovered(r) then RemoveShrinks(r.slots, r.nextEmit); 1 + ReadyRun(Emitted(r)) else 0
  }

  /** Emission leaves a recovered head exactly when the sink takes fewer segments
      than are ready. */
  lemma {:induction false} StallsExactlyWhenRefused(r: Receiver, sink: nat)
    ensures HeadRecovered(EmitReady(r, sink).receiver) <==> sink < ReadyRun(r)
    ensures ReadyRun(r) <= |r.slots|
    decreases |r.slots|
  {
    if HeadRecovered(r) {
      RemoveShrinks(r.slots, r.nextEmit);
      StallsExactlyWhenRefused(Emitted(r), if sink == 0 then 0 else sink - 1);
    }
  }

  lemma CollectNoStall(f: Fountain, r: Receiver, p: Packet, sink: nat)
    requires p.DataPacket? && p.segment in r.slots && !HeadRecovered(r) && sink >= |r.slots|
    ensures !HeadRecovered(Collect(f, r, p.segment, p, true, sink).receiver)
  {
    hide EmitReady;
    var slot := r.slots[p.segment];
    var symbols := slot.symbols + [Symbol(p.index, p.payload)];
    var d := f.decode(CodecBytes(slot.segmentBytes), symbols);
    if d.Success? {
      var got := r.(slots := r.slots[p.segment := slot.(symbols := symbols, recovered := true, message := d.message)]);
      assert got.slots.Keys == r.slots.Keys;
      StallsExactlyWhenRefused(got, sink);
    }
  }

  /** A link that takes the acknowledgement and a sink that takes every ready
      segment never leave one stuck. */
  lemma NoRefusalNoStall(f: Fountain, c: Config, r: Receiver, p: Packet, sink: nat)
    requires !HeadRecovered(r) && sink > |r.slots|
    ensures !HeadRecovered(Ingest(f, c, r, p, true, sink).receiver)
  {
    hide EmitReady, Collect, WellFormed, GeometryOk;
    if p.EndPacket? {
      StallsExactlyWhenRefused(r.(endSeen := true, endCount := p.segments), sink);
    } else if p.segment in r.slots {
      CollectNoStall(f, r, p, sink);
    } else {
      var r1 := r.(slots := r.slots[p.segment := FreshSlot(p)]);
      assert r1.slots.Keys == r.slots.Keys + {p.segment};
      CollectNoStall(f, r1, p, sink);
    }
  }

  ghost predicate NeverRefused(ws: seq<World>, es: seq<Event>)
    requires |ws| == |es| + 1
  {
    forall i :: 0 <= i < |es| && es[i].EvDeliver? ==> es[i].ackOk && es[i].sink > |ws[i].r.slots|
  }

  /** Without refusals the sender's base never passes next_emit, no packet is
      ever ahead of the window, and END, once delivered, completes the flow. */
  lemma {:induction false} CleanRun(f: Fountain, c: Config, ws: seq<World>, es: seq<Event>, n: nat)
    requires Sound(f) && ConfigValid(c) && Run(f, c, ws, es) && n < |ws| && NeverRefused(ws, es)
    ensures !ws[n].stalled && ws[n].s.base <= ws[n].r.nextEmit && ws[n].r.aheadDrops == 0
  {
    hide Inv, Sound, ConfigValid, Ingest, Tick, InputAck, Admit;
    RunSafety(f, c, ws, es, n);
    if n != 0 {
      CleanRun(f, c, ws, es, n - 1);
      var w, e := ws[n - 1], es[n - 1];
      assert ws[n - 1 + 1] == Next(f, c, w, e);
      RunInv(f, c, ws, es, n - 1);
      if e.EvDeliver? {
        assert !HeadRecovered(w.r) by { assert Inv(f, c, w); CleanHead(f, c, w); }
        NoRefusalNoStall(f, c, w.r, e.packet, e.sink);
      }
    }
  }

  lemma CleanHead(f: Fountain, c: Config, w: World)
    requires Inv(f, c, w) && !w.stalled
    ensures !HeadRecovered(w.r)
  {}

  lemma HeadRefused(f: Fountain, c: Config, r: Receiver, p: Packet)
    requires p.DataPacket? && WellFormed(p) && p.segment == r.nextEmit && 0 < c.window
    requires p.segment in r.slots && !r.slots[p.segment].recovered && r.slots[p.segment].ackRequested
    requires var slot := r.slots[p.segment];
             slot.packetLimit == p.count && slot.segmentBytes == p.segmentBytes && slot.origin == p.origin &&
             f.decode(CodecBytes(slot.segmentBytes), slot.symbols + [Symbol(p.index, p.payload)]).Success?
    ensures var t := Ingest(f, c, r, p, true, 0);
            t.receiver.nextEmit == r.nextEmit && t.acks == [p.segment] && t.rc == -1
  {
    hide WellFormed, GeometryOk;
  }

  /** With a refusing sink the link breaks: the head segment is acknowledged but
      not emitted, and its acknowledgement carries the base past next_emit. */
  lemma RefusalBreaksLink(f: Fountain, c: Config, w: World, p: Packet)
    requires Sound(f) && ConfigValid(c) && Inv(f, c, w) && p in w.net && p.DataPacket? && WellFormed(p)
    requires p.segment == w.r.nextEmit == w.s.base && p.segment in w.r.slots && !w.r.slots[p.segment].recovered
    requires f.decode(CodecBytes(w.r.slots[p.segment].segmentBytes),
                      w.r.slots[p.segment].symbols + [Symbol(p.index, p.payload)]).Success?
    ensures DataFits(w.s)
    ensures var w1 := Next(f, c, w, EvDeliver(p, true, 0));
            p.segment in w1.acks && DataFits(w1.s) &&
            var w2 := Next(f, c, w1, EvAck(p.segment));
            w2.s.base > w2.r.nextEmit
  {
    hide WellFormed, Ingest, Sound;
    assert OnWire(f, c, w.s, w.input, p);
    assert SlotOk(f, c, w.r.slots[p.segment], w.input[p.segment]);
    HeadRefused(f, c, w.r, p);
    hide SlotOk, PacketOk, Genuine;
    SenderFits(c, w.s);
    var w1 := Next(f, c, w, EvDeliver(p, true, 0));
    var s1 := ApplyAcks(MarkAck(c, w1.s, p.segment));
    assert s1.segments[0].acked;
    ReleaseKeepsData(s1);
  }
}
