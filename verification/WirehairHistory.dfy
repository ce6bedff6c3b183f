/** What a segment's decoder has been fed in every run, when it is recovered, and
    when it is acknowledged. */
module WirehairHistory {
  import opened Arith
  import opened WirehairCore
  import opened WirehairSender
  import opened WirehairReceiver
  import opened WirehairProtocol
  import opened WirehairLink
  import SlotTable

  // ---------------------------------------------------------------------
  // The history of a segment, kept beside the receiver.

  /** A packet for a segment the receiver may be collecting. */
  ghost predicate Usable(c: Config, nextEmit: nat, p: Packet) {
    p.DataPacket? && nextEmit <= p.segment < nextEmit + c.window && WellFormed(p) && GeometryOk(c, p)
  }

  /** The usable packets of segment id that the first n events delivered, in order
      of arrival. */
  ghost function Arrived(c: Config, ws: seq<World>, es: seq<Event>, id: nat, n: nat): (q: seq<Packet>)
    requires |ws| == |es| + 1 && n <= |es|
    ensures forall i :: 0 <= i < |q| ==> q[i].DataPacket? && q[i].segment == id
  {
    if n == 0 then []
    else
      var q := Arrived(c, ws, es, id, n - 1);
      var e := es[n - 1];
      if e.EvDeliver? && Usable(c, ws[n - 1].r.nextEmit, e.packet) && e.packet.segment == id then q + [e.packet] else q
  }

  ghost function Symbols(q: seq<Packet>): (s: seq<Symbol>)
    requires forall i :: 0 <= i < |q| ==> q[i].DataPacket?
  {
    seq(|q|, i requires 0 <= i < |q| => Symbol(q[i].index, q[i].payload))
  }

  /** The decoder succeeds on the first m packets. */
  ghost predicate DecodesAt(f: Fountain, q: seq<Packet>, m: nat)
    requires forall i :: 0 <= i < |q| ==> q[i].DataPacket?
  {
    0 < m <= |q| && f.decode(CodecBytes(q[0].segmentBytes), Symbols(q[..m])).Success?
  }

  ghost predicate Decodes(f: Fountain, q: seq<Packet>)
    requires forall i :: 0 <= i < |q| ==> q[i].DataPacket?
  {
    exists m: nat :: DecodesAt(f, q, m)
  }

  /** The receiver's state of a segment is what its history makes of it. */
  ghost predicate Follows(f: Fountain, r: Receiver, id: nat, q: seq<Packet>)
    requires forall i :: 0 <= i < |q| ==> q[i].DataPacket?
  {
    (Recovered(r, id) <==> Decodes(f, q)) &&
    (!Recovered(r, id) ==> (id in r.slots <==> q != [])) &&
    (!Recovered(r, id) && id in r.slots ==> r.slots[id].symbols == Symbols(q) && r.slots[id].segmentBytes == q[0].segmentBytes)
  }

  // ---------------------------------------------------------------------
  // What ingest does to a segment.

  /** The two receivers agree on the segment. */
  ghost predicate Same(r: Receiver, t: Receiver, id: nat) {
    (Recovered(r, id) <==> Recovered(t, id)) &&
    (!Recovered(r, id) ==> (id in r.slots <==> id in t.slots) && (id in r.slots ==> t.slots[id] == r.slots[id]))
  }

  lemma EmitSame(r: Receiver, sink: nat, id: nat)
    ensures Same(r, EmitReady(r, sink).receiver, id)
  {
    hide EmitReady;
    EmitReadyFacts(r, sink);
  }

  /** The open segment with one more symbol. */
  ghost function Grown(r: Receiver, p: Packet): (t: Receiver)
    requires p.DataPacket?
  {
    var o := Opened(r, p);
    var slot := o.slots[p.segment];
    o.(slots := o.slots[p.segment := slot.(symbols := slot.symbols + [Symbol(p.index, p.payload)])])
  }

  /** An accepted packet is fed to its segment's decoder, whatever that says. */
  lemma AcceptedIsFed(f: Fountain, c: Config, r: Receiver, p: Packet, ackOk: bool, sink: nat, id: nat)
    requires p.DataPacket? && Accepts(c, r, p)
    ensures var t := Ingest(f, c, r, p, ackOk, sink).receiver;
            Same(if Decoded(f, r, p).Success? then Fed(f, r, p) else Grown(r, p), t, id)
  {
    hide EmitReady, WellFormed, GeometryOk;
    if Decoded(f, r, p).Success? { EmitSame(Fed(f, r, p), sink, id); }
  }

  lemma OthersIgnored(f: Fountain, c: Config, r: Receiver, p: Packet, ackOk: bool, sink: nat, id: nat)
    requires p.DataPacket? ==> !Accepts(c, r, p)
    ensures Same(r, Ingest(f, c, r, p, ackOk, sink).receiver, id)
  {
    hide EmitReady, WellFormed, GeometryOk;
    if p.EndPacket? { EmitSame(r.(endSeen := true, endCount := p.segments), sink, id); }
  }

  /** A packet of the sender is accepted exactly when it is usable and its segment
      not yet recovered. */
  lemma GenuineAccepted(f: Fountain, c: Config, w: World, p: Packet)
    requires ConfigValid(c) && Inv(f, c, w) && p in w.net && p.DataPacket?
    ensures Accepts(c, w.r, p) <==> Usable(c, w.r.nextEmit, p) && !Recovered(w.r, p.segment)
    ensures Usable(c, w.r.nextEmit, p) && p.segment in w.r.slots ==> w.r.slots[p.segment].segmentBytes == p.segmentBytes
  {
    assert OnWire(f, c, w.s, w.input, p);
    GeometryExact(f, c, p, w.input);
    if p.segment in w.r.slots {
      OpenMatches(f, c, w, p);
    } else if Usable(c, w.r.nextEmit, p) {
      SlotFree(f, c, w, p.segment);
    }
    hide Inv, WellFormed, GeometryOk, PacketOk, ConfigValid;
  }

  lemma OpenMatches(f: Fountain, c: Config, w: World, p: Packet)
    requires ConfigValid(c) && Inv(f, c, w) && p.DataPacket? && PacketOk(f, c, p, w.input) && p.segment in w.r.slots
    ensures var slot := w.r.slots[p.segment];
            slot.packetLimit == p.count && slot.segmentBytes == p.segmentBytes && slot.origin == p.origin && GeometryOk(c, p) &&
            slot.ackRequested && p.segment >= w.r.nextEmit
  {
    GeometryExact(f, c, p, w.input);
    assert SlotOk(f, c, w.r.slots[p.segment], w.input[p.segment]);
    hide GeometryOk, Genuine, Padded, Payload, SourcePackets, PacketCount;
  }

  lemma SlotFree(f: Fountain, c: Config, w: World, id: nat)
    requires Inv(f, c, w) && w.r.nextEmit <= id < w.r.nextEmit + c.window && id !in w.r.slots
    ensures |w.r.slots| < c.window
  {
    var window := Interval(w.r.nextEmit, w.r.nextEmit + c.window);
    assert w.r.slots.Keys <= window - {id};
    SubsetSize(w.r.slots.Keys, window - {id});
  }

  // ---------------------------------------------------------------------
  // The history grows.

  lemma SymbolsMore(q: seq<Packet>, p: Packet)
    requires p.DataPacket? && forall i :: 0 <= i < |q| ==> q[i].DataPacket?
    ensures Symbols(q + [p]) == Symbols(q) + [Symbol(p.index, p.payload)]
  {}

  /** A longer history decodes exactly when the shorter one did or all of it does. */
  lemma DecodesMore(f: Fountain, q: seq<Packet>, p: Packet)
    requires p.DataPacket? && forall i :: 0 <= i < |q| ==> q[i].DataPacket?
    ensures Decodes(f, q + [p]) <==> Decodes(f, q) || DecodesAt(f, q + [p], |q| + 1)
  {
    var more := q + [p];
    forall m | 0 < m <= |q| ensures DecodesAt(f, more, m) == DecodesAt(f, q, m) {
      assert more[..m] == q[..m];
    }
    if Decodes(f, q) {
      var m: nat :| DecodesAt(f, q, m);
      assert DecodesAt(f, more, m);
    }
    if Decodes(f, more) {
      var m: nat :| DecodesAt(f, more, m);
      assert m <= |q| ==> DecodesAt(f, q, m);
    }
  }

  lemma SameFollows(f: Fountain, r: Receiver, t: Receiver, id: nat, q: seq<Packet>)
    requires (forall i :: 0 <= i < |q| ==> q[i].DataPacket?) && Follows(f, r, id, q) && Same(r, t, id)
    ensures Follows(f, t, id, q)
  {}

  /** The packet that is fed is the next of the history. */
  lemma FedFollows(f: Fountain, c: Config, r: Receiver, p: Packet, q: seq<Packet>)
    requires (forall i :: 0 <= i < |q| ==> q[i].DataPacket?) && p.DataPacket? && Follows(f, r, p.segment, q)
    requires Accepts(c, r, p) && (p.segment in r.slots ==> r.slots[p.segment].segmentBytes == p.segmentBytes)
    ensures Follows(f, if Decoded(f, r, p).Success? then Fed(f, r, p) else Grown(r, p), p.segment, q + [p])
  {
    hide WellFormed, GeometryOk;
    DecodesMore(f, q, p);
    SymbolsMore(q, p);
    var more := q + [p];
    assert more[..|q| + 1] == more;
    assert Decoded(f, r, p) == f.decode(CodecBytes(more[0].segmentBytes), Symbols(more)) by {
      assert q == [] ==> Symbols(q) == [];
    }
    hide Decodes, Symbols;
  }

  lemma DeliverFollows(f: Fountain, c: Config, w: World, p: Packet, ackOk: bool, sink: nat, id: nat, q: seq<Packet>)
    requires ConfigValid(c) && Inv(f, c, w) && p in w.net
    requires (forall i :: 0 <= i < |q| ==> q[i].DataPacket?) && Follows(f, w.r, id, q)
    ensures Follows(f, Ingest(f, c, w.r, p, ackOk, sink).receiver, id,
                    if Usable(c, w.r.nextEmit, p) && p.segment == id then q + [p] else q)
  {
    hide Inv, Ingest, ConfigValid, WellFormed, GeometryOk, Follows, Same, Accepts;
    var t := Ingest(f, c, w.r, p, ackOk, sink).receiver;
    if p.DataPacket? { GenuineAccepted(f, c, w, p); }
    if p.DataPacket? && Accepts(c, w.r, p) {
      AcceptedIsFed(f, c, w.r, p, ackOk, sink, id);
      var mid := if Decoded(f, w.r, p).Success? then Fed(f, w.r, p) else Grown(w.r, p);
      if p.segment == id {
        FedFollows(f, c, w.r, p, q);
        SameFollows(f, mid, t, id, q + [p]);
      } else {
        ElsewhereSame(f, w.r, p, id);
        SameFollows(f, w.r, mid, id, q);
        SameFollows(f, mid, t, id, q);
      }
    } else {
      OthersIgnored(f, c, w.r, p, ackOk, sink, id);
      SameFollows(f, w.r, t, id, q);
      if p.DataPacket? && Usable(c, w.r.nextEmit, p) && p.segment == id { StillFollows(f, t, w.r, id, q, p); }
    }
  }

  lemma ElsewhereSame(f: Fountain, r: Receiver, p: Packet, id: nat)
    requires p.DataPacket? && p.segment != id
    ensures Same(r, if Decoded(f, r, p).Success? then Fed(f, r, p) else Grown(r, p), id)
  {}

  /** More packets for a recovered segment change nothing. */
  lemma StillFollows(f: Fountain, t: Receiver, r: Receiver, id: nat, q: seq<Packet>, p: Packet)
    requires p.DataPacket? && (forall i :: 0 <= i < |q| ==> q[i].DataPacket?) && Follows(f, t, id, q)
    requires Recovered(r, id) && Same(r, t, id)
    ensures Follows(f, t, id, q + [p])
  {
    DecodesMore(f, q, p);
    hide Decodes, Symbols;
  }

  lemma NoDelivery(f: Fountain, c: Config, w: World, e: Event)
    requires DataFits(w.s) && !e.EvDeliver?
    ensures Next(f, c, w, e).r == w.r
  {
    hide Tick, Admit, InputAck;
  }

  /** In every state of every run: a segment is recovered exactly when the decoder
      succeeds on some first part of what has arrived for it; until then it is open
      exactly when something has arrived, and its decoder has been fed exactly
      that, in order. */
  lemma {:induction false} FedExactly(f: Fountain, c: Config, ws: seq<World>, es: seq<Event>, id: nat, n: nat)
    requires Sound(f) && ConfigValid(c) && Run(f, c, ws, es) && n < |ws|
    ensures var r, q := ws[n].r, Arrived(c, ws, es, id, n);
            (Recovered(r, id) <==> Decodes(f, q)) &&
            (!Recovered(r, id) ==> (id in r.slots <==> q != []) && (id in r.slots ==> r.slots[id].symbols == Symbols(q)))
    ensures Follows(f, ws[n].r, id, Arrived(c, ws, es, id, n))
  {
    hide Next, Sound, ConfigValid, Inv, Usable, Symbols, Ingest, Decodes;
    if n == 0 {
      NothingDecodes(f);
    } else {
      var w, e := ws[n - 1], es[n - 1];
      FedExactly(f, c, ws, es, id, n - 1);
      RunInv(f, c, ws, es, n - 1);
      assert Enabled(w, e) && ws[n - 1 + 1] == Next(f, c, w, e);
      if e.EvDeliver? {
        DeliverFollows(f, c, w, e.packet, e.ackOk, e.sink, id, Arrived(c, ws, es, id, n - 1));
        DeliverIs(f, c, w, e);
      } else {
        NoDelivery(f, c, w, e);
      }
    }
  }

  lemma NothingDecodes(f: Fountain)
    ensures !Decodes(f, [])
  {}

  lemma DeliverIs(f: Fountain, c: Config, w: World, e: Event)
    requires DataFits(w.s) && e.EvDeliver?
    ensures Next(f, c, w, e).r == Ingest(f, c, w.r, e.packet, e.ackOk, e.sink).receiver
  {
    hide Ingest;
  }

  // ---------------------------------------------------------------------
  // Acknowledgements and return codes.

  lemma {:induction false} EmitCode(r: Receiver, sink: nat)
    ensures EmitReady(r, sink).rc == if sink < ReadyRun(r) then -1 else 0
    decreases |r.slots|
  {
    if HeadRecovered(r) {
      SlotTable.RemoveShrinks(r.slots, r.nextEmit);
      if sink > 0 { EmitCode(Emitted(r), sink - 1); }
    }
  }

  /** The packet gets past the header checks, or is for an emitted segment. */
  ghost predicate Taken(r: Receiver, p: Packet)
    requires p.DataPacket?
  {
    p.segment < r.nextEmit || WellFormed(p)
  }

  /** Acknowledged exactly when the segment is recovered by then and the link takes
      the acknowledgement. */
  ghost predicate AckedSo(r: Receiver, p: Packet, ackOk: bool, t: Ingested)
    requires p.DataPacket?
  {
    t.acks == if ackOk && Taken(r, p) && Recovered(t.receiver, p.segment) then [p.segment] else []
  }

  /** The call fails exactly for a malformed packet, a bad geometry, a decoder
      failure, a refused acknowledgement, or a sink that takes fewer segments than
      are ready. */
  ghost predicate FailedSo(f: Fountain, c: Config, r: Receiver, p: Packet, ackOk: bool, sink: nat, t: Ingested)
    requires p.DataPacket?
  {
    (t.rc == 0 || t.rc == -1) &&
    (t.rc == -1 <==>
       !Taken(r, p) ||
       (r.nextEmit <= p.segment < r.nextEmit + c.window && !GeometryOk(c, p)) ||
       (Accepts(c, r, p) && Decoded(f, r, p).Failure?) ||
       (!ackOk && Recovered(t.receiver, p.segment)) ||
       (Accepts(c, r, p) && Decoded(f, r, p).Success? && sink < ReadyRun(Fed(f, r, p))))
  }

  /** What the invariant says of a packet on the wire and of its open segment. */
  ghost predicate Known(c: Config, r: Receiver, p: Packet)
    requires p.DataPacket?
  {
    p.ackRequest && p.origin != 0 &&
    (Accepts(c, r, p) <==> Usable(c, r.nextEmit, p) && !Recovered(r, p.segment)) &&
    (p.segment in r.slots ==>
       r.nextEmit <= p.segment < r.nextEmit + c.window && GeometryOk(c, p) &&
       var slot := r.slots[p.segment];
       slot.packetLimit == p.count && slot.segmentBytes == p.segmentBytes && slot.origin == p.origin && slot.ackRequested)
  }

  lemma AcceptedCode(f: Fountain, c: Config, r: Receiver, p: Packet, ackOk: bool, sink: nat)
    requires p.DataPacket? && Known(c, r, p) && Accepts(c, r, p)
    ensures var t := Ingest(f, c, r, p, ackOk, sink); AckedSo(r, p, ackOk, t) && FailedSo(f, c, r, p, ackOk, sink, t)
  {
    hide WellFormed, GeometryOk, EmitReady, ReadyRun;
    if Decoded(f, r, p).Success? {
      EmitCode(Fed(f, r, p), sink);
      EmitSame(Fed(f, r, p), sink, p.segment);
    }
  }

  lemma IgnoredCode(f: Fountain, c: Config, r: Receiver, p: Packet, ackOk: bool, sink: nat)
    requires p.DataPacket? && Known(c, r, p) && !Accepts(c, r, p)
    ensures var t := Ingest(f, c, r, p, ackOk, sink); AckedSo(r, p, ackOk, t) && FailedSo(f, c, r, p, ackOk, sink, t)
  {
    hide WellFormed, GeometryOk, EmitReady, ReadyRun;
  }

  /** In every state of every run, for every packet on the wire. */
  lemma AcksExactly(f: Fountain, c: Config, w: World, p: Packet, ackOk: bool, sink: nat)
    requires ConfigValid(c) && Inv(f, c, w) && p in w.net && p.DataPacket?
    ensures var t := Ingest(f, c, w.r, p, ackOk, sink); AckedSo(w.r, p, ackOk, t) && FailedSo(f, c, w.r, p, ackOk, sink, t)
  {
    assert Known(c, w.r, p) by {
      assert OnWire(f, c, w.s, w.input, p);
      Wanted(f, c, w, p);
      GenuineAccepted(f, c, w, p);
      if p.segment in w.r.slots { OpenMatches(f, c, w, p); }
      InWindowOnly(f, c, w, p.segment);
    }
    hide Inv, ConfigValid, Known, Ingest, AckedSo, FailedSo;
    if Accepts(c, w.r, p) {
      AcceptedCode(f, c, w.r, p, ackOk, sink);
    } else {
      IgnoredCode(f, c, w.r, p, ackOk, sink);
    }
  }

  lemma Wanted(f: Fountain, c: Config, w: World, p: Packet)
    requires ConfigValid(c) && p.DataPacket? && OnWire(f, c, w.s, w.input, p)
    ensures p.ackRequest && p.origin != 0
  {}

  lemma InWindowOnly(f: Fountain, c: Config, w: World, id: nat)
    requires Inv(f, c, w)
    ensures id in w.r.slots ==> w.r.nextEmit <= id < w.r.nextEmit + c.window
  {}

  /** A packet, genuine or not, for a segment not yet emitted: an empty payload or
      one over 1370 bytes, no origin, no count, or an index past the count fails the
      call and changes nothing; so does one that contradicts its open segment. */
  lemma MalformedRejected(f: Fountain, c: Config, r: Receiver, p: Packet, ackOk: bool, sink: nat)
    requires p.DataPacket? && p.segment >= r.nextEmit
    requires |p.payload| == 0 || |p.payload| > 1370 || p.origin == 0 || p.count == 0 || p.index >= p.count ||
             (p.segment < r.nextEmit + c.window && p.segment in r.slots &&
              var slot := r.slots[p.segment]; slot.packetLimit != p.count || slot.segmentBytes != p.segmentBytes || slot.origin != p.origin)
    ensures Ingest(f, c, r, p, ackOk, sink) == Ingested(r, [], -1)
  {
    hide EmitReady, GeometryOk;
  }
}
