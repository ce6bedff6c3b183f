/** Exactly when the sender's base can pass the receiver's next segment. */
module WirehairLink {
  import opened WirehairCore
  import opened WirehairSender
  import opened WirehairReceiver
  import opened WirehairProtocol
  import opened SlotTable

  // ---------------------------------------------------------------------
  // When a delivery strands a recovered segment at the head.

  /** The receiver with the packet's segment open. */
  ghost function Opened(r: Receiver, p: Packet): (t: Receiver)
    requires p.DataPacket?
    ensures p.segment in t.slots
  {
    if p.segment in r.slots then r else r.(slots := r.slots[p.segment := FreshSlot(p)])
  }

  /** Ingest passes the packet to the decoder of its segment. */
  ghost predicate Accepts(c: Config, r: Receiver, p: Packet)
    requires p.DataPacket?
  {
    r.nextEmit <= p.segment < r.nextEmit + c.window && WellFormed(p) &&
    (p.segment in r.slots || (GeometryOk(c, p) && |r.slots| < c.window)) &&
    var slot := Opened(r, p).slots[p.segment];
    slot.packetLimit == p.count && slot.segmentBytes == p.segmentBytes && slot.origin == p.origin && !slot.recovered
  }

  ghost function Decoded(f: Fountain, r: Receiver, p: Packet): (d: DecodeResult)
    requires p.DataPacket?
  {
    var slot := Opened(r, p).slots[p.segment];
    f.decode(CodecBytes(slot.segmentBytes), slot.symbols + [Symbol(p.index, p.payload)])
  }

  /** The packet completes its segment. */
  ghost predicate Completes(f: Fountain, c: Config, r: Receiver, p: Packet) {
    p.DataPacket? && Accepts(c, r, p) && Decoded(f, r, p).Success?
  }

  /** The receiver with that segment recovered. */
  ghost function Fed(f: Fountain, r: Receiver, p: Packet): (t: Receiver)
    requires p.DataPacket? && Decoded(f, r, p).Success?
  {
    var o := Opened(r, p);
    var slot := o.slots[p.segment];
    o.(slots := o.slots[p.segment := slot.(symbols := slot.symbols + [Symbol(p.index, p.payload)], recovered := true,
                                           message := Decoded(f, r, p).message)])
  }

  ghost predicate AckWanted(r: Receiver, p: Packet)
    requires p.DataPacket?
  {
    Opened(r, p).slots[p.segment].ackRequested
  }

  /** The packet completes a segment and then either its acknowledgement is
      refused and it is the head, or the sink takes fewer segments than are ready. */
  ghost predicate Strands(f: Fountain, c: Config, r: Receiver, p: Packet, ackOk: bool, sink: nat) {
    Completes(f, c, r, p) &&
    if AckWanted(r, p) && !ackOk then p.segment == r.nextEmit else sink < ReadyRun(Fed(f, r, p))
  }

  lemma CollectStrands(f: Fountain, c: Config, r: Receiver, p: Packet, ackOk: bool, sink: nat)
    requires p.DataPacket? && !HeadRecovered(r)
    ensures var o := Opened(r, p);
            var slot := o.slots[p.segment];
            HeadRecovered(Collect(f, o, p.segment, p, ackOk, sink).receiver) <==>
            slot.packetLimit == p.count && slot.segmentBytes == p.segmentBytes && slot.origin == p.origin && !slot.recovered &&
            Decoded(f, r, p).Success? &&
            if AckWanted(r, p) && !ackOk then p.segment == r.nextEmit else sink < ReadyRun(Fed(f, r, p))
  {
    hide EmitReady, ReadyRun;
    if Decoded(f, r, p).Success? { StallsExactlyWhenRefused(Fed(f, r, p), sink); }
  }

  /** Ingest leaves a recovered head where there was none exactly when the packet
      strands one. */
  lemma StrandsExactly(f: Fountain, c: Config, r: Receiver, p: Packet, ackOk: bool, sink: nat)
    requires !HeadRecovered(r)
    ensures HeadRecovered(Ingest(f, c, r, p, ackOk, sink).receiver) <==> Strands(f, c, r, p, ackOk, sink)
  {
    hide EmitReady, ReadyRun, Collect, WellFormed, GeometryOk;
    if p.DataPacket? {
      CollectStrands(f, c, r, p, ackOk, sink);
    } else {
      StallsExactlyWhenRefused(r.(endSeen := true, endCount := p.segments), sink);
      assert ReadyRun(r.(endSeen := true, endCount := p.segments)) == 0 by { NoHeadNoRun(r.(endSeen := true, endCount := p.segments)); }
    }
  }

  lemma NoHeadNoRun(r: Receiver)
    requires !HeadRecovered(r)
    ensures ReadyRun(r) == 0
  {}

  // ---------------------------------------------------------------------
  // Acknowledgement traffic.

  /** Acknowledgements arriving, an acknowledging thread that finds a segment in
      the recovered ring, and late packets that are acknowledged again. */
  ghost predicate Traffic(w: World, e: Event) {
    Enabled(w, e) && DataFits(w.s) &&
    match e
    case EvAck(_) => true
    case EvPoll(id) => id in w.r.slots && w.r.slots[id].recovered
    case EvDeliver(p, _, _) => p.DataPacket? && p.segment < w.r.nextEmit
    case _ => false
  }

  ghost predicate Trace(f: Fountain, c: Config, ws: seq<World>, es: seq<Event>) {
    |ws| == |es| + 1 && forall i :: 0 <= i < |es| ==> Traffic(ws[i], es[i]) && ws[i + 1] == Next(f, c, ws[i], es[i])
  }

  /** From here, acknowledgement traffic alone can put the base past next_emit. */
  ghost predicate Breakable(f: Fountain, c: Config, w: World) {
    exists ws: seq<World>, es: seq<Event> :: Trace(f, c, ws, es) && ws[0] == w && Passed(ws[|es|])
  }

  ghost predicate Passed(w: World) { w.s.base > w.r.nextEmit }

  lemma TrafficKeeps(f: Fountain, c: Config, w: World, e: Event)
    requires Traffic(w, e)
    ensures Next(f, c, w, e).r == w.r && Next(f, c, w, e).net == w.net
  {
    hide InputAck, EmitReady, Collect;
  }

  lemma {:induction false} TraceKeeps(f: Fountain, c: Config, ws: seq<World>, es: seq<Event>, n: nat)
    requires Sound(f) && ConfigValid(c) && Trace(f, c, ws, es) && Inv(f, c, ws[0]) && n < |ws|
    ensures Inv(f, c, ws[n]) && ws[n].r == ws[0].r
  {
    hide Inv, Next, Sound, ConfigValid;
    if n > 0 {
      TraceKeeps(f, c, ws, es, n - 1);
      assert Traffic(ws[n - 1], es[n - 1]) && ws[n - 1 + 1] == Next(f, c, ws[n - 1], es[n - 1]);
      TrafficKeeps(f, c, ws[n - 1], es[n - 1]);
      StepKeeps(f, c, ws[n - 1], es[n - 1]);
    }
  }

  // ---------------------------------------------------------------------
  // Every segment the receiver knows was on the wire.

  ghost predicate OnNet(net: set<Packet>, id: nat) {
    exists p :: p in net && p.DataPacket? && p.segment == id
  }

  ghost predicate Knows(r: Receiver, id: nat) { id < r.nextEmit || id in r.slots }

  ghost predicate Heard(w: World) {
    forall id: nat :: Knows(w.r, id) ==> OnNet(w.net, id)
  }

  lemma OnNetMore(a: set<Packet>, b: set<Packet>, id: nat)
    requires OnNet(a, id) && a <= b
    ensures OnNet(b, id)
  {
    var p :| p in a && p.DataPacket? && p.segment == id;
    assert p in b;
  }

  lemma HeardMore(w: World, w': World)
    requires Heard(w) && w'.r == w.r && w.net <= w'.net
    ensures Heard(w')
  {
    hide OnNet;
    forall id: nat | OnNet(w.net, id) ensures OnNet(w'.net, id) { OnNetMore(w.net, w'.net, id); }
  }

  /** Ingest opens no segment but the packet's. */
  lemma IngestScope(f: Fountain, c: Config, r: Receiver, p: Packet, ackOk: bool, sink: nat)
    ensures var t := Ingest(f, c, r, p, ackOk, sink).receiver;
            forall id: nat :: Knows(t, id) ==> Knows(r, id) || (p.DataPacket? && id == p.segment)
  {
    hide EmitReady, WellFormed, GeometryOk, Collect;
    if p.EndPacket? {
      EmitScope(r.(endSeen := true, endCount := p.segments), sink);
    } else {
      CollectScope(f, Opened(r, p), p, ackOk, sink);
    }
  }

  lemma CollectScope(f: Fountain, r: Receiver, p: Packet, ackOk: bool, sink: nat)
    requires p.DataPacket? && p.segment in r.slots
    ensures var t := Collect(f, r, p.segment, p, ackOk, sink).receiver;
            forall id: nat :: Knows(t, id) ==> Knows(r, id)
  {
    hide EmitReady;
    if Decoded(f, r, p).Success? { EmitScope(Fed(f, r, p), sink); }
  }

  lemma EmitScope(r: Receiver, sink: nat)
    ensures forall id: nat :: Knows(EmitReady(r, sink).receiver, id) ==> Knows(r, id)
  {
    hide EmitReady;
    EmitReadyFacts(r, sink);
    var t := EmitReady(r, sink).receiver;
    forall id: nat | Knows(t, id) ensures Knows(r, id) {
      assert r.nextEmit <= id < t.nextEmit ==> id in r.slots;
    }
  }

  lemma StepHeard(f: Fountain, c: Config, w: World, e: Event)
    requires DataFits(w.s) && Heard(w) && Enabled(w, e)
    ensures Heard(Next(f, c, w, e))
  {
    hide OnNet, Tick, InputAck, Admit, Ingest;
    var w' := Next(f, c, w, e);
    if e.EvDeliver? {
      IngestScope(f, c, w.r, e.packet, e.ackOk, e.sink);
      assert e.packet.DataPacket? ==> OnNet(w.net, e.packet.segment) by { NetHolds(w.net, e.packet); }
    } else {
      HeardMore(w, w');
    }
  }

  lemma NetHolds(net: set<Packet>, p: Packet)
    requires p in net
    ensures p.DataPacket? ==> OnNet(net, p.segment)
  {}

  lemma {:induction false} RunHeard(f: Fountain, c: Config, ws: seq<World>, es: seq<Event>, n: nat)
    requires Run(f, c, ws, es) && n < |ws|
    ensures Heard(ws[n])
  {
    hide Next, Heard, Enabled, DataFits;
    if n == 0 {
      StartHeard();
    } else {
      RunHeard(f, c, ws, es, n - 1);
      assert ws[n - 1 + 1] == Next(f, c, ws[n - 1], es[n - 1]);
      StepHeard(f, c, ws[n - 1], es[n - 1]);
    }
  }

  lemma StartHeard()
    ensures Heard(START)
  {}

  // ---------------------------------------------------------------------
  // A stranded head lets the base pass.

  /** The event that makes the receiver acknowledge the sender's base. */
  lemma AckEvent(f: Fountain, c: Config, w: World) returns (e: Event)
    requires ConfigValid(c) && Inv(f, c, w) && Heard(w) && HeadRecovered(w.r) && w.s.base <= w.r.nextEmit
    ensures Traffic(w, e) && w.s.base in Next(f, c, w, e).acks && Next(f, c, w, e).s == w.s
  {
    assert DataFits(w.s) by { SenderFits(c, w.s); }
    if w.s.base == w.r.nextEmit {
      e := EvPoll(w.s.base);
    } else {
      assert OnNet(w.net, w.s.base);
      var p :| p in w.net && p.DataPacket? && p.segment == w.s.base;
      assert OnWire(f, c, w.s, w.input, p);
      e := EvDeliver(p, true, 0);
      assert Ingest(f, c, w.r, p, true, 0).acks == [w.s.base];
    }
  }

  /** An acknowledged base is released. */
  lemma AckedBaseLeaves(c: Config, s: Sender)
    requires c.window > 0 && |s.segments| > 0
    ensures InputAck(c, s, s.base).base > s.base
  {
    var s1 := ApplyAcks(MarkAck(c, s, s.base));
    assert s1.segments[0].acked;
    ReleaseKeepsData(s1);
  }

  lemma BaseWaits(f: Fountain, c: Config, w: World)
    requires ConfigValid(c) && Inv(f, c, w) && HeadRecovered(w.r) && w.s.base <= w.r.nextEmit
    ensures |w.s.segments| > 0 && c.window > 0
  {}

  lemma {:induction false} StrandedBreaks(f: Fountain, c: Config, w: World) returns (ws: seq<World>, es: seq<Event>)
    requires Sound(f) && ConfigValid(c) && Inv(f, c, w) && Heard(w) && HeadRecovered(w.r)
    ensures Trace(f, c, ws, es) && ws[0] == w && Passed(ws[|es|])
    decreases w.r.nextEmit + 1 - w.s.base
  {
    hide Inv, Next, Sound, ConfigValid, Heard, Traffic;
    if w.s.base > w.r.nextEmit {
      ws, es := [w], [];
    } else {
      BaseWaits(f, c, w);
      var e := AckEvent(f, c, w);
      TrafficEnabled(w, e);
      TrafficKeeps(f, c, w, e);
      StepKeeps(f, c, w, e);
      StepHeard(f, c, w, e);
      var v := Next(f, c, w, e);
      AckTraffic(f, c, v, w.s.base);
      AckedBaseLeaves(c, v.s);
      var a := EvAck(w.s.base);
      TrafficEnabled(v, a);
      TrafficKeeps(f, c, v, a);
      StepKeeps(f, c, v, a);
      StepHeard(f, c, v, a);
      var u := Next(f, c, v, a);
      var ws1, es1 := StrandedBreaks(f, c, u);
      ws, es := [w, v] + ws1, [e, a] + es1;
      TraceJoin(f, c, w, e, v, a, ws1, es1);
    }
  }

  lemma TrafficEnabled(w: World, e: Event)
    requires Traffic(w, e)
    ensures Enabled(w, e) && DataFits(w.s)
  {}

  lemma AckTraffic(f: Fountain, c: Config, w: World, id: nat)
    requires Inv(f, c, w) && id in w.acks
    ensures Traffic(w, EvAck(id)) && Next(f, c, w, EvAck(id)).s == InputAck(c, w.s, id)
  {
    SenderFits(c, w.s);
  }

  lemma TraceJoin(f: Fountain, c: Config, w: World, e: Event, v: World, a: Event, ws: seq<World>, es: seq<Event>)
    requires Traffic(w, e) && v == Next(f, c, w, e) && Traffic(v, a) && Trace(f, c, ws, es) && ws[0] == Next(f, c, v, a)
    ensures Trace(f, c, [w, v] + ws, [e, a] + es) && ([w, v] + ws)[|es| + 2] == ws[|es|]
  {
    hide Next, Enabled, DataFits;
    var ws2, es2 := [w, v] + ws, [e, a] + es;
    forall i | 0 <= i < |es2| ensures Traffic(ws2[i], es2[i]) && ws2[i + 1] == Next(f, c, ws2[i], es2[i]) {
      if i >= 2 { assert ws2[i] == ws[i - 2] && es2[i] == es[i - 2] && ws2[i + 1] == ws[i - 2 + 1]; }
    }
  }

  /** In every state the link can break exactly when a recovered segment stands at
      the head. */
  lemma BreaksExactly(f: Fountain, c: Config, w: World)
    requires Sound(f) && ConfigValid(c) && Inv(f, c, w) && Heard(w)
    ensures Breakable(f, c, w) <==> HeadRecovered(w.r)
  {
    hide Inv, Next, Sound, ConfigValid, Heard;
    if HeadRecovered(w.r) {
      var ws, es := StrandedBreaks(f, c, w);
    } else {
      forall ws: seq<World>, es: seq<Event> | Trace(f, c, ws, es) && ws[0] == w ensures !Passed(ws[|es|]) {
        TraceKeeps(f, c, ws, es, |es|);
        BaseBehindNextEmit(f, c, ws[|es|]);
      }
    }
  }

  ghost predicate Stranding(f: Fountain, c: Config, w: World, e: Event) {
    e.EvDeliver? && Strands(f, c, w.r, e.packet, e.ackOk, e.sink)
  }

  lemma StepStrands(f: Fountain, c: Config, w: World, e: Event)
    requires DataFits(w.s) && !HeadRecovered(w.r)
    ensures HeadRecovered(Next(f, c, w, e).r) <==> Stranding(f, c, w, e)
  {
    hide Strands, Ingest, Tick, InputAck, Admit, HeadRecovered;
    if e.EvDeliver? { StrandsExactly(f, c, w.r, e.packet, e.ackOk, e.sink); }
  }

  /** Over a whole run the sender's base cannot pass next_emit at any point,
      whatever acknowledgements still travel, exactly when no delivery strands a
      segment. */
  lemma LinkHoldsExactly(f: Fountain, c: Config, ws: seq<World>, es: seq<Event>)
    requires Sound(f) && ConfigValid(c) && Run(f, c, ws, es)
    ensures (forall n :: 0 <= n < |ws| ==> !Breakable(f, c, ws[n])) <==> (forall i :: 0 <= i < |es| ==> !Stranding(f, c, ws[i], es[i]))
  {
    hide Next, Sound, ConfigValid, Stranding, HeadRecovered, Breakable, WirehairProtocol.Inv, Heard;
    forall n | 0 <= n < |ws| ensures Breakable(f, c, ws[n]) <==> HeadRecovered(ws[n].r) {
      RunInv(f, c, ws, es, n);
      RunHeard(f, c, ws, es, n);
      BreaksExactly(f, c, ws[n]);
    }
    if forall n :: 0 <= n < |ws| ==> !Breakable(f, c, ws[n]) {
      forall i | 0 <= i < |es| ensures !Stranding(f, c, ws[i], es[i]) {
        assert ws[i + 1] == Next(f, c, ws[i], es[i]);
        StepStrands(f, c, ws[i], es[i]);
      }
    } else {
      var n :| 0 <= n < |ws| && Breakable(f, c, ws[n]);
      var i := FirstStranding(f, c, ws, es, n);
    }
  }

  lemma {:induction false} FirstStranding(f: Fountain, c: Config, ws: seq<World>, es: seq<Event>, n: nat) returns (i: nat)
    requires Run(f, c, ws, es) && n < |ws| && HeadRecovered(ws[n].r)
    ensures i < |es| && Stranding(f, c, ws[i], es[i])
  {
    hide Next, Stranding;
    StartsEmpty(ws[0]);
    assert ws[n - 1 + 1] == Next(f, c, ws[n - 1], es[n - 1]);
    if HeadRecovered(ws[n - 1].r) {
      i := FirstStranding(f, c, ws, es, n - 1);
    } else {
      StepStrands(f, c, ws[n - 1], es[n - 1]);
      i := n - 1;
    }
  }

  lemma StartsEmpty(w: World)
    ensures w == START ==> !HeadRecovered(w.r)
  {}
}
