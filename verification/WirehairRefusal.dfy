/** A run of the segment protocol in which a refusing sink lets the sender's base
    pass the receiver's next segment. */
module WirehairRefusal {
  import opened Gf256
  import opened WirehairCore
  import opened WirehairSender
  import opened WirehairReceiver
  import opened WirehairProtocol

  const BLOCK: nat := 2 * WH_PACKET_SIZE

  /** Decodes a two-packet message from its two source packets, in order. */
  function Join(n: nat, symbols: seq<Symbol>): (r: DecodeResult) {
    if n == BLOCK && |symbols| == 2 && symbols[0].id == 0 && symbols[1].id == 1 &&
       |symbols[0].payload| == WH_PACKET_SIZE && |symbols[1].payload| == WH_PACKET_SIZE
    then Success(symbols[0].payload + symbols[1].payload) else NeedMore
  }

  const TWO_PACKETS := Fountain((m: Bytes, id: nat) => [], (n: nat, symbols: seq<Symbol>) => Join(n, symbols))

  const ONE_BYTE := Config(1, 0, 1, 1)

  lemma JoinSound()
    ensures Sound(TWO_PACKETS)
  {
    forall message: Bytes, source: nat, symbols: seq<Symbol> |
      Genuine(TWO_PACKETS, message, source, symbols) && TWO_PACKETS.decode(|message|, symbols).Success?
      ensures TWO_PACKETS.decode(|message|, symbols).message == message
    {
      assert symbols[0].payload == Payload(TWO_PACKETS, message, 0, source);
      assert symbols[1].payload == Payload(TWO_PACKETS, message, 1, source);
      assert message == message[..WH_PACKET_SIZE] + message[WH_PACKET_SIZE..];
    }
  }

  function Sent(data: Bytes, id: nat): (p: Packet)
    requires |data| == 1
  {
    BuildPacket(TWO_PACKETS, ONE_BYTE, 0, data, id)
  }

  /** The sender with one segment, its two source packets sent or not. */
  function Holding(data: Bytes, next: nat): (s: Sender) {
    Sender(0, [Segment(data, false, next, 0, false)], {}, false, false, false, false)
  }

  lemma SentShape(data: Bytes, id: nat)
    requires |data| == 1 && id < 2
    ensures var p := Sent(data, id);
            p.DataPacket? && p.segment == 0 && p.index == id && p.count == 4 && p.segmentBytes == 1 && p.origin == 1 && p.ackRequest &&
            |p.payload| == WH_PACKET_SIZE
  {}

  lemma VisitSendsBoth(data: Bytes)
    requires |data| == 1
    ensures VisitSegment(TWO_PACKETS, ONE_BYTE, 0, Holding(data, 0).segments[0], true, true, 0, 0, 2) ==
            Visit(Holding(data, 2).segments[0], [Sent(data, 0), Sent(data, 1)], Go, 0)
  {
    hide Payload, Padded;
    var g, h, last := Holding(data, 0).segments[0], Holding(data, 1).segments[0], Holding(data, 2).segments[0];
    assert EmitUpTo(TWO_PACKETS, ONE_BYTE, 0, last, 2, 0) == Emission(last, [], true, 0);
    assert EmitUpTo(TWO_PACKETS, ONE_BYTE, 0, h, 2, 1) == Emission(last, [Sent(data, 1)], true, 0);
    assert EmitUpTo(TWO_PACKETS, ONE_BYTE, 0, g, 2, 2) == Emission(last, [Sent(data, 0), Sent(data, 1)], true, 0);
  }

  lemma TickSendsBoth(data: Bytes)
    requires |data| == 1
    ensures Tick(TWO_PACKETS, ONE_BYTE, Holding(data, 0), 0, 0, 2) ==
            TickResult(Holding(data, 2), [Sent(data, 0), Sent(data, 1)], 0)
  {
    hide VisitSegment, BuildPacket, Sent;
    VisitSendsBoth(data);
    var s, t := Holding(data, 0), Holding(data, 2);
    assert ApplyAcks(s).segments == s.segments;
    assert Release(s) == s;
    assert SourcePending(s) by { assert s.segments[0].next < Source(s.segments[0]); }
    assert s.segments[0 := t.segments[0]] == t.segments;
    assert TickFrom(TWO_PACKETS, ONE_BYTE, t, 1, true, 0, 0, 0) == TickResult(t, [], 0);
    assert [Sent(data, 0), Sent(data, 1)] + [] == [Sent(data, 0), Sent(data, 1)];
  }

  /** The first packet opens the segment and is not enough. */
  lemma FirstOpens(data: Bytes, sink: nat)
    requires |data| == 1
    ensures var p := Sent(data, 0);
            p.DataPacket? && Ingest(TWO_PACKETS, ONE_BYTE, INITIAL, p, true, sink) == Ingested(Opened(p), [], 0)
  {
    SentShape(data, 0);
    hide Payload, Padded, BuildPacket, Sent, EmitReady;
    var p := Sent(data, 0);
    var r := INITIAL.(slots := INITIAL.slots[0 := FreshSlot(p)]);
    assert GeometryOk(ONE_BYTE, p) && WellFormed(p);
    assert FreshSlot(p).symbols + [Symbol(p.index, p.payload)] == [Symbol(0, p.payload)];
    assert r.slots[0 := FreshSlot(p).(symbols := [Symbol(0, p.payload)])] == Opened(p).slots;
    assert Collect(TWO_PACKETS, r, 0, p, true, sink) == Ingested(Opened(p), [], 0);
  }

  function Opened(p: Packet): (r: Receiver)
    requires p.DataPacket?
  {
    INITIAL.(slots := map[0 := FreshSlot(p).(symbols := [Symbol(0, p.payload)])])
  }

  /** The state before the second packet arrives, and how it is reached. */
  ghost function Before(data: Bytes, n: nat): (w: World)
    requires |data| == 1
  {
    var net := {Sent(data, 0), Sent(data, 1)};
    if n == 0 then START
    else if n == 1 then START.(s := Holding(data, 0), input := [data])
    else if n == 2 then START.(s := Holding(data, 2), input := [data], net := net)
    else START.(s := Holding(data, 2), input := [data], net := net, r := Opened(Sent(data, 0)))
  }

  function Leading(data: Bytes, n: nat): (e: Event)
    requires |data| == 1
  {
    if n == 0 then EvAdmit(0, data) else if n == 1 then EvTick(0, 0, 2) else EvDeliver(Sent(data, 0), true, 0)
  }

  lemma AdmitStep(data: Bytes)
    requires |data| == 1
    ensures Next(TWO_PACKETS, ONE_BYTE, START, EvAdmit(0, data)) == Before(data, 1)
  {
    hide Sent;
    assert START.s.segments + Holding(data, 0).segments == Holding(data, 0).segments;
  }

  lemma TickStep(data: Bytes)
    requires |data| == 1
    ensures DataFits(Before(data, 1).s) && Next(TWO_PACKETS, ONE_BYTE, Before(data, 1), EvTick(0, 0, 2)) == Before(data, 2)
  {
    TickSendsBoth(data);
    hide Tick, Sent;
    assert With({}, [Sent(data, 0), Sent(data, 1)]) == {Sent(data, 0), Sent(data, 1)};
  }

  lemma OpenStep(data: Bytes)
    requires |data| == 1
    ensures var w := Before(data, 2);
            DataFits(w.s) && Next(TWO_PACKETS, ONE_BYTE, w, EvDeliver(Sent(data, 0), true, 0)) == Before(data, 3)
  {
    FirstOpens(data, 0);
    hide Ingest, Sent;
    assert With<nat>({}, []) == {};
  }

  lemma LeadingStep(data: Bytes, n: nat)
    requires |data| == 1 && n < 3
    ensures var w := Before(data, n);
            DataFits(w.s) && Enabled(w, Leading(data, n)) && Next(TWO_PACKETS, ONE_BYTE, w, Leading(data, n)) == Before(data, n + 1)
  {
    AdmitStep(data);
    TickStep(data);
    OpenStep(data);
    hide Next, Sent;
  }

  lemma SettingOk()
    ensures Sound(TWO_PACKETS) && ConfigValid(ONE_BYTE)
  {
    JoinSound();
  }

  /** A run goes on with any enabled event. */
  lemma Extend(ws: seq<World>, es: seq<Event>, e: Event)
    requires Run(TWO_PACKETS, ONE_BYTE, ws, es) && DataFits(ws[|es|].s) && Enabled(ws[|es|], e)
    ensures Run(TWO_PACKETS, ONE_BYTE, ws + [Next(TWO_PACKETS, ONE_BYTE, ws[|es|], e)], es + [e])
  {
    hide Next, DataFits, Enabled;
  }

  lemma {:induction false} LeadingRun(data: Bytes, n: nat) returns (ws: seq<World>, es: seq<Event>)
    requires |data| == 1 && n <= 3
    ensures Run(TWO_PACKETS, ONE_BYTE, ws, es) && ws[|es|] == Before(data, n)
  {
    hide Next, DataFits, Enabled, Sent, Leading;
    if n == 0 {
      ws, es := [START], [];
    } else {
      ws, es := LeadingRun(data, n - 1);
      LeadingStep(data, n - 1);
      Extend(ws, es, Leading(data, n - 1));
      ws, es := ws + [Before(data, n)], es + [Leading(data, n - 1)];
    }
  }

  lemma LeadingInv(data: Bytes)
    requires |data| == 1
    ensures WirehairProtocol.Inv(TWO_PACKETS, ONE_BYTE, Before(data, 3))
  {
    hide WirehairProtocol.Inv, Sound, ConfigValid, Sent, Before;
    SettingOk();
    var ws, es := LeadingRun(data, 3);
    RunInv(TWO_PACKETS, ONE_BYTE, ws, es, |es|);
  }

  /** The second packet completes the segment; the sink refuses it. */
  lemma SecondRefused(data: Bytes)
    requires |data| == 1
    ensures var w := Before(data, 3);
            DataFits(w.s) &&
            var w1 := Next(TWO_PACKETS, ONE_BYTE, w, EvDeliver(Sent(data, 1), true, 0));
            0 in w1.acks && DataFits(w1.s) &&
            var w2 := Next(TWO_PACKETS, ONE_BYTE, w1, EvAck(0));
            w2.s.base > w2.r.nextEmit
  {
    LeadingInv(data);
    SettingOk();
    SentShape(data, 0);
    SentShape(data, 1);
    hide WirehairProtocol.Inv, Sound, ConfigValid, Sent, Ingest, InputAck;
    RefusalBreaksLink(TWO_PACKETS, ONE_BYTE, Before(data, 3), Sent(data, 1));
  }

  lemma Delivered(data: Bytes) returns (ws: seq<World>, es: seq<Event>)
    requires |data| == 1
    ensures DataFits(Before(data, 3).s) && Run(TWO_PACKETS, ONE_BYTE, ws, es)
    ensures ws[|es|] == Next(TWO_PACKETS, ONE_BYTE, Before(data, 3), EvDeliver(Sent(data, 1), true, 0))
  {
    assert Sent(data, 1) in Before(data, 3).net;
    hide Next, Before, Sent;
    ws, es := LeadingRun(data, 3);
    SecondRefused(data);
    var e := EvDeliver(Sent(data, 1), true, 0);
    Extend(ws, es, e);
    ws, es := ws + [Next(TWO_PACKETS, ONE_BYTE, ws[|es|], e)], es + [e];
  }

  /** Admit, send both packets, deliver both to a sink that refuses, acknowledge:
      the base is past next_emit. */
  lemma BaseCanPass() returns (ws: seq<World>, es: seq<Event>)
    ensures Sound(TWO_PACKETS) && ConfigValid(ONE_BYTE) && Run(TWO_PACKETS, ONE_BYTE, ws, es)
    ensures ws[|es|].s.base > ws[|es|].r.nextEmit
  {
    hide Next, Before, Sound, ConfigValid, Sent, DataFits;
    var data: Bytes := [ZERO];
    SettingOk();
    SecondRefused(data);
    ws, es := Delivered(data);
    Extend(ws, es, EvAck(0));
    ws, es := ws + [Next(TWO_PACKETS, ONE_BYTE, ws[|es|], EvAck(0))], es + [EvAck(0)];
  }
}
