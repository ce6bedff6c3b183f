/** The sliding-window sender in a simple form, over sequences and sets. */
module WirehairSender {
  import opened Arith
  import opened Gf256
  import opened WirehairCore

  const SOURCE_BATCH: nat := 32
  const REPAIR_WAIT_NS: nat := 40 * 1000000

  /** One admitted segment: its bytes, the next packet id, the repair timer. */
  datatype Segment = Segment(data: Bytes, acked: bool, next: nat, dueNs: nat, dueValid: bool)

  /** Segments base, base + 1, ... in order; acknowledgements at or above base. */
  datatype Sender = Sender(base: nat, segments: seq<Segment>, acks: set<nat>,
                           finished: bool, endEmitted: bool, failed: bool, timedOut: bool)

  function NextId(s: Sender): (n: nat) { s.base + |s.segments| }

  function Source(g: Segment): (n: nat)
    requires |g.data| < UINT32
  {
    SourcePackets(|g.data|)
  }

  function Limit(c: Config, g: Segment): (n: nat)
    requires |g.data| < UINT32
  {
    PacketCount(c, |g.data|)
  }

  ghost predicate SegmentOk(c: Config, g: Segment) {
    0 < |g.data| <= c.segmentBytes && c.segmentBytes < UINT32 && g.next <= Limit(c, g)
  }

  ghost predicate SenderOk(c: Config, s: Sender) {
    |s.segments| <= c.window && forall j :: 0 <= j < |s.segments| ==> SegmentOk(c, s.segments[j])
  }

  // ---------------------------------------------------------------------
  // The operations on the simple form.

  predicate CanAdmit(c: Config, s: Sender) {
    !s.failed && !s.finished && |s.segments| < c.window
  }

  function AdmitCode(c: Config, s: Sender, id: nat, data: Bytes): (rc: int) {
    if |data| == 0 || |data| > c.segmentBytes || s.failed then -2
    else if !CanAdmit(c, s) then -1
    else if id != NextId(s) then -2
    else 0
  }

  function Admit(c: Config, s: Sender, id: nat, data: Bytes): (t: Sender) {
    if AdmitCode(c, s, id, data) == 0
    then s.(segments := s.segments + [Segment(data, false, 0, 0, false)])
    else s
  }

  function MarkAck(c: Config, s: Sender, id: nat): (t: Sender) {
    if s.base <= id < s.base + c.window then s.(acks := s.acks + {id}) else s
  }

  function ApplyAcks(s: Sender): (t: Sender) {
    s.(segments := seq(|s.segments|, j requires 0 <= j < |s.segments| =>
         s.segments[j].(acked := s.segments[j].acked || s.base + j in s.acks)))
  }

  /** Acknowledged segments leave from the base, in order. */
  function Release(s: Sender): (t: Sender)
    decreases |s.segments|
  {
    if |s.segments| > 0 && s.segments[0].acked
    then Release(s.(base := s.base + 1, segments := s.segments[1..], acks := s.acks - {s.base}))
    else s
  }

  function InputAck(c: Config, s: Sender, id: nat): (t: Sender) {
    Release(ApplyAcks(MarkAck(c, s, id)))
  }

  /** Packets of one segment up to id end; the budget is what the link accepts. */
  datatype Emission = Emission(segment: Segment, sent: seq<Packet>, ok: bool, budget: nat)

  function EmitUpTo(f: Fountain, c: Config, id: nat, g: Segment, end: nat, budget: nat): (e: Emission)
    requires |g.data| < UINT32
    decreases end - g.next
  {
    if end <= g.next then Emission(g, [], true, budget)
    else if budget == 0 then Emission(g, [], false, 0)
    else
      var e := EmitUpTo(f, c, id, g.(next := g.next + 1), end, budget - 1);
      e.(sent := [BuildPacket(f, c, id, g.data, g.next)] + e.sent)
  }

  datatype Outcome = Go | LinkFailed | AckTimedOut

  datatype Visit = Visit(segment: Segment, sent: seq<Packet>, outcome: Outcome, budget: nat)

  /** What one tick does with one segment. */
  function VisitSegment(f: Fountain, c: Config, id: nat, g: Segment, isBase: bool, sourcePending: bool,
                        now: nat, wait: nat, budget: nat): (v: Visit)
    requires |g.data| < UINT32
  {
    if g.acked then Visit(g, [], Go, budget)
    else if g.next < Source(g) then
      var e := EmitUpTo(f, c, id, g, Min(g.next + SOURCE_BATCH, Source(g)), budget);
      if !e.ok then Visit(e.segment, e.sent, LinkFailed, 0)
      else Visit(if e.segment.next >= Source(g) then e.segment.(dueValid := false) else e.segment, e.sent, Go, e.budget)
    else if sourcePending then Visit(g.(dueValid := false), [], Go, budget)
    else if !isBase then Visit(g, [], Go, budget)
    else
      var g1 := if g.dueValid then g else g.(dueNs := now + wait, dueValid := true);
      if now < g1.dueNs then Visit(g1, [], Go, budget)
      else if g1.next >= Limit(c, g) then Visit(g1, [], AckTimedOut, budget)
      else
        var e := EmitUpTo(f, c, id, g1, Min(g1.next + RepairPackets(Source(g), ACK_REPAIR_ROUND_PCT), Limit(c, g)), budget);
        if !e.ok then Visit(e.segment, e.sent, LinkFailed, 0)
        else Visit(e.segment.(dueNs := now + REPAIR_WAIT_NS, dueValid := true), e.sent, Go, e.budget)
  }

  datatype TickResult = TickResult(sender: Sender, sent: seq<Packet>, rc: int)

  function SourcePending(s: Sender): (b: bool)
    requires forall j :: 0 <= j < |s.segments| ==> |s.segments[j].data| < UINT32
  {
    exists j :: 0 <= j < |s.segments| && !s.segments[j].acked && s.segments[j].next < Source(s.segments[j])
  }

  function TickFrom(f: Fountain, c: Config, s: Sender, j: nat, sourcePending: bool,
                    now: nat, wait: nat, budget: nat): (r: TickResult)
    requires j <= |s.segments| && forall i :: 0 <= i < |s.segments| ==> |s.segments[i].data| < UINT32
    decreases |s.segments| - j
  {
    if j == |s.segments| then TickResult(s, [], 0)
    else
      var v := VisitSegment(f, c, s.base + j, s.segments[j], j == 0, sourcePending, now, wait, budget);
      VisitKeepsData(f, c, s.base + j, s.segments[j], j == 0, sourcePending, now, wait, budget);
      var t := s.(segments := s.segments[j := v.segment]);
      match v.outcome
      case LinkFailed => TickResult(t.(failed := true), v.sent, -1)
      case AckTimedOut => TickResult(t.(failed := true, timedOut := true), v.sent, -1)
      case Go =>
        var r := TickFrom(f, c, t, j + 1, sourcePending, now, wait, v.budget);
        r.(sent := v.sent + r.sent)
  }

  function Tick(f: Fountain, c: Config, s: Sender, now: nat, wait: nat, budget: nat): (r: TickResult)
    requires forall i :: 0 <= i < |s.segments| ==> |s.segments[i].data| < UINT32
  {
    if s.failed then TickResult(s, [], -1)
    else
      ReleaseKeepsData(ApplyAcks(s));
      var t := Release(ApplyAcks(s));
      TickFrom(f, c, t, 0, SourcePending(t), now, wait, budget)
  }

  /** END goes out once, after the input is finished and every segment released. */
  predicate EndDue(s: Sender) {
    !s.failed && !s.endEmitted && s.finished && |s.segments| == 0
  }

  // ---------------------------------------------------------------------

  lemma {:induction false} EmitKeepsData(f: Fountain, c: Config, id: nat, g: Segment, end: nat, budget: nat)
    requires |g.data| < UINT32
    ensures var e := EmitUpTo(f, c, id, g, end, budget);
            e.segment == g.(next := e.segment.next) && |e.sent| == e.segment.next - g.next >= 0 &&
            (e.segment.next <= end || e.segment.next == g.next) &&
            (e.ok ==> e.segment.next >= end) &&
            forall i :: 0 <= i < |e.sent| ==> e.sent[i] == BuildPacket(f, c, id, g.data, g.next + i)
    decreases end - g.next
  {
    hide BuildPacket;
    if g.next < end && budget != 0 {
      EmitKeepsData(f, c, id, g.(next := g.next + 1), end, budget - 1);
    }
  }

  lemma VisitKeepsData(f: Fountain, c: Config, id: nat, g: Segment, isBase: bool, sourcePending: bool,
                       now: nat, wait: nat, budget: nat)
    requires |g.data| < UINT32
    ensures var v := VisitSegment(f, c, id, g, isBase, sourcePending, now, wait, budget);
            v.segment.data == g.data && v.segment.acked == g.acked
  {
    hide EmitUpTo, SourcePackets, RepairPackets, RepairCeiling;
    EmitKeepsData(f, c, id, g, Min(g.next + SOURCE_BATCH, Source(g)), budget);
    var g1 := if g.dueValid then g else g.(dueNs := now + wait, dueValid := true);
    EmitKeepsData(f, c, id, g1, Min(g1.next + RepairPackets(Source(g), ACK_REPAIR_ROUND_PCT), Limit(c, g)), budget);
  }

  lemma VisitKeepsOk(f: Fountain, c: Config, id: nat, g: Segment, isBase: bool, sourcePending: bool,
                     now: nat, wait: nat, budget: nat)
    requires SegmentOk(c, g)
    ensures SegmentOk(c, VisitSegment(f, c, id, g, isBase, sourcePending, now, wait, budget).segment)
  {
    hide EmitUpTo, SourcePackets, RepairPackets, RepairCeiling;
    EmitKeepsData(f, c, id, g, Min(g.next + SOURCE_BATCH, Source(g)), budget);
    var g1 := if g.dueValid then g else g.(dueNs := now + wait, dueValid := true);
    EmitKeepsData(f, c, id, g1, Min(g1.next + RepairPackets(Source(g), ACK_REPAIR_ROUND_PCT), Limit(c, g)), budget);
  }

  lemma {:induction false} ReleaseKeepsData(s: Sender)
    ensures var t := Release(s);
            s.base <= t.base && NextId(t) == NextId(s) && t.segments == s.segments[t.base - s.base..] &&
            t == s.(base := t.base, segments := t.segments, acks := t.acks) && t.acks <= s.acks &&
            (forall j :: 0 <= j < t.base - s.base ==> s.segments[j].acked) &&
            (|t.segments| > 0 ==> !t.segments[0].acked)
    decreases |s.segments|
  {
    if |s.segments| > 0 && s.segments[0].acked {
      ReleaseKeepsData(s.(base := s.base + 1, segments := s.segments[1..], acks := s.acks - {s.base}));
    }
  }

  // ---------------------------------------------------------------------
  // What a tick sends.

  /** A packet of segment id: repair goes out only for the base segment and only
      while no source packet is pending. */
  ghost predicate Disciplined(id: nat, g: Segment, isBase: bool, sourcePending: bool, p: Packet)
    requires |g.data| < UINT32
  {
    p.DataPacket? && p.segment == id && (p.index >= Source(g) ==> isBase && !sourcePending)
  }

  lemma VisitSends(f: Fountain, c: Config, id: nat, g: Segment, isBase: bool, sourcePending: bool,
                   now: nat, wait: nat, budget: nat)
    requires |g.data| < UINT32
    ensures var v := VisitSegment(f, c, id, g, isBase, sourcePending, now, wait, budget);
            (forall i :: 0 <= i < |v.sent| ==> Disciplined(id, g, isBase, sourcePending, v.sent[i])) &&
            (v.outcome.Go? && !g.acked && g.next < Source(g) ==> v.segment.next == Min(g.next + SOURCE_BATCH, Source(g)))
  {
    hide EmitUpTo, SourcePackets, RepairPackets, RepairCeiling, Payload, Padded;
    EmitKeepsData(f, c, id, g, Min(g.next + SOURCE_BATCH, Source(g)), budget);
    var g1 := if g.dueValid then g else g.(dueNs := now + wait, dueValid := true);
    EmitKeepsData(f, c, id, g1, Min(g1.next + RepairPackets(Source(g), ACK_REPAIR_ROUND_PCT), Limit(c, g)), budget);
  }

  ghost predicate SegmentsFit(s: Sender) {
    forall i :: 0 <= i < |s.segments| ==> |s.segments[i].data| < UINT32
  }

  /** A packet of one of the sender's segments, under the repair discipline. */
  ghost predicate TickPacket(s: Sender, sourcePending: bool, p: Packet)
    requires SegmentsFit(s)
  {
    p.DataPacket? && s.base <= p.segment < NextId(s) &&
    Disciplined(p.segment, s.segments[p.segment - s.base], p.segment == s.base, sourcePending, p)
  }

  /** Every unfinished segment moves on by a full batch of source packets unless
      the tick fails; repair packets belong to the base segment alone. */
  lemma {:induction false} TickSends(f: Fountain, c: Config, s: Sender, j: nat, sourcePending: bool, now: nat, wait: nat, budget: nat)
    requires j <= |s.segments| && SegmentsFit(s)
    ensures var r := TickFrom(f, c, s, j, sourcePending, now, wait, budget);
            (forall i :: 0 <= i < |r.sent| ==> TickPacket(s, sourcePending, r.sent[i])) &&
            |r.sender.segments| == |s.segments| &&
            (r.rc == 0 ==> forall x :: j <= x < |s.segments| && !s.segments[x].acked && s.segments[x].next < Source(s.segments[x]) ==>
               r.sender.segments[x].next == Min(s.segments[x].next + SOURCE_BATCH, Source(s.segments[x]))) &&
            forall x :: 0 <= x < j ==> r.sender.segments[x] == s.segments[x]
    decreases |s.segments| - j
  {
    hide VisitSegment, SourcePackets;
    if j < |s.segments| {
      var g := s.segments[j];
      var v := VisitSegment(f, c, s.base + j, g, j == 0, sourcePending, now, wait, budget);
      VisitKeepsData(f, c, s.base + j, g, j == 0, sourcePending, now, wait, budget);
      VisitSends(f, c, s.base + j, g, j == 0, sourcePending, now, wait, budget);
      var t := s.(segments := s.segments[j := v.segment]);
      forall i | 0 <= i < |v.sent| ensures TickPacket(s, sourcePending, v.sent[i]) {
        assert Disciplined(s.base + j, g, j == 0, sourcePending, v.sent[i]);
      }
      if v.outcome.Go? {
        TickSends(f, c, t, j + 1, sourcePending, now, wait, v.budget);
        SameDiscipline(s, t, sourcePending);
      }
    }
  }

  lemma SameDiscipline(s: Sender, t: Sender, sourcePending: bool)
    requires SegmentsFit(s) && SegmentsFit(t) && t.base == s.base && |t.segments| == |s.segments|
    requires forall i :: 0 <= i < |s.segments| ==> t.segments[i].data == s.segments[i].data
    ensures forall p :: TickPacket(t, sourcePending, p) ==> TickPacket(s, sourcePending, p)
  {
    hide SourcePackets;
  }
}
