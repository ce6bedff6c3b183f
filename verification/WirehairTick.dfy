/** Exactly what a tick of the sender sends, and what it leaves behind. */
module WirehairTick {
  import opened Arith
  import opened WirehairCore
  import opened WirehairSender

  /** The packets of ids from .. to - 1 of a segment. */
  ghost function Packets(f: Fountain, c: Config, id: nat, g: Segment, from: nat, to: nat): (q: seq<Packet>)
    requires |g.data| < UINT32
    ensures |q| == if from < to then to - from else 0
  {
    seq(if from < to then to - from else 0, i requires 0 <= i => BuildPacket(f, c, id, g.data, from + i))
  }

  ghost predicate NeedsSource(g: Segment)
    requires |g.data| < UINT32
  {
    !g.acked && g.next < Source(g)
  }

  /** Some segment still has source packets to send. */
  ghost predicate AnyNeedsSource(s: Sender)
    requires SegmentsFit(s)
  {
    exists j :: 0 <= j < |s.segments| && NeedsSource(s.segments[j])
  }

  /** A repair round: five percent of the source packets, rounded up, at least two. */
  function RepairRound(source: nat): (n: nat) { Max(2, (5 * source + 99) / 100) }

  /** The base segment with every source packet of every segment sent. */
  ghost predicate Repairing(g: Segment, isBase: bool, pending: bool)
    requires |g.data| < UINT32
  {
    !g.acked && g.next >= Source(g) && isBase && !pending
  }

  /** When its next repair round is due; the first tick starts the timer. */
  function DueAt(g: Segment, now: nat, wait: nat): (ns: nat) { if g.dueValid then g.dueNs else now + wait }

  ghost predicate TimesOut(c: Config, g: Segment, isBase: bool, pending: bool, now: nat, wait: nat)
    requires |g.data| < UINT32
  {
    Repairing(g, isBase, pending) && now >= DueAt(g, now, wait) && g.next >= PacketCount(c, |g.data|)
  }

  /** The next packet id after an undisturbed tick: a batch of 32 source packets;
      or, when due, a repair round up to the segment's packet count. */
  ghost function NextAfter(c: Config, g: Segment, isBase: bool, pending: bool, now: nat, wait: nat): (n: nat)
    requires |g.data| < UINT32
  {
    if NeedsSource(g) then Min(g.next + 32, Source(g))
    else if Repairing(g, isBase, pending) && now >= DueAt(g, now, wait) && g.next < PacketCount(c, |g.data|)
    then Min(g.next + RepairRound(Source(g)), PacketCount(c, |g.data|))
    else g.next
  }

  /** The segment after an undisturbed tick. The repair timer is stopped when the
      source packets are done and while others have some; it runs from the first
      tick with nothing else to send, and again for 40 ms after each round. */
  ghost predicate Turned(c: Config, g: Segment, g': Segment, isBase: bool, pending: bool, now: nat, wait: nat)
    requires |g.data| < UINT32
  {
    g'.data == g.data && g'.acked == g.acked && g'.next == NextAfter(c, g, isBase, pending, now, wait) &&
    if g.acked then g' == g
    else if NeedsSource(g) then g'.dueNs == g.dueNs && g'.dueValid == (g.dueValid && g'.next < Source(g))
    else if pending then g'.dueNs == g.dueNs && !g'.dueValid
    else if !isBase then g' == g
    else g'.dueValid && g'.dueNs == if now < DueAt(g, now, wait) then DueAt(g, now, wait) else now + 40_000_000
  }

  // ---------------------------------------------------------------------
  // One segment.

  lemma {:induction false} EmitsExactly(f: Fountain, c: Config, id: nat, g: Segment, end: nat, budget: nat)
    requires |g.data| < UINT32
    ensures var e := EmitUpTo(f, c, id, g, end, budget);
            var due := Packets(f, c, id, g, g.next, end);
            if |due| <= budget then e == Emission(g.(next := g.next + |due|), due, true, budget - |due|)
            else !e.ok && e.segment == g.(next := g.next + budget) && e.sent == due[..budget]
    decreases end - g.next
  {
    hide BuildPacket;
    if g.next < end && budget != 0 {
      var h := g.(next := g.next + 1);
      EmitsExactly(f, c, id, h, end, budget - 1);
      var due, rest := Packets(f, c, id, g, g.next, end), Packets(f, c, id, h, h.next, end);
      assert due == [BuildPacket(f, c, id, g.data, g.next)] + rest;
    }
  }

  lemma RoundIs(source: nat)
    requires source > 0
    ensures RepairPackets(source, ACK_REPAIR_ROUND_PCT) == RepairRound(source)
  {}

  /** What a visit does: time out, or send what is due as far as the link takes it. */
  ghost predicate VisitedSo(f: Fountain, c: Config, id: nat, g: Segment, isBase: bool, pending: bool,
                            now: nat, wait: nat, budget: nat, v: Visit)
    requires |g.data| < UINT32
  {
    var due := Packets(f, c, id, g, g.next, NextAfter(c, g, isBase, pending, now, wait));
    if TimesOut(c, g, isBase, pending, now, wait) then
      v.outcome == AckTimedOut && v.sent == [] && v.segment == g.(dueNs := DueAt(g, now, wait), dueValid := true)
    else if |due| <= budget then
      v.outcome == Go && v.sent == due && v.budget == budget - |due| && Turned(c, g, v.segment, isBase, pending, now, wait)
    else v.outcome == LinkFailed && v.sent == due[..budget]
  }

  lemma SourceVisit(f: Fountain, c: Config, id: nat, g: Segment, isBase: bool, pending: bool, now: nat, wait: nat, budget: nat)
    requires |g.data| < UINT32 && (g.acked || g.next < Source(g))
    ensures VisitedSo(f, c, id, g, isBase, pending, now, wait, budget,
                      VisitSegment(f, c, id, g, isBase, pending, now, wait, budget))
  {
    hide SourcePackets, RepairPackets, RepairCeiling, EmitUpTo, Packets;
    EmitsExactly(f, c, id, g, Min(g.next + 32, Source(g)), budget);
  }

  lemma QuietVisit(f: Fountain, c: Config, id: nat, g: Segment, isBase: bool, pending: bool, now: nat, wait: nat, budget: nat)
    requires 0 < |g.data| < UINT32 && !g.acked && g.next >= Source(g)
    requires !isBase || pending || now < DueAt(g, now, wait) || g.next >= PacketCount(c, |g.data|)
    ensures VisitedSo(f, c, id, g, isBase, pending, now, wait, budget,
                      VisitSegment(f, c, id, g, isBase, pending, now, wait, budget))
  {
    hide SourcePackets, RepairPackets, PacketCount, EmitUpTo, RepairRound, BuildPacket;
  }

  lemma RoundVisit(f: Fountain, c: Config, id: nat, g: Segment, now: nat, wait: nat, budget: nat)
    requires 0 < |g.data| < UINT32 && !g.acked && g.next >= Source(g)
    requires now >= DueAt(g, now, wait) && g.next < PacketCount(c, |g.data|)
    ensures VisitedSo(f, c, id, g, true, false, now, wait, budget, VisitSegment(f, c, id, g, true, false, now, wait, budget))
  {
    AtLeastTwo(|g.data|);
    RoundIs(Source(g));
    hide SourcePackets, RepairPackets, PacketCount, EmitUpTo, Packets, RepairRound;
    var g1 := if g.dueValid then g else g.(dueNs := now + wait, dueValid := true);
    var end := Min(g.next + RepairRound(Source(g)), PacketCount(c, |g.data|));
    EmitsExactly(f, c, id, g1, end, budget);
    SamePackets(f, c, id, g, g1, g.next, end);
  }

  lemma SamePackets(f: Fountain, c: Config, id: nat, g: Segment, h: Segment, from: nat, to: nat)
    requires |g.data| < UINT32 && h.data == g.data
    ensures Packets(f, c, id, g, from, to) == Packets(f, c, id, h, from, to)
  {}

  lemma VisitsExactly(f: Fountain, c: Config, id: nat, g: Segment, isBase: bool, pending: bool, now: nat, wait: nat, budget: nat)
    requires 0 < |g.data| < UINT32
    ensures VisitedSo(f, c, id, g, isBase, pending, now, wait, budget,
                      VisitSegment(f, c, id, g, isBase, pending, now, wait, budget))
  {
    hide VisitedSo, VisitSegment;
    if g.acked || g.next < Source(g) {
      SourceVisit(f, c, id, g, isBase, pending, now, wait, budget);
    } else if isBase && !pending && now >= DueAt(g, now, wait) && g.next < PacketCount(c, |g.data|) {
      RoundVisit(f, c, id, g, now, wait, budget);
    } else {
      QuietVisit(f, c, id, g, isBase, pending, now, wait, budget);
    }
  }

  // ---------------------------------------------------------------------
  // All segments.

  ghost predicate Filled(s: Sender) {
    forall j :: 0 <= j < |s.segments| ==> 0 < |s.segments[j].data| < UINT32
  }

  /** What is due from segment j on, in order. */
  ghost function Due(f: Fountain, c: Config, s: Sender, j: nat, pending: bool, now: nat, wait: nat): (q: seq<Packet>)
    requires Filled(s) && j <= |s.segments|
    decreases |s.segments| - j
  {
    if j == |s.segments| then []
    else
      var g := s.segments[j];
      Packets(f, c, s.base + j, g, g.next, NextAfter(c, g, j == 0, pending, now, wait)) + Due(f, c, s, j + 1, pending, now, wait)
  }

  ghost predicate AllTurned(c: Config, s: Sender, s': Sender, j: nat, pending: bool, now: nat, wait: nat)
    requires Filled(s)
  {
    s' == s.(segments := s'.segments) && |s'.segments| == |s.segments| &&
    forall x :: 0 <= x < |s.segments| ==>
      if x < j then s'.segments[x] == s.segments[x]
      else Turned(c, s.segments[x], s'.segments[x], x == 0, pending, now, wait)
  }

  ghost predicate BaseTimesOut(c: Config, s: Sender, pending: bool, now: nat, wait: nat)
    requires Filled(s)
  {
    |s.segments| > 0 && TimesOut(c, s.segments[0], true, pending, now, wait)
  }

  lemma DueLater(f: Fountain, c: Config, s: Sender, s': Sender, j: nat, pending: bool, now: nat, wait: nat)
    requires Filled(s) && Filled(s') && s'.base == s.base && |s'.segments| == |s.segments| && j <= |s.segments|
    requires forall x :: j <= x < |s.segments| ==> s'.segments[x] == s.segments[x]
    ensures Due(f, c, s', j, pending, now, wait) == Due(f, c, s, j, pending, now, wait)
    decreases |s.segments| - j
  {
    hide Packets, NextAfter;
    if j < |s.segments| { DueLater(f, c, s, s', j + 1, pending, now, wait); }
  }

  /** From segment j on, with no time-out to come. */
  ghost predicate TickedSo(f: Fountain, c: Config, s: Sender, j: nat, pending: bool, now: nat, wait: nat, budget: nat, r: TickResult)
    requires Filled(s) && j <= |s.segments|
  {
    var due := Due(f, c, s, j, pending, now, wait);
    if |due| <= budget then r.rc == 0 && r.sent == due && AllTurned(c, s, r.sender, j, pending, now, wait)
    else r.rc == -1 && r.sent == due[..budget] && r.sender.failed && r.sender.timedOut == s.timedOut
  }

  lemma TurnsJoin(c: Config, s: Sender, t: Sender, s': Sender, j: nat, g': Segment, pending: bool, now: nat, wait: nat)
    requires Filled(s) && j < |s.segments| && t == s.(segments := s.segments[j := g']) && Filled(t)
    requires Turned(c, s.segments[j], g', j == 0, pending, now, wait) && AllTurned(c, t, s', j + 1, pending, now, wait)
    ensures AllTurned(c, s, s', j, pending, now, wait)
  {
    hide Turned;
  }

  lemma CutJoined(a: seq<Packet>, b: seq<Packet>, n: nat)
    requires |a| <= n <= |a| + |b|
    ensures (a + b)[..n] == a + b[..n - |a|]
  {}

  lemma TurnThenRest(f: Fountain, c: Config, s: Sender, t: Sender, j: nat, pending: bool, now: nat, wait: nat, budget: nat, v: Visit, r: TickResult)
    requires Filled(s) && j < |s.segments| && t == s.(segments := s.segments[j := v.segment]) && Filled(t)
    requires VisitedSo(f, c, s.base + j, s.segments[j], j == 0, pending, now, wait, budget, v) && v.outcome == Go
    requires TickedSo(f, c, t, j + 1, pending, now, wait, v.budget, r)
    ensures TickedSo(f, c, s, j, pending, now, wait, budget, r.(sent := v.sent + r.sent))
  {
    hide Packets, NextAfter, Turned, TimesOut, AllTurned;
    DueLater(f, c, s, t, j + 1, pending, now, wait);
    var rest := Due(f, c, s, j + 1, pending, now, wait);
    assert Due(f, c, s, j, pending, now, wait) == v.sent + rest;
    hide Due;
    if |rest| <= v.budget {
      TurnsJoin(c, s, t, r.sender, j, v.segment, pending, now, wait);
    } else {
      CutJoined(v.sent, rest, budget);
    }
  }

  lemma {:induction false} TickFromExact(f: Fountain, c: Config, s: Sender, j: nat, pending: bool, now: nat, wait: nat, budget: nat)
    requires Filled(s) && j <= |s.segments| && (j == 0 ==> !BaseTimesOut(c, s, pending, now, wait))
    ensures TickedSo(f, c, s, j, pending, now, wait, budget, TickFrom(f, c, s, j, pending, now, wait, budget))
    decreases |s.segments| - j
  {
    hide VisitSegment, Packets, NextAfter, Turned, TimesOut;
    if j < |s.segments| {
      var g := s.segments[j];
      var v := VisitSegment(f, c, s.base + j, g, j == 0, pending, now, wait, budget);
      VisitsExactly(f, c, s.base + j, g, j == 0, pending, now, wait, budget);
      VisitKeepsData(f, c, s.base + j, g, j == 0, pending, now, wait, budget);
      OnlyBaseTimesOut(c, g, pending, now, wait);
      var t := s.(segments := s.segments[j := v.segment]);
      if v.outcome == Go {
        TickFromExact(f, c, t, j + 1, pending, now, wait, v.budget);
        TurnThenRest(f, c, s, t, j, pending, now, wait, budget, v, TickFrom(f, c, t, j + 1, pending, now, wait, v.budget));
      } else {
        var due := Packets(f, c, s.base + j, g, g.next, NextAfter(c, g, j == 0, pending, now, wait));
        assert (due + Due(f, c, s, j + 1, pending, now, wait))[..budget] == due[..budget];
      }
    }
  }

  lemma OnlyBaseTimesOut(c: Config, g: Segment, pending: bool, now: nat, wait: nat)
    requires |g.data| < UINT32
    ensures !TimesOut(c, g, false, pending, now, wait)
  {}

  lemma OutAtBase(f: Fountain, c: Config, s: Sender, pending: bool, now: nat, wait: nat, budget: nat)
    requires Filled(s) && BaseTimesOut(c, s, pending, now, wait)
    ensures var r := TickFrom(f, c, s, 0, pending, now, wait, budget);
            r.rc == -1 && r.sent == [] && r.sender.failed && r.sender.timedOut
  {
    hide VisitSegment, Packets, NextAfter, Turned, TimesOut;
    VisitsExactly(f, c, s.base, s.segments[0], true, pending, now, wait, budget);
  }

  lemma PendingIs(s: Sender)
    requires SegmentsFit(s)
    ensures SourcePending(s) <==> AnyNeedsSource(s)
  {
    hide SourcePackets;
    if SourcePending(s) {
      var j :| 0 <= j < |s.segments| && !s.segments[j].acked && s.segments[j].next < Source(s.segments[j]);
      assert NeedsSource(s.segments[j]);
    }
    if AnyNeedsSource(s) {
      var j :| 0 <= j < |s.segments| && NeedsSource(s.segments[j]);
      assert s.segments[j].next < Source(s.segments[j]);
    }
  }

  /** The whole tick, after the acknowledgements that had come were applied: a base
      that is out of repair packets when one is due times the sender out with
      nothing sent; otherwise exactly the due packets go out, in order, and every
      segment turns as it should; and if the link takes fewer, exactly as many as
      it takes, and the sender fails. */
  lemma TickExactly(f: Fountain, c: Config, s: Sender, now: nat, wait: nat, budget: nat)
    requires Filled(s) && !s.failed
    ensures var t := Release(ApplyAcks(s));
            SegmentsFit(s) && Filled(t) &&
            var r := Tick(f, c, s, now, wait, budget);
            var pending := AnyNeedsSource(t);
            if BaseTimesOut(c, t, pending, now, wait)
            then r.rc == -1 && r.sent == [] && r.sender.failed && r.sender.timedOut
            else TickedSo(f, c, t, 0, pending, now, wait, budget, r)
  {
    hide TickFrom, Release, TickedSo, BaseTimesOut, SourcePackets;
    ReleaseKeepsData(ApplyAcks(s));
    var t := Release(ApplyAcks(s));
    assert Filled(t) by { ReleasedFilled(s); }
    PendingIs(t);
    hide AnyNeedsSource, SourcePending;
    if BaseTimesOut(c, t, AnyNeedsSource(t), now, wait) {
      OutAtBase(f, c, t, AnyNeedsSource(t), now, wait, budget);
    } else {
      TickFromExact(f, c, t, 0, AnyNeedsSource(t), now, wait, budget);
    }
  }

  lemma ReleasedFilled(s: Sender)
    requires Filled(s)
    ensures Filled(Release(ApplyAcks(s)))
  {
    hide Release;
    ReleaseKeepsData(ApplyAcks(s));
  }
}
