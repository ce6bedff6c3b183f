/** The sender object: slots in a ring indexed by id modulo the window, and
    acknowledgements in a ring of sixteen. It refines the simple sender. */
module WirehairSenderRing {
  import opened Gf256
  import opened WirehairCore
  import opened WirehairSender
  import opened Arith

  datatype RingSlot = Idle | Busy(id: nat, segment: Segment)

  /** slot_at. */
  function At(w: nat, id: nat): (i: nat)
    requires 0 < w
    ensures i < w
  {
    id % w
  }

  /** Exactly the segments base .. next-1 are held, each at its own index. */
  ghost predicate SlotsOk(w: nat, slots: seq<RingSlot>, base: nat, next: nat) {
    0 < w && |slots| == w && base <= next <= base + w &&
    (forall i :: 0 <= i < w && slots[i].Busy? ==> base <= slots[i].id < next && At(w, slots[i].id) == i) &&
    (forall id :: base <= id < next ==> slots[At(w, id)].Busy? && slots[At(w, id)].id == id)
  }

  ghost function Segments(w: nat, slots: seq<RingSlot>, base: nat, next: nat): (q: seq<Segment>)
    requires SlotsOk(w, slots, base, next)
  {
    seq(next - base, j requires 0 <= j < next - base => slots[At(w, base + j)].segment)
  }

  ghost predicate AcksOk(ids: seq<nat>, valid: seq<bool>, top: nat) {
    |ids| == |valid| == WINDOW_MAX &&
    forall i :: 0 <= i < WINDOW_MAX && valid[i] ==> ids[i] % WINDOW_MAX == i && ids[i] < top
  }

  ghost function AckSet(ids: seq<nat>, valid: seq<bool>, base: nat, w: nat): (s: set<nat>)
    requires |ids| == |valid| == WINDOW_MAX
  {
    set id | base <= id < base + w && Holds(ids, valid, id)
  }

  // ---------------------------------------------------------------------

  lemma AtDistinct(w: nat, x: nat, y: nat)
    requires 0 < w && x != y && x < y + w && y < x + w
    ensures At(w, x) != At(w, y) && At(w, x) < w && At(w, y) < w
  {
    if x < y { ModDistinct(x, y, w); } else { ModDistinct(y, x, w); }
  }

  /** Writing the slot of one held segment changes that segment only. */
  lemma UpdateSlot(w: nat, slots: seq<RingSlot>, base: nat, next: nat, j: nat, g: Segment)
    requires SlotsOk(w, slots, base, next) && j < next - base
    ensures var s := slots[At(w, base + j) := Busy(base + j, g)];
            SlotsOk(w, s, base, next) && Segments(w, s, base, next) == Segments(w, slots, base, next)[j := g]
  {
    hide At;
    var id := base + j;
    var s := slots[At(w, id) := Busy(id, g)];
    forall x | base <= x < next && x != id ensures s[At(w, x)] == slots[At(w, x)] {
      AtDistinct(w, x, id);
    }
  }

  lemma AddSlot(w: nat, slots: seq<RingSlot>, base: nat, next: nat, g: Segment)
    requires SlotsOk(w, slots, base, next) && next < base + w
    ensures slots[At(w, next)].Idle?
    ensures var s := slots[At(w, next) := Busy(next, g)];
            SlotsOk(w, s, base, next + 1) && Segments(w, s, base, next + 1) == Segments(w, slots, base, next) + [g]
  {
    hide At;
    var s := slots[At(w, next) := Busy(next, g)];
    forall x | base <= x < next ensures s[At(w, x)] == slots[At(w, x)] && At(w, x) != At(w, next) {
      AtDistinct(w, x, next);
    }
  }

  lemma DropSlot(w: nat, slots: seq<RingSlot>, base: nat, next: nat)
    requires SlotsOk(w, slots, base, next) && base < next
    ensures var s := slots[At(w, base) := Idle];
            SlotsOk(w, s, base + 1, next) && Segments(w, s, base + 1, next) == Segments(w, slots, base, next)[1..]
  {
    hide At;
    var s := slots[At(w, base) := Idle];
    forall x | base < x < next ensures s[At(w, x)] == slots[At(w, x)] && At(w, x) != At(w, base) {
      AtDistinct(w, x, base);
    }
    var q, q0 := Segments(w, s, base + 1, next), Segments(w, slots, base, next);
    forall j | 0 <= j < |q| ensures q[j] == q0[1..][j] {
      assert q0[1..][j] == q0[j + 1];
      assert base + 1 + j == base + (j + 1);
    }
  }

  lemma MarkInRing(ids: seq<nat>, valid: seq<bool>, base: nat, w: nat, id: nat)
    requires w <= WINDOW_MAX && AcksOk(ids, valid, base + w) && base <= id < base + w
    ensures var i := id % WINDOW_MAX;
            AcksOk(ids[i := id], valid[i := true], base + w) &&
            AckSet(ids[i := id], valid[i := true], base, w) == AckSet(ids, valid, base, w) + {id}
  {
    var i := id % WINDOW_MAX;
    var ids', valid' := ids[i := id], valid[i := true];
    forall x | base <= x < base + w && x != id ensures Holds(ids', valid', x) == Holds(ids, valid, x) {
      if x < id { ModDistinct(x, id, WINDOW_MAX); } else { ModDistinct(id, x, WINDOW_MAX); }
    }
    assert Holds(ids', valid', id);
  }

  lemma ClearInRing(ids: seq<nat>, valid: seq<bool>, base: nat, w: nat)
    requires 0 < w <= WINDOW_MAX && AcksOk(ids, valid, base + w)
    ensures var i := base % WINDOW_MAX;
            var valid' := if Holds(ids, valid, base) then valid[i := false] else valid;
            AcksOk(ids, valid', base + 1 + w) &&
            AckSet(ids, valid', base + 1, w) == AckSet(ids, valid, base, w) - {base}
  {
    var i := base % WINDOW_MAX;
    var valid' := if Holds(ids, valid, base) then valid[i := false] else valid;
    forall x | base < x < base + w ensures Holds(ids, valid', x) == Holds(ids, valid, x) {
      ModDistinct(base, x, WINDOW_MAX);
    }
    assert !Holds(ids, valid', base + w);
  }

  function AckedSlot(slot: RingSlot, ids: seq<nat>, valid: seq<bool>): (r: RingSlot)
    requires |ids| == |valid| == WINDOW_MAX
  {
    if slot.Busy? then Busy(slot.id, slot.segment.(acked := slot.segment.acked || Holds(ids, valid, slot.id))) else slot
  }

  /** Marking every slot by ring index marks every segment in order. */
  lemma AckedSlots(s: Sender, w: nat, slots: seq<RingSlot>, slots': seq<RingSlot>, ids: seq<nat>, valid: seq<bool>, next: nat)
    requires SlotsOk(w, slots, s.base, next) && |ids| == |valid| == WINDOW_MAX && |slots'| == w
    requires forall k :: 0 <= k < w ==> slots'[k] == AckedSlot(slots[k], ids, valid)
    requires s.segments == Segments(w, slots, s.base, next) && s.acks == AckSet(ids, valid, s.base, w)
    ensures SlotsOk(w, slots', s.base, next)
    ensures Segments(w, slots', s.base, next) == ApplyAcks(s).segments
  {
    hide At;
    var q, q' := ApplyAcks(s).segments, Segments(w, slots', s.base, next);
    forall j | 0 <= j < |q| ensures q[j] == q'[j] {
      assert slots[At(w, s.base + j)].id == s.base + j;
    }
  }

  /** Result want is result r with the packets sent put in front. */
  ghost predicate Appended(want: TickResult, sent: seq<Packet>, r: TickResult) {
    want == r.(sent := sent + r.sent)
  }

  /** One segment's turn moves its packets from what is left to what is sent. */
  lemma TickTurn(f: Fountain, c: Config, s: Sender, i: nat, pending: bool, now: nat, wait: nat, left: nat,
                 want: TickResult, sent: seq<Packet>, v: Visit)
    requires i < |s.segments| && SegmentsFit(s)
    requires Appended(want, sent, TickFrom(f, c, s, i, pending, now, wait, left))
    requires v == VisitSegment(f, c, s.base + i, s.segments[i], i == 0, pending, now, wait, left)
    ensures var t := s.(segments := s.segments[i := v.segment]);
            SegmentsFit(t) &&
            match v.outcome
            case Go => Appended(want, sent + v.sent, TickFrom(f, c, t, i + 1, pending, now, wait, v.budget))
            case LinkFailed => want == TickResult(t.(failed := true), sent + v.sent, -1)
            case AckTimedOut => want == TickResult(t.(failed := true, timedOut := true), sent + v.sent, -1)
  {
    hide VisitSegment;
    VisitKeepsData(f, c, s.base + i, s.segments[i], i == 0, pending, now, wait, left);
  }

  lemma TickEnds(f: Fountain, c: Config, s: Sender, pending: bool, now: nat, wait: nat, left: nat,
                 want: TickResult, sent: seq<Packet>)
    requires SegmentsFit(s) && Appended(want, sent, TickFrom(f, c, s, |s.segments|, pending, now, wait, left))
    ensures want == TickResult(s, sent, 0)
  {}

  class SegmentSender {
    const c: Config
    const f: Fountain
    var slots: seq<RingSlot>
    var ackIds: seq<nat>
    var ackValid: seq<bool>
    var base: nat
    var next: nat
    var activeCount: nat
    var finished: bool
    var endEmitted: bool
    var failed: bool
    var timedOut: bool

    ghost predicate Valid()
      reads this
    {
      ConfigValid(c) && SlotsOk(c.window, slots, base, next) && AcksOk(ackIds, ackValid, base + c.window) &&
      activeCount == next - base &&
      forall i :: 0 <= i < |slots| && slots[i].Busy? ==> SegmentOk(c, slots[i].segment)
    }

    /** The simple sender this object stands for. */
    ghost function Abs(): (s: Sender)
      reads this
      requires Valid()
    {
      Sender(base, Segments(c.window, slots, base, next), AckSet(ackIds, ackValid, base, c.window),
             finished, endEmitted, failed, timedOut)
    }

    constructor (c: Config, f: Fountain)
      requires ConfigValid(c)
      ensures Valid() && this.c == c && this.f == f && Abs() == Sender(0, [], {}, false, false, false, false)
    {
      this.c, this.f := c, f;
      slots := seq(c.window, i => Idle);
      ackIds, ackValid := seq(WINDOW_MAX, i => 0), seq(WINDOW_MAX, i => false);
      base, next, activeCount := 0, 0, 0;
      finished, endEmitted, failed, timedOut := false, false, false, false;
    }

    method CanAdmitNow() returns (ok: bool)
      requires Valid()
      ensures ok == CanAdmit(c, Abs())
    {
      if failed || finished || next - base >= c.window {
        return false;
      }
      AddSlot(c.window, slots, base, next, Segment([], false, 0, 0, false));
      return slots[At(c.window, next)].Idle?;
    }

    method AdmitSegment(id: nat, data: Bytes) returns (rc: int)
      requires Valid()
      modifies this
      ensures Valid() && rc == AdmitCode(c, old(Abs()), id, data) && Abs() == Admit(c, old(Abs()), id, data)
    {
      hide At;
      if |data| == 0 || |data| > c.segmentBytes || failed {
        return -2;
      }
      var can := CanAdmitNow();
      if !can {
        return -1;
      }
      if id != next {
        return -2;
      }
      var g := Segment(data, false, 0, 0, false);
      AddSlot(c.window, slots, base, next, g);
      slots := slots[At(c.window, id) := Busy(id, g)];
      next := next + 1;
      activeCount := activeCount + 1;
      return 0;
    }

    method MarkInputFinished()
      requires Valid()
      modifies this
      ensures Valid() && Abs() == old(Abs()).(finished := true)
    {
      finished := true;
    }

    method AckMark(id: nat)
      requires Valid()
      modifies this`ackIds, this`ackValid
      ensures Valid() && Abs() == MarkAck(c, old(Abs()), id)
    {
      if id < base || id - base >= c.window {
        return;
      }
      MarkInRing(ackIds, ackValid, base, c.window, id);
      var i := id % WINDOW_MAX;
      ackIds := ackIds[i := id];
      ackValid := ackValid[i := true];
    }

    /** ack_clear, release_slot and the advance of the base. */
    method ReleaseBaseSlot()
      requires Valid() && base < next
      modifies this
      ensures Valid()
      ensures var s := old(Abs()); Abs() == s.(base := s.base + 1, segments := s.segments[1..], acks := s.acks - {s.base})
    {
      hide At, SourcePackets, RepairCeiling, SegmentOk;
      ClearInRing(ackIds, ackValid, base, c.window);
      DropSlot(c.window, slots, base, next);
      if Holds(ackIds, ackValid, base) {
        ackValid := ackValid[base % WINDOW_MAX := false];
      }
      slots := slots[At(c.window, base) := Idle];
      activeCount := activeCount - 1;
      base := base + 1;
    }

    /** release_acked_base: frees acknowledged segments from the base. */
    method ReleaseAckedBase()
      requires Valid()
      modifies this
      ensures Valid() && Abs() == Release(old(Abs()))
    {
      hide At, ConfigValid, AcksOk, AckSet, SegmentOk;
      while activeCount > 0
        invariant Valid() && Release(Abs()) == Release(old(Abs()))
        decreases activeCount
      {
        var slot := slots[At(c.window, base)];
        assert Abs().segments[0] == slot.segment;
        if slot.Idle? || slot.id != base || !slot.segment.acked {
          break;
        }
        ReleaseBaseSlot();
      }
    }

    method ApplyPendingAcks()
      requires Valid()
      modifies this
      ensures Valid() && Abs() == Release(ApplyAcks(old(Abs())))
    {
      hide At, SourcePackets, RepairCeiling, Release;
      ghost var before, was := Abs(), slots;
      MarkSlots();
      AckedSlots(before, c.window, was, slots, ackIds, ackValid, next);
      assert Abs() == ApplyAcks(before);
      ReleaseAckedBase();
    }

    method MarkSlots()
      requires Valid()
      modifies this`slots
      ensures |slots| == c.window
      ensures forall k :: 0 <= k < c.window ==> slots[k] == AckedSlot(old(slots[k]), ackIds, ackValid)
    {
      for i := 0 to c.window
        invariant |slots| == c.window
        invariant forall k :: 0 <= k < c.window ==> slots[k] == if k < i then AckedSlot(old(slots[k]), ackIds, ackValid) else old(slots[k])
      {
        var slot := slots[i];
        if slot.Busy? && !slot.segment.acked && Holds(ackIds, ackValid, slot.id) {
          slots := slots[i := Busy(slot.id, slot.segment.(acked := true))];
        }
      }
    }

    method InputAckPacket(id: nat)
      requires Valid()
      modifies this
      ensures Valid() && Abs() == InputAck(c, old(Abs()), id)
    {
      AckMark(id);
      ApplyPendingAcks();
    }

    /** try_emit_end: the END packet, when due and the link takes it. */
    method TryEmitEnd(linkOk: bool) returns (rc: int, sent: seq<Packet>)
      requires Valid()
      modifies this
      ensures Valid()
      ensures !EndDue(old(Abs())) ==> rc == 0 && sent == [] && Abs() == old(Abs())
      ensures EndDue(old(Abs())) && !linkOk ==> rc == -1 && sent == [] && Abs() == old(Abs()).(failed := true)
      ensures EndDue(old(Abs())) && linkOk ==> rc == 1 && sent == [EndPacket(NextId(old(Abs())))] && Abs() == old(Abs()).(endEmitted := true)
    {
      if failed || endEmitted || !finished || activeCount != 0 {
        return 0, [];
      }
      if !linkOk {
        failed := true;
        return -1, [];
      }
      endEmitted := true;
      return 1, [EndPacket(next)];
    }

    /** wirehair_segment_tx_emit_range. */
    method EmitRange(id: nat, g: Segment, end: nat, budget: nat) returns (e: Emission)
      requires |g.data| < UINT32
      ensures e == EmitUpTo(f, c, id, g, end, budget)
    {
      hide BuildPacket;
      var cur, sent, left := g, [], budget;
      while cur.next < end
        invariant cur == g.(next := cur.next)
        invariant var r := EmitUpTo(f, c, id, cur, end, left); EmitUpTo(f, c, id, g, end, budget) == r.(sent := sent + r.sent)
        decreases end - cur.next
      {
        if left == 0 {
          return Emission(cur, sent, false, 0);
        }
        sent := sent + [BuildPacket(f, c, id, g.data, cur.next)];
        cur := cur.(next := cur.next + 1);
        left := left - 1;
      }
      return Emission(cur, sent, true, left);
    }

    method VisitOne(id: nat, g: Segment, pending: bool, now: nat, wait: nat, budget: nat) returns (v: Visit)
      requires |g.data| < UINT32
      ensures v == VisitSegment(f, c, id, g, id == base, pending, now, wait, budget)
    {
      hide EmitUpTo, SourcePackets, RepairPackets, RepairCeiling;
      if g.acked {
        return Visit(g, [], Go, budget);
      }
      if g.next < Source(g) {
        var e := EmitRange(id, g, Min(g.next + SOURCE_BATCH, Source(g)), budget);
        if !e.ok {
          return Visit(e.segment, e.sent, LinkFailed, 0);
        }
        var g1 := e.segment;
        if g1.next >= Source(g) {
          g1 := g1.(dueValid := false);
        }
        return Visit(g1, e.sent, Go, e.budget);
      }
      if pending {
        return Visit(g.(dueValid := false), [], Go, budget);
      }
      if id != base {
        return Visit(g, [], Go, budget);
      }
      var g1 := g;
      if !g1.dueValid {
        g1 := g1.(dueNs := now + wait, dueValid := true);
      }
      if now < g1.dueNs {
        return Visit(g1, [], Go, budget);
      }
      if g1.next >= Limit(c, g) {
        return Visit(g1, [], AckTimedOut, budget);
      }
      var e := EmitRange(id, g1, Min(g1.next + RepairPackets(Source(g), ACK_REPAIR_ROUND_PCT), Limit(c, g)), budget);
      if !e.ok {
        return Visit(e.segment, e.sent, LinkFailed, 0);
      }
      return Visit(e.segment.(dueNs := now + REPAIR_WAIT_NS, dueValid := true), e.sent, Go, e.budget);
    }

    lemma Fits()
      requires Valid()
      ensures |Abs().segments| == next - base <= c.window && Abs().base == base && Abs().failed == failed
      ensures forall j :: 0 <= j < |Abs().segments| ==> |Abs().segments[j].data| < UINT32
      ensures forall i :: 0 <= i < |slots| && slots[i].Busy? ==> |slots[i].segment.data| < UINT32
    {
      hide At, SourcePackets, RepairCeiling;
    }

    method AnySourcePending() returns (pending: bool)
      requires Valid()
      ensures forall j :: 0 <= j < |Abs().segments| ==> |Abs().segments[j].data| < UINT32
      ensures pending == SourcePending(Abs())
    {
      hide At, SourcePackets, ConfigValid;
      Fits();
      hide SegmentOk;
      for i := 0 to c.window
        invariant forall k :: 0 <= k < i && slots[k].Busy? ==> slots[k].segment.acked || slots[k].segment.next >= Source(slots[k].segment)
      {
        var slot := slots[i];
        if slot.Busy? && !slot.segment.acked && slot.segment.next < Source(slot.segment) {
          var j := slot.id - base;
          assert Abs().segments[j] == slots[At(c.window, base + j)].segment;
          return true;
        }
      }
      return false;
    }

    /** One slot's turn in a tick. */
    method VisitSlot(i: nat, pending: bool, now: nat, wait: nat, budget: nat) returns (v: Visit)
      requires Valid() && i < next - base
      modifies this`slots
      ensures Valid()
      ensures var s := old(Abs());
              i < |s.segments| && |s.segments[i].data| < UINT32 &&
              v == VisitSegment(f, c, s.base + i, s.segments[i], i == 0, pending, now, wait, budget) &&
              Abs() == s.(segments := s.segments[i := v.segment])
    {
      hide At, ConfigValid, VisitSegment, AcksOk, AckSet, SourcePackets, RepairPackets, RepairCeiling;
      Fits();
      var slot := slots[At(c.window, base + i)];
      assert slot == Busy(base + i, Abs().segments[i]);
      v := VisitOne(slot.id, slot.segment, pending, now, wait, budget);
      VisitKeepsOk(f, c, slot.id, slot.segment, i == 0, pending, now, wait, budget);
      UpdateSlot(c.window, slots, base, next, i, v.segment);
      slots := slots[At(c.window, base + i) := Busy(slot.id, v.segment)];
    }

    method Fail(timeout: bool)
      requires Valid() && !failed
      modifies this`failed, this`timedOut
      ensures Valid()
      ensures Abs() == if timeout then old(Abs()).(failed := true, timedOut := true) else old(Abs()).(failed := true)
    {
      failed := true;
      if timeout {
        timedOut := true;
      }
    }

    /** Every slot's turn, in order from the base. */
    method VisitAll(pending: bool, now: nat, wait: nat, budget: nat) returns (rc: int, sent: seq<Packet>)
      requires Valid() && !failed
      modifies this
      ensures Valid()
      ensures forall j :: 0 <= j < |old(Abs()).segments| ==> |old(Abs()).segments[j].data| < UINT32
      ensures TickResult(Abs(), sent, rc) == TickFrom(f, c, old(Abs()), 0, pending, now, wait, budget)
    {
      hide Valid, Abs, At, VisitSegment, TickFrom;
      Fits();
      ghost var want, s := TickFrom(f, c, Abs(), 0, pending, now, wait, budget), Abs();
      var left := budget;
      sent := [];
      var i := 0;
      while i < c.window
        invariant Valid() && s == Abs() && s.failed == failed == false && SegmentsFit(s)
        invariant i <= |s.segments| ==> Appended(want, sent, TickFrom(f, c, s, i, pending, now, wait, left))
        invariant i > |s.segments| ==> want == TickResult(s, sent, 0)
      {
        Fits();
        if base + i < next {
          var v := VisitSlot(i, pending, now, wait, left);
          TickTurn(f, c, s, i, pending, now, wait, left, want, sent, v);
          sent := sent + v.sent;
          s := Abs();
          if v.outcome != Go {
            Fail(v.outcome == AckTimedOut);
            return -1, sent;
          }
          left := v.budget;
        } else if base + i == next {
          TickEnds(f, c, s, pending, now, wait, left, want, sent);
        }
        i := i + 1;
      }
      Fits();
      if i == |s.segments| {
        TickEnds(f, c, s, pending, now, wait, left, want, sent);
      }
      return 0, sent;
    }

    /** wirehair_segment_sender_tick. The budget is the number of packets the
        link takes before it refuses one; wait is the smoothed repair delay. */
    method TickNow(now: nat, wait: nat, budget: nat) returns (rc: int, sent: seq<Packet>)
      requires Valid()
      modifies this
      ensures Valid()
      ensures forall j :: 0 <= j < |old(Abs()).segments| ==> |old(Abs()).segments[j].data| < UINT32
      ensures TickResult(Abs(), sent, rc) == Tick(f, c, old(Abs()), now, wait, budget)
    {
      hide Valid, At, Release, TickFrom, SourcePending, Segments, AckSet;
      Fits();
      if failed {
        return -1, [];
      }
      ghost var before := ApplyAcks(Abs());
      assert before == Abs().(segments := before.segments);
      ReleaseKeepsData(before);
      ApplyPendingAcks();
      var pending := AnySourcePending();
      rc, sent := VisitAll(pending, now, wait, budget);
    }
  }
}
