/** The receiver object: a table of window slots searched by segment id, and a
    ring of sixteen recovered ids. It refines the receiver over a map. */
module WirehairReceiverRing {
  import opened Gf256
  import opened WirehairCore
  import opened WirehairReceiver
  import opened SlotTable
  import opened Arith

  ghost predicate InWindow(open: map<nat, Slot>, nextEmit: nat, w: nat) {
    forall id :: id in open ==> nextEmit <= id < nextEmit + w
  }

  lemma WindowMoves(open: map<nat, Slot>, nextEmit: nat, w: nat)
    requires InWindow(open, nextEmit, w) && nextEmit !in open
    ensures InWindow(open, nextEmit + 1, w)
  {}

  /** The ring says yes for exactly the open segments that are recovered. */
  ghost predicate RingAgrees(ids: seq<nat>, valid: seq<bool>, open: map<nat, Slot>) {
    |ids| == |valid| == WINDOW_MAX &&
    forall id: nat :: Holds(ids, valid, id) <==> id in open && open[id].recovered
  }

  // ---------------------------------------------------------------------

  lemma NearbyIndices(nextEmit: nat, w: nat, x: nat, y: nat)
    requires w <= WINDOW_MAX && nextEmit <= x < nextEmit + w && nextEmit <= y < nextEmit + w && x != y
    ensures x % WINDOW_MAX != y % WINDOW_MAX
  {
    if x < y { ModDistinct(x, y, WINDOW_MAX); } else { ModDistinct(y, x, WINDOW_MAX); }
  }

  /** mark_recovered adds the segment and, in a window of at most sixteen,
      overwrites no other. */
  lemma MarkAgrees(ids: seq<nat>, valid: seq<bool>, open: map<nat, Slot>, nextEmit: nat, w: nat, id: nat, slot: Slot)
    requires w <= WINDOW_MAX && RingAgrees(ids, valid, open) && InWindow(open, nextEmit, w) && id in open && slot.recovered
    ensures var i := id % WINDOW_MAX; RingAgrees(ids[i := id], valid[i := true], open[id := slot])
  {
    var i := id % WINDOW_MAX;
    var ids', valid' := ids[i := id], valid[i := true];
    forall x: nat | x != id ensures Holds(ids', valid', x) <==> x in open && open[x].recovered {
      assert Holds(ids, valid, x) <==> x in open && open[x].recovered;
      if x in open {
        NearbyIndices(nextEmit, w, x, id);
      }
    }
    assert Holds(ids', valid', id);
  }

  lemma ClearAgrees(ids: seq<nat>, valid: seq<bool>, open: map<nat, Slot>, nextEmit: nat, w: nat, id: nat)
    requires w <= WINDOW_MAX && RingAgrees(ids, valid, open) && InWindow(open, nextEmit, w) && id in open
    ensures var i := id % WINDOW_MAX;
            RingAgrees(ids, if ids[i] == id then valid[i := false] else valid, open - {id})
  {
    var i := id % WINDOW_MAX;
    var valid' := if ids[i] == id then valid[i := false] else valid;
    forall x: nat | x != id ensures Holds(ids, valid', x) <==> x in open && open[x].recovered {
      assert Holds(ids, valid, x) <==> x in open && open[x].recovered;
      if x in open {
        NearbyIndices(nextEmit, w, x, id);
      }
    }
    assert !Holds(ids, valid', id);
  }

  lemma KeepAgrees(ids: seq<nat>, valid: seq<bool>, open: map<nat, Slot>, id: nat, slot: Slot)
    requires RingAgrees(ids, valid, open) && !slot.recovered && (id in open ==> !open[id].recovered)
    ensures RingAgrees(ids, valid, open[id := slot])
  {
    forall x: nat ensures Holds(ids, valid, x) <==> x in open[id := slot] && open[id := slot][x].recovered {
      assert Holds(ids, valid, x) <==> x in open && open[x].recovered;
    }
  }

  // ---------------------------------------------------------------------

  class SegmentReceiver {
    const c: Config
    const f: Fountain
    var slots: seq<TableSlot<Slot>>
    var recoveredIds: seq<nat>
    var recoveredValid: seq<bool>
    var nextEmit: nat
    var endSeen: bool
    var endCount: nat
    var complete: bool
    var aheadDrops: nat
    var output: seq<Bytes>
    ghost var open: map<nat, Slot>

    ghost predicate Valid()
      reads this
    {
      1 <= c.window <= WINDOW_MAX && |slots| == c.window && Table(slots, open) &&
      InWindow(open, nextEmit, c.window) && RingAgrees(recoveredIds, recoveredValid, open)
    }

    /** The receiver over a map that this object stands for. */
    ghost function Abs(): (r: Receiver)
      reads this
    {
      Receiver(nextEmit, open, endSeen, endCount, complete, aheadDrops, output)
    }

    constructor (c: Config, f: Fountain)
      requires ConfigValid(c)
      ensures Valid() && this.c == c && this.f == f && Abs() == INITIAL
    {
      this.c, this.f := c, f;
      slots := seq(c.window, i => Empty);
      recoveredIds, recoveredValid := seq(WINDOW_MAX, i => 0), seq(WINDOW_MAX, i => false);
      nextEmit, endSeen, endCount, complete, aheadDrops, output := 0, false, 0, false, 0, [];
      open := map[];
    }

    /** find_slot: the index of the segment's slot, or the window size. */
    method FindSlot(id: nat) returns (k: nat)
      requires Valid()
      ensures k <= c.window && (k < c.window <==> id in open)
      ensures k < c.window ==> slots[k] == Open(id, open[id])
    {
      for i := 0 to c.window
        invariant forall j :: 0 <= j < i && slots[j].Open? ==> slots[j].id != id
      {
        if slots[i].Open? && slots[i].id == id {
          return i;
        }
      }
      return c.window;
    }

    /** allocate_slot after the geometry check: the first empty slot, if any. */
    method AllocateSlot(id: nat, slot: Slot) returns (k: nat)
      requires Valid() && id !in open && nextEmit <= id < nextEmit + c.window && !slot.recovered
      modifies this`slots, this`open
      ensures Valid()
      ensures k <= c.window && (k < c.window <==> |old(open)| < c.window)
      ensures open == if k < c.window then old(open)[id := slot] else old(open)
      ensures k < c.window ==> slots[k] == Open(id, slot)
    {
      FullTable(slots, open);
      for i := 0 to c.window
        invariant slots == old(slots) && open == old(open)
        invariant forall j :: 0 <= j < i ==> slots[j].Open?
      {
        if slots[i].Empty? {
          FillTable(slots, open, i, id, slot);
          KeepAgrees(recoveredIds, recoveredValid, open, id, slot);
          slots := slots[i := Open(id, slot)];
          open := open[id := slot];
          return i;
        }
      }
      return c.window;
    }

    method ReleaseSlot(k: nat)
      requires Valid() && k < c.window && slots[k].Open?
      modifies this`slots, this`open, this`recoveredValid
      ensures Valid() && open == old(open - {slots[k].id})
    {
      var id := slots[k].id;
      EmptySlot(slots, open, k);
      ClearAgrees(recoveredIds, recoveredValid, open, nextEmit, c.window, id);
      var i := id % WINDOW_MAX;
      if recoveredIds[i] == id {
        recoveredValid := recoveredValid[i := false];
      }
      slots := slots[k := Empty];
      open := open - {id};
    }

    /** Sets a slot's decoder state; a recovered slot enters the ring. */
    method StoreSlot(k: nat, slot: Slot)
      requires Valid() && k < c.window && slots[k].Open? && !slots[k].item.recovered
      modifies this`slots, this`open, this`recoveredIds, this`recoveredValid
      ensures Valid() && open == old(open[slots[k].id := slot]) && slots[k] == Open(old(slots[k].id), slot)
    {
      var id := slots[k].id;
      FillTable(slots, open, k, id, slot);
      if slot.recovered {
        MarkAgrees(recoveredIds, recoveredValid, open, nextEmit, c.window, id, slot);
      } else {
        KeepAgrees(recoveredIds, recoveredValid, open, id, slot);
      }
      slots := slots[k := Open(id, slot)];
      open := open[id := slot];
      if slot.recovered {
        recoveredIds := recoveredIds[id % WINDOW_MAX := id];
        recoveredValid := recoveredValid[id % WINDOW_MAX := true];
      }
    }

    method EmitHead(k: nat)
      requires Valid() && k < c.window && slots[k].Open? && slots[k].id == nextEmit
      modifies this
      ensures Valid()
      ensures var r, slot := old(Abs()), old(slots[k].item);
              Abs() == r.(nextEmit := r.nextEmit + 1, slots := r.slots - {r.nextEmit},
                          output := r.output + [if slot.segmentBytes <= |slot.message| then slot.message[..slot.segmentBytes] else slot.message])
    {
      hide Table, InWindow, RingAgrees;
      var slot := slots[k].item;
      ReleaseSlot(k);
      output := output + [if slot.segmentBytes <= |slot.message| then slot.message[..slot.segmentBytes] else slot.message];
      WindowMoves(open, nextEmit, c.window);
      nextEmit := nextEmit + 1;
    }

    /** emit_ready_segments: stops at the first segment that is missing, not yet
        recovered, or refused by the sink. */
    method EmitReadySegments(sink: nat) returns (rc: int)
      requires Valid()
      modifies this
      ensures Valid() && Ingested(Abs(), [], rc) == EmitReady(old(Abs()), sink)
    {
      hide Table, InWindow, RingAgrees;
      var left := sink;
      while true
        invariant Valid() && EmitReady(Abs(), left) == EmitReady(old(Abs()), sink)
        decreases |open|
      {
        var k := FindSlot(nextEmit);
        if k == c.window || !slots[k].item.recovered {
          break;
        }
        if left == 0 {
          return -1;
        }
        RemoveShrinks(open, nextEmit);
        EmitHead(k);
        left := left - 1;
      }
      if endSeen && nextEmit == endCount {
        complete := true;
      }
      return 0;
    }

    /** A data packet for the open segment in slot k. */
    method CollectPacket(k: nat, p: Packet, ackOk: bool, sink: nat) returns (acks: seq<nat>, rc: int)
      requires Valid() && p.DataPacket? && k < c.window && slots[k].Open?
      modifies this
      ensures Valid() && Ingested(Abs(), acks, rc) == Collect(f, old(Abs()), old(slots[k].id), p, ackOk, sink)
    {
      hide InWindow, RingAgrees, EmitReady;
      var id, slot := slots[k].id, slots[k].item;
      if slot.packetLimit != p.count || slot.segmentBytes != p.segmentBytes || slot.origin != p.origin {
        return [], -1;
      }
      if slot.recovered {
        return AckFor(id, slot.ackRequested, ackOk), if slot.ackRequested && !ackOk then -1 else 0;
      }
      var symbols := slot.symbols + [Symbol(p.index, p.payload)];
      match f.decode(CodecBytes(slot.segmentBytes), symbols)
      case NeedMore =>
        StoreSlot(k, slot.(symbols := symbols));
        return [], 0;
      case Failure =>
        StoreSlot(k, slot.(symbols := symbols));
        return [], -1;
      case Success(message) =>
        StoreSlot(k, slot.(symbols := symbols, recovered := true, message := message));
        if slot.ackRequested && !ackOk {
          return [], -1;
        }
        rc := EmitReadySegments(sink);
        acks := AckFor(id, slot.ackRequested, ackOk);
    }

    /** wirehair_segment_receiver_ingest. */
    method IngestPacket(p: Packet, ackOk: bool, sink: nat) returns (acks: seq<nat>, rc: int)
      requires Valid()
      modifies this
      ensures Valid() && Ingested(Abs(), acks, rc) == Ingest(f, c, old(Abs()), p, ackOk, sink)
    {
      hide Table, RingAgrees, EmitReady, Collect;
      if p.EndPacket? {
        endSeen, endCount := true, p.segments;
        rc := EmitReadySegments(sink);
        return [], rc;
      }
      var id := p.segment;
      if id < nextEmit {
        var wanted := p.ackRequest && p.origin != 0;
        return AckFor(id, wanted, ackOk), if wanted && !ackOk then -1 else 0;
      }
      if !WellFormed(p) {
        return [], -1;
      }
      if id - nextEmit >= c.window {
        aheadDrops := aheadDrops + 1;
        return [], 0;
      }
      var k := FindSlot(id);
      if k == c.window {
        if !GeometryOk(c, p) {
          return [], -1;
        }
        k := AllocateSlot(id, FreshSlot(p));
        if k == c.window {
          return [], 0;
        }
      }
      acks, rc := CollectPacket(k, p, ackOk, sink);
    }

    /** segment_recovered: the ring answers as a scan of the slots would. */
    method SegmentRecovered(id: nat) returns (yes: bool)
      requires Valid()
      ensures yes <==> exists i :: 0 <= i < |slots| && slots[i].Open? && slots[i].id == id && slots[i].item.recovered
      ensures yes ==> Recovered(Abs(), id)
    {
      var i := id % WINDOW_MAX;
      yes := recoveredValid[i] && recoveredIds[i] == id;
      assert yes == Holds(recoveredIds, recoveredValid, id);
      if yes {
        var k :| 0 <= k < |slots| && slots[k].Open? && slots[k].id == id;
        assert slots[k].item.recovered;
      }
    }
  }
}
