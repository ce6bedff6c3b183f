/** The decoder object: 128 group slots searched by block id, updated in place.
    Every method computes the corresponding step of the decoder over a map. */
module WireFlowDecoder {
  import opened Arith
  import Gf256
  import opened WireDecoder
  import opened SlotTable

  // ---------------------------------------------------------------------
  // Finalizing one group at a time.

  lemma FinalIsSettled(c: Config, g: Group)
    ensures TryRecover(c, g, true).state != Active
    ensures g.state != Active ==> TryRecover(c, g, true) == g
  {}

  lemma CountStep(before: map<nat, Group>, after: map<nat, Group>, id: nat)
    requires id in before && id in after && after[id].state != Active
    ensures var e := before[id := after[id]];
            |NewlyRecovered(before, after)| == |NewlyRecovered(e, after)| + (if BecameRecovered(before[id], after[id]) then 1 else 0) &&
            |NewlyFailed(before, after)| == |NewlyFailed(e, after)| + (if BecameFailed(before[id], after[id]) then 1 else 0)
  {
    var e := before[id := after[id]];
    var r, f := NewlyRecovered(e, after), NewlyFailed(e, after);
    assert id !in r && id !in f;
    assert NewlyRecovered(before, after) == if BecameRecovered(before[id], after[id]) then r + {id} else r;
    assert NewlyFailed(before, after) == if BecameFailed(before[id], after[id]) then f + {id} else f;
  }

  lemma FinalizedStep(c: Config, groups: map<nat, Group>, id: nat)
    requires id in groups
    ensures var h := TryRecover(c, groups[id], true);
            h.state != Active && id in Finalized(c, groups) &&
            Finalized(c, groups[id := h]) == Finalized(c, groups) && Finalized(c, groups)[id] == h
  {
    FinalIsSettled(c, groups[id]);
    FinalIsSettled(c, TryRecover(c, groups[id], true));
    hide TryRecover;
  }

  lemma FinalizeStep(c: Config, d: Decoder, id: nat)
    requires id in d.groups
    ensures Finalize(c, Recover(c, d, id, true)) == Finalize(c, d)
  {
    hide TryRecover, Finalized, NewlyRecovered, NewlyFailed;
    FinalizedStep(c, d.groups, id);
    CountStep(d.groups, Finalized(c, d.groups), id);
  }

  lemma FinalizeDone(c: Config, d: Decoder)
    requires forall id :: id in d.groups ==> d.groups[id].state != Active
    ensures Finalize(c, d) == d
  {
    assert Finalized(c, d.groups) == d.groups;
    assert NewlyRecovered(d.groups, d.groups) == {} && NewlyFailed(d.groups, d.groups) == {};
  }

  class FlowDecoder {
    const c: Config
    var slots: seq<TableSlot<Group>>
    var nextEmit: nat
    var endSeen: bool
    var endCount: nat
    var complete: bool
    var stats: Stats
    var output: Gf256.Bytes
    ghost var groups: map<nat, Group>
    ghost var fates: seq<Fate>
    ghost var refused: bool

    ghost predicate Valid()
      reads this
    {
      |slots| == GROUP_WINDOW && Table(slots, groups) && forall id :: id in groups ==> InWindow(id, nextEmit)
    }

    /** The decoder over a map that this object stands for. */
    ghost function Abs(): (d: Decoder)
      reads this
    {
      Decoder(groups, nextEmit, endSeen, endCount, complete, stats, output, fates, refused)
    }

    constructor (c: Config)
      ensures Valid() && this.c == c && Abs() == START
    {
      this.c := c;
      slots := seq(GROUP_WINDOW, i => Empty);
      nextEmit, endSeen, endCount, complete := 0, false, 0, false;
      stats := Stats(0, 0, 0, 0, 0, 0, 0, 0, 0, 0, 0, 0, 0);
      output, groups, fates, refused := [], map[], [], false;
    }

    // -------------------------------------------------------------------
    // Slots.

    /** find_group. */
    method FindGroup(id: nat) returns (k: nat)
      requires Valid()
      ensures k <= GROUP_WINDOW && (k < GROUP_WINDOW <==> id in groups)
      ensures k < GROUP_WINDOW ==> slots[k] == Open(id, groups[id])
    {
      for i := 0 to GROUP_WINDOW
        invariant forall j :: 0 <= j < i && slots[j].Open? ==> slots[j].id != id
      {
        if slots[i].Open? && slots[i].id == id {
          return i;
        }
      }
      return GROUP_WINDOW;
    }

    /** window_has_empty_slot. */
    method HasEmptySlot() returns (yes: bool)
      requires Valid()
      ensures yes <==> |groups| < GROUP_WINDOW
    {
      FullTable(slots, groups);
      for i := 0 to GROUP_WINDOW
        invariant forall j :: 0 <= j < i ==> slots[j].Open?
      {
        if slots[i].Empty? {
          return true;
        }
      }
      return false;
    }

    method SetGroup(k: nat, g: Group)
      requires Valid() && k < GROUP_WINDOW && slots[k].Open?
      modifies this`slots, this`groups
      ensures Valid() && groups == old(groups)[old(slots[k].id) := g] && slots == old(slots)[k := Open(old(slots[k].id), g)]
    {
      var id := slots[k].id;
      FillTable(slots, groups, k, id, g);
      slots := slots[k := Open(id, g)];
      groups := groups[id := g];
    }

    method ReleaseGroup(k: nat)
      requires Valid() && k < GROUP_WINDOW && slots[k].Open?
      modifies this`slots, this`groups
      ensures Valid() && groups == old(groups) - {old(slots[k].id)}
    {
      EmptySlot(slots, groups, k);
      groups := groups - {slots[k].id};
      slots := slots[k := Empty];
    }

    /** allocate_group: the first empty slot, if any. */
    method AllocateGroup(id: nat, g: Group) returns (k: nat)
      requires Valid() && id !in groups && InWindow(id, nextEmit)
      modifies this`slots, this`groups
      ensures Valid() && k <= GROUP_WINDOW && (k < GROUP_WINDOW <==> |old(groups)| < GROUP_WINDOW)
      ensures groups == if k < GROUP_WINDOW then old(groups)[id := g] else old(groups)
      ensures k < GROUP_WINDOW ==> slots[k] == Open(id, g)
    {
      FullTable(slots, groups);
      for i := 0 to GROUP_WINDOW
        invariant slots == old(slots) && groups == old(groups)
        invariant forall j :: 0 <= j < i ==> slots[j].Open?
      {
        if slots[i].Empty? {
          FillTable(slots, groups, i, id, g);
          slots := slots[i := Open(id, g)];
          groups := groups[id := g];
          return i;
        }
      }
      return GROUP_WINDOW;
    }

    // -------------------------------------------------------------------
    // Recover.

    /** group_all_shards_present and group_systematic_data_ready: one scan each. */
    method ShardsPresent(g: Group, n: nat) returns (all: bool)
      ensures all <==> forall i :: 0 <= i < n ==> i in g.shards
    {
      for shard := 0 to n
        invariant forall i :: 0 <= i < shard ==> i in g.shards
      {
        if shard !in g.shards {
          return false;
        }
      }
      return true;
    }

    method RecoverOne(g: Group, finalize: bool) returns (h: Group)
      ensures h == TryRecover(c, g, finalize)
    {
      if g.state != Active {
        return g;
      }
      var all := ShardsPresent(g, Shards(c));
      if all {
        return g.(state := Recovered);
      }
      var data := ShardsPresent(g, c.codec.k);
      if c.codec.systematic && data {
        return g.(state := Recovered);
      }
      var count := |g.shards|;
      if count < c.codec.k {
        return if finalize then g.(state := Failed) else g;
      }
      if !finalize && count == g.lastCount {
        return g;
      }
      match c.codec.recover(g.shards)
      case Rebuilt(shards) =>
        return g.(state := Recovered, shards := shards, lastCount := count);
      case NotRebuilt =>
        return g.(state := if finalize then Failed else Active, lastCount := count);
    }

    method TryRecoverGroup(k: nat, finalize: bool)
      requires Valid() && k < GROUP_WINDOW && slots[k].Open?
      modifies this`slots, this`groups, this`stats
      ensures Valid() && Abs() == Recover(c, old(Abs()), old(slots[k].id), finalize)
      ensures slots == old(slots)[k := Open(old(slots[k].id), TryRecover(c, old(slots[k].item), finalize))]
    {
      hide TryRecover, Table;
      GroupAt(k);
      var g := slots[k].item;
      var h := RecoverOne(g, finalize);
      SetGroup(k, h);
      if BecameRecovered(g, h) {
        stats := stats.(groupsRecovered := stats.groupsRecovered + 1);
      }
      if BecameFailed(g, h) {
        stats := stats.(groupsFailed := stats.groupsFailed + 1);
      }
    }

    lemma GroupAt(k: nat)
      requires Valid() && k < GROUP_WINDOW && slots[k].Open?
      ensures slots[k].id in groups && groups[slots[k].id] == slots[k].item && InWindow(slots[k].id, nextEmit)
    {}

    /** finalize_active_groups. */
    method FinalizeActiveGroups()
      requires Valid()
      modifies this`slots, this`groups, this`stats
      ensures Valid() && Abs() == Finalize(c, old(Abs()))
    {
      hide Table, Finalize, TryRecover, Recover;
      for i := 0 to GROUP_WINDOW
        invariant Valid() && Finalize(c, Abs()) == Finalize(c, old(Abs()))
        invariant forall j :: 0 <= j < i && slots[j].Open? ==> slots[j].item.state != Active
      {
        if slots[i].Open? && slots[i].item.state == Active {
          GroupAt(i);
          FinalizeStep(c, Abs(), slots[i].id);
          FinalIsSettled(c, slots[i].item);
          TryRecoverGroup(i, true);
        }
      }
      AllSettled();
      FinalizeDone(c, Abs());
    }

    lemma AllSettled()
      requires Valid() && forall j :: 0 <= j < GROUP_WINDOW && slots[j].Open? ==> slots[j].item.state != Active
      ensures forall id :: id in groups ==> groups[id].state != Active
    {}

    // -------------------------------------------------------------------
    // Emit.

    method Advance(ghost fate: Fate)
      requires Valid() && nextEmit !in groups
      modifies this`nextEmit, this`fates
      ensures Valid() && nextEmit == old(nextEmit) + 1 && fates == old(fates) + [fate]
    {
      hide Table;
      fates := fates + [fate];
      nextEmit := nextEmit + 1;
    }

    /** write_decoded_group on the recovered head in slot k, then the advance. */
    method WriteHead(k: nat, sink: nat) returns (left: nat, ok: bool)
      requires Valid() && k < GROUP_WINDOW && slots[k].Open? && slots[k].id == nextEmit
      modifies this
      ensures Valid() && old(nextEmit in groups) && Outcome(Abs(), left, ok) == EmitHead(c, old(Abs()), sink)
    {
      hide Table, InWindow, Take;
      GroupAt(k);
      var g := slots[k].item;
      var bytes := Take(c.codec.decode(g.shards), g.validLen);
      stats := stats.(groupsEmitted := stats.groupsEmitted + 1);
      if sink == 0 {
        SetGroup(k, g.(state := Emitted));
        refused := true;
        return 0, false;
      }
      output := output + bytes;
      stats := stats.(outputBytes := stats.outputBytes + g.validLen);
      ReleaseGroup(k);
      Advance(Whole(bytes));
      return sink - 1, true;
    }

    /** The shard loop of write_best_effort_group. */
    method WriteReceived(g: Group, sink: nat) returns (p: Parts)
      ensures p == WriteParts(c, g, 0, g.validLen, sink)
    {
      hide Take, ShardText;
      var bytes, missing, left, remaining, shard := [], 0, sink, g.validLen, 0;
      while shard < c.codec.k && remaining > 0
        invariant var r := WriteParts(c, g, shard, remaining, left);
                  WriteParts(c, g, 0, g.validLen, sink) == r.(bytes := bytes + r.bytes, missing := missing + r.missing)
        decreases c.codec.k - shard
      {
        var len := Min(PKG_SIZE, remaining);
        if shard in g.shards {
          if left == 0 {
            return Parts(bytes, missing, 0, false);
          }
          bytes := bytes + Take(ShardText(c, g, shard), len);
          left := left - 1;
        } else {
          missing := missing + 1;
        }
        remaining := remaining - len;
        shard := shard + 1;
      }
      return Parts(bytes, missing, left, true);
    }

    /** skip_unrecoverable_head; k is the head's slot, or the window size. */
    method SkipTheHead(k: nat, sink: nat) returns (left: nat, ok: bool)
      requires Valid() && k <= GROUP_WINDOW && (k < GROUP_WINDOW <==> nextEmit in groups)
      requires k < GROUP_WINDOW ==> slots[k] == Open(nextEmit, groups[nextEmit])
      modifies this
      ensures Valid() && Outcome(Abs(), left, ok) == SkipHead(c, old(Abs()), sink)
    {
      hide Table, InWindow, WriteParts, Kept;
      left := sink;
      ghost var fate := Gap({}, []);
      if k < GROUP_WINDOW {
        if c.codec.allowsBestEffort {
          var g := slots[k].item;
          var p := WriteReceived(g, sink);
          output := output + p.bytes;
          stats := stats.(outputBytes := stats.outputBytes + |p.bytes|, missingData := stats.missingData + p.missing);
          left := p.sink;
          if !p.ok {
            refused := true;
            return 0, false;
          }
          fate := Gap(Kept(c, g), p.bytes);
        }
        ReleaseGroup(k);
      }
      stats := stats.(skipped := stats.skipped + 1);
      Advance(fate);
      return left, true;
    }

    /** later_recovered_waiting. */
    method LaterRecoveredWaiting() returns (yes: bool)
      requires Valid()
      ensures yes == LaterRecovered(Abs())
    {
      for i := 0 to GROUP_WINDOW
        invariant forall j :: 0 <= j < i && slots[j].Open? ==> !(slots[j].item.state == Recovered && slots[j].id > nextEmit)
      {
        if slots[i].Open? && slots[i].item.state == Recovered && slots[i].id > nextEmit {
          assert slots[i].id in groups;
          return true;
        }
      }
      return false;
    }

    /** The last-chance recovery of a stuck head, then write or skip. */
    method GiveUp(k: nat, sink: nat) returns (left: nat, ok: bool, saved: bool)
      requires Valid() && k <= GROUP_WINDOW && (k < GROUP_WINDOW <==> nextEmit in groups)
      requires k < GROUP_WINDOW ==> slots[k] == Open(nextEmit, groups[nextEmit])
      modifies this
      ensures Valid() && Outcome(Abs(), left, ok) == GiveUpHead(c, old(Abs()), sink)
      ensures saved == old(HeadIs(Abs(), Active) && TryRecover(c, groups[nextEmit], true).state == Recovered)
    {
      hide Table, InWindow, TryRecover, EmitHead, SkipHead;
      if k < GROUP_WINDOW && slots[k].item.state == Active {
        TryRecoverGroup(k, true);
        GroupAt(k);
        if slots[k].item.state == Recovered {
          left, ok := WriteHead(k, sink);
          return left, ok, true;
        }
      }
      left, ok := SkipTheHead(k, sink);
      return left, ok, false;
    }

    /** One turn of the loop; rest says that the head has to wait. */
    method TakeTurn(sink: nat) returns (rest: bool, left: nat, ok: bool)
      requires Valid()
      modifies this
      ensures Valid() && rest == HeadTurn(c, old(Abs()), sink).Rest?
      ensures Outcome(Abs(), left, ok) == if rest then Outcome(old(Abs()), sink, true) else HeadTurn(c, old(Abs()), sink).outcome
    {
      hide Table, InWindow, EmitHead, SkipHead, GiveUpHead;
      if endSeen && nextEmit >= endCount {
        return true, sink, true;
      }
      var k := FindGroup(nextEmit);
      if k < GROUP_WINDOW && slots[k].item.state == Recovered {
        left, ok := WriteHead(k, sink);
        return false, left, ok;
      }
      if c.bestEffort && endSeen && (k == GROUP_WINDOW || slots[k].item.state == Failed) {
        left, ok := SkipTheHead(k, sink);
        return false, left, ok;
      }
      var later := LaterRecoveredWaiting();
      var below := k == GROUP_WINDOW || slots[k].item.state == Failed ||
                   (slots[k].item.state == Active && |slots[k].item.shards| < c.codec.k);
      if c.bestEffort && below && later {
        var saved;
        left, ok, saved := GiveUp(k, sink);
        return false, left, ok;
      }
      return true, sink, true;
    }

    /** try_emit_from_head. */
    method TryEmitFromHead(sink: nat) returns (left: nat, ok: bool)
      requires Valid()
      modifies this
      ensures Valid() && Outcome(Abs(), left, ok) == EmitAll(c, old(Abs()), sink)
    {
      hide Table, InWindow, HeadTurn;
      ghost var bound := BoundOf(Abs());
      WithinBound();
      left := sink;
      while true
        invariant Valid() && Below(Abs(), bound) && EmitFromHead(c, Abs(), left, bound) == EmitAll(c, old(Abs()), sink)
        decreases bound - nextEmit
      {
        if HeadTurn(c, Abs(), left).Step? { TurnMoves(c, Abs(), left, bound); }
        var rest;
        rest, left, ok := TakeTurn(left);
        if rest || !ok { return; }
      }
    }

    lemma WithinBound()
      requires Valid()
      ensures Windowed(Abs()) && Below(Abs(), BoundOf(Abs()))
    {}

    /** wire_flow_decoder_flush_best_effort. */
    method Flush(sink: nat) returns (left: nat, ok: bool)
      requires Valid()
      modifies this
      ensures Valid() && old(Windowed(Abs())) && Outcome(Abs(), left, ok) == FlushBestEffort(c, old(Abs()), sink)
    {
      hide Table, InWindow, EmitAll, Finalize;
      if !c.bestEffort {
        return sink, false;
      }
      if !endSeen {
        return sink, true;
      }
      FinalizeActiveGroups();
      left, ok := TryEmitFromHead(sink);
      if ok && nextEmit >= endCount {
        complete := true;
      }
    }

    // -------------------------------------------------------------------
    // Receive.

    /** make_room_for_block. */
    method MakeRoomFor(id: nat, sink: nat) returns (left: nat, ok: bool)
      requires Valid()
      modifies this
      ensures Valid() && Outcome(Abs(), left, ok) == MakeRoom(c, old(Abs()), id, 0, sink)
    {
      hide Table, EmitHead, GiveUpHead, TryRecover;
      var guard := 0;
      left := sink;
      while true
        invariant Valid() && MakeRoom(c, Abs(), id, guard, left) == MakeRoom(c, old(Abs()), id, 0, sink)
        decreases id - nextEmit
      {
        StepFacts(c, Abs(), left);
        var known := FindGroup(id);
        var empty := HasEmptySlot();
        var needs := !InWindow(id, nextEmit) || (known == GROUP_WINDOW && !empty);
        if !needs || guard >= GROUP_WINDOW || nextEmit >= id {
          return left, true;
        }
        var k := FindGroup(nextEmit);
        if k < GROUP_WINDOW && slots[k].item.state == Recovered {
          left, ok := WriteHead(k, left);
        } else {
          var saved;
          left, ok, saved := GiveUp(k, left);
          guard := if saved then guard else guard + 1;
        }
        if !ok { return; }
      }
    }

    method ReceiveEnd(blocks: nat, sink: nat) returns (left: nat, ok: bool)
      requires Valid()
      modifies this
      ensures Valid() && old(Windowed(Abs())) && Outcome(Abs(), left, ok) == IngestEnd(c, old(Abs()), blocks, sink)
    {
      hide Table, InWindow, EmitAll, Finalize, FlushBestEffort;
      if endSeen && blocks != endCount {
        stats := stats.(malformed := stats.malformed + 1);
        return sink, true;
      }
      endSeen, endCount := true, blocks;
      FinalizeActiveGroups();
      left, ok := TryEmitFromHead(sink);
      if !ok { return; }
      if nextEmit == blocks {
        complete := true;
      } else if c.bestEffort {
        left, ok := Flush(left);
        if ok {
          complete := true;
        }
      }
    }

    /** The slot of the block's group, opened if it is new and a slot is free. */
    method OpenFor(p: Datagram) returns (k: nat)
      requires Valid() && p.Data? && InWindow(p.block, nextEmit)
      modifies this`slots, this`groups, this`stats
      ensures Valid() && k <= GROUP_WINDOW && (k == GROUP_WINDOW <==> old(p.block !in groups && |groups| >= GROUP_WINDOW))
      ensures Abs() == if k == GROUP_WINDOW then old(Abs()) else Opened(old(Abs()), p)
      ensures k < GROUP_WINDOW ==> slots[k] == Open(p.block, Opened(old(Abs()), p).groups[p.block])
    {
      hide Table;
      k := FindGroup(p.block);
      if k == GROUP_WINDOW {
        k := AllocateGroup(p.block, Group(Active, p.validLen, p.stamp, map[], 0));
        if k < GROUP_WINDOW {
          stats := stats.(groupsReceived := stats.groupsReceived + 1);
        }
      }
    }

    method PlaceShard(k: nat, p: Datagram)
      requires Valid() && p.Data? && k < GROUP_WINDOW && slots[k].Open? && slots[k].id == p.block
      modifies this`slots, this`groups, this`stats
      ensures Valid() && old(p.block in groups) && Abs() == Placed(c, old(Abs()), p)
    {
      hide Table, InWindow, Recover;
      GroupAt(k);
      var g := slots[k].item;
      SetGroup(k, g.(shards := g.shards[p.index := p.payload]));
      stats := stats.(received := stats.received + 1);
      TryRecoverGroup(k, false);
    }

    /** A data shard for a block inside the window. */
    method ReceiveShard(p: Datagram, sink: nat) returns (left: nat, ok: bool)
      requires Valid() && p.Data? && InWindow(p.block, nextEmit)
      modifies this
      ensures Valid() && old(Windowed(Abs())) && Outcome(Abs(), left, ok) == StoreShard(c, old(Abs()), p, sink)
    {
      hide Table, InWindow, EmitAll, Placed, Opened;
      var k := OpenFor(p);
      if k == GROUP_WINDOW {
        stats := stats.(overflow := stats.overflow + 1);
        return sink, true;
      }
      GroupAt(k);
      var g := slots[k].item;
      if g.state != Active {
        stats := stats.(duplicate := stats.duplicate + 1);
        return sink, true;
      }
      if g.validLen != p.validLen || g.stamp != p.stamp {
        stats := stats.(malformed := stats.malformed + 1);
        return sink, true;
      }
      if p.index in g.shards {
        stats := stats.(duplicate := stats.duplicate + 1);
        return sink, true;
      }
      PlaceShard(k, p);
      left, ok := TryEmitFromHead(sink);
      if ok && endSeen && nextEmit == endCount {
        complete := true;
      }
    }

    /** wire_flow_decoder_ingest. */
    method IngestDatagram(p: Datagram, sink: nat) returns (ok: bool)
      requires Valid()
      modifies this
      ensures Valid() && old(Windowed(Abs()))
      ensures Abs() == Ingest(c, old(Abs()), p, sink).d && ok == Ingest(c, old(Abs()), p, sink).ok
    {
      hide Table, MakeRoom, StoreShard, IngestEnd;
      var left := sink;
      if complete {
        return true;
      }
      if !HeaderOk(c, p) {
        stats := stats.(malformed := stats.malformed + 1);
        return true;
      }
      if p.End? {
        left, ok := ReceiveEnd(p.blocks, sink);
        return;
      }
      stats := stats.(seen := stats.seen + 1);
      if p.block < nextEmit {
        stats := stats.(late := stats.late + 1);
        return true;
      }
      if c.bestEffort {
        left, ok := MakeRoomFor(p.block, sink);
        if !ok { return; }
        if p.block < nextEmit {
          stats := stats.(late := stats.late + 1);
          return true;
        }
      }
      if !InWindow(p.block, nextEmit) {
        stats := stats.(overflow := stats.overflow + 1);
        return true;
      }
      left, ok := ReceiveShard(p, left);
    }
  }
}
