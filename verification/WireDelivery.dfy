/** What holds in every run of the reorder window fed from one stream, under any
    loss, duplication, reordering and header corruption the check catches. */
module WireDelivery {
  import opened Gf256
  import opened ErasureCode
  import opened WireDecoder
  import opened WireStream

  ghost predicate Setting(c: Config, s: Stream) {
    CodecOk(c.codec) && Mds(c.codec) && StreamOk(c, s)
  }

  /** A live group holds shards of its own block: too few to recover, or enough
      and decodable. */
  ghost predicate GroupOk(c: Config, s: Stream, id: nat, g: Group)
    requires StreamOk(c, s)
  {
    id < |s.blocks| && g.validLen == WireLen(s.blocks[id]) && g.stamp == s.stamps[id] &&
    (g.state == Active || g.state == Failed ==> Part(g.shards, Encoding(c, s, id)) && |g.shards| < c.codec.k) &&
    (g.state == Active ==> g.lastCount == 0) &&
    (g.state == Recovered ==> c.codec.decode(g.shards) == Padded(c, s.blocks[id]))
  }

  ghost predicate GroupsOk(c: Config, s: Stream, groups: map<nat, Group>, refused: bool)
    requires StreamOk(c, s)
  {
    forall id :: id in groups ==> GroupOk(c, s, id, groups[id]) && (groups[id].state == Emitted ==> refused)
  }

  ghost predicate Told(c: Config, s: Stream, fates: seq<Fate>, output: Bytes) {
    |fates| <= |s.blocks| && output == Flat(fates) &&
    forall i :: 0 <= i < |fates| ==> FateOk(c, s.blocks[i], fates[i]) && (!c.bestEffort ==> fates[i].Whole?)
  }

  ghost function Pending(groups: map<nat, Group>): (p: set<nat>) {
    set id | id in groups && groups[id].state == Recovered
  }

  ghost predicate Counted(d: Decoder) {
    d.stats.groupsEmitted + d.stats.skipped == d.nextEmit &&
    d.stats.groupsRecovered == d.stats.groupsEmitted + |Pending(d.groups)|
  }

  ghost predicate Inv(c: Config, s: Stream, d: Decoder) {
    StreamOk(c, s) && Windowed(d) && |d.fates| == d.nextEmit <= |s.blocks| && (d.endSeen ==> d.endCount == |s.blocks|) &&
    GroupsOk(c, s, d.groups, d.refused) &&
    (!d.refused || !c.bestEffort ==> Told(c, s, d.fates, d.output)) &&
    (!d.refused ==> Counted(d)) &&
    (d.complete && (!d.refused || !c.bestEffort) ==> d.endSeen && d.nextEmit == |s.blocks|)
  }

  // ---------------------------------------------------------------------
  // Recover.

  lemma TryRecoverOk(c: Config, s: Stream, id: nat, g: Group, finalize: bool)
    requires Setting(c, s) && GroupOk(c, s, id, g)
    ensures GroupOk(c, s, id, TryRecover(c, g, finalize))
    ensures g.state != Active ==> TryRecover(c, g, finalize) == g
    ensures finalize ==> TryRecover(c, g, finalize).state != Active
    ensures TryRecover(c, g, finalize).state == Emitted ==> g.state == Emitted
  {
    hide Padded, WireLen;
    var block := Padded(c, s.blocks[id]);
    assert EncodesBlock(c.codec, block) && RecoversFrom(c.codec, block);
  }

  /** A group that just gained a shard: with k of them it recovers. */
  lemma NewShardOk(c: Config, s: Stream, id: nat, g: Group)
    requires Setting(c, s) && id < |s.blocks| && g.state == Active && g.validLen == WireLen(s.blocks[id]) && g.stamp == s.stamps[id]
    requires Part(g.shards, Encoding(c, s, id)) && g.lastCount == 0
    ensures GroupOk(c, s, id, TryRecover(c, g, false)) && TryRecover(c, g, false).state != Emitted
  {
    hide Padded, WireLen;
    var block := Padded(c, s.blocks[id]);
    assert EncodesBlock(c.codec, block) && RecoversFrom(c.codec, block);
  }

  lemma PendingAdd(groups: map<nat, Group>, id: nat, h: Group)
    requires id in groups ==> groups[id].state != Recovered
    ensures |Pending(groups[id := h])| == |Pending(groups)| + (if h.state == Recovered then 1 else 0)
  {
    var p, q := Pending(groups), Pending(groups[id := h]);
    if h.state == Recovered {
      assert q == p + {id};
    } else {
      assert q == p;
    }
  }

  lemma PendingRemove(groups: map<nat, Group>, id: nat)
    requires id in groups
    ensures |Pending(groups - {id})| == |Pending(groups)| - (if groups[id].state == Recovered then 1 else 0)
  {
    var p, q := Pending(groups), Pending(groups - {id});
    if groups[id].state == Recovered {
      assert p == q + {id};
    } else {
      assert q == p;
    }
  }

  /** Replacing an active group, or opening one inside the window. */
  lemma GroupReplaced(c: Config, s: Stream, d: Decoder, t: Decoder, id: nat, h: Group)
    requires Inv(c, s, d) && InWindow(id, d.nextEmit) && (id in d.groups ==> d.groups[id].state == Active)
    requires GroupOk(c, s, id, h) && h.state != Emitted
    requires t == d.(groups := d.groups[id := h], stats := t.stats)
    requires t.stats.groupsEmitted == d.stats.groupsEmitted && t.stats.skipped == d.stats.skipped
    requires t.stats.groupsRecovered == d.stats.groupsRecovered + (if h.state == Recovered then 1 else 0)
    ensures Inv(c, s, t)
  {
    hide GroupOk, Told;
    PendingAdd(d.groups, id, h);
    hide Pending;
  }

  lemma RecoverKeeps(c: Config, s: Stream, d: Decoder, id: nat, finalize: bool)
    requires Setting(c, s) && Inv(c, s, d) && id in d.groups
    ensures Inv(c, s, Recover(c, d, id, finalize))
  {
    hide GroupOk, Told, TryRecover, CodecOk, Mds, Counted;
    var g, h := d.groups[id], TryRecover(c, d.groups[id], finalize);
    TryRecoverOk(c, s, id, g, finalize);
    var t := Recover(c, d, id, finalize);
    if g.state == Active {
      GroupReplaced(c, s, d, t, id, h);
    } else {
      assert t.groups == d.groups;
      assert t == d;
    }
  }

  lemma FinalizedPending(before: map<nat, Group>, after: map<nat, Group>)
    requires before.Keys == after.Keys
    requires forall id :: id in before && before[id].state != Active ==> after[id] == before[id]
    ensures |Pending(after)| == |Pending(before)| + |NewlyRecovered(before, after)|
  {
    var p, won := Pending(before), NewlyRecovered(before, after);
    assert Pending(after) == p + won;
    assert p !! won;
  }

  lemma FinalizeKeeps(c: Config, s: Stream, d: Decoder)
    requires Setting(c, s) && Inv(c, s, d)
    ensures Inv(c, s, Finalize(c, d))
    ensures forall id :: id in Finalize(c, d).groups ==> Finalize(c, d).groups[id].state != Active
  {
    hide GroupOk, Told, TryRecover, CodecOk, Mds;
    forall id | id in d.groups
      ensures GroupOk(c, s, id, TryRecover(c, d.groups[id], true))
      ensures TryRecover(c, d.groups[id], true).state != Active
      ensures TryRecover(c, d.groups[id], true).state == Emitted ==> d.groups[id].state == Emitted
      ensures d.groups[id].state != Active ==> TryRecover(c, d.groups[id], true) == d.groups[id]
    {
      TryRecoverOk(c, s, id, d.groups[id], true);
    }
    FinalizedPending(d.groups, Finalized(c, d.groups));
    hide Pending, NewlyRecovered, NewlyFailed;
  }

  // ---------------------------------------------------------------------
  // Emit.

  lemma ToldMore(c: Config, s: Stream, fates: seq<Fate>, output: Bytes, f: Fate)
    requires Told(c, s, fates, output) && |fates| < |s.blocks| && FateOk(c, s.blocks[|fates|], f) && (!c.bestEffort ==> f.Whole?)
    ensures Told(c, s, fates + [f], output + f.bytes)
  {
    hide FateOk;
    FlatAdd(fates, f);
  }

  lemma EmitHeadFate(c: Config, s: Stream, d: Decoder)
    requires Setting(c, s) && GroupsOk(c, s, d.groups, d.refused) && HeadIs(d, Recovered)
    ensures var g := d.groups[d.nextEmit];
            d.nextEmit < |s.blocks| && FateOk(c, s.blocks[d.nextEmit], Whole(Take(c.codec.decode(g.shards), g.validLen)))
  {
    hide Take, Padded, WireLen, CodecOk, Mds;
    WholeIsSent(c, s.blocks[d.nextEmit]);
  }

  lemma EmitHeadGroups(c: Config, s: Stream, d: Decoder, sink: nat)
    requires StreamOk(c, s) && GroupsOk(c, s, d.groups, d.refused) && HeadIs(d, Recovered)
    ensures var t := EmitHead(c, d, sink).d; GroupsOk(c, s, t.groups, t.refused)
  {
    hide Take, Padded, WireLen;
  }

  lemma EmitHeadKeeps(c: Config, s: Stream, d: Decoder, sink: nat)
    requires Setting(c, s) && Inv(c, s, d) && HeadIs(d, Recovered)
    ensures Inv(c, s, EmitHead(c, d, sink).d)
  {
    hide Told, Take, CodecOk, Mds, GroupsOk, Pending, FateOk, Windowed;
    EmitHeadFate(c, s, d);
    EmitHeadGroups(c, s, d, sink);
    EmitMoves(c, d, sink);
    MoveStaysWindowed(d, EmitHead(c, d, sink));
    PendingRemove(d.groups, d.nextEmit);
    if !d.refused || !c.bestEffort {
      ToldMore(c, s, d.fates, d.output, Whole(Take(c.codec.decode(d.groups[d.nextEmit].shards), d.groups[d.nextEmit].validLen)));
    }
  }

  lemma SkipFate(c: Config, s: Stream, d: Decoder, sink: nat)
    requires Setting(c, s) && Inv(c, s, d) && c.bestEffort && !HeadIs(d, Recovered) && d.nextEmit < |s.blocks| && !d.refused
    ensures var o := SkipHead(c, d, sink);
            o.ok ==> exists f :: o.d.fates == d.fates + [f] && o.d.output == d.output + f.bytes && FateOk(c, s.blocks[d.nextEmit], f)
  {
    hide Told, WriteParts, Padded, WireLen, Mds;
    var block := Padded(c, s.blocks[d.nextEmit]);
    NothingKept(block, 0, c.codec.k, WireLen(s.blocks[d.nextEmit]));
    var o := SkipHead(c, d, sink);
    if d.nextEmit !in d.groups || !c.codec.allowsBestEffort {
      var f := Gap({}, []);
      assert o.d.fates == d.fates + [f] && o.d.output == d.output + f.bytes && FateOk(c, s.blocks[d.nextEmit], f);
    } else if o.ok {
      var g := d.groups[d.nextEmit];
      assert EncodesBlock(c.codec, block);
      PartsAreKept(c, g, block, 0, g.validLen, sink);
      var f := Gap(Kept(c, g), WriteParts(c, g, 0, g.validLen, sink).bytes);
      assert o.d.fates == d.fates + [f] && o.d.output == d.output + f.bytes && FateOk(c, s.blocks[d.nextEmit], f);
    }
  }

  lemma SkipHeadKeeps(c: Config, s: Stream, d: Decoder, sink: nat)
    requires Setting(c, s) && Inv(c, s, d) && c.bestEffort && !HeadIs(d, Recovered) && d.nextEmit < |s.blocks|
    ensures Inv(c, s, SkipHead(c, d, sink).d)
  {
    hide Told, WriteParts, Kept, CodecOk, Mds, FateOk, GroupOk;
    SkipMoves(c, d, sink);
    MoveStaysWindowed(d, SkipHead(c, d, sink));
    var o := SkipHead(c, d, sink);
    if o.ok && !d.refused {
      SkipFate(c, s, d, sink);
      var f :| o.d.fates == d.fates + [f] && o.d.output == d.output + f.bytes && FateOk(c, s.blocks[d.nextEmit], f);
      ToldMore(c, s, d.fates, d.output, f);
    }
    if d.nextEmit in d.groups {
      PendingRemove(d.groups, d.nextEmit);
    }
    hide Pending;
  }

  lemma GiveUpHeadKeeps(c: Config, s: Stream, d: Decoder, sink: nat)
    requires Setting(c, s) && Inv(c, s, d) && c.bestEffort && !HeadIs(d, Recovered) && d.nextEmit < |s.blocks|
    ensures Inv(c, s, GiveUpHead(c, d, sink).d)
  {
    hide Inv, TryRecover, EmitHead, SkipHead, Setting;
    var t := if HeadIs(d, Active) then Recover(c, d, d.nextEmit, true) else d;
    if HeadIs(d, Active) { RecoverKeeps(c, s, d, d.nextEmit, true); }
    if HeadIs(t, Recovered) { EmitHeadKeeps(c, s, t, sink); } else { SkipHeadKeeps(c, s, t, sink); }
  }

  lemma TurnKeeps(c: Config, s: Stream, d: Decoder, sink: nat)
    requires Setting(c, s) && Inv(c, s, d) && HeadTurn(c, d, sink).Step?
    ensures Inv(c, s, HeadTurn(c, d, sink).outcome.d)
  {
    hide Inv, EmitHead, SkipHead, GiveUpHead, Setting;
    RangeOfHead(c, s, d);
    if HeadIs(d, Recovered) {
      EmitHeadKeeps(c, s, d, sink);
    } else {
      SkipHeadKeeps(c, s, d, sink);
      GiveUpHeadKeeps(c, s, d, sink);
    }
  }

  lemma {:induction false} EmitFromHeadKeeps(c: Config, s: Stream, d: Decoder, sink: nat, bound: nat)
    requires Setting(c, s) && Inv(c, s, d) && Below(d, bound)
    ensures Inv(c, s, EmitFromHead(c, d, sink, bound).d)
    decreases bound - d.nextEmit
  {
    hide Inv, HeadTurn, Setting;
    if HeadTurn(c, d, sink).Step? {
      var o := HeadTurn(c, d, sink).outcome;
      TurnMoves(c, d, sink, bound);
      TurnKeeps(c, s, d, sink);
      if o.ok { EmitFromHeadKeeps(c, s, o.d, o.sink, bound); }
    }
  }

  /** Something to skip for means blocks remain. */
  lemma RangeOfHead(c: Config, s: Stream, d: Decoder)
    requires Inv(c, s, d)
    ensures d.endSeen ==> d.endCount == |s.blocks|
    ensures LaterRecovered(d) ==> d.nextEmit < |s.blocks|
    ensures Windowed(d)
  {}

  lemma {:induction false} MakeRoomKeeps(c: Config, s: Stream, d: Decoder, id: nat, guard: nat, sink: nat)
    requires Setting(c, s) && Inv(c, s, d) && c.bestEffort && id < |s.blocks|
    ensures Inv(c, s, MakeRoom(c, d, id, guard, sink).d)
    decreases id - d.nextEmit
  {
    hide Inv, EmitHead, SkipHead, GiveUpHead, TryRecover, Setting;
    StepFacts(c, d, sink);
    if !(!NeedsRoom(d, id) || guard >= GROUP_WINDOW || d.nextEmit >= id) {
      if HeadIs(d, Recovered) {
        EmitHeadKeeps(c, s, d, sink);
        var o := EmitHead(c, d, sink);
        if o.ok { MakeRoomKeeps(c, s, o.d, id, guard, o.sink); }
      } else {
        GiveUpHeadKeeps(c, s, d, sink);
        var saved := HeadIs(d, Active) && TryRecover(c, d.groups[d.nextEmit], true).state == Recovered;
        var o := GiveUpHead(c, d, sink);
        if o.ok { MakeRoomKeeps(c, s, o.d, id, if saved then guard else guard + 1, o.sink); }
      }
    }
  }

  // ---------------------------------------------------------------------
  // Receive.

  ghost predicate NoneActive(d: Decoder) {
    forall id :: id in d.groups ==> d.groups[id].state == Recovered || d.groups[id].state == Failed
  }

  /** After the end is known and no group is undecided, best effort runs to it. */
  lemma {:induction false} RunsToEnd(c: Config, d: Decoder, sink: nat, bound: nat)
    requires c.bestEffort && d.endSeen && NoneActive(d) && Below(d, bound)
    ensures var o := EmitFromHead(c, d, sink, bound); o.ok ==> o.d.nextEmit >= d.endCount
    decreases bound - d.nextEmit
  {
    hide WriteParts, Kept, GiveUpHead;
    if d.nextEmit < d.endCount {
      TurnMoves(c, d, sink, bound);
      var o := if HeadIs(d, Recovered) then EmitHead(c, d, sink) else SkipHead(c, d, sink);
      if o.ok {
        assert NoneActive(o.d);
        RunsToEnd(c, o.d, o.sink, bound);
      }
    }
  }

  lemma BecomesComplete(c: Config, s: Stream, d: Decoder)
    requires Inv(c, s, d) && d.endSeen && (!d.refused || !c.bestEffort ==> d.nextEmit == |s.blocks|)
    ensures Inv(c, s, d.(complete := true))
  {
    hide GroupsOk, Told;
  }

  lemma OtherStats(c: Config, s: Stream, d: Decoder, stats: Stats)
    requires Inv(c, s, d) && stats.groupsEmitted == d.stats.groupsEmitted && stats.skipped == d.stats.skipped
    requires stats.groupsRecovered == d.stats.groupsRecovered
    ensures Inv(c, s, d.(stats := stats))
  {
    hide GroupsOk, Told, Pending;
  }

  lemma EmitAllKeeps(c: Config, s: Stream, d: Decoder, sink: nat)
    requires Setting(c, s) && Inv(c, s, d)
    ensures Windowed(d) && Inv(c, s, EmitAll(c, d, sink).d)
  {
    hide Inv, EmitFromHead, Setting;
    RangeOfHead(c, s, d);
    EmitFromHeadKeeps(c, s, d, sink, BoundOf(d));
  }

  lemma SeesEnd(c: Config, s: Stream, d: Decoder)
    requires Inv(c, s, d)
    ensures Inv(c, s, d.(endSeen := true, endCount := |s.blocks|))
  {
    hide GroupsOk, Told;
  }

  /** Finalize, emit: in best effort everything up to the end is decided. */
  lemma FinishKeeps(c: Config, s: Stream, d: Decoder, sink: nat)
    requires Setting(c, s) && Inv(c, s, d) && d.endSeen
    ensures var t := Finalize(c, d);
            Windowed(t) && var o := EmitAll(c, t, sink);
            Inv(c, s, o.d) && o.d.endSeen && o.d.endCount == |s.blocks| &&
            (d.refused ==> o.d.refused) &&
            (c.bestEffort && o.ok && !d.refused ==> o.d.nextEmit == |s.blocks|)
  {
    hide GroupOk, Told, Finalized, EmitFromHead, Setting, Counted;
    FinalizeKeeps(c, s, d);
    var t := Finalize(c, d);
    EmitAllKeeps(c, s, t, sink);
    EmitKeepsEnd(c, t, sink, BoundOf(t));
    if c.bestEffort && !d.refused {
      RunsToEnd(c, t, sink, BoundOf(t));
    }
  }

  lemma {:induction false} EmitKeepsEnd(c: Config, d: Decoder, sink: nat, bound: nat)
    requires Below(d, bound)
    ensures var o := EmitFromHead(c, d, sink, bound); o.d.endSeen == d.endSeen && o.d.endCount == d.endCount && (d.refused ==> o.d.refused)
    decreases bound - d.nextEmit
  {
    hide HeadTurn;
    if HeadTurn(c, d, sink).Step? {
      var o := HeadTurn(c, d, sink).outcome;
      TurnMoves(c, d, sink, bound);
      if o.ok { EmitKeepsEnd(c, o.d, o.sink, bound); }
    }
  }

  lemma FlushKeeps(c: Config, s: Stream, d: Decoder, sink: nat)
    requires Setting(c, s) && Inv(c, s, d)
    ensures Windowed(d) && Inv(c, s, FlushBestEffort(c, d, sink).d)
    ensures var t := FlushBestEffort(c, d, sink).d; (d.endSeen ==> t.endSeen) && (d.refused ==> t.refused)
  {
    hide Inv, EmitAll, Finalize, Setting;
    RangeOfHead(c, s, d);
    if c.bestEffort && d.endSeen {
      FinishKeeps(c, s, d, sink);
      var o := EmitAll(c, Finalize(c, d), sink);
      if o.ok && o.d.nextEmit >= o.d.endCount {
        WithinStream(c, s, o.d);
        BecomesComplete(c, s, o.d);
      }
    }
  }

  lemma WithinStream(c: Config, s: Stream, d: Decoder)
    requires Inv(c, s, d)
    ensures d.nextEmit <= |s.blocks|
  {}

  lemma EndKeeps(c: Config, s: Stream, d: Decoder, sink: nat)
    requires Setting(c, s) && Inv(c, s, d)
    ensures Windowed(d) && Inv(c, s, IngestEnd(c, d, |s.blocks|, sink).d)
  {
    hide Inv, EmitAll, Finalize, FlushBestEffort, Setting;
    RangeOfHead(c, s, d);
    var e := d.(endSeen := true, endCount := |s.blocks|);
    SeesEnd(c, s, d);
    FinishKeeps(c, s, e, sink);
    var o := EmitAll(c, Finalize(c, e), sink);
    if o.ok {
      if o.d.nextEmit == |s.blocks| {
        BecomesComplete(c, s, o.d);
      } else if c.bestEffort {
        FlushKeeps(c, s, o.d, o.sink);
        var f := FlushBestEffort(c, o.d, o.sink);
        if f.ok { BecomesComplete(c, s, f.d); }
      }
    }
  }

  /** The group as the shard finds it: its own block's, and open for shards. */
  lemma OpenedOk(c: Config, s: Stream, d: Decoder, p: Datagram)
    requires Setting(c, s) && Inv(c, s, d) && FromStream(c, s, p) && p.Data?
    ensures var g := Opened(d, p).groups[p.block];
            GroupOk(c, s, p.block, g) && g.validLen == p.validLen && g.stamp == p.stamp
  {
    hide Told, CodecOk, Mds, Counted;
  }

  lemma PlacedOk(c: Config, s: Stream, d: Decoder, p: Datagram)
    requires Setting(c, s) && Inv(c, s, d) && FromStream(c, s, p) && p.Data? && InWindow(p.block, d.nextEmit)
    requires Opened(d, p).groups[p.block].state == Active
    ensures Inv(c, s, Placed(c, Opened(d, p), p))
  {
    hide Told, TryRecover, CodecOk, Mds, Counted, Placed;
    OpenedOk(c, s, d, p);
    PlacedFacts(c, d, p);
    var g, v := Opened(d, p).groups[p.block], Placed(c, Opened(d, p), p);
    NewShardOk(c, s, p.block, g.(shards := g.shards[p.index := p.payload]));
    GroupReplaced(c, s, d, v, p.block, v.groups[p.block]);
  }

  lemma StoreKeeps(c: Config, s: Stream, d: Decoder, p: Datagram, sink: nat)
    requires Setting(c, s) && Inv(c, s, d) && FromStream(c, s, p) && p.Data? && InWindow(p.block, d.nextEmit)
    ensures Windowed(d) && Inv(c, s, StoreShard(c, d, p, sink).d)
  {
    hide Inv, EmitAll, Setting, FromStream, Placed, GroupOk, Windowed, TryRecover;
    RangeOfHead(c, s, d);
    OtherStats(c, s, d, d.stats.(overflow := d.stats.overflow + 1));
    OtherStats(c, s, d, d.stats.(duplicate := d.stats.duplicate + 1));
    OpenedOk(c, s, d, p);
    PlacedFacts(c, d, p);
    if Opened(d, p).groups[p.block].state == Active {
      PlacedOk(c, s, d, p);
      var v := Placed(c, Opened(d, p), p);
      EmitAllKeeps(c, s, v, sink);
      var o := EmitAll(c, v, sink);
      RangeOfHead(c, s, o.d);
      if o.ok && o.d.endSeen && o.d.nextEmit == o.d.endCount {
        BecomesComplete(c, s, o.d);
      }
    }
  }

  /** Every datagram of the stream, and every one the header check rejects,
      keeps the invariant. */
  lemma IngestKeeps(c: Config, s: Stream, d: Decoder, p: Datagram, sink: nat)
    requires Setting(c, s) && Inv(c, s, d) && (FromStream(c, s, p) || !HeaderOk(c, p))
    ensures Windowed(d) && Inv(c, s, Ingest(c, d, p, sink).d)
  {
    hide Inv, MakeRoom, StoreShard, IngestEnd, Setting;
    RangeOfHead(c, s, d);
    if d.complete {
    } else if !HeaderOk(c, p) {
      OtherStats(c, s, d, d.stats.(malformed := d.stats.malformed + 1));
    } else if p.End? {
      EndKeeps(c, s, d, sink);
    } else {
      var seen := d.(stats := d.stats.(seen := d.stats.seen + 1));
      OtherStats(c, s, d, seen.stats);
      OtherStats(c, s, d, seen.stats.(late := seen.stats.late + 1));
      if p.block >= d.nextEmit {
        var room := if c.bestEffort then MakeRoom(c, seen, p.block, 0, sink) else Outcome(seen, sink, true);
        if c.bestEffort { MakeRoomKeeps(c, s, seen, p.block, 0, sink); }
        RangeOfHead(c, s, room.d);
        var st := room.d.stats;
        OtherStats(c, s, room.d, st.(late := st.late + 1));
        OtherStats(c, s, room.d, st.(overflow := st.overflow + 1));
        if room.ok && InWindow(p.block, room.d.nextEmit) {
          StoreKeeps(c, s, room.d, p, room.sink);
        }
      }
    }
  }
}
