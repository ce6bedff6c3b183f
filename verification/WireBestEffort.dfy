/** What best effort makes of every block, in terms of the shards that came. */
module WireBestEffort {
  import Arith
  import Gf256
  import opened WireDecoder
  import opened WireStream
  import opened WireDelivery
  import opened WireRuns
  import opened WireWindow

  /** The data shards among some shards of a block. */
  ghost function DataOf(c: Config, ids: set<nat>): (s: set<nat>) { set i | i in ids && i < c.codec.k }

  /** A block is written whole exactly when k of its shards were taken; otherwise
      every data shard taken is kept, if the codec lets single shards be written. */
  ghost predicate FateFits(c: Config, fate: Fate, ids: set<nat>) {
    match fate
    case Whole(_) => |ids| >= c.codec.k
    case Gap(kept, _) => |ids| < c.codec.k && kept == if c.codec.allowsBestEffort then DataOf(c, ids) else {}
  }

  // ---------------------------------------------------------------------
  // Live groups hold what was taken.

  ghost predicate Held(c: Config, g: Group, ids: set<nat>) {
    if g.state == Active || g.state == Failed then g.shards.Keys == ids && |ids| < c.codec.k
    else g.state == Recovered && |ids| >= c.codec.k
  }

  ghost predicate Holding(c: Config, d: Decoder, got: set<(nat, nat)>) {
    |d.fates| == d.nextEmit && (forall b :: b in d.groups ==> Held(c, d.groups[b], Of(got, b))) &&
    forall b: nat :: b >= d.nextEmit && b !in d.groups ==> Of(got, b) == {}
  }

  /** No group is given up and still there. */
  ghost predicate Settled(d: Decoder) {
    forall b :: b in d.groups ==> d.groups[b].state != Failed
  }

  /** From d to t blocks were decided, each as what was taken of it demands, and
      nothing else happened to the groups. */
  ghost predicate Decided(c: Config, d: Decoder, t: Decoder, got: set<(nat, nat)>) {
    |d.fates| == d.nextEmit <= t.nextEmit == |t.fates| && d.fates <= t.fates &&
    t.refused == d.refused && t.stats.overflow == d.stats.overflow &&
    (forall b :: b in t.groups ==> b in d.groups && t.groups[b] == d.groups[b]) &&
    (forall b :: b in d.groups && b >= t.nextEmit ==> b in t.groups) &&
    forall b: nat :: d.nextEmit <= b < t.nextEmit ==> FateFits(c, t.fates[b], Of(got, b))
  }

  lemma DecidedHolds(c: Config, d: Decoder, t: Decoder, got: set<(nat, nat)>)
    requires Holding(c, d, got) && Decided(c, d, t, got)
    ensures Holding(c, t, got) && (Settled(d) ==> Settled(t))
  {
    hide Of, Held, FateFits;
  }

  lemma DecidedSelf(c: Config, d: Decoder, got: set<(nat, nat)>)
    requires |d.fates| == d.nextEmit
    ensures Decided(c, d, d, got)
  {}

  lemma DecidedTransitive(c: Config, d: Decoder, t: Decoder, u: Decoder, got: set<(nat, nat)>)
    requires Decided(c, d, t, got) && Decided(c, t, u, got)
    ensures Decided(c, d, u, got)
  {
    hide Of, FateFits;
    forall b: nat | d.nextEmit <= b < u.nextEmit ensures FateFits(c, u.fates[b], Of(got, b)) {
      if b < t.nextEmit { assert u.fates[b] == t.fates[b]; }
    }
  }

  // ---------------------------------------------------------------------
  // Steps at the head.

  ghost predicate HeadStep(c: Config, d: Decoder, o: Outcome, got: set<(nat, nat)>) {
    if o.ok then Decided(c, d, o.d, got) else o.d.refused
  }

  /** The head is gone, with that fate. */
  ghost predicate HeadGone(d: Decoder, t: Decoder, fate: Fate) {
    t.groups == d.groups - {d.nextEmit} && t.nextEmit == d.nextEmit + 1 && t.fates == d.fates + [fate] &&
    t.refused == d.refused && t.stats.overflow == d.stats.overflow
  }

  lemma GoneDecides(c: Config, d: Decoder, t: Decoder, fate: Fate, got: set<(nat, nat)>)
    requires |d.fates| == d.nextEmit && HeadGone(d, t, fate) && FateFits(c, fate, Of(got, d.nextEmit))
    ensures Decided(c, d, t, got)
  {
    hide Of, FateFits;
  }

  lemma EmitDecides(c: Config, d: Decoder, sink: nat, got: set<(nat, nat)>)
    requires Holding(c, d, got) && HeadIs(d, Recovered)
    ensures HeadStep(c, d, EmitHead(c, d, sink), got)
  {
    hide Of, Take, Decided;
    assert Held(c, d.groups[d.nextEmit], Of(got, d.nextEmit));
    var g := d.groups[d.nextEmit];
    var fate := Whole(Take(c.codec.decode(g.shards), g.validLen));
    if sink > 0 { GoneDecides(c, d, EmitHead(c, d, sink).d, fate, got); }
  }

  /** What a skip keeps of the head. */
  ghost function KeptOfHead(c: Config, d: Decoder): (s: set<nat>) {
    if d.nextEmit in d.groups && c.codec.allowsBestEffort then Kept(c, d.groups[d.nextEmit]) else {}
  }

  lemma KeptFits(c: Config, d: Decoder, got: set<(nat, nat)>, bytes: Gf256.Bytes)
    requires Holding(c, d, got) && !HeadIs(d, Recovered) && c.codec.k >= 1
    ensures FateFits(c, Gap(KeptOfHead(c, d), bytes), Of(got, d.nextEmit))
  {
    hide Of;
    var ids := Of(got, d.nextEmit);
    if d.nextEmit in d.groups {
      assert Held(c, d.groups[d.nextEmit], ids);
      assert Kept(c, d.groups[d.nextEmit]) == DataOf(c, ids);
    } else {
      assert DataOf(c, ids) == {};
    }
  }

  lemma SkipShape(c: Config, d: Decoder, sink: nat) returns (bytes: Gf256.Bytes)
    ensures var o := SkipHead(c, d, sink);
            if o.ok then HeadGone(d, o.d, Gap(KeptOfHead(c, d), bytes)) else o.d.refused
  {
    hide WriteParts, Kept;
    bytes := if d.nextEmit in d.groups && c.codec.allowsBestEffort
             then WriteParts(c, d.groups[d.nextEmit], 0, d.groups[d.nextEmit].validLen, sink).bytes else [];
    assert d.nextEmit !in d.groups ==> d.groups - {d.nextEmit} == d.groups;
  }

  lemma SkipDecides(c: Config, d: Decoder, sink: nat, got: set<(nat, nat)>)
    requires Holding(c, d, got) && !HeadIs(d, Recovered) && c.codec.k >= 1
    ensures HeadStep(c, d, SkipHead(c, d, sink), got)
  {
    hide SkipHead, HeadGone, KeptOfHead, Of, Decided, FateFits;
    var bytes := SkipShape(c, d, sink);
    KeptFits(c, d, got, bytes);
    if SkipHead(c, d, sink).ok { GoneDecides(c, d, SkipHead(c, d, sink).d, Gap(KeptOfHead(c, d), bytes), got); }
  }

  lemma GiveUpDecides(c: Config, d: Decoder, sink: nat, got: set<(nat, nat)>)
    requires Holding(c, d, got) && !HeadIs(d, Recovered) && c.codec.k >= 1
    ensures HeadStep(c, d, GiveUpHead(c, d, sink), got)
  {
    hide Of, SkipHead, TryRecover, FateFits, Decided;
    if HeadIs(d, Active) {
      var g, t := d.groups[d.nextEmit], Recover(c, d, d.nextEmit, true);
      assert Held(c, g, Of(got, d.nextEmit));
      assert |g.shards| == |g.shards.Keys|;
      ShortGroupFails(c, g);
      assert Holding(c, t, got);
      SkipDecides(c, t, sink, got);
      SkipMoves(c, t, sink);
      RecoveredAside(c, d, t, SkipHead(c, t, sink), got);
    } else {
      SkipDecides(c, d, sink, got);
    }
  }

  /** Changing the head before it is skipped does not show. */
  lemma RecoveredAside(c: Config, d: Decoder, t: Decoder, o: Outcome, got: set<(nat, nat)>)
    requires |d.fates| == d.nextEmit && d.nextEmit in d.groups && d.nextEmit in t.groups && HeadStep(c, t, o, got) && (o.ok ==> o.d.nextEmit > d.nextEmit && d.nextEmit !in o.d.groups)
    requires t == d.(groups := d.groups[d.nextEmit := t.groups[d.nextEmit]], stats := t.stats) && t.stats.overflow == d.stats.overflow
    ensures HeadStep(c, d, o, got)
  {
    hide Of, FateFits;
  }

  lemma TurnDecides(c: Config, d: Decoder, sink: nat, got: set<(nat, nat)>)
    requires Holding(c, d, got) && c.codec.k >= 1 && HeadTurn(c, d, sink).Step?
    ensures HeadStep(c, d, HeadTurn(c, d, sink).outcome, got)
  {
    hide Holding, HeadStep, EmitHead, SkipHead, GiveUpHead;
    if HeadIs(d, Recovered) {
      EmitDecides(c, d, sink, got);
    } else {
      SkipDecides(c, d, sink, got);
      GiveUpDecides(c, d, sink, got);
    }
  }

  lemma {:induction false} EmissionDecides(c: Config, d: Decoder, sink: nat, bound: nat, got: set<(nat, nat)>)
    requires Holding(c, d, got) && c.codec.k >= 1 && Below(d, bound)
    ensures HeadStep(c, d, EmitFromHead(c, d, sink, bound), got)
    decreases bound - d.nextEmit
  {
    hide Holding, Decided, HeadTurn, Settled;
    DecidedSelf(c, d, got) by { FatesOf(c, d, got); }
    if HeadTurn(c, d, sink).Step? {
      var o := HeadTurn(c, d, sink).outcome;
      TurnMoves(c, d, sink, bound);
      TurnDecides(c, d, sink, got);
      if o.ok {
        DecidedHolds(c, d, o.d, got);
        EmissionDecides(c, o.d, o.sink, bound, got);
        var e := EmitFromHead(c, o.d, o.sink, bound);
        if e.ok { DecidedTransitive(c, d, o.d, e.d, got); }
      }
    }
  }

  lemma FatesOf(c: Config, d: Decoder, got: set<(nat, nat)>)
    requires Holding(c, d, got)
    ensures |d.fates| == d.nextEmit
  {}

  lemma {:induction false} RoomDecides(c: Config, d: Decoder, id: nat, guard: nat, sink: nat, got: set<(nat, nat)>)
    requires Holding(c, d, got) && c.codec.k >= 1
    ensures HeadStep(c, d, MakeRoom(c, d, id, guard, sink), got)
    decreases id - d.nextEmit
  {
    hide Holding, Decided, EmitHead, GiveUpHead, SkipHead, TryRecover, Settled;
    StepFacts(c, d, sink);
    DecidedSelf(c, d, got) by { FatesOf(c, d, got); }
    if !(!NeedsRoom(d, id) || guard >= GROUP_WINDOW || d.nextEmit >= id) {
      var o := if HeadIs(d, Recovered) then EmitHead(c, d, sink) else GiveUpHead(c, d, sink);
      var saved := HeadIs(d, Active) && TryRecover(c, d.groups[d.nextEmit], true).state == Recovered;
      var guard' := if HeadIs(d, Recovered) || saved then guard else guard + 1;
      if HeadIs(d, Recovered) { EmitDecides(c, d, sink, got); } else { GiveUpDecides(c, d, sink, got); }
      if o.ok {
        DecidedHolds(c, d, o.d, got);
        RoomDecides(c, o.d, id, guard', o.sink, got);
        var e := MakeRoom(c, o.d, id, guard', o.sink);
        if e.ok { DecidedTransitive(c, d, o.d, e.d, got); }
      }
    }
  }

  // ---------------------------------------------------------------------
  // One datagram.

  /** From d to t blocks were decided by what was taken by then, and the live
      groups hold the rest. */
  ghost predicate Moved(c: Config, d: Decoder, t: Decoder, got: set<(nat, nat)>) {
    |d.fates| == d.nextEmit <= t.nextEmit && d.fates <= t.fates && Holding(c, t, got) && Settled(t) &&
    forall b: nat :: d.nextEmit <= b < t.nextEmit ==> FateFits(c, t.fates[b], Of(got, b))
  }

  lemma DecidedMoves(c: Config, d: Decoder, v: Decoder, t: Decoder, got: set<(nat, nat)>)
    requires Holding(c, v, got) && Decided(c, v, t, got) && (Settled(v) || Settled(t))
    requires d.fates == v.fates && d.nextEmit == v.nextEmit
    ensures Moved(c, d, t, got)
  {
    hide Of, FateFits, Held;
    DecidedHolds(c, v, t, got);
  }

  /** Flags and counters do not matter. */
  lemma MovedFlags(c: Config, d: Decoder, t: Decoder, d': Decoder, t': Decoder, got: set<(nat, nat)>)
    requires Moved(c, d, t, got) && d'.fates == d.fates && d'.nextEmit == d.nextEmit
    requires t' == t.(complete := t'.complete, stats := t'.stats)
    ensures Moved(c, d', t', got)
  {
    hide Of, FateFits, Held;
  }

  lemma HoldFlags(c: Config, d: Decoder, d': Decoder, got: set<(nat, nat)>)
    requires Holding(c, d, got) && d' == d.(endSeen := d'.endSeen, endCount := d'.endCount, stats := d'.stats)
    ensures Holding(c, d', got) && (Settled(d) ==> Settled(d'))
  {
    hide Of, Held;
  }

  lemma MovedSelf(c: Config, d: Decoder, got: set<(nat, nat)>)
    requires Holding(c, d, got) && Settled(d)
    ensures Moved(c, d, d, got)
  {
    hide Of, FateFits, Held;
  }

  /** A pair that changes nothing: its block is past, recovered, or has the shard. */
  lemma HoldMore(c: Config, d: Decoder, got: set<(nat, nat)>, b: nat, i: nat)
    requires Holding(c, d, got) && Windowed(d)
    requires b < d.nextEmit || (b in d.groups && (d.groups[b].state == Recovered || (d.groups[b].state == Active && i in d.groups[b].shards)))
    ensures Holding(c, d, got + {(b, i)})
  {
    var more := got + {(b, i)};
    forall x: nat ensures Of(more, x) == if x == b then Of(got, x) + {i} else Of(got, x) { OfAdd(got, b, i, x); }
    hide Of;
    forall x | x in d.groups ensures Held(c, d.groups[x], Of(more, x)) {
      assert Held(c, d.groups[x], Of(got, x));
      if x == b { HeldMore(c, d.groups[x], Of(got, x), i); }
    }
  }

  lemma HeldMore(c: Config, g: Group, ids: set<nat>, i: nat)
    requires Held(c, g, ids) && (g.state == Recovered || i in g.shards)
    ensures Held(c, g, ids + {i})
  {
    if i in ids { assert ids + {i} == ids; }
  }

  /** The group as the shard finds it holds what was taken before. */
  lemma OpenedHolds(c: Config, d: Decoder, p: Datagram, got: set<(nat, nat)>)
    requires Holding(c, d, got) && p.Data? && p.block >= d.nextEmit && c.codec.k >= 1
    ensures Held(c, Opened(d, p).groups[p.block], Of(got, p.block))
  {
    hide Of;
  }

  /** With the new shard the group holds it, or has k and is recovered. */
  lemma PlacedHeld(c: Config, s: Stream, d: Decoder, p: Datagram, got: set<(nat, nat)>)
    requires Setting(c, s) && Inv(c, s, d) && FromStream(c, s, p) && p.Data? && InWindow(p.block, d.nextEmit)
    requires Holding(c, d, got) && Opened(d, p).groups[p.block].state == Active
    ensures Held(c, Placed(c, Opened(d, p), p).groups[p.block], Of(got + {(p.block, p.index)}, p.block))
  {
    hide Inv, Setting, FromStream, Of, Placed, Opened, Holding, Windowed, TryRecover, Held;
    AtLeastOne(c, s);
    PlacedOk(c, s, d, p);
    PlacedFacts(c, d, p);
    OpenedHolds(c, d, p, got);
    OfAdd(got, p.block, p.index, p.block);
    GroupOf(c, s, Placed(c, Opened(d, p), p), p.block);
    GrownHeld(c, Opened(d, p).groups[p.block], Of(got, p.block), p.index, p.payload);
  }

  lemma GrownHeld(c: Config, g: Group, ids: set<nat>, i: nat, payload: Gf256.Bytes)
    requires Held(c, g, ids) && g.state == Active
    requires var t := TryRecover(c, g.(shards := g.shards[i := payload]), false); t.state == Active ==> |t.shards| < c.codec.k
    ensures Held(c, TryRecover(c, g.(shards := g.shards[i := payload]), false), ids + {i})
  {
    var h := g.(shards := g.shards[i := payload]);
    assert h.shards.Keys == ids + {i};
    assert |h.shards| == |h.shards.Keys|;
    if |h.shards| < c.codec.k { ShortGroupFails(c, h); }
  }

  lemma GroupOf(c: Config, s: Stream, d: Decoder, b: nat)
    requires Inv(c, s, d) && b in d.groups
    ensures d.groups[b].state == Active || d.groups[b].state == Failed ==> |d.groups[b].shards| < c.codec.k
  {}

  lemma PlacedHolds(c: Config, s: Stream, d: Decoder, p: Datagram, got: set<(nat, nat)>)
    requires Setting(c, s) && Inv(c, s, d) && FromStream(c, s, p) && p.Data? && InWindow(p.block, d.nextEmit)
    requires Holding(c, d, got) && Settled(d) && Opened(d, p).groups[p.block].state == Active
    ensures var v := Placed(c, Opened(d, p), p); Holding(c, v, got + {(p.block, p.index)}) && Settled(v)
  {
    hide Inv, Setting, FromStream, Placed, TryRecover, Held, Opened;
    PlacedHeld(c, s, d, p, got);
    PlacedFacts(c, d, p);
    PlacedNotFailed(c, d, p);
    var v := Placed(c, Opened(d, p), p);
    forall x: nat | x != p.block ensures Of(got + {(p.block, p.index)}, x) == Of(got, x) { OfAdd(got, p.block, p.index, x); }
    hide Of;
  }

  lemma PlacedNotFailed(c: Config, d: Decoder, p: Datagram)
    requires p.Data? && Opened(d, p).groups[p.block].state == Active
    ensures Placed(c, Opened(d, p), p).groups[p.block].state != Failed
  {}

  lemma StoreMoves(c: Config, s: Stream, d: Decoder, p: Datagram, sink: nat, got: set<(nat, nat)>)
    requires Setting(c, s) && Inv(c, s, d) && FromStream(c, s, p) && p.Data? && InWindow(p.block, d.nextEmit)
    requires Holding(c, d, got) && Settled(d)
    ensures Windowed(d) &&
            var t := StoreShard(c, d, p, sink).d;
            !t.refused ==> Moved(c, d, t, got + {(p.block, p.index)})
  {
    hide Inv, EmitAll, Setting, FromStream, Placed, GroupOk, TryRecover, Of, Moved, Holding, Held;
    RangeOfHead(c, s, d);
    AtLeastOne(c, s);
    var more := got + {(p.block, p.index)};
    if p.block !in d.groups { GroupsFit(d, p.block); }
    OpenedOk(c, s, d, p);
    OpenedHolds(c, d, p, got);
    PlacedFacts(c, d, p);
    var g := Opened(d, p).groups[p.block];
    ActiveOrRecovered(c, g, Of(got, p.block));
    if g.state != Active || p.index in g.shards {
      HoldMore(c, d, got, p.block, p.index);
      MovedSelf(c, d, more);
      MovedFlags(c, d, d, d, StoreShard(c, d, p, sink).d, more);
    } else {
      PlacedHolds(c, s, d, p, got);
      PlacedMoves(c, d, Placed(c, Opened(d, p), p), sink, more);
      var o := EmitAll(c, Placed(c, Opened(d, p), p), sink);
      if !o.d.refused { MovedFlags(c, d, o.d, d, StoreShard(c, d, p, sink).d, more); }
    }
  }

  lemma ActiveOrRecovered(c: Config, g: Group, ids: set<nat>)
    requires Held(c, g, ids)
    ensures g.state == Active || g.state == Failed || g.state == Recovered
  {}

  lemma PlacedMoves(c: Config, d: Decoder, v: Decoder, sink: nat, got: set<(nat, nat)>)
    requires Windowed(v) && Holding(c, v, got) && Settled(v) && c.codec.k >= 1 && v.fates == d.fates && v.nextEmit == d.nextEmit
    ensures var o := EmitAll(c, v, sink);
            !o.d.refused ==> o.ok && o.d.stats.overflow == v.stats.overflow && Moved(c, d, o.d, got)
  {
    hide EmitFromHead, Of, Moved, Holding, Settled;
    EmissionDecides(c, v, sink, BoundOf(v), got);
    var o := EmitAll(c, v, sink);
    if !o.d.refused { DecidedMoves(c, d, v, o.d, got); }
  }

  lemma FinalizeHolds(c: Config, d: Decoder, got: set<(nat, nat)>)
    requires Holding(c, d, got)
    ensures Holding(c, Finalize(c, d), got)
  {
    hide Of, TryRecover, NewlyRecovered, NewlyFailed;
    forall b | b in d.groups ensures Held(c, TryRecover(c, d.groups[b], true), Of(got, b)) {
      var g := d.groups[b];
      assert Held(c, g, Of(got, b));
      assert |g.shards| == |g.shards.Keys|;
      if g.state == Active {
        ShortGroupFails(c, g);
      } else {
        SettledStays(c, g);
      }
    }
  }

  lemma EmptyAtEnd(c: Config, s: Stream, d: Decoder)
    requires Inv(c, s, d) && d.nextEmit == |s.blocks|
    ensures Settled(d)
  {}

  /** END decides every block and completes the decoder. */
  lemma EndMoves(c: Config, s: Stream, d: Decoder, sink: nat, got: set<(nat, nat)>)
    requires Setting(c, s) && Inv(c, s, d) && c.bestEffort && !d.refused && Holding(c, d, got)
    ensures Windowed(d) &&
            var t := IngestEnd(c, d, |s.blocks|, sink).d;
            !t.refused ==> t.complete && t.nextEmit == |s.blocks| && Moved(c, d, t, got)
  {
    hide Inv, EmitFromHead, Finalize, FlushBestEffort, Setting, Moved, Holding, Decided, Settled;
    RangeOfHead(c, s, d);
    AtLeastOne(c, s);
    var e := d.(endSeen := true, endCount := |s.blocks|);
    SeesEnd(c, s, d);
    HoldFlags(c, d, e, got);
    FinalizeHolds(c, e, got);
    FinishKeeps(c, s, e, sink);
    var v := Finalize(c, e);
    EmissionDecides(c, v, sink, BoundOf(v), got);
    var o := EmitAll(c, v, sink);
    if !o.d.refused {
      EmptyAtEnd(c, s, o.d);
      FinalizedFates(c, e);
      DecidedMoves(c, d, v, o.d, got);
      MovedFlags(c, d, o.d, d, o.d.(complete := true), got);
    }
  }

  lemma FinalizedFates(c: Config, d: Decoder)
    ensures Finalize(c, d).fates == d.fates && Finalize(c, d).nextEmit == d.nextEmit
  {}

  lemma JoinMoves(c: Config, d: Decoder, r: Decoder, t: Decoder, got: set<(nat, nat)>, more: set<(nat, nat)>)
    requires Decided(c, d, r, got) && Moved(c, r, t, more)
    requires forall b: nat :: b < r.nextEmit ==> Of(more, b) == Of(got, b)
    ensures Moved(c, d, t, more)
  {
    hide Of, FateFits, Held;
    forall b: nat | d.nextEmit <= b < t.nextEmit ensures FateFits(c, t.fates[b], Of(more, b)) {
      if b < r.nextEmit { assert t.fates[b] == r.fates[b]; }
    }
  }

  /** Room made, then the shard stored. */
  lemma RoomedMoves(c: Config, s: Stream, d: Decoder, p: Datagram, sink: nat, got: set<(nat, nat)>)
    requires Setting(c, s) && Inv(c, s, d) && FromStream(c, s, p) && p.Data? && HeaderOk(c, p) && p.block >= d.nextEmit
    requires c.bestEffort && !d.refused && !d.complete && Holding(c, d, got) && Settled(d)
    ensures Windowed(d) && var t := Ingest(c, d, p, sink).d; !t.refused ==> Moved(c, d, t, got + New(c, p, t))
  {
    hide Inv, MakeRoom, StoreShard, Setting, Moved, Holding, Settled, Decided, Of, FromStream, HeaderOk;
    RangeOfHead(c, s, d);
    AtLeastOne(c, s);
    var seen := d.(stats := d.stats.(seen := d.stats.seen + 1));
    OtherStats(c, s, d, seen.stats);
    HoldFlags(c, d, seen, got);
    StreamBlock(c, s, p);
    MakeRoomKeeps(c, s, seen, p.block, 0, sink);
    RoomDecides(c, seen, p.block, 0, sink, got);
    RoomStopsAtBlock(c, seen, p.block, 0, sink);
    var room := MakeRoom(c, seen, p.block, 0, sink);
    var t := Ingest(c, d, p, sink).d;
    assert got + {} == got;
    if room.ok {
      DecidedHolds(c, seen, room.d, got);
      DecidedFrame(c, seen, room.d, got);
      if !InWindow(p.block, room.d.nextEmit) {
        DecidedMoves(c, d, seen, room.d, got);
        MovedFlags(c, d, room.d, d, t, got);
      } else {
        StoreMoves(c, s, room.d, p, room.sink, got);
        StoreKeepsOverflow(c, room.d, p, room.sink);
        if !t.refused {
          var more := got + {(p.block, p.index)};
          forall b: nat | b < room.d.nextEmit ensures Of(more, b) == Of(got, b) { OfAdd(got, p.block, p.index, b); }
          JoinMoves(c, seen, room.d, t, got, more);
          MovedFlags(c, seen, t, d, t, more);
        }
      }
    }
  }

  lemma DecidedFrame(c: Config, d: Decoder, t: Decoder, got: set<(nat, nat)>)
    requires Decided(c, d, t, got)
    ensures t.stats.overflow == d.stats.overflow && t.refused == d.refused && d.nextEmit <= t.nextEmit
  {}

  lemma IngestMoves(c: Config, s: Stream, d: Decoder, p: Datagram, sink: nat, got: set<(nat, nat)>)
    requires Setting(c, s) && Inv(c, s, d) && (FromStream(c, s, p) || !HeaderOk(c, p))
    requires c.bestEffort && !d.refused && Holding(c, d, got) && Settled(d)
    ensures Windowed(d) && var t := Ingest(c, d, p, sink).d; !t.refused ==> Moved(c, d, t, got + New(c, p, t))
  {
    hide Inv, Setting, Moved, Holding, Settled, Of, FromStream, HeaderOk, IngestEnd, StoreShard, MakeRoom;
    RangeOfHead(c, s, d);
    var t := Ingest(c, d, p, sink).d;
    assert got + {} == got;
    MovedSelf(c, d, got);
    if p.Data? && HeaderOk(c, p) && (d.complete || p.block < d.nextEmit) {
      StreamBlock(c, s, p);
      if d.complete { CompleteAtEnd(c, s, d); }
      HoldMore(c, d, got, p.block, p.index);
      MovedSelf(c, d, got + {(p.block, p.index)});
      MovedFlags(c, d, d, d, t, got + {(p.block, p.index)});
    } else if d.complete || !HeaderOk(c, p) {
      MovedFlags(c, d, d, d, t, got);
    } else if p.End? {
      StreamBlock(c, s, p);
      EndMoves(c, s, d, sink, got);
    } else {
      RoomedMoves(c, s, d, p, sink, got);
    }
  }

  // ---------------------------------------------------------------------
  // Whole runs.

  lemma {:induction false} RunHolds(c: Config, s: Stream, arrivals: seq<Arrival>)
    requires Setting(c, s) && Heard(c, s, arrivals) && c.bestEffort && !Run(c, arrivals).refused
    ensures Holding(c, Run(c, arrivals), Taken(c, arrivals)) && Settled(Run(c, arrivals))
  {
    hide Inv, Ingest, Setting, FromStream, HeaderOk, Of, New, Holding, Settled;
    if |arrivals| == 0 {
      StartHolds(c);
    } else {
      var n := |arrivals| - 1;
      NotYetRefused(c, arrivals, n);
      RunHolds(c, s, arrivals[..n]);
      LastMoves(c, s, arrivals);
      MovedHolds(c, Run(c, arrivals[..n]), Run(c, arrivals), Taken(c, arrivals));
    }
  }

  lemma StartHolds(c: Config)
    ensures Holding(c, START, {}) && Settled(START)
  {
    forall b: nat ensures Of({}, b) == {} {
    }
  }

  lemma MovedHolds(c: Config, d: Decoder, t: Decoder, got: set<(nat, nat)>)
    requires Moved(c, d, t, got)
    ensures Holding(c, t, got) && Settled(t)
  {}

  /** What the last arrival of a run did. */
  lemma LastMoves(c: Config, s: Stream, arrivals: seq<Arrival>)
    requires Setting(c, s) && Heard(c, s, arrivals) && c.bestEffort && |arrivals| > 0 && !Run(c, arrivals).refused
    requires var d := Run(c, arrivals[..|arrivals| - 1]);
             !d.refused && Holding(c, d, Taken(c, arrivals[..|arrivals| - 1])) && Settled(d)
    ensures Moved(c, Run(c, arrivals[..|arrivals| - 1]), Run(c, arrivals), Taken(c, arrivals))
  {
    hide Inv, Ingest, Setting, FromStream, HeaderOk, Of, New, Holding, Settled, Moved;
    var n := |arrivals| - 1;
    StreamOf(c, s);
    RunInv(c, s, arrivals[..n]);
    IngestMoves(c, s, Run(c, arrivals[..n]), arrivals[n].datagram, arrivals[n].sink, Taken(c, arrivals[..n]));
  }

  /** Block b is decided by arrival n. */
  ghost predicate DecidedAt(c: Config, arrivals: seq<Arrival>, n: nat, b: nat) {
    n < |arrivals| && Run(c, arrivals[..n]).nextEmit <= b < Run(c, arrivals[..n + 1]).nextEmit
  }

  lemma {:induction false} MomentOf(c: Config, arrivals: seq<Arrival>, b: nat) returns (n: nat)
    requires b < Run(c, arrivals).nextEmit
    ensures DecidedAt(c, arrivals, n, b)
  {
    hide Ingest;
    var m := |arrivals| - 1;
    assert arrivals[..m + 1] == arrivals;
    if Run(c, arrivals[..m]).nextEmit <= b {
      n := m;
    } else {
      n := MomentOf(c, arrivals[..m], b);
      assert arrivals[..m][..n] == arrivals[..n] && arrivals[..m][..n + 1] == arrivals[..n + 1];
    }
  }

  /** The fate of a block is settled by what had been taken of it when it was
      decided. */
  lemma FateAt(c: Config, s: Stream, arrivals: seq<Arrival>, n: nat, b: nat)
    requires Setting(c, s) && Heard(c, s, arrivals) && c.bestEffort && !Run(c, arrivals).refused && DecidedAt(c, arrivals, n, b)
    ensures b < |Run(c, arrivals).fates| && FateFits(c, Run(c, arrivals).fates[b], Of(Taken(c, arrivals[..n + 1]), b))
  {
    hide Run, Setting, FateFits, Of, Taken, Holding, Settled, FromStream, HeaderOk;
    var now := arrivals[..n + 1];
    assert now[..n] == arrivals[..n];
    StreamOf(c, s);
    assert Heard(c, s, now) && Heard(c, s, arrivals[..n]);
    NotYetRefused(c, arrivals, n);
    NotYetRefused(c, arrivals, n + 1);
    RunHolds(c, s, arrivals[..n]);
    LastMoves(c, s, now);
    RecoveredNeverSkipped(c, arrivals, n + 1);
    assert Run(c, arrivals).fates[b] == Run(c, now).fates[b];
  }

  /** What arrived before the block was decided explains its fate. */
  ghost predicate Explained(c: Config, arrivals: seq<Arrival>, b: nat, fate: Fate) {
    exists n :: DecidedAt(c, arrivals, n, b) && FateFits(c, fate, Of(Taken(c, arrivals[..n + 1]), b))
  }

  lemma Explain(c: Config, s: Stream, arrivals: seq<Arrival>, b: nat)
    requires Setting(c, s) && Heard(c, s, arrivals) && c.bestEffort && !Run(c, arrivals).refused && b < Run(c, arrivals).nextEmit
    ensures b < |Run(c, arrivals).fates| && Explained(c, arrivals, b, Run(c, arrivals).fates[b])
  {
    hide Run, Setting, Heard, FateFits, Of, Taken;
    var n := MomentOf(c, arrivals, b);
    FateAt(c, s, arrivals, n, b);
  }

  // ---------------------------------------------------------------------
  // Completion.

  /** END completes a best-effort decoder, unless the sink refuses. */
  lemma EndCompletesNow(c: Config, s: Stream, d: Decoder, p: Datagram, sink: nat, got: set<(nat, nat)>)
    requires Setting(c, s) && Inv(c, s, d) && FromStream(c, s, p) && p.End? && HeaderOk(c, p)
    requires c.bestEffort && !d.refused && Holding(c, d, got)
    ensures Windowed(d) && var t := Ingest(c, d, p, sink).d; !t.refused ==> t.complete
  {
    hide Inv, Setting, Holding, FromStream, IngestEnd, HeaderOk;
    RangeOfHead(c, s, d);
    StreamBlock(c, s, p);
    EndMoves(c, s, d, sink, got);
  }

  lemma {:induction false} HeardMeansComplete(c: Config, s: Stream, arrivals: seq<Arrival>, i: nat)
    requires Setting(c, s) && Heard(c, s, arrivals) && c.bestEffort && !Run(c, arrivals).refused
    requires i < |arrivals| && arrivals[i].datagram.End? && HeaderOk(c, arrivals[i].datagram)
    ensures Run(c, arrivals).complete
  {
    hide Inv, Ingest, Setting, FromStream, HeaderOk, Holding, Settled, Taken;
    StreamOf(c, s);
    var n := |arrivals| - 1;
    NotYetRefused(c, arrivals, n);
    if i == n {
      RunInv(c, s, arrivals[..n]);
      RunHolds(c, s, arrivals[..n]);
      EndCompletesNow(c, s, Run(c, arrivals[..n]), arrivals[n].datagram, arrivals[n].sink, Taken(c, arrivals[..n]));
    } else {
      HeardMeansComplete(c, s, arrivals[..n], i);
      CompleteStays(c, Run(c, arrivals[..n]), arrivals[n].datagram, arrivals[n].sink);
    }
  }

  /** Best effort over any run of the stream's datagrams while the sink accepts:
      the output is block after block, each once, whole or as data shards of its
      own; a block is whole exactly when k of its shards had been taken when it
      was decided, and otherwise all data shards taken by then are kept; the
      counters add up; and the decoder completes exactly when END has arrived,
      with every block decided. */
  lemma BestEffortOrder(c: Config, s: Stream, arrivals: seq<Arrival>)
    requires Setting(c, s) && Heard(c, s, arrivals) && c.bestEffort && !Run(c, arrivals).refused
    ensures var d := Run(c, arrivals);
            |d.fates| == d.nextEmit <= |s.blocks| && d.output == Flat(d.fates) &&
            (forall b :: 0 <= b < d.nextEmit ==> FateOk(c, s.blocks[b], d.fates[b])) &&
            (forall b: nat :: b < d.nextEmit ==> Explained(c, arrivals, b, d.fates[b])) &&
            d.nextEmit == d.stats.groupsEmitted + d.stats.skipped &&
            d.stats.groupsRecovered == d.stats.groupsEmitted + |Pending(d.groups)|
    ensures Run(c, arrivals).complete <==> EndHeard(c, arrivals)
    ensures Run(c, arrivals).complete ==> Run(c, arrivals).nextEmit == |s.blocks|
  {
    hide Run, Setting, Heard, FateOk, HeaderOk, Explained;
    FatesInOrder(c, s, arrivals);
    var d := Run(c, arrivals);
    forall b: nat | b < d.nextEmit ensures Explained(c, arrivals, b, d.fates[b]) { Explain(c, s, arrivals, b); }
    if EndHeard(c, arrivals) {
      var i :| 0 <= i < |arrivals| && arrivals[i].datagram.End? && HeaderOk(c, arrivals[i].datagram);
      HeardMeansComplete(c, s, arrivals, i);
    }
    if d.complete {
      RunInv(c, s, arrivals);
      CompleteAtEnd(c, s, d);
      SeenIsHeard(c, s, arrivals);
    }
  }

  // ---------------------------------------------------------------------
  // Where best effort stands before END.

  /** No recovered group is left waiting. */
  ghost predicate Rested(d: Decoder) {
    forall b :: b in d.groups ==> d.groups[b].state != Recovered
  }

  /** The window stands where it does because the block before it had k shards, or
      because a block 128 or more past that one arrived. */
  ghost predicate Driven(c: Config, nextEmit: nat, got: set<(nat, nat)>, far: set<(nat, nat)>) {
    nextEmit > 0 ==> |Of(got, nextEmit - 1)| >= c.codec.k || exists x :: x in far && x.0 >= nextEmit - 1 + 128
  }

  /** The block before has k shards. */
  ghost predicate BehindWhole(c: Config, nextEmit: nat, got: set<(nat, nat)>) {
    nextEmit > 0 && |Of(got, nextEmit - 1)| >= c.codec.k
  }

  lemma RestsOnly(c: Config, d: Decoder, sink: nat, got: set<(nat, nat)>)
    requires Holding(c, d, got) && Windowed(d) && c.bestEffort && !d.endSeen && HeadTurn(c, d, sink).Rest?
    ensures Rested(d)
  {
    hide Of, EmitHead, SkipHead, GiveUpHead;
    if d.nextEmit in d.groups {
      var g := d.groups[d.nextEmit];
      assert Held(c, g, Of(got, d.nextEmit));
      assert |g.shards| == |g.shards.Keys|;
    }
    assert HeadBelowThreshold(c, d);
    forall b | b in d.groups ensures d.groups[b].state != Recovered {
      assert b >= d.nextEmit;
    }
  }

  /** A recovered group that waits behind the head is still there after the head. */
  lemma LaterStays(c: Config, d: Decoder, t: Decoder, got: set<(nat, nat)>)
    requires Decided(c, d, t, got) && t.nextEmit == d.nextEmit + 1 && LaterRecovered(d)
    ensures !Rested(t)
  {
    hide Of, FateFits;
    var b :| b in d.groups && d.groups[b].state == Recovered && b > d.nextEmit;
    assert b in t.groups && t.groups[b] == d.groups[b];
  }

  /** Emission ends with nothing recovered left, and behind a whole block if it
      moved at all. */
  lemma {:induction false} EmissionRests(c: Config, d: Decoder, sink: nat, bound: nat, got: set<(nat, nat)>)
    requires Holding(c, d, got) && Windowed(d) && c.bestEffort && !d.endSeen && c.codec.k >= 1 && Below(d, bound)
    ensures var o := EmitFromHead(c, d, sink, bound);
            o.ok ==> Rested(o.d) && (o.d == d || BehindWhole(c, o.d.nextEmit, got)) && (o.d.nextEmit == d.nextEmit ==> o.d == d)
    decreases bound - d.nextEmit
  {
    hide Holding, Decided, HeadTurn, Rested, Of, Settled;
    if HeadTurn(c, d, sink).Rest? {
      RestsOnly(c, d, sink, got);
    } else {
      var o := HeadTurn(c, d, sink).outcome;
      TurnMoves(c, d, sink, bound);
      TurnDecides(c, d, sink, got);
      if o.ok {
        DecidedHolds(c, d, o.d, got);
        MoveStaysWindowed(d, o);
        EmissionKeepsOverflow(c, o.d, o.sink, bound);
        EmissionRests(c, o.d, o.sink, bound, got);
        TurnReason(c, d, sink, got);
        if !HeadIs(d, Recovered) { LaterStays(c, d, o.d, got); }
      }
    }
  }

  /** Before END the head is written if recovered, and skipped only for a recovered
      group behind it. */
  lemma TurnReason(c: Config, d: Decoder, sink: nat, got: set<(nat, nat)>)
    requires Holding(c, d, got) && !d.endSeen && HeadTurn(c, d, sink).Step?
    ensures if HeadIs(d, Recovered) then |Of(got, d.nextEmit)| >= c.codec.k else LaterRecovered(d)
  {
    hide Of, EmitHead, SkipHead, GiveUpHead;
    if HeadIs(d, Recovered) { assert Held(c, d.groups[d.nextEmit], Of(got, d.nextEmit)); }
  }

  /** Room is made only as far as the incoming block demands. */
  lemma {:induction false} RoomReason(c: Config, d: Decoder, id: nat, guard: nat, sink: nat)
    requires Windowed(d)
    ensures var o := MakeRoom(c, d, id, guard, sink);
            o.ok ==> o.d == d || (id >= o.d.nextEmit - 1 + 128 && id >= d.nextEmit + 128 && o.d.nextEmit > d.nextEmit)
    ensures var o := MakeRoom(c, d, id, guard, sink);
            o.ok ==> o.d.nextEmit - d.nextEmit >= o.d.stats.skipped - d.stats.skipped && o.d.groups.Keys <= d.groups.Keys
    decreases id - d.nextEmit
  {
    hide EmitHead, SkipHead, GiveUpHead, TryRecover;
    StepFacts(c, d, sink);
    SkipsCounted(c, d, sink);
    if !(!NeedsRoom(d, id) || guard >= GROUP_WINDOW || d.nextEmit >= id) {
      if InWindow(id, d.nextEmit) && id !in d.groups { GroupsFit(d, id); }
      var o := if HeadIs(d, Recovered) then EmitHead(c, d, sink) else GiveUpHead(c, d, sink);
      var saved := HeadIs(d, Active) && TryRecover(c, d.groups[d.nextEmit], true).state == Recovered;
      if o.ok {
        MoveStaysWindowed(d, o);
        RoomReason(c, o.d, id, if HeadIs(d, Recovered) || saved then guard else guard + 1, o.sink);
      }
    }
  }

  lemma DrivenMore(c: Config, nextEmit: nat, got: set<(nat, nat)>, far: set<(nat, nat)>, b: nat, i: nat, more: set<(nat, nat)>)
    requires Driven(c, nextEmit, got, far) && (more == got || more == got + {(b, i)})
    ensures Driven(c, nextEmit, more, far + {(b, i)})
  {
    if nextEmit > 0 {
      OfAdd(got, b, i, nextEmit - 1);
      Arith.SubsetSize(Of(got, nextEmit - 1), Of(got + {(b, i)}, nextEmit - 1));
      hide Of;
      if |Of(got, nextEmit - 1)| < c.codec.k {
        var x :| x in far && x.0 >= nextEmit - 1 + 128;
        assert x in far + {(b, i)};
      }
    }
  }

  lemma DrivenFar(c: Config, nextEmit: nat, got: set<(nat, nat)>, far: set<(nat, nat)>, b: nat, i: nat)
    requires (b, i) in far && b >= nextEmit - 1 + 128
    ensures Driven(c, nextEmit, got, far)
  {}

  /** A shard stored in a new or collecting group. */
  lemma StoreRests(c: Config, s: Stream, d: Decoder, p: Datagram, sink: nat, got: set<(nat, nat)>)
    requires Setting(c, s) && Inv(c, s, d) && FromStream(c, s, p) && p.Data? && InWindow(p.block, d.nextEmit)
    requires c.bestEffort && !d.endSeen && Holding(c, d, got) && Settled(d) && (Rested(d) || p.block !in d.groups)
    ensures Windowed(d) &&
            var t := StoreShard(c, d, p, sink).d;
            !t.refused ==> Rested(t) && (t.nextEmit == d.nextEmit || BehindWhole(c, t.nextEmit, got + {(p.block, p.index)}))
  {
    hide Inv, EmitFromHead, Setting, FromStream, Placed, GroupOk, TryRecover, Of, Holding, Held, Settled;
    RangeOfHead(c, s, d);
    AtLeastOne(c, s);
    OpenedOk(c, s, d, p);
    PlacedFacts(c, d, p);
    if p.block !in d.groups { GroupsFit(d, p.block); }
    var g, v := Opened(d, p).groups[p.block], Placed(c, Opened(d, p), p);
    var more := got + {(p.block, p.index)};
    if g.state == Active && p.index !in g.shards {
      PlacedHolds(c, s, d, p, got);
      EmissionRests(c, v, sink, BoundOf(v), more);
      EmissionDecides(c, v, sink, BoundOf(v), more);
    }
  }

  /** Everything live lies before the window: nothing is live. */
  lemma PassedAll(d: Decoder, t: Decoder)
    requires Windowed(d) && Windowed(t) && t.groups.Keys <= d.groups.Keys && t.nextEmit >= d.nextEmit + 128
    ensures Rested(t)
  {}

  /** The decoder after room was made for block id. */
  ghost predicate Roomed(c: Config, s: Stream, d: Decoder, r: Decoder, id: nat, got: set<(nat, nat)>) {
    Inv(c, s, r) && Holding(c, r, got) && Settled(r) && !r.endSeen && !r.refused && Windowed(r) && r.nextEmit <= id &&
    (r == d || (id >= r.nextEmit - 1 + 128 && id !in r.groups)) && (id >= r.nextEmit + 128 ==> Rested(r))
  }

  lemma RoomStands(c: Config, s: Stream, d: Decoder, id: nat, sink: nat, got: set<(nat, nat)>)
    requires Setting(c, s) && Inv(c, s, d) && id < |s.blocks| && d.nextEmit <= id
    requires c.bestEffort && !d.refused && !d.endSeen && Holding(c, d, got) && Settled(d) && Rested(d)
    ensures var room := MakeRoom(c, d, id, 0, sink); if room.ok then Roomed(c, s, d, room.d, id, got) else room.d.refused
  {
    hide Inv, MakeRoom, Setting, Holding, Settled, Decided, Of, Rested;
    RangeOfHead(c, s, d);
    AtLeastOne(c, s);
    MakeRoomKeeps(c, s, d, id, 0, sink);
    RoomDecides(c, d, id, 0, sink, got);
    RoomReason(c, d, id, 0, sink);
    RoomKeepsEnd(c, d, id, 0, sink);
    RoomStopsAtBlock(c, d, id, 0, sink);
    RoomIsMade(c, d, id, 0, sink);
    RoomStaysWindowed(c, d, id, 0, sink);
    OutsideNotLive(d, id);
    var room := MakeRoom(c, d, id, 0, sink);
    if room.ok {
      DecidedHolds(c, d, room.d, got);
      DecidedFrame(c, d, room.d, got);
      if id >= room.d.nextEmit + 128 { PassedAll(d, room.d); }
    }
  }

  lemma RoomedDriven(c: Config, s: Stream, d: Decoder, r: Decoder, p: Datagram, got: set<(nat, nat)>, far: set<(nat, nat)>, more: set<(nat, nat)>)
    requires p.Data? && Roomed(c, s, d, r, p.block, got) && Driven(c, d.nextEmit, got, far)
    requires more == got || more == got + {(p.block, p.index)}
    ensures Driven(c, r.nextEmit, more, far + {(p.block, p.index)})
  {
    hide Inv, Holding, Settled, Rested, Driven;
    if r == d {
      DrivenMore(c, d.nextEmit, got, far, p.block, p.index, more);
    } else {
      DrivenFar(c, r.nextEmit, more, far + {(p.block, p.index)}, p.block, p.index);
    }
  }

  lemma DataStands(c: Config, s: Stream, d: Decoder, p: Datagram, sink: nat, got: set<(nat, nat)>, far: set<(nat, nat)>)
    requires Setting(c, s) && Inv(c, s, d) && FromStream(c, s, p) && p.Data? && HeaderOk(c, p) && p.block >= d.nextEmit
    requires c.bestEffort && !d.refused && !d.complete && !d.endSeen && Holding(c, d, got) && Settled(d)
    requires Rested(d) && Driven(c, d.nextEmit, got, far)
    ensures Windowed(d) &&
            var t := Ingest(c, d, p, sink).d;
            !t.refused ==> Rested(t) && Driven(c, t.nextEmit, got + New(c, p, t), far + {(p.block, p.index)})
  {
    hide Inv, MakeRoom, StoreShard, Setting, Holding, Settled, Of, FromStream, HeaderOk, Rested, Driven;
    RangeOfHead(c, s, d);
    StreamBlock(c, s, p);
    var seen := d.(stats := d.stats.(seen := d.stats.seen + 1));
    var pair := {(p.block, p.index)};
    OtherStats(c, s, d, seen.stats);
    HoldFlags(c, d, seen, got);
    RestedFlags(d, seen);
    RoomStands(c, s, seen, p.block, sink, got);
    var room := MakeRoom(c, seen, p.block, 0, sink);
    var t := Ingest(c, d, p, sink).d;
    if room.ok {
      RoomedDriven(c, s, seen, room.d, p, got, far, got);
      RoomedDriven(c, s, seen, room.d, p, got, far, got + pair);
      if !InWindow(p.block, room.d.nextEmit) {
        assert got + {} == got;
        RestedFlags(room.d, t);
      } else {
        StoreRests(c, s, room.d, p, room.sink, got);
        StoreKeepsOverflow(c, room.d, p, room.sink);
        if !t.refused && t.nextEmit != room.d.nextEmit { DrivenWhole(c, t.nextEmit, got + pair, far + pair); }
      }
    }
  }

  lemma OutsideNotLive(d: Decoder, b: nat)
    requires Windowed(d)
    ensures b >= d.nextEmit + 128 ==> b !in d.groups
  {}

  lemma DrivenWhole(c: Config, nextEmit: nat, got: set<(nat, nat)>, far: set<(nat, nat)>)
    requires BehindWhole(c, nextEmit, got)
    ensures Driven(c, nextEmit, got, far)
  {}

  lemma RestedFlags(d: Decoder, t: Decoder)
    requires Rested(d) && t.groups == d.groups
    ensures Rested(t)
  {}

  lemma IngestStands(c: Config, s: Stream, d: Decoder, p: Datagram, sink: nat, got: set<(nat, nat)>, far: set<(nat, nat)>)
    requires Setting(c, s) && Inv(c, s, d) && (FromStream(c, s, p) || !HeaderOk(c, p)) && !(p.End? && HeaderOk(c, p))
    requires c.bestEffort && !d.refused && !d.complete && !d.endSeen && Holding(c, d, got) && Settled(d)
    requires Rested(d) && Driven(c, d.nextEmit, got, far)
    ensures Windowed(d) &&
            var t := Ingest(c, d, p, sink).d;
            !t.refused ==> Rested(t) && Driven(c, t.nextEmit, got + New(c, p, t), far + if p.Data? && HeaderOk(c, p) then {(p.block, p.index)} else {})
  {
    hide Inv, Setting, Holding, Settled, Of, FromStream, HeaderOk, StoreShard, MakeRoom, Rested, Driven;
    RangeOfHead(c, s, d);
    var t := Ingest(c, d, p, sink).d;
    if p.Data? && HeaderOk(c, p) {
      if p.block >= d.nextEmit {
        DataStands(c, s, d, p, sink, got, far);
      } else {
        RestedFlags(d, t);
        DrivenMore(c, d.nextEmit, got, far, p.block, p.index, got + {(p.block, p.index)});
      }
    } else {
      RestedFlags(d, t);
      assert got + New(c, p, t) == got && far + {} == far;
    }
  }

  lemma {:induction false} RunStands(c: Config, s: Stream, arrivals: seq<Arrival>)
    requires Setting(c, s) && Heard(c, s, arrivals) && c.bestEffort && !Run(c, arrivals).refused && !EndHeard(c, arrivals)
    ensures Rested(Run(c, arrivals)) && Driven(c, Run(c, arrivals).nextEmit, Taken(c, arrivals), Delivered(c, arrivals))
  {
    hide Inv, Ingest, Setting, FromStream, HeaderOk, Of, New, Holding, Settled, Rested, Driven;
    StreamOf(c, s);
    if |arrivals| == 0 {
      StartStands(c);
    } else {
      var n := |arrivals| - 1;
      var before := arrivals[..n];
      forall i | 0 <= i < n ensures before[i] == arrivals[i] {}
      assert !EndHeard(c, before);
      NotYetRefused(c, arrivals, n);
      RunInv(c, s, before);
      RunHolds(c, s, before);
      RunStands(c, s, before);
      SeenIsHeard(c, s, before);
      NotComplete(c, s, Run(c, before));
      IngestStands(c, s, Run(c, before), arrivals[n].datagram, arrivals[n].sink, Taken(c, before), Delivered(c, before));
    }
  }

  lemma StartStands(c: Config)
    ensures Rested(START) && Driven(c, 0, {}, {})
  {}

  lemma NotComplete(c: Config, s: Stream, d: Decoder)
    requires Inv(c, s, d) && !d.refused && !d.endSeen
    ensures !d.complete
  {}

  /** Before END, while the sink accepts, best effort stands exactly where it must:
      no block at or past next_emit has k shards taken, and the block before it has
      k shards, or a block 128 or more past that one has arrived. So a block is
      given up only for a later recovered one or for room. */
  lemma BestEffortStands(c: Config, s: Stream, arrivals: seq<Arrival>)
    requires Setting(c, s) && Heard(c, s, arrivals) && c.bestEffort && !Run(c, arrivals).refused && !EndHeard(c, arrivals)
    ensures var n, got := Run(c, arrivals).nextEmit, Taken(c, arrivals);
            (forall b: nat :: b >= n ==> |Of(got, b)| < c.codec.k) &&
            (n > 0 ==> |Of(got, n - 1)| >= c.codec.k || exists x :: x in Delivered(c, arrivals) && x.0 >= n - 1 + 128)
  {
    hide Run, Setting, Heard, Of, Taken, Delivered;
    RunStands(c, s, arrivals);
    RunHolds(c, s, arrivals);
    AtLeastOne(c, s);
    var d := Run(c, arrivals);
    forall b: nat | b >= d.nextEmit ensures |Of(Taken(c, arrivals), b)| < c.codec.k {
      if b in d.groups { assert Held(c, d.groups[b], Of(Taken(c, arrivals), b)); }
    }
  }

  /** A shard of the stream whose block is in the window after it arrived is in its
      group. */
  lemma BestEffortStores(c: Config, s: Stream, arrivals: seq<Arrival>)
    requires Setting(c, s) && Heard(c, s, arrivals) && c.bestEffort && !Run(c, arrivals).refused && |arrivals| > 0
    requires var p := arrivals[|arrivals| - 1].datagram; p.Data? && HeaderOk(c, p)
    ensures var t, p := Run(c, arrivals), arrivals[|arrivals| - 1].datagram;
            t.nextEmit <= p.block < t.nextEmit + 128 ==> Stored(t, p)
  {
    hide Setting, Run, FromStream, HeaderOk, Inv;
    StreamOf(c, s);
    RunInv(c, s, arrivals);
    RunHolds(c, s, arrivals);
    var n := |arrivals| - 1;
    var t, p, got := Run(c, arrivals), arrivals[n].datagram, Taken(c, arrivals);
    assert FromStream(c, s, p);
    if t.nextEmit <= p.block < t.nextEmit + 128 {
      assert (p.block, p.index) in got;
      assert p.index in Of(got, p.block);
      hide Of, Taken;
      assert p.block in t.groups && Held(c, t.groups[p.block], Of(got, p.block));
      HeldIsStored(c, s, t, p);
    }
  }
}
