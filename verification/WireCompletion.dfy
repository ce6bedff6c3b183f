/** Where the strict decoder stands and when it completes, in every run: END may
    come anywhere and repeatedly. */
module WireCompletion {
  import opened Arith
  import Gf256
  import opened WireDecoder
  import opened WireStream
  import opened WireDelivery
  import opened WireRuns
  import opened WireWindow

  // ---------------------------------------------------------------------
  // What counts.

  /** The shards that count towards their blocks, and the blocks given up: every
      END gives up the blocks of which some shards came, but fewer than k, and
      later shards of such a block do not count. */
  datatype Tally = Tally(got: set<(nat, nat)>, lost: set<nat>)

  ghost function Short(c: Config, got: set<(nat, nat)>): (blocks: set<nat>) {
    set x | x in got && |Of(got, x.0)| < c.codec.k :: x.0
  }

  ghost function Tallied(c: Config, tally: Tally, p: Datagram, t: Decoder): (tally': Tally) {
    if p.End? then (if HeaderOk(c, p) then tally.(lost := tally.lost + Short(c, tally.got)) else tally)
    else if p.block in tally.lost then tally
    else tally.(got := tally.got + New(c, p, t))
  }

  ghost function TallyOf(c: Config, arrivals: seq<Arrival>): (tally: Tally) {
    if |arrivals| == 0 then Tally({}, {})
    else
      var n := |arrivals| - 1;
      Tallied(c, TallyOf(c, arrivals[..n]), arrivals[n].datagram, Run(c, arrivals))
  }

  /** Without END so far, and no block too far ahead, all that arrived counts. */
  lemma {:induction false} KeptIsDelivered(c: Config, arrivals: seq<Arrival>)
    requires !EndHeard(c, arrivals)
    ensures TallyOf(c, arrivals) == Tally(Taken(c, arrivals), {})
    ensures NeverAhead(c, arrivals) ==> TallyOf(c, arrivals).got == Delivered(c, arrivals)
  {
    hide Run, HeaderOk, NeverAhead, New;
    TakenAll(c, arrivals);
    if |arrivals| > 0 {
      var n := |arrivals| - 1;
      forall i | 0 <= i < n ensures arrivals[..n][i] == arrivals[i] {}
      assert !EndHeard(c, arrivals[..n]);
      KeptIsDelivered(c, arrivals[..n]);
      if arrivals[n].datagram.End? { EndAddsNothing(c, arrivals[n].datagram, Run(c, arrivals)); }
    }
  }

  lemma EndAddsNothing(c: Config, p: Datagram, t: Decoder)
    requires p.End?
    ensures New(c, p, t) == {}
  {}

  // ---------------------------------------------------------------------
  // The decoder holds what counts.

  ghost predicate GroupTracked(c: Config, id: nat, g: Group, tally: Tally) {
    var ids := Of(tally.got, id);
    if g.state == Recovered then |ids| >= c.codec.k && id !in tally.lost
    else g.shards.Keys == ids && ids != {} && |ids| < c.codec.k && (if id in tally.lost then g.state == Failed else g.state == Active)
  }

  /** Emitted blocks had k shards, live groups hold what came, the rest is unheard. */
  ghost predicate Track(c: Config, d: Decoder, tally: Tally) {
    (forall b: nat :: b < d.nextEmit ==> |Of(tally.got, b)| >= c.codec.k && b !in tally.lost) &&
    (forall b :: b in d.groups ==> GroupTracked(c, b, d.groups[b], tally)) &&
    (forall b: nat :: b >= d.nextEmit && b !in d.groups ==> Of(tally.got, b) == {} && b !in tally.lost)
  }

  // ---------------------------------------------------------------------

  /** Strict emission takes recovered heads and nothing else. */
  ghost predicate StrictStep(d: Decoder, t: Decoder) {
    d.nextEmit <= t.nextEmit && t.endSeen == d.endSeen && t.endCount == d.endCount && t.complete == d.complete &&
    (t.refused || (forall id :: id in t.groups ==> id in d.groups && t.groups[id] == d.groups[id])) &&
    (forall id :: id in d.groups && id !in t.groups ==> id < t.nextEmit && d.groups[id].state == Recovered) &&
    (forall id :: d.nextEmit <= id < t.nextEmit ==> id in d.groups && d.groups[id].state == Recovered)
  }

  lemma {:induction false} StrictEmit(c: Config, d: Decoder, sink: nat, bound: nat)
    requires !c.bestEffort && Below(d, bound) && !d.refused
    ensures var o := EmitFromHead(c, d, sink, bound);
            StrictStep(d, o.d) && (if o.ok then o.d.refused == d.refused else o.d.refused)
    ensures var o := EmitFromHead(c, d, sink, bound);
            o.ok ==> !HeadIs(o.d, Recovered) || (d.endSeen && o.d.nextEmit >= d.endCount)
    decreases bound - d.nextEmit
  {
    if !(d.endSeen && d.nextEmit >= d.endCount) && HeadIs(d, Recovered) {
      var o := EmitHead(c, d, sink);
      HeadStrict(c, d, sink);
      hide EmitHead;
      StepFacts(c, d, sink);
      if o.ok {
        StrictEmit(c, o.d, o.sink, bound);
        StrictTransitive(d, o.d, EmitFromHead(c, o.d, o.sink, bound).d);
      }
    }
  }

  lemma HeadStrict(c: Config, d: Decoder, sink: nat)
    requires HeadIs(d, Recovered)
    ensures var o := EmitHead(c, d, sink);
            StrictStep(d, o.d) && (if o.ok then o.d.refused == d.refused else o.d.refused)
  {}

  lemma StrictTransitive(d: Decoder, t: Decoder, u: Decoder)
    requires StrictStep(d, t) && StrictStep(t, u) && !t.refused
    ensures StrictStep(d, u)
  {}

  lemma StepTracks(c: Config, d: Decoder, t: Decoder, tally: Tally)
    requires Track(c, d, tally) && StrictStep(d, t) && !t.refused
    ensures Track(c, t, tally)
  {
    hide Of;
    forall b: nat | b < t.nextEmit ensures |Of(tally.got, b)| >= c.codec.k && b !in tally.lost {
      if b >= d.nextEmit {
        assert GroupTracked(c, b, d.groups[b], tally);
      }
    }
    forall b | b in t.groups ensures GroupTracked(c, b, t.groups[b], tally) {
      assert GroupTracked(c, b, d.groups[b], tally);
    }
  }

  /** After emission the tracked state is the same, seen from further on. */
  lemma EmitTracks(c: Config, d: Decoder, sink: nat, tally: Tally)
    requires !c.bestEffort && Windowed(d) && !d.refused && Track(c, d, tally)
    ensures var o := EmitAll(c, d, sink);
            !o.d.refused ==> o.ok && StrictStep(d, o.d) && Track(c, o.d, tally) &&
                             (!HeadIs(o.d, Recovered) || (d.endSeen && o.d.nextEmit >= d.endCount))
  {
    hide EmitFromHead, Track, StrictStep;
    StrictEmit(c, d, sink, BoundOf(d));
    var t := EmitAll(c, d, sink).d;
    if !t.refused { StepTracks(c, d, t, tally); }
  }

  /** One more shard: the group holds it, or has k and is recovered. */
  lemma ShardTracked(c: Config, g: Group, ids: set<nat>, i: nat, payload: Gf256.Bytes)
    requires g.state == Active && g.shards.Keys == ids
    requires var h := TryRecover(c, g.(shards := g.shards[i := payload]), false); h.state == Active ==> |h.shards| < c.codec.k
    ensures var h := TryRecover(c, g.(shards := g.shards[i := payload]), false);
            if h.state == Recovered then |ids + {i}| >= c.codec.k
            else h.state == Active && h.shards.Keys == ids + {i} && |ids + {i}| < c.codec.k
  {
    var h := g.(shards := g.shards[i := payload]);
    assert h.shards.Keys == ids + {i};
    assert |h.shards| == |h.shards.Keys|;
    if |h.shards| < c.codec.k { ShortGroupFails(c, h); } else { EnoughNotKept(c, h); }
    hide TryRecover;
  }

  lemma EnoughNotKept(c: Config, h: Group)
    requires h.state == Active && |h.shards| >= c.codec.k
    ensures var t := TryRecover(c, h, false);
            t.state == Recovered || (t.state == Active && t.shards == h.shards)
  {}

  /** A pair that changes nothing: its block is past, recovered, or has the shard. */
  lemma TrackMore(c: Config, d: Decoder, tally: Tally, b: nat, i: nat)
    requires Track(c, d, tally) && Windowed(d)
    requires b < d.nextEmit || (b in d.groups && (d.groups[b].state == Recovered || (d.groups[b].state == Active && i in d.groups[b].shards)))
    ensures Track(c, d, tally.(got := tally.got + {(b, i)}))
  {
    var more := tally.(got := tally.got + {(b, i)});
    forall x: nat ensures Of(more.got, x) == if x == b then Of(tally.got, x) + {i} else Of(tally.got, x) { OfAdd(tally.got, b, i, x); }
    SubsetSize(Of(tally.got, b), Of(more.got, b));
    hide Of, GroupTracked;
    forall x | x in d.groups ensures GroupTracked(c, x, d.groups[x], more) {
      if x == b { TrackedMore(c, b, d.groups[b], tally, more, i); } else { TrackedSame(c, x, d.groups[x], tally, more); }
    }
  }

  lemma TrackedMore(c: Config, b: nat, g: Group, tally: Tally, more: Tally, i: nat)
    requires GroupTracked(c, b, g, tally) && (g.state == Recovered || i in g.shards)
    requires more.lost == tally.lost && Of(more.got, b) == Of(tally.got, b) + {i}
    ensures GroupTracked(c, b, g, more)
  {
    hide Of;
    var ids := Of(tally.got, b);
    SubsetSize(ids, ids + {i});
    assert i in ids ==> ids + {i} == ids;
  }

  lemma TrackedSame(c: Config, b: nat, g: Group, tally: Tally, more: Tally)
    requires GroupTracked(c, b, g, tally) && more.lost == tally.lost && Of(more.got, b) == Of(tally.got, b)
    ensures GroupTracked(c, b, g, more)
  {}

  /** A pair for the group it was just stored in. */
  lemma TrackPlaced(c: Config, d: Decoder, v: Decoder, tally: Tally, b: nat, i: nat)
    requires Track(c, d, tally) && b >= d.nextEmit && b in v.groups
    requires GroupTracked(c, b, v.groups[b], tally.(got := tally.got + {(b, i)}))
    requires v == d.(groups := d.groups[b := v.groups[b]], stats := v.stats)
    ensures Track(c, v, tally.(got := tally.got + {(b, i)}))
  {
    forall x: nat | x != b ensures Of(tally.got + {(b, i)}, x) == Of(tally.got, x) {
      OfAdd(tally.got, b, i, x);
    }
    hide Of;
  }

  lemma PlacedTracked(c: Config, s: Stream, d: Decoder, p: Datagram, tally: Tally)
    requires Setting(c, s) && Inv(c, s, d) && FromStream(c, s, p) && p.Data? && InWindow(p.block, d.nextEmit)
    requires Track(c, d, tally) && Opened(d, p).groups[p.block].state == Active
    ensures Track(c, Placed(c, Opened(d, p), p), tally.(got := tally.got + {(p.block, p.index)}))
  {
    hide Inv, Setting, FromStream, Placed, TryRecover, Of;
    PlacedOk(c, s, d, p);
    PlacedFacts(c, d, p);
    OfAdd(tally.got, p.block, p.index, p.block);
    var g, v := Opened(d, p).groups[p.block], Placed(c, Opened(d, p), p);
    assert p.block in d.groups ==> GroupTracked(c, p.block, d.groups[p.block], tally);
    ActiveIsShort(c, s, v, p.block);
    ShardTracked(c, g, Of(tally.got, p.block), p.index, p.payload);
    TrackPlaced(c, d, v, tally, p.block, p.index);
  }

  lemma ActiveIsShort(c: Config, s: Stream, d: Decoder, b: nat)
    requires Inv(c, s, d) && b in d.groups
    ensures d.groups[b].state == Active ==> |d.groups[b].shards| < c.codec.k
  {}

  // ---------------------------------------------------------------------

  /** Complete exactly at a known end; and nothing recovered waits at the head. */
  ghost predicate Standing(s: Stream, d: Decoder) {
    !HeadIs(d, Recovered) && (d.complete <==> d.endSeen && d.nextEmit == |s.blocks|)
  }

  lemma HeadInStream(c: Config, s: Stream, d: Decoder)
    requires Inv(c, s, d)
    ensures d.nextEmit <= |s.blocks| && (d.endSeen ==> d.endCount == |s.blocks|)
    ensures d.nextEmit == |s.blocks| ==> d.nextEmit !in d.groups
  {}

  /** After a shard was placed and everything emitted. */
  lemma EmittedStands(c: Config, s: Stream, v: Decoder, sink: nat, tally: Tally)
    requires Setting(c, s) && Inv(c, s, v) && !c.bestEffort && !v.refused && Track(c, v, tally) && !v.complete
    ensures Windowed(v) &&
            var o := EmitAll(c, v, sink);
            var t := if o.ok && o.d.endSeen && o.d.nextEmit == o.d.endCount then o.d.(complete := true) else o.d;
            !t.refused ==> Track(c, t, tally) && Standing(s, t)
  {
    hide Inv, Setting, EmitAll, Track;
    RangeOfHead(c, s, v);
    EmitTracks(c, v, sink, tally);
    EmitAllKeeps(c, s, v, sink);
    var o := EmitAll(c, v, sink);
    HeadInStream(c, s, o.d);
    HeadInStream(c, s, v);
    if !o.d.refused { TrackFlag(c, o.d, tally); }
  }

  lemma TrackFlag(c: Config, d: Decoder, tally: Tally)
    requires Track(c, d, tally)
    ensures Track(c, d.(complete := true), tally)
  {}

  lemma TrackStats(c: Config, d: Decoder, stats: Stats, tally: Tally)
    requires Track(c, d, tally)
    ensures Track(c, d.(stats := stats), tally)
  {}

  ghost function Grown(tally: Tally, p: Datagram): (more: Tally)
    requires p.Data?
  {
    if p.block in tally.lost then tally else tally.(got := tally.got + {(p.block, p.index)})
  }

  /** A shard the group has no use for. */
  lemma UselessTracks(c: Config, d: Decoder, p: Datagram, tally: Tally, stats: Stats)
    requires p.Data? && Track(c, d, tally) && Windowed(d) && p.block in d.groups
    requires var g := d.groups[p.block];
             g.state == Recovered || (g.state == Active && p.index in g.shards) || (g.state == Failed && p.block in tally.lost)
    ensures Track(c, d.(stats := stats), Grown(tally, p))
  {
    hide Track;
    if p.block !in tally.lost { TrackMore(c, d, tally, p.block, p.index); }
    TrackStats(c, d, stats, Grown(tally, p));
  }

  lemma StoreTracks(c: Config, s: Stream, d: Decoder, p: Datagram, sink: nat, tally: Tally)
    requires Setting(c, s) && Inv(c, s, d) && FromStream(c, s, p) && p.Data? && InWindow(p.block, d.nextEmit)
    requires !c.bestEffort && !d.refused && !d.complete && Track(c, d, tally) && Standing(s, d)
    ensures Windowed(d) &&
            var t := StoreShard(c, d, p, sink).d;
            !t.refused ==> Standing(s, t) && Track(c, t, Grown(tally, p))
  {
    hide Inv, EmitAll, Setting, FromStream, Placed, GroupOk, TryRecover, Of, Track, Windowed;
    RangeOfHead(c, s, d);
    OpenedOk(c, s, d, p);
    PlacedFacts(c, d, p);
    if p.block !in d.groups { GroupsFit(d, p.block); }
    var g := Opened(d, p).groups[p.block];
    OpenedTracked(c, d, p, tally);
    if g.state != Active || p.index in g.shards {
      UselessTracks(c, d, p, tally, StoreShard(c, d, p, sink).d.stats);
    } else {
      PlacedTracked(c, s, d, p, tally);
      PlacedOk(c, s, d, p);
      EmittedStands(c, s, Placed(c, Opened(d, p), p), sink, tally.(got := tally.got + {(p.block, p.index)}));
    }
  }

  /** What tracking says of the group a shard finds. */
  lemma OpenedTracked(c: Config, d: Decoder, p: Datagram, tally: Tally)
    requires Track(c, d, tally) && p.Data? && p.block >= d.nextEmit
    ensures var g := Opened(d, p).groups[p.block];
            (g.state == Active || g.state == Recovered || g.state == Failed) && (g.state == Failed <==> p.block in tally.lost)
  {
    hide Of;
    assert p.block in d.groups ==> GroupTracked(c, p.block, d.groups[p.block], tally);
  }

  lemma IngestTracks(c: Config, s: Stream, d: Decoder, p: Datagram, sink: nat, tally: Tally)
    requires Setting(c, s) && Inv(c, s, d) && p.Data? && (FromStream(c, s, p) || !HeaderOk(c, p))
    requires !c.bestEffort && !d.refused && Track(c, d, tally) && Standing(s, d)
    ensures Windowed(d) &&
            var t := Ingest(c, d, p, sink).d;
            !t.refused ==> Track(c, t, Tallied(c, tally, p, t)) && Standing(s, t)
  {
    hide Inv, StoreShard, Setting, Of, FromStream, Track;
    RangeOfHead(c, s, d);
    HeadInStream(c, s, d);
    assert tally.(got := tally.got + {}) == tally;
    var t := Ingest(c, d, p, sink).d;
    if HeaderOk(c, p) {
      StreamBlock(c, s, p);
      if p.block < d.nextEmit {
        TrackMore(c, d, tally, p.block, p.index);
        TrackStats(c, d, t.stats, Tallied(c, tally, p, t)) by { TrackPast(c, d, tally, p); }
      } else if InWindow(p.block, d.nextEmit) {
        var seen := d.(stats := d.stats.(seen := d.stats.seen + 1));
        OtherStats(c, s, d, seen.stats);
        TrackStats(c, d, seen.stats, tally);
        StoreTracks(c, s, seen, p, sink, tally);
        StoreKeepsOverflow(c, seen, p, sink);
      } else {
        TrackStats(c, d, t.stats, tally);
      }
    } else {
      TrackStats(c, d, t.stats, tally);
    }
  }

  lemma TrackPast(c: Config, d: Decoder, tally: Tally, p: Datagram)
    requires p.Data? && HeaderOk(c, p) && Track(c, d, tally) && Windowed(d) && p.block < d.nextEmit
    ensures Track(c, d, Tallied(c, tally, p, d))
  {
    TrackMore(c, d, tally, p.block, p.index);
  }

  // ---------------------------------------------------------------------
  // The end marker.

  lemma FinalizeTracks(c: Config, d: Decoder, tally: Tally)
    requires Track(c, d, tally)
    ensures Track(c, Finalize(c, d), tally.(lost := tally.lost + Short(c, tally.got)))
  {
    hide TryRecover, NewlyRecovered, NewlyFailed, GroupTracked, Of, Short;
    var more := tally.(lost := tally.lost + Short(c, tally.got));
    forall b: nat ensures b in Short(c, tally.got) <==> Of(tally.got, b) != {} && |Of(tally.got, b)| < c.codec.k { ShortIs(c, tally.got, b); }
    forall b | b in d.groups ensures GroupTracked(c, b, TryRecover(c, d.groups[b], true), more) {
      FinalTracked(c, b, d.groups[b], tally, more);
    }
  }

  lemma FinalTracked(c: Config, b: nat, g: Group, tally: Tally, more: Tally)
    requires GroupTracked(c, b, g, tally) && more.got == tally.got
    requires b in more.lost <==> b in tally.lost || (Of(tally.got, b) != {} && |Of(tally.got, b)| < c.codec.k)
    ensures GroupTracked(c, b, TryRecover(c, g, true), more)
  {
    hide Of, TryRecover;
    assert |g.shards| == |g.shards.Keys|;
    if g.state == Active { ShortGroupFails(c, g); } else { SettledStays(c, g); }
  }

  lemma ShortIs(c: Config, got: set<(nat, nat)>, b: nat)
    ensures b in Short(c, got) <==> Of(got, b) != {} && |Of(got, b)| < c.codec.k
  {
    if Of(got, b) != {} {
      var i :| i in Of(got, b);
      assert (b, i) in got;
    }
    if b in Short(c, got) {
      var x :| x in got && |Of(got, x.0)| < c.codec.k && x.0 == b;
      assert x.1 in Of(got, b);
    }
  }

  lemma EndTracks(c: Config, s: Stream, d: Decoder, sink: nat, tally: Tally)
    requires Setting(c, s) && Inv(c, s, d) && !c.bestEffort && !d.refused && !d.complete && Track(c, d, tally) && Standing(s, d)
    ensures Windowed(d) &&
            var t := IngestEnd(c, d, |s.blocks|, sink).d;
            !t.refused ==> Track(c, t, tally.(lost := tally.lost + Short(c, tally.got))) && Standing(s, t)
  {
    hide Inv, EmitAll, Finalize, Setting, Track;
    RangeOfHead(c, s, d);
    var e := d.(endSeen := true, endCount := |s.blocks|);
    var more := tally.(lost := tally.lost + Short(c, tally.got));
    SeesEnd(c, s, d);
    TrackEnd(c, d, e, tally);
    FinalizeTracks(c, e, tally);
    FinalizeKeeps(c, s, e);
    FinalFlags(c, e);
    var v := Finalize(c, e);
    EmittedStands(c, s, v, sink, more);
    EmitAllKeeps(c, s, v, sink);
    EmitTracks(c, v, sink, more);
    HeadInStream(c, s, EmitAll(c, v, sink).d);
    EmitEnd(c, v, sink);
  }

  lemma EmitEnd(c: Config, v: Decoder, sink: nat)
    requires Windowed(v)
    ensures EmitAll(c, v, sink).d.endSeen == v.endSeen && EmitAll(c, v, sink).d.endCount == v.endCount
  {
    EmitKeepsEnd(c, v, sink, BoundOf(v));
  }

  lemma FinalFlags(c: Config, d: Decoder)
    ensures var t := Finalize(c, d); t.complete == d.complete && t.refused == d.refused && t.endSeen == d.endSeen && t.endCount == d.endCount
  {}

  lemma TrackEnd(c: Config, d: Decoder, e: Decoder, tally: Tally)
    requires Track(c, d, tally) && e == d.(endSeen := e.endSeen, endCount := e.endCount)
    ensures Track(c, e, tally)
  {}

  /** A complete decoder, whatever still comes: no block is short. */
  lemma CompleteTracks(c: Config, s: Stream, d: Decoder, p: Datagram, tally: Tally)
    requires Setting(c, s) && Inv(c, s, d) && (FromStream(c, s, p) || !HeaderOk(c, p))
    requires !d.refused && d.complete && Track(c, d, tally)
    ensures Track(c, d, Tallied(c, tally, p, d))
  {
    CompleteAtEnd(c, s, d);
    if p.Data? && HeaderOk(c, p) {
      StreamBlock(c, s, p);
      TrackPast(c, d, tally, p);
    } else if p.End? && HeaderOk(c, p) {
      EmptyAtEnd(c, s, d);
      forall b: nat ensures b !in Short(c, tally.got) { ShortIs(c, tally.got, b); }
      assert tally.lost + Short(c, tally.got) == tally.lost;
    } else {
      assert tally.got + New(c, p, d) == tally.got;
    }
  }

  lemma EmptyAtEnd(c: Config, s: Stream, d: Decoder)
    requires Inv(c, s, d) && d.nextEmit == |s.blocks|
    ensures d.groups == map[]
  {
    assert d.groups.Keys == {};
  }

  // ---------------------------------------------------------------------
  // Whole runs.

  lemma StepTallied(c: Config, s: Stream, d: Decoder, p: Datagram, sink: nat, tally: Tally)
    requires Setting(c, s) && Inv(c, s, d) && (FromStream(c, s, p) || !HeaderOk(c, p))
    requires !c.bestEffort && !d.refused && Track(c, d, tally) && Standing(s, d)
    ensures Windowed(d) &&
            var t := Ingest(c, d, p, sink).d;
            !t.refused ==> Track(c, t, Tallied(c, tally, p, t)) && Standing(s, t)
  {
    hide Inv, Setting, Track, FromStream, Standing, IngestEnd, StoreShard, HeaderOk;
    RangeOfHead(c, s, d);
    if d.complete {
      CompleteStays(c, d, p, sink);
      CompleteTracks(c, s, d, p, tally);
    } else if p.Data? {
      IngestTracks(c, s, d, p, sink, tally);
    } else if HeaderOk(c, p) {
      StreamBlock(c, s, p);
      EndTracks(c, s, d, sink, tally);
    } else {
      TrackStats(c, d, Ingest(c, d, p, sink).d.stats, tally);
      StandingStats(s, d, Ingest(c, d, p, sink).d.stats);
    }
  }

  lemma StandingStats(s: Stream, d: Decoder, stats: Stats)
    requires Standing(s, d)
    ensures Standing(s, d.(stats := stats))
  {}

  lemma {:induction false} RunTracks(c: Config, s: Stream, arrivals: seq<Arrival>)
    requires Setting(c, s) && Heard(c, s, arrivals) && !c.bestEffort && !Run(c, arrivals).refused
    ensures Track(c, Run(c, arrivals), TallyOf(c, arrivals)) && Standing(s, Run(c, arrivals))
  {
    hide Inv, Ingest, Setting, FromStream, HeaderOk, Track, Standing, Tallied;
    if |arrivals| == 0 {
      StartTracked(c, s);
    } else {
      var n := |arrivals| - 1;
      var last := arrivals[n];
      StreamOf(c, s);
      NotYetRefused(c, arrivals, n);
      RunInv(c, s, arrivals[..n]);
      RunTracks(c, s, arrivals[..n]);
      StepTallied(c, s, Run(c, arrivals[..n]), last.datagram, last.sink, TallyOf(c, arrivals[..n]));
    }
  }

  lemma StartTracked(c: Config, s: Stream)
    ensures Track(c, START, Tally({}, {})) && Standing(s, START)
  {
    forall b: nat ensures Of({}, b) == {} {
    }
  }

  /** In every run without a refusal, strict mode stands at the first block of
      which fewer than k shards count. */
  lemma StrictStandsAtFirstGap(c: Config, s: Stream, arrivals: seq<Arrival>)
    requires Setting(c, s) && Heard(c, s, arrivals) && !c.bestEffort && !Run(c, arrivals).refused
    ensures var d, got := Run(c, arrivals), TallyOf(c, arrivals).got;
            d.nextEmit <= |s.blocks| && (forall b: nat :: b < d.nextEmit ==> |Of(got, b)| >= c.codec.k) &&
            |Of(got, d.nextEmit)| < c.codec.k
  {
    hide Run, Ingest, Setting, Heard, Of, TallyOf;
    RunInv(c, s, arrivals);
    RunTracks(c, s, arrivals);
    AtLeastOne(c, s);
    var d := Run(c, arrivals);
    if d.nextEmit in d.groups {
      assert GroupTracked(c, d.nextEmit, d.groups[d.nextEmit], TallyOf(c, arrivals));
    }
  }

  /** And it is complete exactly when END has arrived and k shards of every block
      count. */
  lemma StrictCompletesExactly(c: Config, s: Stream, arrivals: seq<Arrival>)
    requires Setting(c, s) && Heard(c, s, arrivals) && !c.bestEffort && !Run(c, arrivals).refused
    ensures Run(c, arrivals).complete <==>
            EndHeard(c, arrivals) && forall b: nat :: b < |s.blocks| ==> |Of(TallyOf(c, arrivals).got, b)| >= c.codec.k
  {
    hide Run, Setting, Heard, Of, TallyOf, EndHeard, Track;
    StrictStandsAtFirstGap(c, s, arrivals);
    RunTracks(c, s, arrivals);
    SeenIsHeard(c, s, arrivals);
  }

  lemma {:induction false} LostStays(c: Config, before: seq<Arrival>, after: seq<Arrival>)
    ensures TallyOf(c, before).lost <= TallyOf(c, before + after).lost
    decreases |after|
  {
    hide Run, HeaderOk, New, Short;
    if |after| == 0 {
      assert before + after == before;
    } else {
      var m := |after| - 1;
      assert (before + after)[..|before + after| - 1] == before + after[..m];
      LostStays(c, before, after[..m]);
    }
  }

  /** An END that overtakes shards of a block begun but short of k ends all hope:
      whatever comes after it, strict mode never completes. */
  lemma OvertakenNeverCompletes(c: Config, s: Stream, before: seq<Arrival>, end: Arrival, after: seq<Arrival>, b: nat)
    requires Setting(c, s) && Heard(c, s, before + [end] + after) && !c.bestEffort && !Run(c, before + [end] + after).refused
    requires end.datagram.End? && HeaderOk(c, end.datagram) && 0 < |Of(TallyOf(c, before).got, b)| < c.codec.k
    ensures !Run(c, before + [end] + after).complete
  {
    hide Run, Setting, Heard, HeaderOk, EndHeard;
    var all, got := before + [end] + after, TallyOf(c, before).got;
    assert (before + [end])[..|before|] == before;
    var i :| i in Of(got, b);
    assert (b, i) in got && b in Short(c, got);
    assert b in TallyOf(c, before + [end]).lost;
    LostStays(c, before + [end], after);
    hide Of, TallyOf, Short;
    RunInv(c, s, all);
    RunTracks(c, s, all);
    var d := Run(c, all);
    assert b in d.groups && GroupTracked(c, b, d.groups[b], TallyOf(c, all)) && b < |s.blocks|;
    StrictCompletesExactly(c, s, all);
    SettledShort(c, d, TallyOf(c, all), b);
  }

  lemma SettledShort(c: Config, d: Decoder, tally: Tally, b: nat)
    requires Track(c, d, tally) && b in tally.lost
    ensures |Of(tally.got, b)| < c.codec.k
  {
    hide Of;
    assert b in d.groups && GroupTracked(c, b, d.groups[b], tally);
  }

  /** A shard of the stream whose block is in the window after it arrived is in its
      group. */
  lemma StrictStores(c: Config, s: Stream, arrivals: seq<Arrival>)
    requires Setting(c, s) && Heard(c, s, arrivals) && !c.bestEffort && !Run(c, arrivals).refused && |arrivals| > 0
    requires var p := arrivals[|arrivals| - 1].datagram; p.Data? && HeaderOk(c, p)
    ensures var t, p := Run(c, arrivals), arrivals[|arrivals| - 1].datagram;
            t.nextEmit <= p.block < t.nextEmit + 128 ==> Stored(t, p)
  {
    hide Setting, Run, FromStream, HeaderOk, Inv;
    StreamOf(c, s);
    RunInv(c, s, arrivals);
    RunTracks(c, s, arrivals);
    var n := |arrivals| - 1;
    var t, p, tally := Run(c, arrivals), arrivals[n].datagram, TallyOf(c, arrivals);
    assert FromStream(c, s, p);
    if t.nextEmit <= p.block < t.nextEmit + 128 {
      assert p.block in tally.lost || (p.block, p.index) in tally.got;
      assert p.block in tally.lost || p.index in Of(tally.got, p.block);
      hide Of, TallyOf;
      assert p.block in t.groups && GroupTracked(c, p.block, t.groups[p.block], tally);
      HeldIsStored(c, s, t, p);
    }
  }
}
