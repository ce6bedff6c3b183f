/** When a call fails: only for a sink that takes fewer writes than it needs. */
module WireSink {
  import opened WireDecoder
  import opened WireRuns
  import Arith

  /** The writes of a decided block: one for a whole block, at most one for each
      data shard kept of another. */
  function Cost(fate: Fate): (n: nat) {
    match fate
    case Whole(_) => 1
    case Gap(kept, _) => |kept|
  }

  function CostOf(fates: seq<Fate>): (n: nat) {
    if |fates| == 0 then 0 else CostOf(fates[..|fates| - 1]) + Cost(fates[|fates| - 1])
  }

  /** The writes the head still needs. */
  function HeadNeed(c: Config, d: Decoder): (n: nat) {
    if d.nextEmit !in d.groups then 0
    else if HeadIs(d, Recovered) || HeadIs(d, Emitted) then 1
    else |Kept(c, d.groups[d.nextEmit])|
  }

  /** From d to o: a call that succeeds used no more writes than the blocks it
      decided; a call that fails was given fewer than those and its head need. */
  ghost predicate Paid(c: Config, d: Decoder, sink: nat, o: Outcome) {
    d.fates <= o.d.fates &&
    var cost := CostOf(o.d.fates[|d.fates|..]);
    if o.ok then o.sink <= sink <= o.sink + cost && o.d.refused == d.refused else o.d.refused && sink < cost + HeadNeed(c, o.d)
  }

  lemma {:induction false} CostAdds(a: seq<Fate>, b: seq<Fate>)
    ensures CostOf(a + b) == CostOf(a) + CostOf(b)
  {
    if |b| == 0 {
      assert a + b == a;
    } else {
      CostAdds(a, b[..|b| - 1]);
      assert (a + b)[..|a + b| - 1] == a + b[..|b| - 1];
    }
  }

  lemma PaidTransitive(c: Config, d: Decoder, sink: nat, o: Outcome, e: Outcome)
    requires Paid(c, d, sink, o) && o.ok && Paid(c, o.d, o.sink, e)
    ensures Paid(c, d, sink, e)
  {
    hide CostOf, HeadNeed;
    var x, y := o.d.fates[|d.fates|..], e.d.fates[|o.d.fates|..];
    CostAdds(x, y);
    assert e.d.fates[|d.fates|..] == x + y;
  }

  lemma PaidSelf(c: Config, d: Decoder, sink: nat)
    ensures Paid(c, d, sink, Outcome(d, sink, true))
  {}

  /** Another start with the same fates. */
  lemma PaidFrom(c: Config, d: Decoder, t: Decoder, sink: nat, o: Outcome)
    requires Paid(c, t, sink, o) && d.fates == t.fates && d.refused == t.refused
    ensures Paid(c, d, sink, o)
  {}

  lemma PaidFlags(c: Config, d: Decoder, sink: nat, o: Outcome, t: Decoder)
    requires Paid(c, d, sink, o) && o.ok && t == o.d.(complete := t.complete, stats := t.stats)
    ensures Paid(c, d, sink, Outcome(t, o.sink, true))
  {}

  // ---------------------------------------------------------------------

  function KeptFrom(c: Config, g: Group, i: nat): (s: set<nat>) { set j | i <= j < c.codec.k && j in g.shards }

  lemma {:induction false} PartsPaid(c: Config, g: Group, i: nat, remaining: nat, sink: nat)
    ensures var p := WriteParts(c, g, i, remaining, sink);
            if p.ok then p.sink <= sink <= p.sink + |KeptFrom(c, g, i)| else sink < |KeptFrom(c, g, i)|
    decreases c.codec.k - i
  {
    if i < c.codec.k && remaining > 0 {
      var len := Arith.Min(PKG_SIZE, remaining);
      if i !in g.shards {
        assert KeptFrom(c, g, i) == KeptFrom(c, g, i + 1);
        PartsPaid(c, g, i + 1, remaining - len, sink);
      } else {
        assert KeptFrom(c, g, i) == KeptFrom(c, g, i + 1) + {i};
        if sink > 0 { PartsPaid(c, g, i + 1, remaining - len, sink - 1); }
      }
    }
  }

  lemma OneMore(fates: seq<Fate>, f: Fate)
    ensures CostOf((fates + [f])[|fates|..]) == Cost(f)
  {
    assert (fates + [f])[|fates|..] == [f];
    assert [f][..0] == [];
  }

  lemma EmitPaid(c: Config, d: Decoder, sink: nat)
    requires d.nextEmit in d.groups
    ensures Paid(c, d, sink, EmitHead(c, d, sink))
  {
    hide Take, CostOf;
    var g := d.groups[d.nextEmit];
    OneMore(d.fates, Whole(Take(c.codec.decode(g.shards), g.validLen)));
    Nothing(d.fates);
  }

  lemma Nothing(fates: seq<Fate>)
    ensures CostOf(fates[|fates|..]) == 0
  {}

  lemma SkipPaid(c: Config, d: Decoder, sink: nat)
    requires !HeadIs(d, Recovered) && !HeadIs(d, Emitted)
    ensures Paid(c, d, sink, SkipHead(c, d, sink))
  {
    hide CostOf, WriteParts;
    Nothing(d.fates);
    OneMore(d.fates, Gap({}, []));
    if d.nextEmit in d.groups {
      var g := d.groups[d.nextEmit];
      assert Kept(c, g) == KeptFrom(c, g, 0);
      PartsPaid(c, g, 0, g.validLen, sink);
      OneMore(d.fates, Gap(Kept(c, g), WriteParts(c, g, 0, g.validLen, sink).bytes));
      hide Kept, KeptFrom;
    }
  }

  lemma GiveUpPaid(c: Config, d: Decoder, sink: nat)
    requires !HeadIs(d, Recovered) && !HeadIs(d, Emitted)
    ensures Paid(c, d, sink, GiveUpHead(c, d, sink))
  {
    hide EmitHead, SkipHead, Paid;
    var t := if HeadIs(d, Active) then Recover(c, d, d.nextEmit, true) else d;
    if HeadIs(d, Active) && HeadIs(t, Recovered) {
      EmitPaid(c, t, sink);
    } else {
      assert !HeadIs(t, Recovered) && !HeadIs(t, Emitted);
      SkipPaid(c, t, sink);
    }
    PaidFrom(c, d, t, sink, GiveUpHead(c, d, sink));
  }

  /** No group is left behind as emitted while the sink was never refused. */
  ghost predicate Clean(d: Decoder) { d.refused || forall b :: b in d.groups ==> d.groups[b].state != Emitted }

  lemma EmitClean(c: Config, d: Decoder, sink: nat)
    requires Clean(d) && !d.refused
    ensures d.nextEmit in d.groups ==> Clean(EmitHead(c, d, sink).d)
    ensures Clean(SkipHead(c, d, sink).d)
  {
    hide Take, WriteParts, Kept;
  }

  lemma StepClean(c: Config, d: Decoder, sink: nat)
    requires Clean(d) && !d.refused
    ensures d.nextEmit in d.groups ==> Clean(EmitHead(c, d, sink).d)
    ensures Clean(SkipHead(c, d, sink).d) && Clean(GiveUpHead(c, d, sink).d)
  {
    hide EmitHead, SkipHead;
    EmitClean(c, d, sink);
    if HeadIs(d, Active) { EmitClean(c, Recover(c, d, d.nextEmit, true), sink); }
  }

  lemma TurnPaid(c: Config, d: Decoder, sink: nat)
    requires Clean(d) && !d.refused && HeadTurn(c, d, sink).Step?
    ensures Paid(c, d, sink, HeadTurn(c, d, sink).outcome) && Clean(HeadTurn(c, d, sink).outcome.d)
  {
    StepClean(c, d, sink);
    hide EmitHead, SkipHead, GiveUpHead, Paid;
    if HeadIs(d, Recovered) {
      EmitPaid(c, d, sink);
    } else {
      SkipPaid(c, d, sink);
      GiveUpPaid(c, d, sink);
    }
  }

  lemma {:induction false} EmissionPaid(c: Config, d: Decoder, sink: nat, bound: nat)
    requires Below(d, bound) && Clean(d) && !d.refused
    ensures var o := EmitFromHead(c, d, sink, bound); Paid(c, d, sink, o) && Clean(o.d)
    decreases bound - d.nextEmit
  {
    hide HeadTurn, Clean, CostOf, HeadNeed;
    PaidSelf(c, d, sink);
    if HeadTurn(c, d, sink).Step? {
      var o := HeadTurn(c, d, sink).outcome;
      TurnMoves(c, d, sink, bound);
      TurnPaid(c, d, sink);
      if o.ok {
        EmissionPaid(c, o.d, o.sink, bound);
        PaidTransitive(c, d, sink, o, EmitFromHead(c, o.d, o.sink, bound));
      }
    }
  }

  lemma {:induction false} RoomPaid(c: Config, d: Decoder, id: nat, guard: nat, sink: nat)
    requires Clean(d) && !d.refused
    ensures var o := MakeRoom(c, d, id, guard, sink); Paid(c, d, sink, o) && Clean(o.d)
    decreases id - d.nextEmit
  {
    StepFacts(c, d, sink);
    StepClean(c, d, sink);
    var clean := !HeadIs(d, Emitted);
    hide EmitHead, SkipHead, GiveUpHead, TryRecover, Clean, CostOf, HeadNeed;
    PaidSelf(c, d, sink);
    if !(!NeedsRoom(d, id) || guard >= GROUP_WINDOW || d.nextEmit >= id) {
      var o := if HeadIs(d, Recovered) then EmitHead(c, d, sink) else GiveUpHead(c, d, sink);
      var saved := HeadIs(d, Active) && TryRecover(c, d.groups[d.nextEmit], true).state == Recovered;
      var guard' := if HeadIs(d, Recovered) || saved then guard else guard + 1;
      if HeadIs(d, Recovered) { EmitPaid(c, d, sink); } else { GiveUpPaid(c, d, sink); }
      if o.ok {
        RoomPaid(c, o.d, id, guard', o.sink);
        PaidTransitive(c, d, sink, o, MakeRoom(c, o.d, id, guard', o.sink));
      }
    }
  }

  lemma AllPaid(c: Config, d: Decoder, t: Decoder, sink: nat)
    requires Windowed(t) && Clean(t) && !t.refused && d.fates == t.fates && d.refused == t.refused
    ensures var o := EmitAll(c, t, sink); Paid(c, d, sink, o) && Clean(o.d)
  {
    hide EmitFromHead, Paid, Clean;
    EmissionPaid(c, t, sink, BoundOf(t));
    PaidFrom(c, d, t, sink, EmitAll(c, t, sink));
  }

  lemma FinalClean(c: Config, d: Decoder)
    requires Clean(d)
    ensures var t := Finalize(c, d); Clean(t) && t.fates == d.fates && t.refused == d.refused && (Windowed(d) ==> Windowed(t))
  {
    hide NewlyRecovered, NewlyFailed;
  }

  lemma FlushPaid(c: Config, d: Decoder, sink: nat)
    requires Windowed(d) && Clean(d) && !d.refused && c.bestEffort
    ensures var o := FlushBestEffort(c, d, sink); Paid(c, d, sink, o) && Clean(o.d)
  {
    hide EmitAll, Finalize, Paid;
    PaidSelf(c, d, sink);
    FinalClean(c, d);
    AllPaid(c, d, Finalize(c, d), sink);
    var o := EmitAll(c, Finalize(c, d), sink);
    if o.ok { PaidFlags(c, d, sink, o, o.d.(complete := true)); }
  }

  lemma EndPaid(c: Config, d: Decoder, blocks: nat, sink: nat)
    requires Windowed(d) && Clean(d) && !d.refused
    ensures var o := IngestEnd(c, d, blocks, sink); Paid(c, d, sink, o) && Clean(o.d)
  {
    var e := d.(endSeen := true, endCount := blocks);
    PaidSelf(c, d, sink);
    PaidFlags(c, d, sink, Outcome(d, sink, true), d.(stats := d.stats.(malformed := d.stats.malformed + 1)));
    FinalClean(c, e);
    var v := Finalize(c, e);
    AllPaid(c, d, v, sink);
    EmitStaysWindowed(c, v, sink, BoundOf(v));
    hide EmitFromHead, Finalize, FlushBestEffort, Clean, CostOf, HeadNeed;
    var o := EmitAll(c, v, sink);
    if o.ok {
      PaidFlags(c, d, sink, o, o.d.(complete := true));
      CleanFlags(o.d, o.d.(complete := true));
      if c.bestEffort {
        FlushPaid(c, o.d, o.sink);
        var f := FlushBestEffort(c, o.d, o.sink);
        PaidTransitive(c, d, sink, o, f);
        if f.ok { PaidFlags(c, d, sink, f, f.d.(complete := true)); }
        CleanFlags(f.d, f.d.(complete := true));
      }
    }
    CleanFlags(d, d.(stats := d.stats.(malformed := d.stats.malformed + 1)));
  }

  lemma CleanFlags(d: Decoder, t: Decoder)
    requires Clean(d) && t.groups == d.groups && t.refused == d.refused
    ensures Clean(t)
  {}

  lemma PlacedClean(c: Config, d: Decoder, p: Datagram)
    requires p.Data? && Clean(d) && !d.refused
    ensures Clean(Opened(d, p)) && Clean(Placed(c, Opened(d, p), p))
  {}

  lemma StorePaid(c: Config, d: Decoder, p: Datagram, sink: nat)
    requires p.Data? && Windowed(d) && InWindow(p.block, d.nextEmit) && Clean(d) && !d.refused
    ensures var o := StoreShard(c, d, p, sink); Paid(c, d, sink, o) && Clean(o.d)
  {
    PlacedFacts(c, d, p);
    PlacedClean(c, d, p);
    OpenedHistory(d, p);
    var t, v := Opened(d, p), Placed(c, Opened(d, p), p);
    hide EmitAll, Placed, Opened, Clean, CostOf, HeadNeed, Paid, Windowed;
    AllPaid(c, d, v, sink);
    var o, e := EmitAll(c, v, sink), StoreShard(c, d, p, sink);
    PaidQuiet(c, d, sink, e);
    if p.block !in d.groups && |d.groups| >= GROUP_WINDOW {
      CleanFlags(d, e.d);
    } else if t.groups[p.block].state != Active || t.groups[p.block].validLen != p.validLen || t.groups[p.block].stamp != p.stamp ||
              p.index in t.groups[p.block].shards {
      CleanFlags(t, e.d);
    } else if o.ok {
      PaidFlags(c, d, sink, o, e.d);
      CleanFlags(o.d, e.d);
    }
  }

  lemma OpenedHistory(d: Decoder, p: Datagram)
    requires p.Data?
    ensures Opened(d, p).fates == d.fates && Opened(d, p).refused == d.refused
  {}

  /** A call that decides nothing and uses no write. */
  lemma PaidQuiet(c: Config, d: Decoder, sink: nat, o: Outcome)
    ensures o.ok && o.sink == sink && o.d.fates == d.fates && o.d.refused == d.refused ==> Paid(c, d, sink, o)
  {}

  lemma IngestPaid(c: Config, d: Decoder, p: Datagram, sink: nat)
    requires Windowed(d) && Clean(d) && !d.refused
    ensures var o := Ingest(c, d, p, sink); Paid(c, d, sink, o) && Clean(o.d)
  {
    hide MakeRoom, StoreShard, IngestEnd, Clean, CostOf, HeadNeed, HeaderOk, Paid;
    var o := Ingest(c, d, p, sink);
    PaidQuiet(c, d, sink, o);
    if d.complete || !HeaderOk(c, p) {
      CleanFlags(d, o.d);
    } else if p.End? {
      EndPaid(c, d, p.blocks, sink);
    } else {
      var seen := d.(stats := d.stats.(seen := d.stats.seen + 1));
      CleanFlags(d, seen);
      if p.block < d.nextEmit {
        CleanFlags(d, o.d);
      } else {
        var room := if c.bestEffort then MakeRoom(c, seen, p.block, 0, sink) else Outcome(seen, sink, true);
        RoomStaysWindowed(c, seen, p.block, 0, sink);
        PaidSelf(c, seen, sink);
        if c.bestEffort { RoomPaid(c, seen, p.block, 0, sink); }
        PaidFrom(c, d, seen, sink, room);
        if room.ok {
          NotRefused(c, d, sink, room);
          if InWindow(p.block, room.d.nextEmit) {
            StorePaid(c, room.d, p, room.sink);
            PaidTransitive(c, d, sink, room, StoreShard(c, room.d, p, room.sink));
          } else {
            PaidFlags(c, d, sink, room, o.d);
            CleanFlags(room.d, o.d);
          }
        }
      }
    }
  }

  lemma NotRefused(c: Config, d: Decoder, sink: nat, o: Outcome)
    requires Paid(c, d, sink, o) && o.ok && !d.refused
    ensures !o.d.refused
  {}

  lemma {:induction false} RunClean(c: Config, arrivals: seq<Arrival>)
    requires !Run(c, arrivals).refused
    ensures Clean(Run(c, arrivals))
  {
    hide Ingest, Respects;
    if |arrivals| > 0 {
      var n := |arrivals| - 1;
      RecoveredNeverSkipped(c, arrivals, n);
      RunClean(c, arrivals[..n]);
      IngestPaid(c, Run(c, arrivals[..n]), arrivals[n].datagram, arrivals[n].sink);
    }
  }

  /** From d to t a sink that took that many writes was too small. */
  ghost predicate TooSmall(c: Config, d: Decoder, t: Decoder, sink: nat) {
    d.fates <= t.fates && sink < CostOf(t.fates[|d.fates|..]) + HeadNeed(c, t)
  }

  /** In every run of either mode, an arrival is refused exactly when its call
      fails, and then the sink took fewer writes than the blocks decided in it and
      the head need. */
  lemma RefusalExact(c: Config, arrivals: seq<Arrival>, last: Arrival)
    requires !Run(c, arrivals).refused
    ensures var d, t := Run(c, arrivals), Run(c, arrivals + [last]);
            (t.refused <==> !Ingest(c, d, last.datagram, last.sink).ok) && (t.refused ==> TooSmall(c, d, t, last.sink))
  {
    hide Ingest, CostOf, HeadNeed;
    assert (arrivals + [last])[..|arrivals|] == arrivals;
    RunClean(c, arrivals);
    IngestPaid(c, Run(c, arrivals), last.datagram, last.sink);
  }
}
