/** Whole runs of the wire decoder: what strict and best-effort mode deliver. */
module WireRuns {
  import opened WireDecoder
  import opened WireStream
  import opened WireDelivery

  /** One call of ingest: a datagram and the number of writes the sink accepts. */
  datatype Arrival = Arrival(datagram: Datagram, sink: nat)

  function Run(c: Config, arrivals: seq<Arrival>): (d: Decoder)
    ensures Windowed(d)
  {
    if |arrivals| == 0 then START
    else
      var last := arrivals[|arrivals| - 1];
      var d := Run(c, arrivals[..|arrivals| - 1]);
      IngestStaysWindowed(c, d, last.datagram, last.sink);
      Ingest(c, d, last.datagram, last.sink).d
  }

  /** Any number of the stream's datagrams in any order, any of them any number
      of times, between datagrams that fail the header check. */
  ghost predicate Heard(c: Config, s: Stream, arrivals: seq<Arrival>)
    requires StreamOk(c, s)
  {
    forall i :: 0 <= i < |arrivals| ==> FromStream(c, s, arrivals[i].datagram) || !HeaderOk(c, arrivals[i].datagram)
  }

  lemma StartInv(c: Config, s: Stream)
    requires StreamOk(c, s)
    ensures Inv(c, s, START)
  {
    assert Pending(START.groups) == {};
  }

  lemma {:induction false} RunInv(c: Config, s: Stream, arrivals: seq<Arrival>)
    requires Setting(c, s) && Heard(c, s, arrivals)
    ensures Inv(c, s, Run(c, arrivals))
  {
    hide Inv, Ingest, Setting, FromStream, HeaderOk;
    StreamOf(c, s);
    if |arrivals| == 0 {
      StartInv(c, s);
    } else {
      var n := |arrivals| - 1;
      var last := arrivals[n];
      RunInv(c, s, arrivals[..n]);
      IngestKeeps(c, s, Run(c, arrivals[..n]), last.datagram, last.sink);
    }
  }

  lemma StreamOf(c: Config, s: Stream)
    requires Setting(c, s)
    ensures StreamOk(c, s)
  {}

  /** Strict mode: the output is always the sent form of the first nextEmit
      blocks, and a complete decoder has written the whole stream. */
  lemma StrictPrefix(c: Config, s: Stream, arrivals: seq<Arrival>)
    requires Setting(c, s) && Heard(c, s, arrivals) && !c.bestEffort
    ensures var d := Run(c, arrivals);
            d.nextEmit <= |s.blocks| && d.output == Concat(SentBlocks(s.blocks[..d.nextEmit])) &&
            (d.complete ==> d.nextEmit == |s.blocks| && d.output == Concat(SentBlocks(s.blocks)))
  {
    hide Run, Ingest, Setting, Heard, GroupsOk, Windowed;
    RunInv(c, s, arrivals);
    var d := Run(c, arrivals);
    WholeOutput(c, s.blocks, d.fates);
    assert s.blocks[..|s.blocks|] == s.blocks;
  }

  /** The output is a prefix of the source whenever the length field holds every
      block, and a complete decoder has the source exactly in that case. */
  lemma StrictExact(c: Config, s: Stream, arrivals: seq<Arrival>)
    requires Setting(c, s) && Heard(c, s, arrivals) && !c.bestEffort
    ensures var d := Run(c, arrivals);
            d.nextEmit <= |s.blocks| &&
            (d.output == Concat(s.blocks[..d.nextEmit]) <==> forall i :: 0 <= i < d.nextEmit ==> |s.blocks[i]| < LEN_MODULUS) &&
            (d.complete ==> (d.output == Concat(s.blocks) <==> forall i :: 0 <= i < |s.blocks| ==> |s.blocks[i]| < LEN_MODULUS))
  {
    hide Setting, Heard, Run;
    StrictPrefix(c, s, arrivals);
    var blocks := s.blocks[..Run(c, arrivals).nextEmit];
    LengthFieldExact(blocks);
    assert forall i :: 0 <= i < |blocks| ==> blocks[i] == s.blocks[i];
    LengthFieldExact(s.blocks);
  }

  /** Best effort, while the sink keeps accepting: block after block, each either
      whole or skipped with its received data shards, and all of them once
      complete; the counters say how many of each. */
  lemma FatesInOrder(c: Config, s: Stream, arrivals: seq<Arrival>)
    requires Setting(c, s) && Heard(c, s, arrivals) && !Run(c, arrivals).refused
    ensures var d := Run(c, arrivals);
            |d.fates| == d.nextEmit <= |s.blocks| && d.output == Flat(d.fates) &&
            (forall i :: 0 <= i < d.nextEmit ==> FateOk(c, s.blocks[i], d.fates[i])) &&
            (d.complete ==> d.nextEmit == |s.blocks|) &&
            d.nextEmit == d.stats.groupsEmitted + d.stats.skipped &&
            d.stats.groupsRecovered == d.stats.groupsEmitted + |Pending(d.groups)|
  {
    hide Run, Ingest, Setting, Heard, GroupsOk, Windowed;
    RunInv(c, s, arrivals);
  }

  /** Whatever arrives, live groups have distinct ids inside the window, so a
      block in the window always finds a slot. */
  lemma WindowHasSlot(c: Config, arrivals: seq<Arrival>, id: nat)
    requires InWindow(id, Run(c, arrivals).nextEmit) && id !in Run(c, arrivals).groups
    ensures |Run(c, arrivals).groups| < GROUP_WINDOW
  {
    hide Ingest;
    var d := Run(c, arrivals);
    FewerThanWindow(d.groups.Keys + {id}, d.nextEmit, GROUP_WINDOW);
    assert |d.groups.Keys + {id}| == |d.groups.Keys| + 1;
  }

  /** A group with k shards is never left waiting or given up. */
  lemma EnoughIsRecovered(c: Config, s: Stream, arrivals: seq<Arrival>, id: nat)
    requires Setting(c, s) && Heard(c, s, arrivals) && id in Run(c, arrivals).groups
    requires Run(c, arrivals).groups[id].state == Active || Run(c, arrivals).groups[id].state == Failed
    ensures |Run(c, arrivals).groups[id].shards| < c.codec.k
  {
    hide Run, Ingest, Setting, Heard;
    RunInv(c, s, arrivals);
  }

  lemma {:induction false} FewerThanWindow(ids: set<nat>, lo: nat, n: nat)
    requires forall x :: x in ids ==> lo <= x < lo + n
    ensures |ids| <= n
  {
    if n == 0 {
      assert ids == {};
    } else {
      var top := lo + n - 1;
      FewerThanWindow(ids - {top}, lo, n - 1);
    }
  }

  /** Making room never moves past the incoming block. */
  lemma {:induction false} RoomStopsAtBlock(c: Config, d: Decoder, id: nat, guard: nat, sink: nat)
    ensures var t := MakeRoom(c, d, id, guard, sink).d;
            d.nextEmit <= t.nextEmit && (t.nextEmit <= id || t.nextEmit == d.nextEmit)
    decreases id - d.nextEmit
  {
    hide EmitHead, SkipHead, GiveUpHead, TryRecover;
    StepFacts(c, d, sink);
    if !(!NeedsRoom(d, id) || guard >= GROUP_WINDOW || d.nextEmit >= id) {
      if HeadIs(d, Recovered) {
        var o := EmitHead(c, d, sink);
        if o.ok { RoomStopsAtBlock(c, o.d, id, guard, o.sink); }
      } else {
        var saved := HeadIs(d, Active) && TryRecover(c, d.groups[d.nextEmit], true).state == Recovered;
        var o := GiveUpHead(c, d, sink);
        if o.ok { RoomStopsAtBlock(c, o.d, id, if saved then guard else guard + 1, o.sink); }
      }
    }
  }

  /** What making room achieves: the block fits, or the window has reached it, or
      all the skips one datagram may cause are used up. */
  lemma {:induction false} RoomIsMade(c: Config, d: Decoder, id: nat, guard: nat, sink: nat)
    requires guard <= GROUP_WINDOW
    ensures var o := MakeRoom(c, d, id, guard, sink);
            o.ok && NeedsRoom(o.d, id) && o.d.nextEmit < id ==> o.d.stats.skipped == d.stats.skipped + GROUP_WINDOW - guard
    decreases id - d.nextEmit
  {
    hide EmitHead, GiveUpHead, TryRecover;
    StepFacts(c, d, sink);
    SkipsCounted(c, d, sink);
    if !(!NeedsRoom(d, id) || guard >= GROUP_WINDOW || d.nextEmit >= id) {
      if HeadIs(d, Recovered) {
        var o := EmitHead(c, d, sink);
        if o.ok { RoomIsMade(c, o.d, id, guard, o.sink); }
      } else {
        var saved := HeadIs(d, Active) && TryRecover(c, d.groups[d.nextEmit], true).state == Recovered;
        var o := GiveUpHead(c, d, sink);
        if o.ok { RoomIsMade(c, o.d, id, if saved then guard else guard + 1, o.sink); }
      }
    }
  }

  lemma SkipsCounted(c: Config, d: Decoder, sink: nat)
    ensures d.nextEmit in d.groups ==> EmitHead(c, d, sink).d.stats.skipped == d.stats.skipped
    ensures var o := GiveUpHead(c, d, sink);
            var saved := HeadIs(d, Active) && TryRecover(c, d.groups[d.nextEmit], true).state == Recovered;
            o.ok ==> o.d.stats.skipped == d.stats.skipped + if saved then 0 else 1
  {
    hide WriteParts, TryRecover, Kept;
  }

  /** Emission stops only at a head it may neither write nor skip. */
  lemma {:induction false} EmitRests(c: Config, d: Decoder, sink: nat, bound: nat)
    requires Below(d, bound)
    ensures var o := EmitFromHead(c, d, sink, bound);
            o.ok ==> (o.d.endSeen && o.d.nextEmit >= o.d.endCount) ||
                     (!HeadIs(o.d, Recovered) && (c.bestEffort ==> !(HeadBelowThreshold(c, o.d) && LaterRecovered(o.d))))
    decreases bound - d.nextEmit
  {
    hide EmitHead, SkipHead, GiveUpHead;
    if HeadTurn(c, d, sink).Step? {
      var o := HeadTurn(c, d, sink).outcome;
      TurnMoves(c, d, sink, bound);
      if o.ok { EmitRests(c, o.d, o.sink, bound); }
    }
  }

  // ---------------------------------------------------------------------
  // A recovered group is written whole, never skipped.

  /** From d to t, what was decided stays decided and every group recovered in d
      is still waiting in t or has been written whole. */
  ghost predicate Respects(d: Decoder, t: Decoder) {
    d.fates <= t.fates && |d.fates| == d.nextEmit && |t.fates| == t.nextEmit &&
    forall id :: id in d.groups && d.groups[id].state == Recovered ==> WaitingOrWhole(d, t, id)
  }

  ghost predicate WaitingOrWhole(d: Decoder, t: Decoder, id: nat)
    requires id in d.groups
  {
    (id in t.groups && t.groups[id] == d.groups[id]) || (id < |t.fates| && t.fates[id].Whole?) || t.refused
  }

  lemma RespectsTransitive(d: Decoder, t: Decoder, u: Decoder)
    requires Respects(d, t) && Respects(t, u) && (t.refused ==> u.refused)
    ensures Respects(d, u)
  {
    forall id | id in d.groups && d.groups[id].state == Recovered ensures WaitingOrWhole(d, u, id) {
      assert WaitingOrWhole(d, t, id);
    }
  }

  lemma EmitRespects(c: Config, d: Decoder, sink: nat)
    requires HeadIs(d, Recovered) && |d.fates| == d.nextEmit
    ensures Respects(d, EmitHead(c, d, sink).d)
  {}

  lemma SkipRespects(c: Config, d: Decoder, sink: nat)
    requires !HeadIs(d, Recovered) && |d.fates| == d.nextEmit
    ensures Respects(d, SkipHead(c, d, sink).d)
  {
    hide WriteParts, Kept;
  }

  lemma RecoverRespects(c: Config, d: Decoder, id: nat, finalize: bool)
    requires id in d.groups && |d.fates| == d.nextEmit
    ensures Respects(d, Recover(c, d, id, finalize)) && Recover(c, d, id, finalize).refused == d.refused
  {}

  lemma GiveUpRespects(c: Config, d: Decoder, sink: nat)
    requires !HeadIs(d, Recovered) && |d.fates| == d.nextEmit
    ensures Respects(d, GiveUpHead(c, d, sink).d)
  {
    hide EmitHead, SkipHead, TryRecover, Recover, Respects;
    var t := if HeadIs(d, Active) then Recover(c, d, d.nextEmit, true) else d;
    RespectsSelf(d);
    if HeadIs(d, Active) { RecoverRespects(c, d, d.nextEmit, true); }
    RespectedSize(d, t);
    StepFacts(c, t, sink);
    var o := if HeadIs(t, Recovered) then EmitHead(c, t, sink) else SkipHead(c, t, sink);
    if HeadIs(t, Recovered) { EmitRespects(c, t, sink); } else { SkipRespects(c, t, sink); }
    RespectsTransitive(d, t, o.d);
  }

  lemma RespectedSize(d: Decoder, t: Decoder)
    requires Respects(d, t)
    ensures |t.fates| == t.nextEmit
  {}

  lemma TurnRespects(c: Config, d: Decoder, sink: nat)
    requires HeadTurn(c, d, sink).Step? && |d.fates| == d.nextEmit
    ensures Respects(d, HeadTurn(c, d, sink).outcome.d)
  {
    hide EmitHead, SkipHead, GiveUpHead, Respects;
    if HeadIs(d, Recovered) {
      EmitRespects(c, d, sink);
    } else {
      SkipRespects(c, d, sink);
      GiveUpRespects(c, d, sink);
    }
  }

  lemma {:induction false} EmitFromHeadRespects(c: Config, d: Decoder, sink: nat, bound: nat)
    requires Below(d, bound) && |d.fates| == d.nextEmit
    ensures Respects(d, EmitFromHead(c, d, sink, bound).d)
    ensures d.refused ==> EmitFromHead(c, d, sink, bound).d.refused
    decreases bound - d.nextEmit
  {
    hide HeadTurn, Respects;
    RespectsSelf(d);
    if HeadTurn(c, d, sink).Step? {
      var o := HeadTurn(c, d, sink).outcome;
      TurnMoves(c, d, sink, bound);
      TurnRespects(c, d, sink);
      if o.ok {
        RespectedSize(d, o.d);
        EmitFromHeadRespects(c, o.d, o.sink, bound);
        RespectsTransitive(d, o.d, EmitFromHead(c, o.d, o.sink, bound).d);
      }
    }
  }

  lemma RespectsSelf(d: Decoder)
    requires |d.fates| == d.nextEmit
    ensures Respects(d, d)
  {}

  lemma {:induction false} RoomRespects(c: Config, d: Decoder, id: nat, guard: nat, sink: nat)
    requires |d.fates| == d.nextEmit
    ensures Respects(d, MakeRoom(c, d, id, guard, sink).d)
    ensures d.refused ==> MakeRoom(c, d, id, guard, sink).d.refused
    decreases id - d.nextEmit
  {
    hide EmitHead, SkipHead, GiveUpHead, TryRecover, Respects;
    StepFacts(c, d, sink);
    RespectsSelf(d);
    if !(!NeedsRoom(d, id) || guard >= GROUP_WINDOW || d.nextEmit >= id) {
      var o := if HeadIs(d, Recovered) then EmitHead(c, d, sink) else GiveUpHead(c, d, sink);
      var saved := HeadIs(d, Active) && TryRecover(c, d.groups[d.nextEmit], true).state == Recovered;
      var guard' := if HeadIs(d, Recovered) || saved then guard else guard + 1;
      if HeadIs(d, Recovered) { EmitRespects(c, d, sink); } else { GiveUpRespects(c, d, sink); }
      if o.ok {
        RespectedSize(d, o.d);
        RoomRespects(c, o.d, id, guard', o.sink);
        RespectsTransitive(d, o.d, MakeRoom(c, o.d, id, guard', o.sink).d);
      }
    }
  }

  lemma FinalizeRespects(c: Config, d: Decoder)
    requires |d.fates| == d.nextEmit
    ensures Respects(d, Finalize(c, d)) && Finalize(c, d).refused == d.refused
  {
    hide NewlyRecovered, NewlyFailed;
  }

  lemma FinishRespects(c: Config, d: Decoder, t: Decoder, sink: nat)
    requires Windowed(t) && Respects(d, t) && t.refused == d.refused
    ensures Respects(d, EmitAll(c, t, sink).d) && (d.refused ==> EmitAll(c, t, sink).d.refused)
  {
    hide Respects, EmitFromHead;
    RespectedSize(d, t);
    EmitFromHeadRespects(c, t, sink, BoundOf(t));
    RespectsTransitive(d, t, EmitAll(c, t, sink).d);
  }

  /** Flags and counters do not matter to what is respected. */
  lemma RespectsFlags(d: Decoder, t: Decoder, d': Decoder, t': Decoder)
    requires Respects(d, t) && d' == d.(endSeen := d'.endSeen, endCount := d'.endCount, stats := d'.stats)
    requires t' == t.(complete := t'.complete, stats := t'.stats)
    ensures Respects(d', t')
  {
    forall id | id in d'.groups && d'.groups[id].state == Recovered ensures WaitingOrWhole(d', t', id) {
      assert WaitingOrWhole(d, t, id);
    }
  }

  lemma EndRespects(c: Config, d: Decoder, blocks: nat, sink: nat)
    requires Windowed(d) && |d.fates| == d.nextEmit
    ensures Respects(d, IngestEnd(c, d, blocks, sink).d) && (d.refused ==> IngestEnd(c, d, blocks, sink).d.refused)
  {
    hide Respects, EmitFromHead, Finalize;
    RespectsSelf(d);
    RespectsFlags(d, d, d, d.(stats := d.stats.(malformed := d.stats.malformed + 1)));
    var e := d.(endSeen := true, endCount := blocks);
    FinalizeRespects(c, e);
    FinalWindowed(c, e);
    FinishRespects(c, e, Finalize(c, e), sink);
    var o := EmitAll(c, Finalize(c, e), sink);
    EmitStaysWindowed(c, Finalize(c, e), sink, BoundOf(Finalize(c, e)));
    RespectsFlags(e, o.d, d, o.d);
    RespectsFlags(e, o.d, d, o.d.(complete := true));
    if o.ok && c.bestEffort {
      RespectedSize(d, o.d);
      FlushRespects(c, o.d, o.sink);
      var f := FlushBestEffort(c, o.d, o.sink);
      RespectsTransitive(d, o.d, f.d);
      RespectsFlags(d, f.d, d, f.d.(complete := true));
    }
  }

  lemma FinalWindowed(c: Config, d: Decoder)
    requires Windowed(d)
    ensures Windowed(Finalize(c, d))
  {}

  lemma FlushRespects(c: Config, d: Decoder, sink: nat)
    requires Windowed(d) && |d.fates| == d.nextEmit
    ensures Respects(d, FlushBestEffort(c, d, sink).d) && (d.refused ==> FlushBestEffort(c, d, sink).d.refused)
  {
    hide Respects, EmitAll, Finalize;
    RespectsSelf(d);
    FinalizeRespects(c, d);
    FinalWindowed(c, d);
    FinishRespects(c, d, Finalize(c, d), sink);
    var o := EmitAll(c, Finalize(c, d), sink);
    RespectsFlags(d, o.d, d, o.d.(complete := true));
  }

  lemma OpenRespects(d: Decoder, t: Decoder, id: nat, h: Group)
    requires |d.fates| == d.nextEmit && (id in d.groups ==> d.groups[id].state != Recovered)
    requires t == d.(groups := d.groups[id := h], stats := t.stats)
    ensures Respects(d, t)
  {}

  lemma StoreRespects(c: Config, d: Decoder, p: Datagram, sink: nat)
    requires p.Data? && Windowed(d) && InWindow(p.block, d.nextEmit) && |d.fates| == d.nextEmit
    ensures Respects(d, StoreShard(c, d, p, sink).d) && (d.refused ==> StoreShard(c, d, p, sink).d.refused)
  {
    hide Respects, EmitAll, Placed;
    RespectsSelf(d);
    PlacedFacts(c, d, p);
    var t, v := Opened(d, p), Placed(c, Opened(d, p), p);
    if p.block !in d.groups { OpenRespects(d, t, p.block, t.groups[p.block]); }
    RespectsFlags(d, d, d, d.(stats := d.stats.(overflow := d.stats.overflow + 1)));
    RespectsFlags(d, t, d, t.(stats := t.stats.(duplicate := t.stats.duplicate + 1)));
    RespectsFlags(d, t, d, t.(stats := t.stats.(malformed := t.stats.malformed + 1)));
    if t.groups[p.block].state == Active {
      OpenRespects(d, v, p.block, v.groups[p.block]);
      FinishRespects(c, d, v, sink);
      var o := EmitAll(c, v, sink);
      RespectsFlags(d, o.d, d, o.d.(complete := true));
    }
  }

  lemma IngestRespects(c: Config, d: Decoder, p: Datagram, sink: nat)
    requires Windowed(d) && |d.fates| == d.nextEmit
    ensures Respects(d, Ingest(c, d, p, sink).d) && (d.refused ==> Ingest(c, d, p, sink).d.refused)
  {
    hide Respects, MakeRoom, StoreShard, IngestEnd;
    RespectsSelf(d);
    RespectsFlags(d, d, d, d.(stats := d.stats.(malformed := d.stats.malformed + 1)));
    if !d.complete && HeaderOk(c, p) {
      if p.End? {
        EndRespects(c, d, p.blocks, sink);
      } else {
        var seen := d.(stats := d.stats.(seen := d.stats.seen + 1));
        RespectsFlags(d, d, d, seen);
        RespectsFlags(d, d, d, seen.(stats := seen.stats.(late := seen.stats.late + 1)));
        if p.block >= d.nextEmit {
          var room := if c.bestEffort then MakeRoom(c, seen, p.block, 0, sink) else Outcome(seen, sink, true);
          RoomStaysWindowed(c, seen, p.block, 0, sink);
          RoomRespects(c, seen, p.block, 0, sink);
          RespectsFlags(seen, room.d, d, room.d) by { RespectsSelf(seen); }
          RespectsFlags(d, room.d, d, room.d.(stats := room.d.stats.(late := room.d.stats.late + 1)));
          RespectsFlags(d, room.d, d, room.d.(stats := room.d.stats.(overflow := room.d.stats.overflow + 1)));
          RespectedSize(d, room.d);
          if room.ok && InWindow(p.block, room.d.nextEmit) {
            StoreRespects(c, room.d, p, room.sink);
            RespectsTransitive(d, room.d, StoreShard(c, room.d, p, room.sink).d);
          }
        }
      }
    }
  }

  lemma {:induction false} RunSize(c: Config, arrivals: seq<Arrival>)
    ensures |Run(c, arrivals).fates| == Run(c, arrivals).nextEmit
  {
    hide Ingest;
    if |arrivals| > 0 {
      var n := |arrivals| - 1;
      RunSize(c, arrivals[..n]);
      IngestRespects(c, Run(c, arrivals[..n]), arrivals[n].datagram, arrivals[n].sink);
    }
  }

  /** Whatever arrives: a group that was recovered after some arrival is, after
      any later one, still waiting or written whole. It is never skipped. */
  lemma {:induction false} RecoveredNeverSkipped(c: Config, arrivals: seq<Arrival>, i: nat)
    requires i <= |arrivals|
    ensures Respects(Run(c, arrivals[..i]), Run(c, arrivals))
    ensures Run(c, arrivals[..i]).refused ==> Run(c, arrivals).refused
    decreases |arrivals| - i
  {
    hide Ingest, Respects;
    RunSize(c, arrivals[..i]);
    if i == |arrivals| {
      assert arrivals[..i] == arrivals;
      RespectsSelf(Run(c, arrivals));
    } else {
      var next := arrivals[..i + 1];
      assert next[..i] == arrivals[..i];
      IngestRespects(c, Run(c, arrivals[..i]), arrivals[i].datagram, arrivals[i].sink);
      RecoveredNeverSkipped(c, arrivals, i + 1);
      RespectsTransitive(Run(c, arrivals[..i]), Run(c, next), Run(c, arrivals));
    }
  }
}
