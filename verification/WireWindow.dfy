/** The window of 128 blocks: which datagrams it turns away, and what a refusing
    sink means, in every run of either mode. */
module WireWindow {
  import opened Arith
  import opened WireDecoder
  import opened WireStream
  import opened WireDelivery
  import opened WireRuns

  // ---------------------------------------------------------------------
  // Overflow.

  lemma EmitKeepsOverflow(c: Config, d: Decoder, sink: nat)
    ensures d.nextEmit in d.groups ==> EmitHead(c, d, sink).d.stats.overflow == d.stats.overflow
    ensures SkipHead(c, d, sink).d.stats.overflow == d.stats.overflow && GiveUpHead(c, d, sink).d.stats.overflow == d.stats.overflow
  {
    hide WriteParts, TryRecover, Kept, Take;
  }

  lemma {:induction false} EmissionKeepsOverflow(c: Config, d: Decoder, sink: nat, bound: nat)
    requires Below(d, bound)
    ensures var o := EmitFromHead(c, d, sink, bound); o.d.stats.overflow == d.stats.overflow && o.d.nextEmit >= d.nextEmit
    decreases bound - d.nextEmit
  {
    hide EmitHead, SkipHead, GiveUpHead;
    if HeadTurn(c, d, sink).Step? {
      var o := HeadTurn(c, d, sink).outcome;
      TurnMoves(c, d, sink, bound);
      EmitKeepsOverflow(c, d, sink);
      if o.ok { EmissionKeepsOverflow(c, o.d, o.sink, bound); }
    }
  }

  lemma {:induction false} RoomKeepsOverflow(c: Config, d: Decoder, id: nat, guard: nat, sink: nat)
    ensures MakeRoom(c, d, id, guard, sink).d.stats.overflow == d.stats.overflow
    decreases id - d.nextEmit
  {
    hide EmitHead, SkipHead, GiveUpHead, TryRecover;
    StepFacts(c, d, sink);
    EmitKeepsOverflow(c, d, sink);
    if !(!NeedsRoom(d, id) || guard >= GROUP_WINDOW || d.nextEmit >= id) {
      var o := if HeadIs(d, Recovered) then EmitHead(c, d, sink) else GiveUpHead(c, d, sink);
      var saved := HeadIs(d, Active) && TryRecover(c, d.groups[d.nextEmit], true).state == Recovered;
      if o.ok { RoomKeepsOverflow(c, o.d, id, if HeadIs(d, Recovered) || saved then guard else guard + 1, o.sink); }
    }
  }

  /** Live groups have distinct blocks inside the window. */
  lemma GroupsFit(d: Decoder, id: nat)
    requires Windowed(d) && InWindow(id, d.nextEmit) && id !in d.groups
    ensures |d.groups| < GROUP_WINDOW
  {
    FewerThanWindow(d.groups.Keys + {id}, d.nextEmit, GROUP_WINDOW);
    assert |d.groups.Keys + {id}| == |d.groups.Keys| + 1;
  }

  lemma StoreKeepsOverflow(c: Config, d: Decoder, p: Datagram, sink: nat)
    requires p.Data? && Windowed(d) && InWindow(p.block, d.nextEmit)
    ensures var o := StoreShard(c, d, p, sink); o.d.stats.overflow == d.stats.overflow && o.d.nextEmit >= d.nextEmit
  {
    if p.block !in d.groups { GroupsFit(d, p.block); }
    hide EmitFromHead, Placed, Windowed;
    PlacedFacts(c, d, p);
    var v := Placed(c, Opened(d, p), p);
    EmissionKeepsOverflow(c, v, sink, BoundOf(v)) by { WindowBelow(v); }
  }

  lemma WindowBelow(d: Decoder)
    requires Windowed(d)
    ensures Below(d, BoundOf(d))
  {}

  /** An accepted data datagram is counted as overflow exactly when its block is
      128 or more past where the window then stands; nothing else is. */
  lemma OverflowStep(c: Config, d: Decoder, p: Datagram, sink: nat)
    requires Windowed(d) && !d.complete && p.Data? && HeaderOk(c, p)
    ensures var o := Ingest(c, d, p, sink);
            o.d.stats.overflow == d.stats.overflow + if o.ok && p.block >= o.d.nextEmit + 128 then 1 else 0
  {
    hide MakeRoom, StoreShard, HeaderOk;
    if p.block >= d.nextEmit {
      var seen := d.(stats := d.stats.(seen := d.stats.seen + 1));
      var room := if c.bestEffort then MakeRoom(c, seen, p.block, 0, sink) else Outcome(seen, sink, true);
      RoomStaysWindowed(c, seen, p.block, 0, sink);
      RoomKeepsOverflow(c, seen, p.block, 0, sink);
      if room.ok && InWindow(p.block, room.d.nextEmit) { StoreKeepsOverflow(c, room.d, p, room.sink); }
    }
  }

  /** For every arrival of every run, whatever the datagrams. */
  lemma OverflowExactly(c: Config, arrivals: seq<Arrival>)
    requires |arrivals| > 0
    ensures var n := |arrivals| - 1;
            var d, t, p := Run(c, arrivals[..n]), Run(c, arrivals), arrivals[n].datagram;
            !d.complete && p.Data? && HeaderOk(c, p) ==>
            var ok := Ingest(c, d, p, arrivals[n].sink).ok;
            t.stats.overflow == d.stats.overflow + if ok && p.block >= t.nextEmit + 128 then 1 else 0
  {
    hide Ingest, HeaderOk;
    var n := |arrivals| - 1;
    var d, p := Run(c, arrivals[..n]), arrivals[n].datagram;
    if !d.complete && p.Data? && HeaderOk(c, p) { OverflowStep(c, d, p, arrivals[n].sink); }
  }

  /** In best effort a datagram is turned away only after all the 128 skips it may
      cause. */
  lemma TurnedAwayLast(c: Config, d: Decoder, p: Datagram, sink: nat)
    requires Windowed(d) && !d.complete && p.Data? && HeaderOk(c, p) && c.bestEffort
    ensures var o := Ingest(c, d, p, sink); o.d.stats.overflow > d.stats.overflow ==> o.d.stats.skipped == d.stats.skipped + 128
  {
    hide MakeRoom, StoreShard, HeaderOk;
    if p.block >= d.nextEmit {
      var seen := d.(stats := d.stats.(seen := d.stats.seen + 1));
      var room := MakeRoom(c, seen, p.block, 0, sink);
      RoomStaysWindowed(c, seen, p.block, 0, sink);
      RoomKeepsOverflow(c, seen, p.block, 0, sink);
      RoomIsMade(c, seen, p.block, 0, sink);
      if room.ok && InWindow(p.block, room.d.nextEmit) { StoreKeepsOverflow(c, room.d, p, room.sink); }
    }
  }

  // ---------------------------------------------------------------------
  // What was taken.

  /** The pair a datagram adds: accepted header, and a block less than 128 past
      where the window then stands. */
  function New(c: Config, p: Datagram, t: Decoder): (pairs: set<(nat, nat)>) {
    if p.Data? && HeaderOk(c, p) && p.block < t.nextEmit + 128 then {(p.block, p.index)} else {}
  }

  /** The (block, shard) pairs the window let in. */
  function Taken(c: Config, arrivals: seq<Arrival>): (got: set<(nat, nat)>) {
    if |arrivals| == 0 then {}
    else
      var n := |arrivals| - 1;
      Taken(c, arrivals[..n]) + New(c, arrivals[n].datagram, Run(c, arrivals))
  }

  /** The (block, shard) pairs that arrived with an accepted header. */
  function Delivered(c: Config, arrivals: seq<Arrival>): (got: set<(nat, nat)>) {
    if |arrivals| == 0 then {}
    else
      var p := arrivals[|arrivals| - 1].datagram;
      Delivered(c, arrivals[..|arrivals| - 1]) + if p.Data? && HeaderOk(c, p) then {(p.block, p.index)} else {}
  }

  /** No arriving block is 128 or more past where the window then stands. */
  ghost predicate NeverAhead(c: Config, arrivals: seq<Arrival>) {
    forall i :: 0 <= i < |arrivals| && arrivals[i].datagram.Data? && HeaderOk(c, arrivals[i].datagram) ==>
      arrivals[i].datagram.block < Run(c, arrivals[..i + 1]).nextEmit + 128
  }

  /** Then everything that arrived was let in. */
  lemma {:induction false} TakenAll(c: Config, arrivals: seq<Arrival>)
    ensures Taken(c, arrivals) <= Delivered(c, arrivals)
    ensures NeverAhead(c, arrivals) ==> Taken(c, arrivals) == Delivered(c, arrivals)
  {
    hide Run, HeaderOk;
    if |arrivals| > 0 {
      var n := |arrivals| - 1;
      TakenAll(c, arrivals[..n]);
      assert arrivals[..n + 1] == arrivals;
      if NeverAhead(c, arrivals) {
        forall i | 0 <= i < n && arrivals[..n][i].datagram.Data? && HeaderOk(c, arrivals[..n][i].datagram)
          ensures arrivals[..n][i].datagram.block < Run(c, arrivals[..n][..i + 1]).nextEmit + 128
        {
          assert arrivals[..n][..i + 1] == arrivals[..i + 1] && arrivals[..n][i] == arrivals[i];
        }
      }
    }
  }

  /** The shards of block b among some pairs. */
  ghost function Of(got: set<(nat, nat)>, b: nat): (ids: set<nat>) {
    set x | x in got && x.0 == b :: x.1
  }

  lemma OfAdd(got: set<(nat, nat)>, b: nat, i: nat, x: nat)
    ensures Of(got + {(b, i)}, x) == if x == b then Of(got, x) + {i} else Of(got, x)
  {
    var more := got + {(b, i)};
    forall y | y in more && y.0 == x ensures y.1 in (if x == b then Of(got, x) + {i} else Of(got, x)) {
    }
    forall j | j in Of(got, x) ensures j in Of(more, x) {
      assert (x, j) in more;
    }
    assert (b, i) in more;
    assert i in Of(more, b);
  }

  lemma {:induction false} AllBelow(ids: set<nat>, k: nat)
    requires forall i :: 0 <= i < k ==> i in ids
    ensures |ids| >= k
  {
    if k > 0 {
      AllBelow(ids - {k - 1}, k - 1);
    }
  }

  lemma ShortGroupFails(c: Config, g: Group)
    requires g.state == Active && |g.shards| < c.codec.k
    ensures TryRecover(c, g, true) == g.(state := Failed) && TryRecover(c, g, false) == g
  {
    assert |g.shards| == |g.shards.Keys|;
    if forall j :: 0 <= j < c.codec.k ==> j in g.shards { AllBelow(g.shards.Keys, c.codec.k); }
  }

  lemma SettledStays(c: Config, g: Group)
    requires g.state != Active
    ensures TryRecover(c, g, true) == g
  {}

  lemma AtLeastOne(c: Config, s: Stream)
    requires Setting(c, s)
    ensures c.codec.k >= 1
  {}

  // ---------------------------------------------------------------------
  // The end marker.

  ghost predicate EndHeard(c: Config, arrivals: seq<Arrival>) {
    exists i :: 0 <= i < |arrivals| && arrivals[i].datagram.End? && HeaderOk(c, arrivals[i].datagram)
  }

  lemma {:induction false} RoomKeepsEnd(c: Config, d: Decoder, id: nat, guard: nat, sink: nat)
    ensures MakeRoom(c, d, id, guard, sink).d.endSeen == d.endSeen
    decreases id - d.nextEmit
  {
    hide EmitHead, SkipHead, GiveUpHead, TryRecover;
    StepFacts(c, d, sink);
    if !(!NeedsRoom(d, id) || guard >= GROUP_WINDOW || d.nextEmit >= id) {
      var o := if HeadIs(d, Recovered) then EmitHead(c, d, sink) else GiveUpHead(c, d, sink);
      var saved := HeadIs(d, Active) && TryRecover(c, d.groups[d.nextEmit], true).state == Recovered;
      if o.ok { RoomKeepsEnd(c, o.d, id, if HeadIs(d, Recovered) || saved then guard else guard + 1, o.sink); }
    }
  }

  lemma StoreKeepsEnd(c: Config, d: Decoder, p: Datagram, sink: nat)
    requires p.Data? && Windowed(d) && InWindow(p.block, d.nextEmit)
    ensures StoreShard(c, d, p, sink).d.endSeen == d.endSeen
  {
    hide EmitFromHead, Placed, Opened;
    PlacedFacts(c, d, p);
    var v := Placed(c, Opened(d, p), p);
    EmitKeepsEnd(c, v, sink, BoundOf(v));
    assert Opened(d, p).endSeen == d.endSeen by { OpenedEnd(d, p); }
  }

  lemma OpenedEnd(d: Decoder, p: Datagram)
    requires p.Data?
    ensures Opened(d, p).endSeen == d.endSeen
  {}

  /** Only END tells the decoder of the end. */
  lemma DataKeepsEnd(c: Config, d: Decoder, p: Datagram, sink: nat)
    requires Windowed(d) && !(p.End? && HeaderOk(c, p))
    ensures Ingest(c, d, p, sink).d.endSeen == d.endSeen
  {
    hide MakeRoom, StoreShard, HeaderOk;
    if !d.complete && HeaderOk(c, p) && p.block >= d.nextEmit {
      var seen := d.(stats := d.stats.(seen := d.stats.seen + 1));
      var room := if c.bestEffort then MakeRoom(c, seen, p.block, 0, sink) else Outcome(seen, sink, true);
      RoomKeepsEnd(c, seen, p.block, 0, sink);
      RoomStaysWindowed(c, seen, p.block, 0, sink);
      if InWindow(p.block, room.d.nextEmit) { StoreKeepsEnd(c, room.d, p, room.sink); }
    }
  }

  lemma EndIsSeen(c: Config, d: Decoder, blocks: nat, sink: nat)
    requires Windowed(d)
    ensures IngestEnd(c, d, blocks, sink).d.endSeen
  {
    hide TryRecover, EmitFromHead;
    var t := Finalize(c, d.(endSeen := true, endCount := blocks));
    EmitKeepsEnd(c, t, sink, BoundOf(t));
    EmitStaysWindowed(c, t, sink, BoundOf(t));
    var o := EmitAll(c, t, sink);
    var u := Finalize(c, o.d);
    EmitKeepsEnd(c, u, o.sink, BoundOf(u));
  }

  /** The decoder knows the end exactly when END has arrived. */
  lemma {:induction false} SeenIsHeard(c: Config, s: Stream, arrivals: seq<Arrival>)
    requires Setting(c, s) && Heard(c, s, arrivals) && !Run(c, arrivals).refused
    ensures Run(c, arrivals).endSeen <==> EndHeard(c, arrivals)
  {
    hide Ingest, HeaderOk, Setting, FromStream, Inv;
    StreamOf(c, s);
    if |arrivals| > 0 {
      var n := |arrivals| - 1;
      var last, d := arrivals[n], Run(c, arrivals[..n]);
      NotYetRefused(c, arrivals, n);
      RunInv(c, s, arrivals[..n]);
      SeenIsHeard(c, s, arrivals[..n]);
      if EndHeard(c, arrivals[..n]) {
        var i :| 0 <= i < n && arrivals[..n][i].datagram.End? && HeaderOk(c, arrivals[..n][i].datagram);
        assert arrivals[i].datagram.End? && HeaderOk(c, arrivals[i].datagram);
      }
      if last.datagram.End? && HeaderOk(c, last.datagram) {
        EndIngested(c, s, d, last.datagram, last.sink);
      } else {
        DataKeepsEnd(c, d, last.datagram, last.sink);
        if EndHeard(c, arrivals) {
          var i :| 0 <= i < |arrivals| && arrivals[i].datagram.End? && HeaderOk(c, arrivals[i].datagram);
          assert arrivals[..n][i].datagram.End?;
        }
      }
    }
  }

  lemma EndIngested(c: Config, s: Stream, d: Decoder, p: Datagram, sink: nat)
    requires Inv(c, s, d) && !d.refused && p.End? && HeaderOk(c, p)
    ensures Windowed(d) && Ingest(c, d, p, sink).d.endSeen
  {
    hide IngestEnd, HeaderOk, GroupsOk, Told, Counted;
    if !d.complete { EndIsSeen(c, d, p.blocks, sink); }
  }

  lemma NotYetRefused(c: Config, arrivals: seq<Arrival>, n: nat)
    requires n <= |arrivals| && !Run(c, arrivals).refused
    ensures !Run(c, arrivals[..n]).refused
  {
    hide Run, Respects;
    RecoveredNeverSkipped(c, arrivals, n);
  }

  lemma CompleteStays(c: Config, d: Decoder, p: Datagram, sink: nat)
    requires Windowed(d) && d.complete
    ensures Ingest(c, d, p, sink).d == d
  {}

  lemma StreamBlock(c: Config, s: Stream, p: Datagram)
    requires Setting(c, s) && FromStream(c, s, p)
    ensures if p.Data? then p.block < |s.blocks| else p.blocks == |s.blocks|
  {}

  lemma CompleteAtEnd(c: Config, s: Stream, d: Decoder)
    requires Inv(c, s, d) && d.complete && !d.refused
    ensures d.endSeen && d.nextEmit == |s.blocks|
  {}

  /** The shard is in its block's group, which may have been decided since. */
  ghost predicate Stored(t: Decoder, p: Datagram)
    requires p.Data?
  {
    p.block in t.groups && (t.groups[p.block].state == Active ==> p.index in t.groups[p.block].shards && t.groups[p.block].shards[p.index] == p.payload)
  }

  /** A collecting group holds its block's own shards. */
  lemma HeldIsStored(c: Config, s: Stream, t: Decoder, p: Datagram)
    requires Inv(c, s, t) && FromStream(c, s, p) && p.Data? && p.block in t.groups
    requires t.groups[p.block].state == Active ==> p.index in t.groups[p.block].shards
    ensures Stored(t, p)
  {}

  // ---------------------------------------------------------------------
  // Datagrams of no use.

  /** The header does not fit the flow: a wrong shard count, an index past it, a
      length of zero or beyond a full block, a payload that is not 1400 bytes; for
      END a payload at all. */
  predicate BadHeader(c: Config, p: Datagram) {
    match p
    case End(_, count, payloadLen) => count != c.codec.k + c.codec.r || payloadLen != 0
    case Data(_, index, count, validLen, _, payload) =>
      count != c.codec.k + c.codec.r || index >= count || validLen == 0 || validLen > c.codec.k * 1400 || |payload| != 1400
  }

  /** It disagrees with the length or the stamp its collecting group was opened
      with, or its group has the shard or is decided. */
  predicate Unwanted(d: Decoder, p: Datagram) {
    p.Data? && p.block in d.groups &&
    var g := d.groups[p.block];
    g.state != Active || g.validLen != p.validLen || g.stamp != p.stamp || p.index in g.shards
  }

  /** Such datagrams, and those for blocks already decided, change only counters;
      an END that contradicts an earlier one too. */
  lemma UselessIgnored(c: Config, d: Decoder, p: Datagram, sink: nat)
    requires Windowed(d)
    requires BadHeader(c, p) || (p.Data? && p.block < d.nextEmit) || Unwanted(d, p) || (p.End? && d.endSeen && p.blocks != d.endCount)
    ensures var o := Ingest(c, d, p, sink); o.ok && o.d == d.(stats := o.d.stats)
  {
    hide EmitAll, Placed;
    var seen := d.(stats := d.stats.(seen := d.stats.seen + 1));
    if !d.complete && HeaderOk(c, p) && p.Data? && p.block >= d.nextEmit && c.bestEffort {
      NoRoomNeeded(c, seen, p.block, sink);
    }
  }

  lemma NoRoomNeeded(c: Config, d: Decoder, id: nat, sink: nat)
    ensures id in d.groups && InWindow(id, d.nextEmit) ==> MakeRoom(c, d, id, 0, sink) == Outcome(d, sink, true)
  {
    hide EmitHead, GiveUpHead;
  }
}
