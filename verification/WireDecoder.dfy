/** The per-flow reorder window of the v3 wire: receive, recover and emit, in
    strict and in best-effort mode, over a map of live groups. */
module WireDecoder {
  import opened Arith
  import opened Gf256
  import RsPlan

  const GROUP_WINDOW: nat := 128
  const MAX_SHARDS: nat := 255
  const PKG_SIZE: nat := RsPlan.PKG_SIZE

  // ---------------------------------------------------------------------
  // The block codec, as the decoder sees it.

  datatype Rebuild = Rebuilt(shards: map<nat, Bytes>) | NotRebuilt

  /** encode: block to shards; decode: a group's shards to the block's bytes. */
  datatype Codec = Codec(k: nat, r: nat, systematic: bool, allowsBestEffort: bool,
                         encode: Bytes -> seq<Bytes>, recover: map<nat, Bytes> -> Rebuild,
                         decode: map<nat, Bytes> -> Bytes)

  function Take(b: Bytes, n: nat): (t: Bytes)
    ensures |t| <= n
  {
    if n <= |b| then b[..n] else b
  }

  /** Bytes i * PKG_SIZE .. of a block. */
  function Slice(b: Bytes, i: nat): (s: Bytes) {
    if (i + 1) * PKG_SIZE <= |b| then b[i * PKG_SIZE..(i + 1) * PKG_SIZE] else []
  }

  // ---------------------------------------------------------------------

  datatype Stamp = Stamp(begin: nat, end: nat)

  datatype Datagram =
    | Data(block: nat, index: nat, count: nat, validLen: nat, stamp: Stamp, payload: Bytes)
    | End(blocks: nat, count: nat, payloadLen: nat)

  datatype State = Active | Recovered | Emitted | Failed

  /** The received shards and the count at which recovery was last tried. */
  datatype Group = Group(state: State, validLen: nat, stamp: Stamp, shards: map<nat, Bytes>, lastCount: nat)

  /** What became of a block: written whole, or skipped with the received data
      shards (kept) written. */
  datatype Fate = Whole(bytes: Bytes) | Gap(kept: set<nat>, bytes: Bytes)

  datatype Stats = Stats(outputBytes: nat, seen: nat, received: nat, duplicate: nat, late: nat, malformed: nat,
                         missingData: nat, groupsReceived: nat, groupsRecovered: nat, groupsEmitted: nat,
                         groupsFailed: nat, overflow: nat, skipped: nat)

  /** fates and refused are history: one fate per block below nextEmit, and
      whether the sink ever refused bytes. */
  datatype Decoder = Decoder(groups: map<nat, Group>, nextEmit: nat, endSeen: bool, endCount: nat, complete: bool,
                             stats: Stats, output: Bytes, fates: seq<Fate>, refused: bool)

  datatype Config = Config(codec: Codec, bestEffort: bool)

  function Shards(c: Config): (n: nat) { c.codec.k + c.codec.r }

  function InputSize(c: Config): (n: nat) { c.codec.k * PKG_SIZE }

  const START := Decoder(map[], 0, false, 0, false, Stats(0, 0, 0, 0, 0, 0, 0, 0, 0, 0, 0, 0, 0), [], [], false)

  /** A decoder after a step, what the sink still accepts, and the return code. */
  datatype Outcome = Outcome(d: Decoder, sink: nat, ok: bool)

  // ---------------------------------------------------------------------
  // Recover.

  predicate AllPresent(c: Config, g: Group) {
    forall i :: 0 <= i < Shards(c) ==> i in g.shards
  }

  predicate DataReady(c: Config, g: Group) {
    c.codec.systematic && forall i :: 0 <= i < c.codec.k ==> i in g.shards
  }

  /** try_recover_group on one group. The two unsuccessful codec results are
      treated alike. */
  function TryRecover(c: Config, g: Group, finalize: bool): (h: Group) {
    if g.state != Active then g
    else if AllPresent(c, g) || DataReady(c, g) then g.(state := Recovered)
    else if |g.shards| < c.codec.k then (if finalize then g.(state := Failed) else g)
    else if !finalize && |g.shards| == g.lastCount then g
    else
      match c.codec.recover(g.shards)
      case Rebuilt(shards) => g.(state := Recovered, shards := shards, lastCount := |g.shards|)
      case NotRebuilt => g.(state := if finalize then Failed else Active, lastCount := |g.shards|)
  }

  predicate BecameRecovered(g: Group, h: Group) { g.state == Active && h.state == Recovered }
  predicate BecameFailed(g: Group, h: Group) { g.state == Active && h.state == Failed }

  function Recover(c: Config, d: Decoder, id: nat, finalize: bool): (t: Decoder)
    requires id in d.groups
  {
    var g, h := d.groups[id], TryRecover(c, d.groups[id], finalize);
    d.(groups := d.groups[id := h],
       stats := d.stats.(groupsRecovered := d.stats.groupsRecovered + (if BecameRecovered(g, h) then 1 else 0),
                         groupsFailed := d.stats.groupsFailed + (if BecameFailed(g, h) then 1 else 0)))
  }

  function Finalized(c: Config, groups: map<nat, Group>): (after: map<nat, Group>) {
    map id | id in groups :: TryRecover(c, groups[id], true)
  }

  function NewlyRecovered(before: map<nat, Group>, after: map<nat, Group>): (ids: set<nat>) {
    set id | id in before && id in after && BecameRecovered(before[id], after[id])
  }

  function NewlyFailed(before: map<nat, Group>, after: map<nat, Group>): (ids: set<nat>) {
    set id | id in before && id in after && BecameFailed(before[id], after[id])
  }

  /** finalize_active_groups. */
  function Finalize(c: Config, d: Decoder): (t: Decoder) {
    var after := Finalized(c, d.groups);
    d.(groups := after,
       stats := d.stats.(groupsRecovered := d.stats.groupsRecovered + |NewlyRecovered(d.groups, after)|,
                         groupsFailed := d.stats.groupsFailed + |NewlyFailed(d.groups, after)|))
  }

  // ---------------------------------------------------------------------
  // Emit.

  /** write_decoded_group on a recovered head, then the advance. A refused head
      stays behind as emitted. */
  function EmitHead(c: Config, d: Decoder, sink: nat): (o: Outcome)
    requires d.nextEmit in d.groups
  {
    var g := d.groups[d.nextEmit];
    var s := d.stats.(groupsEmitted := d.stats.groupsEmitted + 1);
    if sink == 0 then
      Outcome(d.(groups := d.groups[d.nextEmit := g.(state := Emitted)], stats := s, refused := true), 0, false)
    else
      var bytes := Take(c.codec.decode(g.shards), g.validLen);
      Outcome(d.(groups := d.groups - {d.nextEmit}, nextEmit := d.nextEmit + 1, output := d.output + bytes,
                 fates := d.fates + [Whole(bytes)], stats := s.(outputBytes := s.outputBytes + g.validLen)), sink - 1, true)
  }

  datatype Parts = Parts(bytes: Bytes, missing: nat, sink: nat, ok: bool)

  /** The plain text of a received data shard. */
  function ShardText(c: Config, g: Group, i: nat): (t: Bytes)
    requires i in g.shards
  {
    if c.codec.systematic then g.shards[i] else Slice(c.codec.decode(g.shards), i)
  }

  /** The shard loop of write_best_effort_group. */
  function WriteParts(c: Config, g: Group, i: nat, remaining: nat, sink: nat): (p: Parts)
    decreases c.codec.k - i
  {
    if i >= c.codec.k || remaining == 0 then Parts([], 0, sink, true)
    else
      var len := Min(PKG_SIZE, remaining);
      if i !in g.shards then
        var p := WriteParts(c, g, i + 1, remaining - len, sink);
        p.(missing := p.missing + 1)
      else if sink == 0 then Parts([], 0, 0, false)
      else
        var p := WriteParts(c, g, i + 1, remaining - len, sink - 1);
        p.(bytes := Take(ShardText(c, g, i), len) + p.bytes)
  }

  function Kept(c: Config, g: Group): (s: set<nat>) { set i | 0 <= i < c.codec.k && i in g.shards }

  /** skip_unrecoverable_head: the head may be missing, failed or abandoned. */
  function SkipHead(c: Config, d: Decoder, sink: nat): (o: Outcome) {
    var t := d.(nextEmit := d.nextEmit + 1, stats := d.stats.(skipped := d.stats.skipped + 1));
    if d.nextEmit !in d.groups then Outcome(t.(fates := d.fates + [Gap({}, [])]), sink, true)
    else if !c.codec.allowsBestEffort then
      Outcome(t.(groups := d.groups - {d.nextEmit}, fates := d.fates + [Gap({}, [])]), sink, true)
    else
      var g := d.groups[d.nextEmit];
      var p := WriteParts(c, g, 0, g.validLen, sink);
      if !p.ok then
        Outcome(d.(output := d.output + p.bytes, refused := true,
                   stats := d.stats.(outputBytes := d.stats.outputBytes + |p.bytes|, missingData := d.stats.missingData + p.missing)),
                0, false)
      else
        Outcome(t.(groups := d.groups - {d.nextEmit}, output := d.output + p.bytes, fates := d.fates + [Gap(Kept(c, g), p.bytes)],
                   stats := t.stats.(outputBytes := d.stats.outputBytes + |p.bytes|, missingData := d.stats.missingData + p.missing)),
                p.sink, true)
  }

  predicate HeadIs(d: Decoder, state: State) {
    d.nextEmit in d.groups && d.groups[d.nextEmit].state == state
  }

  /** head_below_recover_threshold. */
  predicate HeadBelowThreshold(c: Config, d: Decoder) {
    d.nextEmit !in d.groups || HeadIs(d, Failed) ||
    (HeadIs(d, Active) && |d.groups[d.nextEmit].shards| < c.codec.k)
  }

  /** later_recovered_waiting. */
  predicate LaterRecovered(d: Decoder) {
    exists id :: id in d.groups && d.groups[id].state == Recovered && id > d.nextEmit
  }

  /** No live group, and no end marker, is at or above the bound. */
  ghost predicate Below(d: Decoder, bound: nat) {
    (forall id :: id in d.groups ==> id < bound) && (d.endSeen ==> d.endCount <= bound)
  }

  /** A stuck head gets one last recovery; it is written if that succeeds and
      skipped if not. */
  function GiveUpHead(c: Config, d: Decoder, sink: nat): (o: Outcome) {
    var t := if HeadIs(d, Active) then Recover(c, d, d.nextEmit, true) else d;
    if HeadIs(d, Active) && HeadIs(t, Recovered) then EmitHead(c, t, sink) else SkipHead(c, t, sink)
  }

  /** A step at the head advances by one, past any group there, unless the sink
      refuses; it opens no group. */
  ghost predicate Moves(d: Decoder, o: Outcome) {
    o.d.groups.Keys <= d.groups.Keys && o.d.endSeen == d.endSeen && o.d.endCount == d.endCount &&
    o.d.nextEmit == d.nextEmit + (if o.ok then 1 else 0) && (o.ok ==> d.nextEmit !in o.d.groups) &&
    (d.refused ==> o.d.refused)
  }

  lemma EmitMoves(c: Config, d: Decoder, sink: nat)
    requires d.nextEmit in d.groups
    ensures Moves(d, EmitHead(c, d, sink))
  {}

  lemma SkipMoves(c: Config, d: Decoder, sink: nat)
    ensures Moves(d, SkipHead(c, d, sink))
  {
    hide WriteParts, Kept;
  }

  lemma GiveUpMoves(c: Config, d: Decoder, sink: nat)
    ensures Moves(d, GiveUpHead(c, d, sink))
  {
    hide EmitHead, SkipHead, TryRecover;
    var t := if HeadIs(d, Active) then Recover(c, d, d.nextEmit, true) else d;
    SkipMoves(c, t, sink);
    if HeadIs(t, Recovered) { EmitMoves(c, t, sink); }
  }

  lemma StepFacts(c: Config, d: Decoder, sink: nat)
    ensures d.nextEmit in d.groups ==> Moves(d, EmitHead(c, d, sink))
    ensures Moves(d, SkipHead(c, d, sink)) && Moves(d, GiveUpHead(c, d, sink))
  {
    hide EmitHead, SkipHead, GiveUpHead, Moves;
    if d.nextEmit in d.groups { EmitMoves(c, d, sink); }
    SkipMoves(c, d, sink);
    GiveUpMoves(c, d, sink);
  }

  datatype Turn = Rest | Step(outcome: Outcome)

  /** One turn of the loop in try_emit_from_head. */
  function HeadTurn(c: Config, d: Decoder, sink: nat): (t: Turn) {
    if d.endSeen && d.nextEmit >= d.endCount then Rest
    else if HeadIs(d, Recovered) then Step(EmitHead(c, d, sink))
    else if c.bestEffort && d.endSeen && (d.nextEmit !in d.groups || HeadIs(d, Failed)) then Step(SkipHead(c, d, sink))
    else if c.bestEffort && HeadBelowThreshold(c, d) && LaterRecovered(d) then Step(GiveUpHead(c, d, sink))
    else Rest
  }

  /** A turn that does not rest moves, towards something that is there. */
  lemma TurnMoves(c: Config, d: Decoder, sink: nat, bound: nat)
    requires Below(d, bound) && HeadTurn(c, d, sink).Step?
    ensures Moves(d, HeadTurn(c, d, sink).outcome) && d.nextEmit < bound
  {
    hide EmitHead, SkipHead, GiveUpHead;
    StepFacts(c, d, sink);
  }

  /** try_emit_from_head. The bound only shows that the loop ends. */
  function EmitFromHead(c: Config, d: Decoder, sink: nat, ghost bound: nat): (o: Outcome)
    requires Below(d, bound)
    decreases bound - d.nextEmit
  {
    match HeadTurn(c, d, sink)
    case Rest => Outcome(d, sink, true)
    case Step(o) =>
      TurnMoves(c, d, sink, bound);
      if o.ok then EmitFromHead(c, o.d, o.sink, bound) else o
  }

  // ---------------------------------------------------------------------
  // Receive.

  predicate InWindow(id: nat, nextEmit: nat) { nextEmit <= id < nextEmit + GROUP_WINDOW }

  predicate NeedsRoom(d: Decoder, id: nat) {
    !InWindow(id, d.nextEmit) || (id !in d.groups && |d.groups| >= GROUP_WINDOW)
  }

  /** make_room_for_block: at most GROUP_WINDOW skips, never past the block. */
  function MakeRoom(c: Config, d: Decoder, id: nat, guard: nat, sink: nat): (o: Outcome)
    decreases id - d.nextEmit
  {
    StepFacts(c, d, sink);
    if !NeedsRoom(d, id) || guard >= GROUP_WINDOW || d.nextEmit >= id then Outcome(d, sink, true)
    else if HeadIs(d, Recovered) then
      var o := EmitHead(c, d, sink);
      if o.ok then MakeRoom(c, o.d, id, guard, o.sink) else o
    else
      var saved := HeadIs(d, Active) && TryRecover(c, d.groups[d.nextEmit], true).state == Recovered;
      var o := GiveUpHead(c, d, sink);
      if o.ok then MakeRoom(c, o.d, id, if saved then guard else guard + 1, o.sink) else o
  }

  predicate HeaderOk(c: Config, p: Datagram) {
    match p
    case End(_, count, payloadLen) => count == Shards(c) && payloadLen == 0
    case Data(_, index, count, validLen, _, payload) =>
      count == Shards(c) && index < count && 0 < validLen <= InputSize(c) && |payload| == PKG_SIZE
  }

  ghost function BoundOf(d: Decoder): (b: nat) {
    if d.endSeen && d.endCount > d.nextEmit + GROUP_WINDOW then d.endCount else d.nextEmit + GROUP_WINDOW
  }

  ghost predicate Windowed(d: Decoder) {
    forall id :: id in d.groups ==> InWindow(id, d.nextEmit)
  }

  /** Emission moves the window but leaves every live group inside it. */
  lemma {:induction false} EmitStaysWindowed(c: Config, d: Decoder, sink: nat, bound: nat)
    requires Windowed(d) && Below(d, bound)
    ensures Windowed(EmitFromHead(c, d, sink, bound).d)
    decreases bound - d.nextEmit
  {
    hide HeadTurn;
    if HeadTurn(c, d, sink).Step? {
      var o := HeadTurn(c, d, sink).outcome;
      TurnMoves(c, d, sink, bound);
      MoveStaysWindowed(d, o);
      if o.ok { EmitStaysWindowed(c, o.d, o.sink, bound); }
    }
  }

  lemma MoveStaysWindowed(d: Decoder, o: Outcome)
    requires Windowed(d) && Moves(d, o)
    ensures Windowed(o.d)
  {}

  lemma {:induction false} RoomStaysWindowed(c: Config, d: Decoder, id: nat, guard: nat, sink: nat)
    requires Windowed(d)
    ensures Windowed(MakeRoom(c, d, id, guard, sink).d)
    decreases id - d.nextEmit
  {
    hide EmitHead, SkipHead, GiveUpHead, TryRecover;
    StepFacts(c, d, sink);
    if !(!NeedsRoom(d, id) || guard >= GROUP_WINDOW || d.nextEmit >= id) {
      if HeadIs(d, Recovered) {
        var o := EmitHead(c, d, sink);
        MoveStaysWindowed(d, o);
        if o.ok { RoomStaysWindowed(c, o.d, id, guard, o.sink); }
      } else {
        var saved := HeadIs(d, Active) && TryRecover(c, d.groups[d.nextEmit], true).state == Recovered;
        var o := GiveUpHead(c, d, sink);
        MoveStaysWindowed(d, o);
        if o.ok { RoomStaysWindowed(c, o.d, id, if saved then guard else guard + 1, o.sink); }
      }
    }
  }

  /** Everything after a change of the groups: emit, then check for the end. */
  function EmitAll(c: Config, d: Decoder, sink: nat): (o: Outcome)
    requires Windowed(d)
  {
    EmitFromHead(c, d, sink, BoundOf(d))
  }

  function IngestEnd(c: Config, d: Decoder, blocks: nat, sink: nat): (o: Outcome)
    requires Windowed(d)
  {
    if d.endSeen && blocks != d.endCount then
      Outcome(d.(stats := d.stats.(malformed := d.stats.malformed + 1)), sink, true)
    else
      var o := EmitAll(c, Finalize(c, d.(endSeen := true, endCount := blocks)), sink);
      if !o.ok then o
      else if o.d.nextEmit == blocks then o.(d := o.d.(complete := true))
      else if c.bestEffort then
        EmitStaysWindowed(c, Finalize(c, d.(endSeen := true, endCount := blocks)), sink,
                          BoundOf(Finalize(c, d.(endSeen := true, endCount := blocks))));
        var f := FlushBestEffort(c, o.d, o.sink);
        if f.ok then f.(d := f.d.(complete := true)) else f
      else o
  }

  /** wire_flow_decoder_flush_best_effort. */
  function FlushBestEffort(c: Config, d: Decoder, sink: nat): (o: Outcome)
    requires Windowed(d)
  {
    if !c.bestEffort then Outcome(d, sink, false)
    else if !d.endSeen then Outcome(d, sink, true)
    else
      var o := EmitAll(c, Finalize(c, d), sink);
      if o.ok && o.d.nextEmit >= o.d.endCount then o.(d := o.d.(complete := true)) else o
  }

  /** The block's group, opened if it is new. */
  function Opened(d: Decoder, p: Datagram): (t: Decoder)
    requires p.Data?
    ensures p.block in t.groups
  {
    if p.block in d.groups then d
    else d.(groups := d.groups[p.block := Group(Active, p.validLen, p.stamp, map[], 0)],
            stats := d.stats.(groupsReceived := d.stats.groupsReceived + 1))
  }

  /** The shard stored and recovery tried. */
  function Placed(c: Config, d: Decoder, p: Datagram): (t: Decoder)
    requires p.Data? && p.block in d.groups
  {
    var g := d.groups[p.block];
    var u := d.(groups := d.groups[p.block := g.(shards := g.shards[p.index := p.payload])],
                stats := d.stats.(received := d.stats.received + 1));
    Recover(c, u, p.block, false)
  }

  /** A data shard for a block inside the window. */
  function StoreShard(c: Config, d: Decoder, p: Datagram, sink: nat): (o: Outcome)
    requires p.Data? && Windowed(d) && InWindow(p.block, d.nextEmit)
  {
    if p.block !in d.groups && |d.groups| >= GROUP_WINDOW then
      Outcome(d.(stats := d.stats.(overflow := d.stats.overflow + 1)), sink, true)
    else
      var t := Opened(d, p);
      var g := t.groups[p.block];
      if g.state != Active then Outcome(t.(stats := t.stats.(duplicate := t.stats.duplicate + 1)), sink, true)
      else if g.validLen != p.validLen || g.stamp != p.stamp then
        Outcome(t.(stats := t.stats.(malformed := t.stats.malformed + 1)), sink, true)
      else if p.index in g.shards then
        Outcome(t.(stats := t.stats.(duplicate := t.stats.duplicate + 1)), sink, true)
      else
        PlacedFacts(c, d, p);
        var o := EmitAll(c, Placed(c, t, p), sink);
        if o.ok && o.d.endSeen && o.d.nextEmit == o.d.endCount then o.(d := o.d.(complete := true)) else o
  }

  /** Opening and placing change one group, inside the window, and counters. */
  lemma PlacedFacts(c: Config, d: Decoder, p: Datagram)
    requires p.Data?
    ensures var t := Opened(d, p);
            var v := Placed(c, t, p);
            var g := t.groups[p.block];
            p.block in v.groups && v.groups[p.block] == TryRecover(c, g.(shards := g.shards[p.index := p.payload]), false) &&
            v == d.(groups := d.groups[p.block := v.groups[p.block]], stats := v.stats) &&
            v.stats.groupsEmitted == d.stats.groupsEmitted && v.stats.skipped == d.stats.skipped &&
            v.stats.overflow == d.stats.overflow &&
            (g.state == Active ==>
               v.stats.groupsRecovered == d.stats.groupsRecovered + (if v.groups[p.block].state == Recovered then 1 else 0))
    ensures Windowed(d) && InWindow(p.block, d.nextEmit) ==> Windowed(Opened(d, p)) && Windowed(Placed(c, Opened(d, p), p))
  {
    hide TryRecover;
    assert Placed(c, Opened(d, p), p).groups == d.groups[p.block := Placed(c, Opened(d, p), p).groups[p.block]];
  }

  /** wire_flow_decoder_ingest. The sink accepts that many writes in this call. */
  function Ingest(c: Config, d: Decoder, p: Datagram, sink: nat): (o: Outcome)
    requires Windowed(d)
  {
    if d.complete then Outcome(d, sink, true)
    else if !HeaderOk(c, p) then Outcome(d.(stats := d.stats.(malformed := d.stats.malformed + 1)), sink, true)
    else if p.End? then IngestEnd(c, d, p.blocks, sink)
    else
      var seen := d.(stats := d.stats.(seen := d.stats.seen + 1));
      if p.block < d.nextEmit then Outcome(seen.(stats := seen.stats.(late := seen.stats.late + 1)), sink, true)
      else
        var room := if c.bestEffort then MakeRoom(c, seen, p.block, 0, sink) else Outcome(seen, sink, true);
        RoomStaysWindowed(c, seen, p.block, 0, sink);
        if !room.ok then room
        else if p.block < room.d.nextEmit then
          Outcome(room.d.(stats := room.d.stats.(late := room.d.stats.late + 1)), room.sink, true)
        else if !InWindow(p.block, room.d.nextEmit) then
          Outcome(room.d.(stats := room.d.stats.(overflow := room.d.stats.overflow + 1)), room.sink, true)
        else StoreShard(c, room.d, p, room.sink)
  }

  lemma EndStaysWindowed(c: Config, d: Decoder, blocks: nat, sink: nat)
    requires Windowed(d)
    ensures Windowed(IngestEnd(c, d, blocks, sink).d)
  {
    hide TryRecover, EmitFromHead;
    var t := Finalize(c, d.(endSeen := true, endCount := blocks));
    EmitStaysWindowed(c, t, sink, BoundOf(t));
    var o := EmitAll(c, t, sink);
    FlushStaysWindowed(c, o.d, o.sink);
  }

  lemma FlushStaysWindowed(c: Config, d: Decoder, sink: nat)
    requires Windowed(d)
    ensures Windowed(FlushBestEffort(c, d, sink).d)
  {
    hide TryRecover, EmitFromHead;
    var t := Finalize(c, d);
    EmitStaysWindowed(c, t, sink, BoundOf(t));
  }

  lemma StoreStaysWindowed(c: Config, d: Decoder, p: Datagram, sink: nat)
    requires p.Data? && Windowed(d) && InWindow(p.block, d.nextEmit)
    ensures Windowed(StoreShard(c, d, p, sink).d)
  {
    hide EmitFromHead, Placed, Opened;
    PlacedFacts(c, d, p);
    var v := Placed(c, Opened(d, p), p);
    EmitStaysWindowed(c, v, sink, BoundOf(v));
  }

  lemma IngestStaysWindowed(c: Config, d: Decoder, p: Datagram, sink: nat)
    requires Windowed(d)
    ensures Windowed(Ingest(c, d, p, sink).d)
  {
    hide MakeRoom, StoreShard, IngestEnd;
    if !d.complete && HeaderOk(c, p) {
      if p.End? {
        EndStaysWindowed(c, d, p.blocks, sink);
      } else if p.block >= d.nextEmit {
        var seen := d.(stats := d.stats.(seen := d.stats.seen + 1));
        var room := if c.bestEffort then MakeRoom(c, seen, p.block, 0, sink) else Outcome(seen, sink, true);
        RoomStaysWindowed(c, seen, p.block, 0, sink);
        if room.ok && InWindow(p.block, room.d.nextEmit) {
          StoreStaysWindowed(c, room.d, p, room.sink);
        }
      }
    }
  }
}
