/** Exactly what an insertion leaves in the cache. */
module CacheInsert {
  import opened CacheList
  import opened CacheProofs

  // ---------------------------------------------------------------------
  // Room for a known generation.

  /** The m most recent entries, and entry i in any case. */
  function Spared(l: seq<Entry>, i: nat, m: nat): (r: seq<Entry>)
    requires i < |l| && m <= |l|
  {
    if i < m then l[..m] else l[..m] + [l[i]]
  }

  /** The next larger choice that spares one entry more. */
  function OneMore(i: nat, m: nat): (n: nat) { if m + 1 == i then i + 1 else m + 1 }

  lemma OthersOnly(l: seq<Entry>, i: nat, m: nat)
    requires Unique(l) && i < |l| && m <= |l| && m != i
    ensures var r := Spared(l, i, m);
            LastOther(r, l[i].flow, l[i].block) == if m == i + 1 then (if i == 0 then |r| else i - 1) else if m == 0 then |r| else m - 1
  {
    var r, e := Spared(l, i, m), l[i];
    hide Unique, LastOther;
    if m == i + 1 {
      assert r[i] == e;
      if i > 0 {
        OtherKeys(l, i, i - 1);
        LastIs(r, e, i - 1);
      } else {
        NoneIs(r, e);
      }
    } else if m == 0 {
      assert r == [e];
      NoneIs(r, e);
    } else {
      OtherKeys(l, i, m - 1);
      assert r[m - 1] == l[m - 1] && (m < i ==> r[m] == e);
      LastIs(r, e, m - 1);
    }
  }

  lemma LastIs(r: seq<Entry>, e: Entry, x: nat)
    requires x < |r| && !(r[x].flow == e.flow && r[x].block == e.block) && forall j :: x < j < |r| ==> r[j] == e
    ensures LastOther(r, e.flow, e.block) == x
  {}

  lemma NoneIs(r: seq<Entry>, e: Entry)
    requires forall j :: 0 <= j < |r| ==> r[j] == e
    ensures LastOther(r, e.flow, e.block) == |r|
  {}

  lemma OtherKeys(l: seq<Entry>, i: nat, j: nat)
    requires Unique(l) && i < |l| && j < |l| && j != i
    ensures !(l[j].flow == l[i].flow && l[j].block == l[i].block)
  {
    assert !SameKey(l[if j < i then j else i], l[if j < i then i else j]);
  }

  lemma {:induction false} GrowFrom(cfg: Config, l: seq<Entry>, i: nat, len: nat, m: nat) returns (k: nat)
    requires Unique(l) && i < |l| && m <= |l| && m != i
    ensures k <= m && k != i && GrowRoom(cfg, Spared(l, i, m), l[i].flow, l[i].block, len) == Spared(l, i, k)
    ensures k < m ==> OneMore(i, k) <= |l| && Bytes(Spared(l, i, OneMore(i, k))) + len > cfg.maxBytes
    decreases m
  {
    hide Bytes, LastOther;
    var r := Spared(l, i, m);
    OthersOnly(l, i, m);
    var x := LastOther(r, l[i].flow, l[i].block);
    if Bytes(r) + len > cfg.maxBytes && x < |r| {
      var n := if m == i + 1 then i - 1 else m - 1;
      assert RemoveAt(r, x) == Spared(l, i, n);
      k := GrowFrom(cfg, l, i, len, n);
      assert k == n ==> OneMore(i, k) == m;
    } else {
      k := m;
    }
  }

  /** A growing generation evicts least recent entries, never itself, and no more
      than needed: with one fewer gone the bytes would not fit. */
  lemma GrowIsLeastRecent(cfg: Config, l: seq<Entry>, i: nat, len: nat) returns (m: nat)
    requires Unique(l) && i < |l|
    ensures m <= |l| && m != i && GrowRoom(cfg, l, l[i].flow, l[i].block, len) == Spared(l, i, m)
    ensures m < |l| ==> OneMore(i, m) <= |l| && Bytes(Spared(l, i, OneMore(i, m))) + len > cfg.maxBytes
  {
    assert Spared(l, i, |l|) == l;
    m := GrowFrom(cfg, l, i, len, |l|);
  }

  // ---------------------------------------------------------------------
  // The entry.

  /** The entry holds the new shard, the old ones, and nothing else. */
  ghost predicate Holds(f: Entry, h: Header, len: nat, now: nat, slots: seq<Slot>, ttl: nat) {
    f.flow == h.flow && f.block == h.block && f.meta == h.meta && f.lastUpdate == now && |f.slots| == |slots| == h.meta.shardCount &&
    h.index < |slots| && f.slots[h.index] == Present(len) && (forall x :: 0 <= x < |slots| && x != h.index ==> f.slots[x] == slots[x]) &&
    f.minTtl == (if h.ttl < ttl then h.ttl else ttl) && (f.ready <==> forall x :: 0 <= x < |f.slots| ==> f.slots[x].Present?)
  }

  lemma {:induction false} AllPresent(s: seq<Slot>)
    ensures SlotCount(s) == |s| <==> forall x :: 0 <= x < |s| ==> s[x].Present?
  {
    if |s| > 0 { AllPresent(s[..|s| - 1]); }
  }

  lemma FilledHolds(e: Entry, h: Header, len: nat, now: nat)
    requires h.index < |e.slots| == e.meta.shardCount && e.slots[h.index].Absent? && e.flow == h.flow && e.block == h.block && e.meta == h.meta
    requires e.presentCount == SlotCount(e.slots) && !e.ready
    ensures Holds(Filled(e, h, len, now), h, len, now, e.slots, e.minTtl)
  {
    var f := Filled(e, h, len, now);
    SlotsFill(e.slots, h.index, len);
    AllPresent(f.slots);
    hide SlotCount;
  }

  lemma FreshHolds(h: Header, len: nat, now: nat)
    requires h.index < h.meta.shardCount
    ensures Holds(Filled(FreshEntry(h, now), h, len, now), h, len, now, FreshEntry(h, now).slots, h.ttl)
  {
    SlotsEmpty(FreshEntry(h, now).slots);
    FilledHolds(FreshEntry(h, now), h, len, now);
  }

  lemma NotReady(e: Entry, i: nat)
    requires EntryOk(e) && i < |e.slots| && e.slots[i].Absent?
    ensures !e.ready
  {
    AllPresent(e.slots);
  }

  lemma NewExactly(cfg: Config, d: Cache, h: Header, len: nat, now: nat)
    requires h.index < h.meta.shardCount && InsertNew(cfg, d, h, len, now).1 == InsertOk
    ensures var r := InsertNew(cfg, d, h, len, now).0.lru;
            |r| > 0 && Holds(r[0], h, len, now, seq(h.meta.shardCount, x => Absent), h.ttl) && r[1..] == Room(cfg, d.lru, h.flow, len)
  {
    FreshHolds(h, len, now);
    hide Room, Needs, Bytes, Holds, Filled;
  }

  lemma KnownExactly(cfg: Config, d: Cache, i: nat, h: Header, len: nat, now: nat)
    requires Unique(d.lru) && i < |d.lru| && EntryOk(d.lru[i]) && d.lru[i].meta == h.meta && d.lru[i].flow == h.flow && d.lru[i].block == h.block
    requires Store(cfg, d, i, h, len, now).1 == InsertOk
    ensures var r := Store(cfg, d, i, h, len, now).0.lru;
            var g := GrowRoom(cfg, d.lru, h.flow, h.block, len);
            var j := Find(g, h.flow, h.block);
            |r| > 0 && Holds(r[0], h, len, now, d.lru[i].slots, d.lru[i].minTtl) && j < |g| && g[j] == d.lru[i] && r[1..] == g[..j] + g[j + 1..]
  {
    FoundAgain(cfg, d.lru, i, len);
    var e := d.lru[i];
    if h.index < |e.slots| && e.slots[h.index].Absent? {
      NotReady(e, h.index);
      FilledHolds(e, h, len, now);
    }
    hide GrowRoom, Bytes, Holds, Filled, EntryOk, Unique, Find;
  }

  /** What an accepted insertion leaves: the generation in front with the new shard
      and exactly the shards it had; behind it, in order and unchanged, what making
      room left of the others. */
  lemma InsertExactly(cfg: Config, c: Cache, h: Header, len: nat, now: nat)
    requires ConfigOk(cfg) && CacheOk(cfg, c) && Insert(cfg, c, h, len, now).1 == InsertOk
    ensures var l := Unexpired(cfg, c.lru, now, -1);
            var r := Insert(cfg, c, h, len, now).0.lru;
            var i := Find(l, h.flow, h.block);
            |r| > 0 && h.index < h.meta.shardCount &&
            if i == |l| then Holds(r[0], h, len, now, seq(h.meta.shardCount, x => Absent), h.ttl) && r[1..] == Room(cfg, l, h.flow, len)
            else
              var g := GrowRoom(cfg, l, h.flow, h.block, len);
              var j := Find(g, h.flow, h.block);
              Holds(r[0], h, len, now, l[i].slots, l[i].minTtl) && j < |g| && g[j] == l[i] && r[1..] == g[..j] + g[j + 1..]
  {
    ExpireKeeps(cfg, c, now, -1, now);
    var d := Expire(cfg, c, now, -1);
    var i := Find(d.lru, h.flow, h.block);
    assert i < |d.lru| ==> EntryOk(d.lru[i]);
    hide Unexpired, Sorted, InsertNew, Store, Room, GrowRoom, Bytes, FlowCount, EntryOk, Unique, Holds;
    if i == |d.lru| {
      NewExactly(cfg, d, h, len, now);
    } else {
      KnownExactly(cfg, d, i, h, len, now);
    }
  }

  /** A refused insertion changes no entry: none at all when the header does not
      fit or the shard is known, and only expiry and evictions otherwise. */
  lemma RefusedKeeps(cfg: Config, c: Cache, h: Header, len: nat, now: nat)
    requires Insert(cfg, c, h, len, now).1 != InsertOk
    ensures var l := Unexpired(cfg, c.lru, now, -1);
            var r := Insert(cfg, c, h, len, now);
            match r.1
            case Invalid => r.0 == c
            case Duplicate => r.0.lru == l
            case Mismatch => r.0.lru == l || r.0.lru == c.lru
            case _ => r.0.lru == Room(cfg, l, h.flow, len) || r.0.lru == GrowRoom(cfg, l, h.flow, h.block, len)
  {
    hide Unexpired, Room, GrowRoom, Bytes, FlowCount;
  }

  // ---------------------------------------------------------------------
  // Expiry.

  /** The entry is due: of the flow asked for, if any, and its timeout in
      milliseconds has passed since its last update. */
  predicate Due(cfg: Config, e: Entry, now: nat, flow: int) {
    (flow < 0 || flow == e.flow) && cfg.timeoutMs > 0 && now >= e.lastUpdate + cfg.timeoutMs * 1_000_000
  }

  /** Expiry keeps exactly the entries that are not due, in their order. */
  lemma {:induction false} ExpiryExactly(cfg: Config, l: seq<Entry>, now: nat, flow: int) returns (at: seq<nat>)
    ensures var r := Unexpired(cfg, l, now, flow);
            |at| == |r| && (forall i :: 0 <= i < |at| ==> at[i] < |l| && r[i] == l[at[i]]) &&
            (forall i, j :: 0 <= i < j < |at| ==> at[i] < at[j]) &&
            (forall x :: 0 <= x < |l| ==> (x in at <==> !Due(cfg, l[x], now, flow)))
  {
    if |l| == 0 {
      at := [];
    } else {
      var n := |l| - 1;
      at := ExpiryExactly(cfg, l[..n], now, flow);
      assert Expires(cfg, l[n], now, flow) <==> Due(cfg, l[n], now, flow);
      hide Due, Expires;
      forall x | 0 <= x < n ensures l[..n][x] == l[x] {}
      assert n !in at;
      if !Expires(cfg, l[n], now, flow) { at := at + [n]; }
    }
  }
}
