/** What every operation of the generation cache keeps, and when it fails. */
module CacheProofs {
  import opened CacheList

  ghost predicate EntryOk(e: Entry) {
    |e.slots| == e.meta.shardCount && e.presentCount == SlotCount(e.slots) && e.presentCount > 0 &&
    e.bytes == SlotBytes(e.slots) && (e.ready <==> e.presentCount == e.meta.shardCount)
  }

  ghost predicate SameKey(a: Entry, b: Entry) { a.flow == b.flow && a.block == b.block }

  ghost predicate Unique(l: seq<Entry>) {
    forall i, j :: 0 <= i < j < |l| ==> !SameKey(l[i], l[j])
  }

  /** Distinct keys, exact entries, all three limits. */
  ghost predicate ListOk(cfg: Config, l: seq<Entry>) {
    Unique(l) && (forall i :: 0 <= i < |l| ==> EntryOk(l[i])) &&
    |l| <= cfg.maxGlobal && Bytes(l) <= cfg.maxBytes && forall f :: FlowCount(l, f) <= cfg.maxPerFlow
  }

  ghost predicate CacheOk(cfg: Config, c: Cache) {
    ListOk(cfg, c.lru) && c.stats.created == |c.lru| + c.stats.timeouts + c.stats.evicted && Bytes(c.lru) <= c.stats.peak
  }

  /** Most recently updated first, and none updated after now. */
  ghost predicate Sorted(l: seq<Entry>, now: nat) {
    (forall i, j :: 0 <= i < j < |l| ==> l[i].lastUpdate >= l[j].lastUpdate) && forall i :: 0 <= i < |l| ==> l[i].lastUpdate <= now
  }

  // ---------------------------------------------------------------------
  // Sums.

  lemma {:induction false} SumsConcat(a: seq<Entry>, b: seq<Entry>)
    ensures Bytes(a + b) == Bytes(a) + Bytes(b)
    ensures forall f :: FlowCount(a + b, f) == FlowCount(a, f) + FlowCount(b, f)
  {
    if |b| == 0 {
      assert a + b == a;
    } else {
      var n := |b| - 1;
      SumsConcat(a, b[..n]);
      assert (a + b)[..|a| + n] == a + b[..n];
    }
  }

  lemma SumsOne(e: Entry)
    ensures Bytes([e]) == e.bytes && forall f :: FlowCount([e], f) == if e.flow == f then 1 else 0
  {
    assert [e][..0] == [];
  }

  lemma SumsSnoc(l: seq<Entry>, e: Entry)
    ensures Bytes(l + [e]) == Bytes(l) + e.bytes
    ensures forall f :: FlowCount(l + [e], f) == FlowCount(l, f) + if e.flow == f then 1 else 0
  {
    SumsConcat(l, [e]);
    SumsOne(e);
    hide Bytes, FlowCount;
  }

  lemma SumsRemove(l: seq<Entry>, i: nat)
    requires i < |l|
    ensures Bytes(RemoveAt(l, i)) == Bytes(l) - l[i].bytes
    ensures forall f :: FlowCount(RemoveAt(l, i), f) == FlowCount(l, f) - if l[i].flow == f then 1 else 0
  {
    assert l == l[..i] + ([l[i]] + l[i + 1..]);
    SumsConcat(l[..i], [l[i]] + l[i + 1..]);
    SumsConcat([l[i]], l[i + 1..]);
    SumsOne(l[i]);
    SumsConcat(l[..i], l[i + 1..]);
  }

  lemma {:induction false} SlotsFill(s: seq<Slot>, i: nat, len: nat)
    requires i < |s| && s[i].Absent?
    ensures SlotBytes(s[i := Present(len)]) == SlotBytes(s) + len
    ensures SlotCount(s[i := Present(len)]) == SlotCount(s) + 1
  {
    var n := |s| - 1;
    if i == n {
      assert s[i := Present(len)][..n] == s[..n];
    } else {
      SlotsFill(s[..n], i, len);
      assert s[i := Present(len)][..n] == s[..n][i := Present(len)];
    }
  }

  lemma {:induction false} SlotsEmpty(s: seq<Slot>)
    requires forall i :: 0 <= i < |s| ==> s[i].Absent?
    ensures SlotBytes(s) == 0 && SlotCount(s) == 0
  {
    if |s| > 0 {
      SlotsEmpty(s[..|s| - 1]);
    }
  }

  // ---------------------------------------------------------------------
  // Removing entries keeps everything but changes no survivor.

  lemma RemoveKeeps(cfg: Config, l: seq<Entry>, i: nat, now: nat)
    requires ListOk(cfg, l) && i < |l|
    ensures ListOk(cfg, RemoveAt(l, i)) && (Sorted(l, now) ==> Sorted(RemoveAt(l, i), now))
  {
    hide Unique, Sorted, EntryOk, Bytes, FlowCount, RemoveAt;
    SumsRemove(l, i);
    RemoveOrder(l, i, now);
    var r := RemoveAt(l, i);
    forall x | 0 <= x < |r| ensures EntryOk(r[x]) {
      RemoveIndex(l, i, x);
    }
  }

  lemma RemoveIndex(l: seq<Entry>, i: nat, x: nat)
    requires i < |l| && x < |l| - 1
    ensures RemoveAt(l, i)[x] == l[if x < i then x else x + 1]
  {}

  lemma RemoveOrder(l: seq<Entry>, i: nat, now: nat)
    requires i < |l|
    ensures Unique(l) ==> Unique(RemoveAt(l, i))
    ensures Sorted(l, now) ==> Sorted(RemoveAt(l, i), now)
  {
    hide SameKey;
    var r := RemoveAt(l, i);
    assert forall x :: 0 <= x < |r| ==> r[x] == if x < i then l[x] else l[x + 1];
    hide RemoveAt;
  }

  lemma {:induction false} RoomKeeps(cfg: Config, l: seq<Entry>, flow: nat, len: nat, now: nat)
    requires ListOk(cfg, l)
    ensures ListOk(cfg, Room(cfg, l, flow, len)) && (Sorted(l, now) ==> Sorted(Room(cfg, l, flow, len), now))
    decreases |l|
  {
    hide ListOk, Sorted, Needs, RemoveAt;
    if Needs(cfg, l, flow, len) && |l| > 0 {
      var i := Victim(cfg, l, flow);
      RemoveKeeps(cfg, l, i, now);
      RoomKeeps(cfg, RemoveAt(l, i), flow, len, now);
    }
  }

  lemma {:induction false} GrowKeeps(cfg: Config, l: seq<Entry>, flow: nat, block: nat, len: nat, now: nat)
    requires ListOk(cfg, l)
    ensures ListOk(cfg, GrowRoom(cfg, l, flow, block, len)) && (Sorted(l, now) ==> Sorted(GrowRoom(cfg, l, flow, block, len), now))
    decreases |l|
  {
    hide ListOk, Sorted, Bytes, RemoveAt;
    var i := LastOther(l, flow, block);
    if Bytes(l) + len > cfg.maxBytes && i < |l| {
      RemoveKeeps(cfg, l, i, now);
      GrowKeeps(cfg, RemoveAt(l, i), flow, block, len, now);
    }
  }

  /** While its own flow is below its limit, a new generation costs exactly the
      least recent entries that have to go: no other, and no more. */
  lemma {:induction false} RoomIsPrefix(cfg: Config, l: seq<Entry>, flow: nat, len: nat)
    requires FlowCount(l, flow) < cfg.maxPerFlow
    ensures var r := Room(cfg, l, flow, len);
            |r| <= |l| && r == l[..|r|] && (|r| < |l| ==> Needs(cfg, l[..|r| + 1], flow, len))
    decreases |l|
  {
    if Needs(cfg, l, flow, len) && |l| > 0 {
      var n := |l| - 1;
      assert RemoveAt(l, n) == l[..n];
      RoomIsPrefix(cfg, l[..n], flow, len);
      var r := Room(cfg, l[..n], flow, len);
      assert |r| < n ==> l[..n][..|r| + 1] == l[..|r| + 1];
      assert |r| == n ==> l[..|r| + 1] == l;
    }
  }

  /** At the flow's own limit its least recent entry goes first. */
  lemma RoomWithinFlow(cfg: Config, l: seq<Entry>, flow: nat, len: nat)
    requires ConfigOk(cfg) && FlowCount(l, flow) == cfg.maxPerFlow
    ensures |l| > 0 && var i := LastOf(l, flow);
            l[i].flow == flow && (forall j :: i < j < |l| ==> l[j].flow != flow) &&
            FlowCount(RemoveAt(l, i), flow) < cfg.maxPerFlow && Room(cfg, l, flow, len) == Room(cfg, RemoveAt(l, i), flow, len)
  {
    var i := LastOf(l, flow);
    SumsRemove(l, i);
    hide FlowCount, RemoveAt, Bytes;
  }

  /** Room is found exactly when the datagram alone fits the byte limit. */
  lemma {:induction false} RoomFailsExactly(cfg: Config, l: seq<Entry>, flow: nat, len: nat)
    requires ConfigOk(cfg)
    ensures Needs(cfg, Room(cfg, l, flow, len), flow, len) <==> len > cfg.maxBytes
    decreases |l|
  {
    if Needs(cfg, l, flow, len) && |l| > 0 {
      hide Needs, RemoveAt;
      RoomFailsExactly(cfg, RemoveAt(l, Victim(cfg, l, flow)), flow, len);
    }
  }

  lemma {:induction false} UnexpiredSums(cfg: Config, l: seq<Entry>, now: nat, flow: int)
    ensures Bytes(Unexpired(cfg, l, now, flow)) <= Bytes(l)
    ensures forall f :: FlowCount(Unexpired(cfg, l, now, flow), f) <= FlowCount(l, f)
  {
    hide Expires, Bytes, FlowCount;
    if |l| > 0 {
      var n := |l| - 1;
      UnexpiredSums(cfg, l[..n], now, flow);
      SumsSnoc(Unexpired(cfg, l[..n], now, flow), l[n]);
      SumsSnoc(l[..n], l[n]);
      assert l == l[..n] + [l[n]];
    }
  }

  /** Exactly the entries that have not timed out stay. */
  lemma {:induction false} UnexpiredMembers(cfg: Config, l: seq<Entry>, now: nat, flow: int)
    ensures forall e :: e in Unexpired(cfg, l, now, flow) <==> e in l && !Expires(cfg, e, now, flow)
  {
    hide Expires;
    if |l| > 0 {
      var n := |l| - 1;
      UnexpiredMembers(cfg, l[..n], now, flow);
      assert l == l[..n] + [l[n]];
    }
  }

  lemma {:induction false} UnexpiredOrder(cfg: Config, l: seq<Entry>, now: nat, flow: int, t: nat)
    ensures Unique(l) ==> Unique(Unexpired(cfg, l, now, flow))
    ensures Sorted(l, t) ==> Sorted(Unexpired(cfg, l, now, flow), t)
  {
    hide Expires, SameKey;
    if |l| > 0 {
      var n := |l| - 1;
      UnexpiredOrder(cfg, l[..n], now, flow, t);
      UnexpiredMembers(cfg, l[..n], now, flow);
      var r := Unexpired(cfg, l[..n], now, flow);
      forall i | 0 <= i < |r| ensures (Unique(l) ==> !SameKey(r[i], l[n])) && (Sorted(l, t) ==> r[i].lastUpdate >= l[n].lastUpdate) {
        assert r[i] in l[..n];
        var j :| 0 <= j < n && l[j] == r[i];
      }
      hide Unexpired;
    }
  }

  lemma ExpireKeeps(cfg: Config, c: Cache, now: nat, flow: int, t: nat)
    requires CacheOk(cfg, c)
    ensures CacheOk(cfg, Expire(cfg, c, now, flow)) && (Sorted(c.lru, t) ==> Sorted(Expire(cfg, c, now, flow).lru, t))
  {
    UnexpiredSums(cfg, c.lru, now, flow);
    UnexpiredMembers(cfg, c.lru, now, flow);
    UnexpiredOrder(cfg, c.lru, now, flow, t);
    var l, r := c.lru, Unexpired(cfg, c.lru, now, flow);
    forall i | 0 <= i < |r| ensures EntryOk(r[i]) {
      assert r[i] in l;
    }
    hide EntryOk, Unexpired, Bytes, FlowCount;
  }

  // ---------------------------------------------------------------------
  // Insertion.

  lemma FilledOk(e: Entry, h: Header, len: nat, now: nat)
    requires h.index < |e.slots| == e.meta.shardCount && e.slots[h.index].Absent? && e.presentCount == SlotCount(e.slots) && e.bytes == SlotBytes(e.slots)
    requires e.ready ==> e.presentCount == e.meta.shardCount
    ensures EntryOk(Filled(e, h, len, now))
  {
    SlotsFill(e.slots, h.index, len);
    assert Filled(e, h, len, now).presentCount <= |e.slots|;
  }

  lemma PushKeeps(cfg: Config, l: seq<Entry>, e: Entry, now: nat)
    requires ListOk(cfg, l) && EntryOk(e) && e.lastUpdate == now && |l| < cfg.maxGlobal && FlowCount(l, e.flow) < cfg.maxPerFlow
    requires Bytes(l) + e.bytes <= cfg.maxBytes && forall i :: 0 <= i < |l| ==> !SameKey(e, l[i])
    ensures ListOk(cfg, [e] + l) && Bytes([e] + l) == Bytes(l) + e.bytes && (Sorted(l, now) ==> Sorted([e] + l, now))
  {
    hide EntryOk, SameKey;
    SumsConcat([e], l);
    SumsOne(e);
    var r := [e] + l;
    assert forall x :: 0 <= x < |r| ==> r[x] == if x == 0 then e else l[x - 1];
    hide Bytes, FlowCount;
  }

  lemma {:induction false} RoomMembers(cfg: Config, l: seq<Entry>, flow: nat, len: nat)
    ensures forall e :: e in Room(cfg, l, flow, len) ==> e in l
    decreases |l|
  {
    hide Needs;
    if Needs(cfg, l, flow, len) && |l| > 0 {
      RoomMembers(cfg, RemoveAt(l, Victim(cfg, l, flow)), flow, len);
    }
  }

  /** Growth evicts only other entries. */
  lemma {:induction false} GrowMembers(cfg: Config, l: seq<Entry>, flow: nat, block: nat, len: nat)
    ensures forall e :: e in GrowRoom(cfg, l, flow, block, len) ==> e in l
    ensures forall e :: e in l && e.flow == flow && e.block == block ==> e in GrowRoom(cfg, l, flow, block, len)
    ensures Bytes(GrowRoom(cfg, l, flow, block, len)) + len > cfg.maxBytes ==>
      forall e :: e in GrowRoom(cfg, l, flow, block, len) ==> e.flow == flow && e.block == block
    decreases |l|
  {
    hide Bytes;
    var i := LastOther(l, flow, block);
    if Bytes(l) + len > cfg.maxBytes && i < |l| {
      var r := RemoveAt(l, i);
      GrowMembers(cfg, r, flow, block, len);
      forall e | e in l && e.flow == flow && e.block == block ensures e in r {
        var j :| 0 <= j < |l| && l[j] == e;
        assert r[if j < i then j else j - 1] == e;
      }
    }
  }

  lemma InsertNewKeeps(cfg: Config, d: Cache, h: Header, len: nat, now: nat)
    requires ConfigOk(cfg) && CacheOk(cfg, d) && Find(d.lru, h.flow, h.block) == |d.lru| && h.index < h.meta.shardCount
    ensures var l := Room(cfg, d.lru, h.flow, len);
            var f := Filled(FreshEntry(h, now), h, len, now);
            ListOk(cfg, l) && (Sorted(d.lru, now) ==> Sorted(l, now)) &&
            (!Needs(cfg, l, h.flow, len) ==> ListOk(cfg, [f] + l) && Bytes([f] + l) == Bytes(l) + len && (Sorted(l, now) ==> Sorted([f] + l, now)))
  {
    var l := Room(cfg, d.lru, h.flow, len);
    var e := FreshEntry(h, now);
    var f := Filled(e, h, len, now);
    RoomKeeps(cfg, d.lru, h.flow, len, now);
    RoomMembers(cfg, d.lru, h.flow, len);
    SlotsEmpty(e.slots);
    FilledOk(e, h, len, now);
    forall i | 0 <= i < |l| ensures !SameKey(f, l[i]) {
      assert l[i] in d.lru;
    }
    hide Room, EntryOk, SameKey, Bytes, FlowCount, SlotBytes, SlotCount;
    if !Needs(cfg, l, h.flow, len) { PushKeeps(cfg, l, f, now); }
  }

  /** With distinct keys the growing entry is found again after the evictions. */
  lemma FoundAgain(cfg: Config, l: seq<Entry>, i: nat, len: nat)
    requires Unique(l) && i < |l|
    ensures var g := GrowRoom(cfg, l, l[i].flow, l[i].block, len);
            var j := Find(g, l[i].flow, l[i].block);
            j < |g| && g[j] == l[i]
  {
    var e := l[i];
    var g := GrowRoom(cfg, l, e.flow, e.block, len);
    GrowMembers(cfg, l, e.flow, e.block, len);
    assert e in l;
    var j := Find(g, e.flow, e.block);
    var x :| 0 <= x < |g| && g[x] == e;
    assert j < |g| && g[j] in l;
    var y :| 0 <= y < |l| && l[y] == g[j];
    assert SameKey(l[y], l[i]);
  }

  lemma GrownKeeps(cfg: Config, g: seq<Entry>, j: nat, f: Entry, len: nat, now: nat)
    requires ListOk(cfg, g) && j < |g| && EntryOk(f) && SameKey(f, g[j]) && f.lastUpdate == now
    requires f.bytes == g[j].bytes + len && Bytes(g) + len <= cfg.maxBytes
    ensures ListOk(cfg, [f] + RemoveAt(g, j)) && Bytes([f] + RemoveAt(g, j)) == Bytes(g) + len
    ensures Sorted(g, now) ==> Sorted([f] + RemoveAt(g, j), now)
  {
    RemoveKeeps(cfg, g, j, now);
    SumsRemove(g, j);
    var r := RemoveAt(g, j);
    forall x | 0 <= x < |r| ensures !SameKey(f, r[x]) {
      assert r[x] == if x < j then g[x] else g[x + 1];
    }
    hide RemoveAt, EntryOk, SameKey, Bytes, FlowCount;
    PushKeeps(cfg, r, f, now);
  }

  lemma GrowKeepsCache(cfg: Config, d: Cache, i: nat, h: Header, len: nat, now: nat)
    requires CacheOk(cfg, d) && i < |d.lru| && h.index < |d.lru[i].slots| && EntryOk(d.lru[i]) && d.lru[i].slots[h.index].Absent?
    ensures var r := Grow(cfg, d, d.lru[i], h, len, now);
            CacheOk(cfg, r.0) && (Sorted(d.lru, now) ==> Sorted(r.0.lru, now))
  {
    hide Unique, Sorted;
    var e := d.lru[i];
    var g := GrowRoom(cfg, d.lru, e.flow, e.block, len);
    GrowKeeps(cfg, d.lru, e.flow, e.block, len, now);
    FoundAgain(cfg, d.lru, i, len);
    FilledOk(e, h, len, now);
    GrowShrinks(cfg, d.lru, e.flow, e.block, len);
    hide ListOk, GrowRoom, Find, EntryOk, Bytes, RemoveAt, SlotBytes, SlotCount;
    if Bytes(g) + len <= cfg.maxBytes {
      GrownKeeps(cfg, g, Find(g, e.flow, e.block), Filled(e, h, len, now), len, now);
    }
  }

  lemma StoreKeeps(cfg: Config, d: Cache, i: nat, h: Header, len: nat, now: nat)
    requires CacheOk(cfg, d) && i < |d.lru| && d.lru[i].meta == h.meta && h.index < h.meta.shardCount
    ensures var r := Store(cfg, d, i, h, len, now);
            CacheOk(cfg, r.0) && (Sorted(d.lru, now) ==> Sorted(r.0.lru, now))
  {
    hide Grow, Unique, Sorted;
    assert EntryOk(d.lru[i]);
    if d.lru[i].slots[h.index].Absent? { GrowKeepsCache(cfg, d, i, h, len, now); }
  }

  lemma {:induction false} GrowShrinks(cfg: Config, l: seq<Entry>, flow: nat, block: nat, len: nat)
    ensures Bytes(GrowRoom(cfg, l, flow, block, len)) <= Bytes(l)
    decreases |l|
  {
    var i := LastOther(l, flow, block);
    if Bytes(l) + len > cfg.maxBytes && i < |l| {
      SumsRemove(l, i);
      GrowShrinks(cfg, RemoveAt(l, i), flow, block, len);
    }
  }

  lemma {:induction false} RoomShrinks(cfg: Config, l: seq<Entry>, flow: nat, len: nat)
    ensures Bytes(Room(cfg, l, flow, len)) <= Bytes(l)
    decreases |l|
  {
    if Needs(cfg, l, flow, len) && |l| > 0 {
      var i := Victim(cfg, l, flow);
      SumsRemove(l, i);
      RoomShrinks(cfg, RemoveAt(l, i), flow, len);
    }
  }

  /** Insertion keeps the cache exact, within all limits and, under a monotone
      clock, in order of last update. */
  lemma InsertKeeps(cfg: Config, c: Cache, h: Header, len: nat, now: nat)
    requires ConfigOk(cfg) && CacheOk(cfg, c)
    ensures CacheOk(cfg, Insert(cfg, c, h, len, now).0)
    ensures Sorted(c.lru, now) ==> Sorted(Insert(cfg, c, h, len, now).0.lru, now)
  {
    hide CacheOk, Sorted, Expire, Find, Store, InsertNew;
    var d := Expire(cfg, c, now, -1);
    ExpireKeeps(cfg, c, now, -1, now);
    var i := Find(d.lru, h.flow, h.block);
    MismatchKeeps(cfg, c);
    MismatchKeeps(cfg, d);
    if h.index < h.meta.shardCount {
      if i == |d.lru| {
        NewKeepsCache(cfg, d, h, len, now);
      } else if d.lru[i].meta == h.meta {
        StoreKeeps(cfg, d, i, h, len, now);
      }
    }
  }

  lemma MismatchKeeps(cfg: Config, c: Cache)
    requires CacheOk(cfg, c)
    ensures CacheOk(cfg, c.(stats := c.stats.(mismatch := c.stats.mismatch + 1)))
  {
    hide ListOk, Bytes;
  }

  lemma NewKeepsCache(cfg: Config, d: Cache, h: Header, len: nat, now: nat)
    requires ConfigOk(cfg) && CacheOk(cfg, d) && Find(d.lru, h.flow, h.block) == |d.lru| && h.index < h.meta.shardCount
    ensures CacheOk(cfg, InsertNew(cfg, d, h, len, now).0) && (Sorted(d.lru, now) ==> Sorted(InsertNew(cfg, d, h, len, now).0.lru, now))
  {
    InsertNewKeeps(cfg, d, h, len, now);
    RoomShrinks(cfg, d.lru, h.flow, len);
    hide ListOk, Sorted, Room, Needs, Bytes, Find, Filled, FreshEntry;
  }

  // ---------------------------------------------------------------------
  // When insertion fails.

  lemma AloneBytes(l: seq<Entry>, i: nat)
    requires i < |l|
    ensures Bytes(l) >= l[i].bytes && (|l| == 1 ==> Bytes(l) == l[i].bytes)
  {
    SumsRemove(l, i);
    if |l| == 1 {
      SumsOne(l[0]);
      assert l == [l[0]];
    }
  }

  /** A known generation refuses a new shard exactly when the generation alone
      would exceed the byte limit. */
  lemma GrowFailsExactly(cfg: Config, l: seq<Entry>, i: nat, len: nat)
    requires Unique(l) && i < |l|
    ensures Bytes(GrowRoom(cfg, l, l[i].flow, l[i].block, len)) + len > cfg.maxBytes <==> l[i].bytes + len > cfg.maxBytes
  {
    var e := l[i];
    var g := GrowRoom(cfg, l, e.flow, e.block, len);
    GrowMembers(cfg, l, e.flow, e.block, len);
    FoundAgain(cfg, l, i, len);
    var j := Find(g, e.flow, e.block);
    AloneBytes(g, j);
    if Bytes(g) + len > cfg.maxBytes {
      GrownUnique(cfg, l, e.flow, e.block, len);
      forall x | 0 <= x < |g| ensures SameKey(g[x], g[j]) {
        assert g[x] in g;
      }
      OnlyOne(g, j);
    }
  }

  lemma OnlyOne(g: seq<Entry>, j: nat)
    requires Unique(g) && j < |g| && forall x :: 0 <= x < |g| ==> SameKey(g[x], g[j])
    ensures |g| == 1
  {
    assert SameKey(g[0], g[j]) && SameKey(g[|g| - 1], g[j]);
    assert j == 0;
    assert j == |g| - 1;
  }

  lemma {:induction false} GrownUnique(cfg: Config, l: seq<Entry>, flow: nat, block: nat, len: nat)
    requires Unique(l)
    ensures Unique(GrowRoom(cfg, l, flow, block, len))
    decreases |l|
  {
    hide Bytes;
    var i := LastOther(l, flow, block);
    if Bytes(l) + len > cfg.maxBytes && i < |l| {
      var r := RemoveAt(l, i);
      assert forall x :: 0 <= x < |r| ==> r[x] == if x < i then l[x] else l[x + 1];
      GrownUnique(cfg, r, flow, block, len);
    }
  }

  /** A well-formed shard is refused for want of room exactly when its datagram,
      with what its own generation already holds, exceeds the byte limit. */
  lemma AdmissionFailsExactly(cfg: Config, c: Cache, h: Header, len: nat, now: nat)
    requires ConfigOk(cfg) && CacheOk(cfg, c) && len >= WIRE_HEADER_SIZE && h.isData
    requires 0 < h.meta.shardCount <= MAX_SHARD_COUNT && h.index < h.meta.shardCount
    ensures var d := Expire(cfg, c, now, -1);
            var i := Find(d.lru, h.flow, h.block);
            if i == |d.lru| then Insert(cfg, c, h, len, now).1 == (if len > cfg.maxBytes then AdmissionFailed else InsertOk)
            else if d.lru[i].meta != h.meta then Insert(cfg, c, h, len, now).1 == Mismatch
            else h.index < |d.lru[i].slots| && Insert(cfg, c, h, len, now).1 ==
                 if d.lru[i].slots[h.index].Present? then Duplicate
                 else if d.lru[i].bytes + len > cfg.maxBytes then AdmissionFailed else InsertOk
  {
    hide Grow, Room, Needs, Bytes, Unique, Sorted;
    var d := Expire(cfg, c, now, -1);
    ExpireKeeps(cfg, c, now, -1, now);
    hide Expire;
    var i := Find(d.lru, h.flow, h.block);
    if i == |d.lru| {
      RoomFailsExactly(cfg, d.lru, h.flow, len);
    } else {
      assert EntryOk(d.lru[i]);
      if h.index < |d.lru[i].slots| { GrowStatus(cfg, d, i, h, len, now); }
    }
  }

  lemma GrowStatus(cfg: Config, d: Cache, i: nat, h: Header, len: nat, now: nat)
    requires Unique(d.lru) && i < |d.lru| && h.index < |d.lru[i].slots|
    ensures Grow(cfg, d, d.lru[i], h, len, now).1 == if d.lru[i].bytes + len > cfg.maxBytes then AdmissionFailed else InsertOk
  {
    GrowFailsExactly(cfg, d.lru, i, len);
    FoundAgain(cfg, d.lru, i, len);
    hide GrowRoom, Bytes, Find;
  }

  // ---------------------------------------------------------------------
  // Runs.

  datatype Op = OpInsert(header: Header, len: nat, now: nat) | OpExpire(now: nat, flow: int)

  function Clock(op: Op): (t: nat) { op.now }

  function Run(cfg: Config, ops: seq<Op>): (c: Cache) {
    if |ops| == 0 then Cache([], Stats(0, 0, 0, 0, 0, 0, 0, 0))
    else
      var c := Run(cfg, ops[..|ops| - 1]);
      match ops[|ops| - 1]
      case OpInsert(h, len, now) => Insert(cfg, c, h, len, now).0
      case OpExpire(now, flow) => Expire(cfg, c, now, flow)
  }

  ghost predicate Monotone(ops: seq<Op>) {
    forall i, j :: 0 <= i < j < |ops| ==> Clock(ops[i]) <= Clock(ops[j])
  }

  lemma SortedLater(l: seq<Entry>, t: nat, u: nat)
    requires Sorted(l, t) && t <= u
    ensures Sorted(l, u)
  {}

  /** In every run: distinct keys, exact entries, all limits, and created is
      live plus timed out plus evicted; under a monotone clock the list is in
      order of last update. */
  lemma {:induction false} RunKeeps(cfg: Config, ops: seq<Op>)
    requires ConfigOk(cfg)
    ensures CacheOk(cfg, Run(cfg, ops))
    ensures Monotone(ops) ==> Sorted(Run(cfg, ops).lru, if |ops| == 0 then 0 else Clock(ops[|ops| - 1]))
  {
    if |ops| > 0 {
      hide CacheOk, Insert, Expire, Sorted;
      var n := |ops| - 1;
      var c, op := Run(cfg, ops[..n]), ops[n];
      RunKeeps(cfg, ops[..n]);
      if Monotone(ops) {
        assert Monotone(ops[..n]);
        SortedLater(c.lru, if n == 0 then 0 else Clock(ops[..n][n - 1]), Clock(op));
      }
      match op
      case OpInsert(h, len, now) => InsertKeeps(cfg, c, h, len, now);
      case OpExpire(now, flow) => ExpireKeeps(cfg, c, now, flow, now);
    }
  }
}
