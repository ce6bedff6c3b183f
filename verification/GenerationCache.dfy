/** The generation cache object: counters and the per-flow account table kept
    beside the list, and the list operations as loops. */
module GenerationCache {
  import opened Arith
  import opened CacheList
  import opened CacheProofs

  datatype Account = Account(active: bool, flow: nat, count: nat)

  /** The active accounts are the flows with live generations, one each, with
      their exact numbers. */
  ghost predicate AccountsOk(a: seq<Account>, l: seq<Entry>) {
    (forall i :: 0 <= i < |a| && a[i].active ==> a[i].count == FlowCount(l, a[i].flow) && a[i].count > 0) &&
    (forall i, j :: 0 <= i < j < |a| && a[i].active && a[j].active ==> a[i].flow != a[j].flow) &&
    (forall f: nat :: FlowCount(l, f) > 0 ==> HasAccount(a, f))
  }

  ghost predicate HasAccount(a: seq<Account>, f: nat) {
    exists i :: 0 <= i < |a| && a[i].active && a[i].flow == f
  }

  // ---------------------------------------------------------------------
  // A free account whenever one is needed.

  lemma {:induction false} FlowsFit(flows: set<nat>, l: seq<Entry>)
    requires forall f :: f in flows ==> FlowCount(l, f) > 0
    ensures |flows| <= |l|
  {
    if |l| == 0 {
      assert flows == {};
    } else {
      var n := |l| - 1;
      FlowsFit(flows - {l[n].flow}, l[..n]);
    }
  }

  ghost function FlowsOf(a: seq<Account>): (s: set<nat>) {
    set i | 0 <= i < |a| :: a[i].flow
  }

  lemma {:induction false} DistinctFlows(a: seq<Account>)
    requires forall i, j :: 0 <= i < j < |a| ==> a[i].flow != a[j].flow
    ensures |FlowsOf(a)| == |a|
  {
    if |a| > 0 {
      var n := |a| - 1;
      DistinctFlows(a[..n]);
      assert FlowsOf(a) == FlowsOf(a[..n]) + {a[n].flow};
    }
  }

  ghost predicate AllActive(a: seq<Account>) {
    forall i :: 0 <= i < |a| ==> a[i].active
  }

  /** A full table means as many live generations as accounts. */
  lemma FullAccounts(a: seq<Account>, l: seq<Entry>)
    requires AccountsOk(a, l) && AllActive(a)
    ensures |a| <= |l|
  {
    DistinctFlows(a);
    FlowsFit(FlowsOf(a), l);
  }

  /** The table after one generation more, or one less, of a flow. */
  ghost predicate Differs(l: seq<Entry>, m: seq<Entry>, flow: nat, delta: int) {
    forall f: nat :: FlowCount(m, f) == FlowCount(l, f) + if f == flow then delta else 0
  }

  lemma Counted(a: seq<Account>, l: seq<Entry>, m: seq<Entry>, i: nat, flow: nat, delta: int)
    requires AccountsOk(a, l) && Differs(l, m, flow, delta) && i < |a| && a[i].active && a[i].flow == flow && a[i].count + delta > 0
    ensures AccountsOk(a[i := Account(true, flow, a[i].count + delta)], m)
  {
    hide FlowCount;
    var b := a[i := Account(true, flow, a[i].count + delta)];
    forall f: nat | FlowCount(m, f) > 0 ensures HasAccount(b, f) {
      if f == flow {
        assert b[i].flow == f;
      } else {
        assert HasAccount(a, f);
        var x :| 0 <= x < |a| && a[x].active && a[x].flow == f;
        assert b[x].flow == f;
      }
    }
  }

  lemma Opened(a: seq<Account>, l: seq<Entry>, m: seq<Entry>, i: nat, flow: nat)
    requires AccountsOk(a, l) && Differs(l, m, flow, 1) && i < |a| && !a[i].active && !HasAccount(a, flow)
    ensures AccountsOk(a[i := Account(true, flow, 1)], m)
  {
    hide FlowCount;
    var b := a[i := Account(true, flow, 1)];
    assert FlowCount(l, flow) == 0;
    forall f: nat | FlowCount(m, f) > 0 ensures HasAccount(b, f) {
      if f == flow {
        assert b[i].flow == f;
      } else {
        assert HasAccount(a, f);
        var x :| 0 <= x < |a| && a[x].active && a[x].flow == f;
        assert b[x].flow == f;
      }
    }
  }

  lemma Closed(a: seq<Account>, l: seq<Entry>, m: seq<Entry>, i: nat, flow: nat)
    requires AccountsOk(a, l) && Differs(l, m, flow, -1) && i < |a| && a[i].active && a[i].flow == flow && a[i].count == 1
    ensures AccountsOk(a[i := Account(false, 0, 0)], m)
  {
    hide FlowCount;
    var b := a[i := Account(false, 0, 0)];
    forall f: nat | FlowCount(m, f) > 0 ensures HasAccount(b, f) {
      assert HasAccount(a, f);
      var x :| 0 <= x < |a| && a[x].active && a[x].flow == f;
      assert b[x].flow == f;
    }
  }

  class FlowAccounts {
    var table: seq<Account>

    constructor (cap: nat)
      ensures |table| == cap && AccountsOk(table, [])
    {
      table := seq(cap, i => Account(false, 0, 0));
    }

    /** find_flow_account: its index, or the capacity. */
    method Lookup(flow: nat) returns (k: nat)
      ensures k <= |table| && (k < |table| <==> HasAccount(table, flow))
      ensures k < |table| ==> table[k].active && table[k].flow == flow
    {
      for i := 0 to |table|
        invariant forall j :: 0 <= j < i ==> !(table[j].active && table[j].flow == flow)
      {
        if table[i].active && table[i].flow == flow {
          return i;
        }
      }
      return |table|;
    }

    /** flow_generation_count. */
    method Number(flow: nat, ghost l: seq<Entry>) returns (n: nat)
      requires AccountsOk(table, l)
      ensures n == FlowCount(l, flow)
    {
      var k := Lookup(flow);
      n := if k < |table| then table[k].count else 0;
    }

    /** account_add_generation: never fails while fewer generations are live than
        the table has accounts. */
    method Add(flow: nat, ghost l: seq<Entry>, ghost m: seq<Entry>) returns (ok: bool)
      requires AccountsOk(table, l) && Differs(l, m, flow, 1) && |l| < |table|
      modifies this
      ensures ok && |table| == old(|table|) && AccountsOk(table, m)
    {
      var k := Lookup(flow);
      if k < |table| {
        Counted(table, l, m, k, flow, 1);
        table := table[k := Account(true, flow, table[k].count + 1)];
        return true;
      }
      for i := 0 to |table|
        invariant table == old(table) && forall j :: 0 <= j < i ==> table[j].active
      {
        if !table[i].active {
          Opened(table, l, m, i, flow);
          table := table[i := Account(true, flow, 1)];
          return true;
        }
      }
      FullAccounts(table, l);
      return false;
    }

    /** account_remove_generation, releasing an empty account. */
    method Remove(flow: nat, ghost l: seq<Entry>, ghost m: seq<Entry>)
      requires AccountsOk(table, l) && Differs(l, m, flow, -1)
      modifies this
      ensures |table| == old(|table|) && AccountsOk(table, m)
    {
      assert FlowCount(l, flow) == FlowCount(m, flow) + 1;
      var k := Lookup(flow);
      if k < |table| {
        var count := table[k].count - 1;
        if count == 0 {
          Closed(table, l, m, k, flow);
          table := table[k := Account(false, 0, 0)];
        } else {
          Counted(table, l, m, k, flow, -1);
          table := table[k := Account(true, flow, count)];
        }
      }
    }
  }

  // ---------------------------------------------------------------------

  lemma RemoveDiffers(l: seq<Entry>, i: nat)
    requires i < |l|
    ensures Differs(l, RemoveAt(l, i), l[i].flow, -1) && Bytes(RemoveAt(l, i)) == Bytes(l) - l[i].bytes
  {
    SumsRemove(l, i);
    hide FlowCount, RemoveAt;
  }

  lemma PushDiffers(l: seq<Entry>, e: Entry)
    ensures Differs(l, [e] + l, e.flow, 1) && Bytes([e] + l) == Bytes(l) + e.bytes
  {
    SumsConcat([e], l);
    SumsOne(e);
    hide FlowCount;
  }

  lemma {:induction false} UnexpiredConcat(cfg: Config, a: seq<Entry>, b: seq<Entry>, now: nat, flow: int)
    ensures Unexpired(cfg, a + b, now, flow) == Unexpired(cfg, a, now, flow) + Unexpired(cfg, b, now, flow)
  {
    hide Expires;
    if |b| == 0 {
      assert a + b == a;
    } else {
      var n := |b| - 1;
      UnexpiredConcat(cfg, a, b[..n], now, flow);
      assert (a + b)[..|a| + n] == a + b[..n];
    }
  }

  /** Scanning towards the head: one entry kept or dropped in front of the rest. */
  lemma ScanStep(cfg: Config, l: seq<Entry>, i: nat, now: nat, flow: int)
    requires i < |l|
    ensures var r := l[..i + 1] + Unexpired(cfg, l[i + 1..], now, flow);
            i < |r| && r[i] == l[i] &&
            l[..i] + Unexpired(cfg, l[i..], now, flow) == if Expires(cfg, l[i], now, flow) then RemoveAt(r, i) else r
  {
    UnexpiredConcat(cfg, [l[i]], l[i + 1..], now, flow);
    assert l[i..] == [l[i]] + l[i + 1..];
    assert [l[i]][..0] == [];
    var u := Unexpired(cfg, l[i + 1..], now, flow);
    var r := l[..i + 1] + u;
    assert l[..i + 1] == l[..i] + [l[i]];
    assert RemoveAt(r, i) == l[..i] + u;
  }

  /** What is removed first does not come back: a second pass finds nothing. */
  lemma {:induction false} UnexpiredTwice(cfg: Config, l: seq<Entry>, now: nat, flow: int)
    ensures Unexpired(cfg, Unexpired(cfg, l, now, flow), now, flow) == Unexpired(cfg, l, now, flow)
  {
    hide Expires;
    if |l| > 0 {
      var n := |l| - 1;
      UnexpiredTwice(cfg, l[..n], now, flow);
      var r := Unexpired(cfg, l[..n], now, flow);
      assert (r + [l[n]])[..|r|] == r;
    }
  }

  datatype Reason = Evict | Timeout

  function Removed(c: Cache, i: nat, reason: Reason): (d: Cache)
    requires i < |c.lru|
  {
    Cache(RemoveAt(c.lru, i),
          if reason == Evict then c.stats.(evicted := c.stats.evicted + 1) else c.stats.(timeouts := c.stats.timeouts + 1))
  }

  class CacheObject {
    const cfg: Config
    const accounts: FlowAccounts
    var lru: seq<Entry>
    var count: nat
    var bytesCurrent: nat
    var stats: Stats

    ghost predicate Exact()
      reads this, accounts
    {
      ConfigOk(cfg) && count == |lru| && bytesCurrent == Bytes(lru) && |accounts.table| == cfg.maxGlobal && AccountsOk(accounts.table, lru)
    }

    ghost predicate Valid()
      reads this, accounts
    {
      Exact() && CacheOk(cfg, Abs())
    }

    ghost function Abs(): (c: Cache)
      reads this
    {
      Cache(lru, stats)
    }

    constructor (cfg: Config)
      requires ConfigOk(cfg)
      ensures Valid() && this.cfg == cfg && fresh(accounts) && Abs() == Cache([], Stats(0, 0, 0, 0, 0, 0, 0, 0))
    {
      this.cfg := cfg;
      accounts := new FlowAccounts(cfg.maxGlobal);
      lru, count, bytesCurrent, stats := [], 0, 0, Stats(0, 0, 0, 0, 0, 0, 0, 0);
    }

    /** cache_remove_entry. */
    method RemoveEntry(i: nat, reason: Reason)
      requires Exact() && i < |lru|
      modifies this, accounts
      ensures Exact() && Abs() == Removed(old(Abs()), i, reason)
    {
      hide AccountsOk, RemoveAt, Bytes, Differs;
      RemoveDiffers(lru, i);
      var e := lru[i];
      accounts.Remove(e.flow, lru, RemoveAt(lru, i));
      lru := RemoveAt(lru, i);
      bytesCurrent := bytesCurrent - e.bytes;
      count := count - 1;
      stats := if reason == Evict then stats.(evicted := stats.evicted + 1) else stats.(timeouts := stats.timeouts + 1);
    }

    /** expire_one_pass, from the least recent entry towards the most recent. */
    method ExpireOnePass(now: nat, flow: int)
      requires Exact()
      modifies this, accounts
      ensures Exact() && Abs() == Expire(cfg, old(Abs()), now, flow)
    {
      hide AccountsOk, Bytes, RemoveAt, Expires, Unexpired;
      ghost var l := lru;
      var i := |lru|;
      assert l[|l|..] == [] && l[..|l|] == l;
      assert Unexpired(cfg, [], now, flow) == [] by { NoneToExpire(cfg, now, flow); }
      while i > 0
        invariant 0 <= i <= |l| && |lru| <= |l| && Exact()
        invariant lru == l[..i] + Unexpired(cfg, l[i..], now, flow)
        invariant stats == old(stats).(timeouts := old(stats).timeouts + |l| - |lru|)
      {
        i := i - 1;
        ScanStep(cfg, l, i, now, flow);
        if Expires(cfg, lru[i], now, flow) {
          RemoveEntry(i, Timeout);
        }
      }
      assert l[0..] == l;
      assert lru == Unexpired(cfg, l, now, flow);
    }

    /** The victim search of make_room. */
    method FindVictim(flow: nat) returns (i: nat)
      requires Exact() && |lru| > 0
      ensures i == Victim(cfg, lru, flow)
    {
      hide Bytes, AccountsOk;
      var n := accounts.Number(flow, lru);
      if n >= cfg.maxPerFlow {
        var k := |lru|;
        while k > 0
          invariant 0 <= k <= |lru| && forall j :: k <= j < |lru| ==> lru[j].flow != flow
        {
          k := k - 1;
          if lru[k].flow == flow {
            return k;
          }
        }
      }
      return |lru| - 1;
    }

    method NeedsEviction(flow: nat, len: nat) returns (needs: bool)
      requires Exact()
      ensures needs == Needs(cfg, lru, flow, len)
    {
      hide Bytes, AccountsOk;
      var n := accounts.Number(flow, lru);
      return n >= cfg.maxPerFlow || count >= cfg.maxGlobal || bytesCurrent + len > cfg.maxBytes;
    }

    /** make_room: the iteration guard never stops it early. */
    method MakeRoom(flow: nat, len: nat, now: nat) returns (ok: bool)
      requires Exact() && |lru| <= cfg.maxGlobal && Unexpired(cfg, lru, now, -1) == lru
      modifies this, accounts
      ensures Exact() && lru == Room(cfg, old(lru), flow, len) && ok == !Needs(cfg, lru, flow, len)
      ensures stats == old(stats).(evicted := old(stats).evicted + |old(lru)| - |lru|)
    {
      hide AccountsOk, Bytes, Needs, RemoveAt, Unexpired;
      ExpireOnePass(now, -1);
      var guard := 0;
      var needs := NeedsEviction(flow, len);
      while needs && count > 0 && guard < cfg.maxGlobal + 8
        invariant Exact() && needs == Needs(cfg, lru, flow, len) && Room(cfg, lru, flow, len) == Room(cfg, old(lru), flow, len)
        invariant guard == |old(lru)| - |lru| && stats == old(stats).(evicted := old(stats).evicted + guard)
        decreases count
      {
        guard := guard + 1;
        var victim := FindVictim(flow);
        RemoveEntry(victim, Evict);
        needs := NeedsEviction(flow, len);
      }
      return !needs;
    }

    /** find_entry. */
    method FindEntry(flow: nat, block: nat) returns (i: nat)
      ensures i == Find(lru, flow, block)
    {
      i := 0;
      while i < |lru|
        invariant i <= |lru| && FindFrom(lru, flow, block, i) == FindFrom(lru, flow, block, 0)
      {
        if lru[i].flow == flow && lru[i].block == block {
          return;
        }
        i := i + 1;
      }
    }

    /** The eviction loop of store_slot. */
    method EvictOthers(flow: nat, block: nat, len: nat)
      requires Exact()
      modifies this, accounts
      ensures Exact() && lru == GrowRoom(cfg, old(lru), flow, block, len)
      ensures stats == old(stats).(evicted := old(stats).evicted + |old(lru)| - |lru|)
    {
      hide AccountsOk, Bytes, RemoveAt;
      while bytesCurrent + len > cfg.maxBytes && count > 0
        invariant Exact() && GrowRoom(cfg, lru, flow, block, len) == GrowRoom(cfg, old(lru), flow, block, len)
        invariant |lru| <= |old(lru)| && stats == old(stats).(evicted := old(stats).evicted + |old(lru)| - |lru|)
        decreases count
      {
        var victim := FindOther(flow, block);
        if victim == |lru| {
          return;
        }
        RemoveEntry(victim, Evict);
      }
    }

    /** The least recent entry with another key, or the length. */
    method FindOther(flow: nat, block: nat) returns (i: nat)
      ensures i == LastOther(lru, flow, block)
    {
      var k := |lru|;
      while k > 0
        invariant 0 <= k <= |lru| && forall j :: k <= j < |lru| ==> lru[j].flow == flow && lru[j].block == block
      {
        k := k - 1;
        if !(lru[k].flow == flow && lru[k].block == block) {
          return k;
        }
      }
      return |lru|;
    }

    /** Fills a shard of the entry at i and moves it to the front. */
    method FillEntry(i: nat, h: Header, len: nat, now: nat)
      requires Exact() && i < |lru| && h.index < |lru[i].slots|
      modifies this
      ensures Exact()
      ensures var e := old(lru[i]);
              var f := Filled(e, h, len, now);
              lru == [f] + RemoveAt(old(lru), i) &&
              stats == old(stats).(peak := Max(old(stats).peak, Bytes(old(lru)) + len), readied := old(stats).readied + if f.ready && !e.ready then 1 else 0)
    {
      var e := lru[i];
      var f := Filled(e, h, len, now);
      SameFlows(lru, i, f);
      hide AccountsOk, Bytes, RemoveAt;
      RemoveDiffers(lru, i);
      PushDiffers(RemoveAt(lru, i), f);
      assert AccountsOk(accounts.table, [f] + RemoveAt(lru, i)) by { MovedAccounts(accounts.table, lru, [f] + RemoveAt(lru, i)); }
      lru := [f] + RemoveAt(lru, i);
      bytesCurrent := bytesCurrent + len;
      stats := stats.(peak := Max(stats.peak, bytesCurrent), readied := stats.readied + if f.ready && !e.ready then 1 else 0);
    }

    /** store_slot. */
    method StoreSlot(i: nat, h: Header, len: nat, now: nat) returns (status: Status)
      requires Exact() && Unique(lru) && i == Find(lru, h.flow, h.block) < |lru|
      modifies this, accounts
      ensures Exact() && (Abs(), status) == Store(cfg, old(Abs()), i, h, len, now)
    {
      var e := lru[i];
      if h.index >= |e.slots| {
        stats := stats.(mismatch := stats.mismatch + 1);
        return Mismatch;
      }
      if e.slots[h.index].Present? {
        stats := stats.(duplicate := stats.duplicate + 1);
        return Duplicate;
      }
      FoundAgain(cfg, lru, i, len);
      hide AccountsOk, Bytes, RemoveAt, GrowRoom, Filled, Find, Unique;
      EvictOthers(e.flow, e.block, len);
      if bytesCurrent + len > cfg.maxBytes {
        stats := stats.(failed := stats.failed + 1);
        return AdmissionFailed;
      }
      var j := FindEntry(e.flow, e.block);
      FillEntry(j, h, len, now);
      return InsertOk;
    }

    /** A fresh, empty entry at the front, with its account. */
    method PushFresh(h: Header, now: nat)
      requires Exact() && |lru| < cfg.maxGlobal
      modifies this, accounts
      ensures Exact() && lru == [FreshEntry(h, now)] + old(lru) && stats == old(stats).(created := old(stats).created + 1)
    {
      hide AccountsOk, Bytes, Differs;
      var e := FreshEntry(h, now);
      PushDiffers(lru, e);
      var ok := accounts.Add(h.flow, lru, [e] + lru);
      lru := [e] + lru;
      count := count + 1;
      stats := stats.(created := stats.created + 1);
    }

    /** The first shard of an unknown generation. A shard that found room is
        always stored, so the roll-back of a new entry is never taken. */
    method AdmitNew(h: Header, len: nat, now: nat) returns (status: Status)
      requires Exact() && ListOk(cfg, lru) && Unexpired(cfg, lru, now, -1) == lru
      requires h.index < h.meta.shardCount && Find(lru, h.flow, h.block) == |lru|
      modifies this, accounts
      ensures Exact() && (Abs(), status) == InsertNew(cfg, old(Abs()), h, len, now)
    {
      hide AccountsOk, Bytes, Unique, Room, Needs, Store, Filled, Find, Unexpired, EntryOk;
      ghost var before := lru;
      var ok := MakeRoom(h.flow, len, now);
      if !ok {
        stats := stats.(failed := stats.failed + 1);
        return AdmissionFailed;
      }
      RoomIsFree(cfg, lru, h.flow, len);
      FreshInFront(cfg, before, lru, h, len, now);
      StoreFresh(cfg, Cache(lru, stats), h, len, now);
      PushFresh(h, now);
      status := StoreSlot(0, h, len, now);
    }

    /** generation_cache_insert. */
    method InsertDatagram(h: Header, len: nat, now: nat) returns (status: Status)
      requires Valid()
      modifies this, accounts
      ensures Valid() && (Abs(), status) == Insert(cfg, old(Abs()), h, len, now)
    {
      hide AccountsOk, Bytes, Unique, InsertNew, Store, Find, Unexpired, Sorted, EntryOk;
      InsertKeeps(cfg, Abs(), h, len, now);
      if len < WIRE_HEADER_SIZE || !h.isData {
        return Invalid;
      }
      if h.meta.shardCount == 0 || h.meta.shardCount > MAX_SHARD_COUNT || h.index >= h.meta.shardCount {
        stats := stats.(mismatch := stats.mismatch + 1);
        return Mismatch;
      }
      ExpireKeeps(cfg, Abs(), now, -1, now);
      UnexpiredTwice(cfg, lru, now, -1);
      ExpireOnePass(now, -1);
      var i := FindEntry(h.flow, h.block);
      if i == |lru| {
        status := AdmitNew(h, len, now);
        return;
      }
      if lru[i].meta != h.meta {
        stats := stats.(mismatch := stats.mismatch + 1);
        return Mismatch;
      }
      status := StoreSlot(i, h, len, now);
    }

    /** generation_cache_expire. */
    method ExpireNow(now: nat, flow: int)
      requires Valid()
      modifies this, accounts
      ensures Valid() && Abs() == Expire(cfg, old(Abs()), now, flow)
    {
      ExpireKeeps(cfg, Abs(), now, flow, now);
      ExpireOnePass(now, flow);
    }

    /** generation_cache_earliest_deadline_ns: zero when empty, else the first time
        at which some entry times out. */
    method EarliestDeadline() returns (at: nat)
      requires Valid()
      ensures |lru| == 0 ==> at == 0
      ensures |lru| > 0 ==> at > 0 && exists i :: 0 <= i < |lru| && TimedOut(cfg, lru[i], at)
      ensures forall t: nat, i :: 0 <= i < |lru| && TimedOut(cfg, lru[i], t) ==> t >= at
    {
      at := 0;
      if count == 0 {
        return;
      }
      var timeout := cfg.timeoutMs * MILLISECOND;
      var k := 0;
      for i := 0 to |lru|
        invariant i > 0 ==> k < i && at == lru[k].lastUpdate + timeout && forall j :: 0 <= j < i ==> lru[j].lastUpdate >= lru[k].lastUpdate
        invariant i == 0 ==> at == 0
      {
        var deadline := lru[i].lastUpdate + timeout;
        if at == 0 || deadline < at {
          at, k := deadline, i;
        }
      }
      assert TimedOut(cfg, lru[k], at);
    }

    /** generation_cache_poll_timeout_ms: never past the deadline by a millisecond
        or more, zero exactly when something is due, and at most the idle poll. */
    method PollTimeout(now: nat, emptyPoll: int) returns (ms: nat)
      requires Valid()
      ensures ms <= if emptyPoll < 1 then 1 else emptyPoll
      ensures ms == 0 <==> exists i :: 0 <= i < |lru| && TimedOut(cfg, lru[i], now)
      ensures ms > 0 ==> (forall t: nat, i :: 0 <= i < |lru| && TimedOut(cfg, lru[i], t) ==> t > now + (ms - 1) * MILLISECOND)
    {
      hide CacheOk, Bytes, AccountsOk;
      var idle: nat := if emptyPoll < 1 then 1 else emptyPoll;
      if count == 0 {
        return idle;
      }
      var deadline := EarliestDeadline();
      if now >= deadline {
        var i :| 0 <= i < |lru| && TimedOut(cfg, lru[i], deadline);
        assert TimedOut(cfg, lru[i], now);
        return 0;
      }
      ms := (deadline - now + (MILLISECOND - 1)) / MILLISECOND;
      assert 0 < ms && (ms - 1) * MILLISECOND < deadline - now;
      if ms > idle {
        ms := idle;
      }
    }
  }

  lemma RoomIsFree(cfg: Config, l: seq<Entry>, flow: nat, len: nat)
    requires !Needs(cfg, l, flow, len)
    ensures |l| < cfg.maxGlobal && Bytes(l) + len <= cfg.maxBytes
  {}

  lemma FreshInFront(cfg: Config, before: seq<Entry>, l: seq<Entry>, h: Header, len: nat, now: nat)
    requires ListOk(cfg, before) && Find(before, h.flow, h.block) == |before| && l == Room(cfg, before, h.flow, len)
    ensures Unique([FreshEntry(h, now)] + l) && Find([FreshEntry(h, now)] + l, h.flow, h.block) == 0
  {
    var e := FreshEntry(h, now);
    RoomKeeps(cfg, before, h.flow, len, now);
    RoomMembers(cfg, before, h.flow, len);
    forall j | 0 <= j < |l| ensures !SameKey(e, l[j]) {
      assert l[j] in before;
    }
    FrontUnique(e, l);
    hide Unique, Room, EntryOk, Bytes, FlowCount;
  }

  lemma FrontUnique(e: Entry, l: seq<Entry>)
    requires Unique(l) && forall j :: 0 <= j < |l| ==> !SameKey(e, l[j])
    ensures Unique([e] + l)
  {
    hide SameKey;
    assert forall j :: 0 < j < |[e] + l| ==> ([e] + l)[j] == l[j - 1];
  }

  /** Storing into the fresh entry needs no eviction and fills the front. */
  lemma StoreFresh(cfg: Config, c: Cache, h: Header, len: nat, now: nat)
    requires h.index < h.meta.shardCount && Bytes(c.lru) + len <= cfg.maxBytes && Find([FreshEntry(h, now)] + c.lru, h.flow, h.block) == 0
    ensures var e := FreshEntry(h, now);
            var f := Filled(e, h, len, now);
            var s := c.stats.(created := c.stats.created + 1);
            Store(cfg, Cache([e] + c.lru, s), 0, h, len, now) ==
            (Cache([f] + c.lru, s.(peak := Max(s.peak, Bytes(c.lru) + len), readied := s.readied + if f.ready then 1 else 0)), InsertOk)
  {
    hide Find, Filled;
    var e := FreshEntry(h, now);
    PushDiffers(c.lru, e);
    assert RemoveAt([e] + c.lru, 0) == c.lru;
    hide Bytes, Differs;
  }

  lemma SameFlows(l: seq<Entry>, i: nat, f: Entry)
    requires i < |l| && f.flow == l[i].flow
    ensures forall x :: FlowCount([f] + RemoveAt(l, i), x) == FlowCount(l, x)
  {
    SumsRemove(l, i);
    SumsConcat([f], RemoveAt(l, i));
    SumsOne(f);
    hide FlowCount, RemoveAt;
  }

  lemma MovedAccounts(a: seq<Account>, l: seq<Entry>, m: seq<Entry>)
    requires AccountsOk(a, l) && forall x :: FlowCount(m, x) == FlowCount(l, x)
    ensures AccountsOk(a, m)
  {}

  lemma NoneToExpire(cfg: Config, now: nat, flow: int)
    ensures Unexpired(cfg, [], now, flow) == []
  {}
}
