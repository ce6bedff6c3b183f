/** The relay's generation cache over a list, most recently updated first. */
module CacheList {
  import opened Arith

  const WIRE_HEADER_SIZE: nat := 44
  const MAX_SHARD_COUNT: nat := 256
  const MILLISECOND: nat := 1000000

  datatype Meta = Meta(finalDst: nat, shardCount: nat, validLen: nat, payloadLen: nat)

  datatype Header = Header(isData: bool, flow: nat, block: nat, index: nat, ttl: nat, meta: Meta)

  datatype Slot = Absent | Present(len: nat)

  datatype Entry = Entry(flow: nat, block: nat, meta: Meta, minTtl: nat, ready: bool, presentCount: nat,
                         lastUpdate: nat, bytes: nat, slots: seq<Slot>)

  datatype Config = Config(timeoutMs: nat, maxGlobal: nat, maxPerFlow: nat, maxBytes: nat)

  datatype Stats = Stats(created: nat, readied: nat, timeouts: nat, evicted: nat, failed: nat, mismatch: nat,
                         duplicate: nat, peak: nat)

  datatype Status = InsertOk | Duplicate | Mismatch | AdmissionFailed | Invalid

  datatype Cache = Cache(lru: seq<Entry>, stats: Stats)

  /** Initialisation replaces zero settings by non-zero defaults. */
  predicate ConfigOk(cfg: Config) {
    cfg.timeoutMs > 0 && cfg.maxGlobal > 0 && cfg.maxPerFlow > 0 && cfg.maxBytes > 0
  }

  // ---------------------------------------------------------------------
  // Sums over the list.

  function Bytes(l: seq<Entry>): (n: nat) {
    if |l| == 0 then 0 else Bytes(l[..|l| - 1]) + l[|l| - 1].bytes
  }

  function FlowCount(l: seq<Entry>, flow: nat): (n: nat)
    ensures n <= |l|
  {
    if |l| == 0 then 0 else FlowCount(l[..|l| - 1], flow) + if l[|l| - 1].flow == flow then 1 else 0
  }

  function SlotBytes(s: seq<Slot>): (n: nat) {
    if |s| == 0 then 0 else SlotBytes(s[..|s| - 1]) + if s[|s| - 1].Present? then s[|s| - 1].len else 0
  }

  function SlotCount(s: seq<Slot>): (n: nat)
    ensures n <= |s|
  {
    if |s| == 0 then 0 else SlotCount(s[..|s| - 1]) + if s[|s| - 1].Present? then 1 else 0
  }

  function RemoveAt(l: seq<Entry>, i: nat): (r: seq<Entry>)
    requires i < |l|
    ensures |r| == |l| - 1
  {
    l[..i] + l[i + 1..]
  }

  // ---------------------------------------------------------------------
  // Expiry.

  predicate TimedOut(cfg: Config, e: Entry, now: nat) {
    cfg.timeoutMs != 0 && now >= e.lastUpdate && now - e.lastUpdate >= cfg.timeoutMs * MILLISECOND
  }

  /** flow -1 stands for every flow. */
  predicate Expires(cfg: Config, e: Entry, now: nat, flow: int) {
    (flow < 0 || flow == e.flow) && TimedOut(cfg, e, now)
  }

  function Unexpired(cfg: Config, l: seq<Entry>, now: nat, flow: int): (r: seq<Entry>)
    ensures |r| <= |l|
  {
    if |l| == 0 then []
    else
      var r := Unexpired(cfg, l[..|l| - 1], now, flow);
      if Expires(cfg, l[|l| - 1], now, flow) then r else r + [l[|l| - 1]]
  }

  function Expire(cfg: Config, c: Cache, now: nat, flow: int): (d: Cache) {
    var l := Unexpired(cfg, c.lru, now, flow);
    Cache(l, c.stats.(timeouts := c.stats.timeouts + |c.lru| - |l|))
  }

  // ---------------------------------------------------------------------
  // Making room.

  predicate Needs(cfg: Config, l: seq<Entry>, flow: nat, len: nat) {
    FlowCount(l, flow) >= cfg.maxPerFlow || |l| >= cfg.maxGlobal || Bytes(l) + len > cfg.maxBytes
  }

  /** The last entry of the flow, or the last entry. */
  function LastOf(l: seq<Entry>, flow: nat): (i: nat)
    requires |l| > 0
    ensures i < |l|
    ensures FlowCount(l, flow) > 0 ==> l[i].flow == flow && forall j :: i < j < |l| ==> l[j].flow != flow
    ensures FlowCount(l, flow) == 0 ==> i == |l| - 1
  {
    if l[|l| - 1].flow == flow || FlowCount(l, flow) == 0 then |l| - 1
    else LastOf(l[..|l| - 1], flow)
  }

  function Victim(cfg: Config, l: seq<Entry>, flow: nat): (i: nat)
    requires |l| > 0
    ensures i < |l|
  {
    if FlowCount(l, flow) >= cfg.maxPerFlow then LastOf(l, flow) else |l| - 1
  }

  /** make_room: least recently updated first, within the flow while its own
      limit is the constraint. */
  function Room(cfg: Config, l: seq<Entry>, flow: nat, len: nat): (r: seq<Entry>)
    ensures |r| <= |l|
    decreases |l|
  {
    if Needs(cfg, l, flow, len) && |l| > 0 then Room(cfg, RemoveAt(l, Victim(cfg, l, flow)), flow, len) else l
  }

  /** The last entry with another key. */
  function LastOther(l: seq<Entry>, flow: nat, block: nat): (i: nat)
    ensures i <= |l|
    ensures i < |l| ==> !(l[i].flow == flow && l[i].block == block)
    ensures forall j :: i < j < |l| ==> l[j].flow == flow && l[j].block == block
    ensures i == |l| ==> forall j :: 0 <= j < |l| ==> l[j].flow == flow && l[j].block == block
  {
    if |l| == 0 then 0
    else if !(l[|l| - 1].flow == flow && l[|l| - 1].block == block) then |l| - 1
    else
      var i := LastOther(l[..|l| - 1], flow, block);
      if i == |l| - 1 then |l| else i
  }

  /** The eviction loop of store_slot: never the entry that is growing. */
  function GrowRoom(cfg: Config, l: seq<Entry>, flow: nat, block: nat, len: nat): (r: seq<Entry>)
    ensures |r| <= |l|
    decreases |l|
  {
    if Bytes(l) + len > cfg.maxBytes && LastOther(l, flow, block) < |l|
    then GrowRoom(cfg, RemoveAt(l, LastOther(l, flow, block)), flow, block, len) else l
  }

  // ---------------------------------------------------------------------
  // Insertion.

  /** find_entry: the first entry with the key, or the length. */
  function Find(l: seq<Entry>, flow: nat, block: nat): (i: nat)
    ensures i <= |l|
    ensures i < |l| ==> l[i].flow == flow && l[i].block == block
    ensures forall j :: 0 <= j < i ==> !(l[j].flow == flow && l[j].block == block)
  {
    FindFrom(l, flow, block, 0)
  }

  function FindFrom(l: seq<Entry>, flow: nat, block: nat, from: nat): (i: nat)
    requires from <= |l|
    ensures from <= i <= |l|
    ensures i < |l| ==> l[i].flow == flow && l[i].block == block
    ensures forall j :: from <= j < i ==> !(l[j].flow == flow && l[j].block == block)
    decreases |l| - from
  {
    if from == |l| || (l[from].flow == flow && l[from].block == block) then from else FindFrom(l, flow, block, from + 1)
  }

  /** The entry with one more shard. */
  function Filled(e: Entry, h: Header, len: nat, now: nat): (f: Entry)
    requires h.index < |e.slots|
  {
    e.(slots := e.slots[h.index := Present(len)], presentCount := e.presentCount + 1, bytes := e.bytes + len, lastUpdate := now,
       minTtl := if h.ttl < e.minTtl then h.ttl else e.minTtl, ready := e.ready || e.presentCount + 1 >= e.meta.shardCount)
  }

  function FreshEntry(h: Header, now: nat): (e: Entry) {
    Entry(h.flow, h.block, h.meta, h.ttl, false, 0, now, 0, seq(h.meta.shardCount, i => Absent))
  }

  /** The growing half of store_slot: evict others, then fill and move to front. */
  function Grow(cfg: Config, c: Cache, e: Entry, h: Header, len: nat, now: nat): (r: (Cache, Status))
    requires h.index < |e.slots|
  {
    var l := GrowRoom(cfg, c.lru, e.flow, e.block, len);
    var s := c.stats.(evicted := c.stats.evicted + |c.lru| - |l|);
    if Bytes(l) + len > cfg.maxBytes || Find(l, e.flow, e.block) == |l| then (Cache(l, s.(failed := s.failed + 1)), AdmissionFailed)
    else
      var f := Filled(e, h, len, now);
      (Cache([f] + RemoveAt(l, Find(l, e.flow, e.block)),
             s.(peak := Max(s.peak, Bytes(l) + len), readied := s.readied + if f.ready && !e.ready then 1 else 0)), InsertOk)
  }

  /** store_slot on the entry at i, which then becomes the most recent. */
  function Store(cfg: Config, c: Cache, i: nat, h: Header, len: nat, now: nat): (r: (Cache, Status))
    requires i < |c.lru|
  {
    var e := c.lru[i];
    if h.index >= |e.slots| then (c.(stats := c.stats.(mismatch := c.stats.mismatch + 1)), Mismatch)
    else if e.slots[h.index].Present? then (c.(stats := c.stats.(duplicate := c.stats.duplicate + 1)), Duplicate)
    else Grow(cfg, c, e, h, len, now)
  }

  /** Insertion of the first shard of an unknown generation. */
  function InsertNew(cfg: Config, d: Cache, h: Header, len: nat, now: nat): (r: (Cache, Status))
    requires h.index < h.meta.shardCount
  {
    var l := Room(cfg, d.lru, h.flow, len);
    var s := d.stats.(evicted := d.stats.evicted + |d.lru| - |l|);
    if Needs(cfg, l, h.flow, len) then (Cache(l, s.(failed := s.failed + 1)), AdmissionFailed)
    else
      var f := Filled(FreshEntry(h, now), h, len, now);
      (Cache([f] + l, s.(created := s.created + 1, peak := Max(s.peak, Bytes(l) + len), readied := s.readied + if f.ready then 1 else 0)),
       InsertOk)
  }

  /** generation_cache_insert. */
  function Insert(cfg: Config, c: Cache, h: Header, len: nat, now: nat): (r: (Cache, Status)) {
    if len < WIRE_HEADER_SIZE || !h.isData then (c, Invalid)
    else if h.meta.shardCount == 0 || h.meta.shardCount > MAX_SHARD_COUNT || h.index >= h.meta.shardCount then
      (c.(stats := c.stats.(mismatch := c.stats.mismatch + 1)), Mismatch)
    else
      var d := Expire(cfg, c, now, -1);
      var i := Find(d.lru, h.flow, h.block);
      if i == |d.lru| then InsertNew(cfg, d, h, len, now)
      else if d.lru[i].meta != h.meta then (d.(stats := d.stats.(mismatch := d.stats.mismatch + 1)), Mismatch)
      else Store(cfg, d, i, h, len, now)
  }
}
