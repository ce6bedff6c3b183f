/** The collecting slot of a FEC group, shard by shard, with an output that does
    not block. */
module FecReceiver {
  import opened Gf256
  import opened ErasureCode
  import opened FecTable
  import opened FecGroup
  import opened Arith

  /** Shards d .. k-2 carry nothing and are never sent. */
  function Unused(d: nat, k: nat): (s: set<nat>)
    requires d < k
  {
    Below(k - 1) - Below(d)
  }

  lemma {:induction false} OutputSize(records: seq<Bytes>, out: seq<Out>)
    requires OutputOk(records, out)
    ensures |Indices(out)| == |out|
  {
    if |out| > 0 {
      var n := |out| - 1;
      OutputSize(records, out[..n]);
      assert Indices(out) == Indices(out[..n]) + {out[n].index};
    }
  }

  /** The data rows of a group, as they come back out of its shards. */
  lemma RowFacts(c: ShardCodec, records: seq<Bytes>)
    requires CodecOk(c) && RecordsOk(c, records)
    ensures Codes(c, GroupData(c, records)) && LengthsOk(Lengths(records), c.size)
    ensures forall i :: 0 <= i < |records| ==> GroupShards(c, records)[i][..|records[i]|] == records[i] && |GroupShards(c, records)[i]| == c.size
    ensures forall i :: |records| <= i < c.k - 1 ==> GroupShards(c, records)[i] == Zeros(c.size)
    ensures GroupShards(c, records)[c.k - 1] == Table(Lengths(records), c.size)
  {
    var d := GroupData(c, records);
    assert Codes(c, d);
    forall i | 0 <= i < |records| ensures d[i][..|records[i]|] == records[i] {
      assert d[i] == records[i] + Zeros(c.size - |records[i]|);
    }
  }

  /** The collecting part of a decode group. */
  datatype State = State(hintValid: bool, metadataValid: bool, dataCount: nat, present: set<nat>, lengths: seq<nat>, block: seq<Bytes>)

  ghost predicate Setting(c: ShardCodec, records: seq<Bytes>) {
    CodecOk(c) && RecordsOk(c, records)
  }

  /** Only shards the sender sends arrive. */
  ghost predicate ArrivedOk(c: ShardCodec, records: seq<Bytes>, arrived: set<nat>) {
    forall i :: i in arrived ==> i < |records| || c.k <= i + 1 <= c.k + c.r
  }

  ghost predicate HasTail(c: ShardCodec, arrived: set<nat>) {
    exists i :: i in arrived && i + 1 >= c.k
  }

  ghost predicate RowsOk(c: ShardCodec, records: seq<Bytes>, st: State)
    requires Setting(c, records)
  {
    |st.block| == c.k + c.r && |GroupShards(c, records)| == c.k + c.r &&
    (forall i :: i in st.present ==> i < c.k + c.r && st.block[i] == GroupShards(c, records)[i]) &&
    (forall i :: |records| <= i < c.k - 1 ==> st.block[i] == Zeros(c.size))
  }

  ghost predicate LengthsKnown(c: ShardCodec, records: seq<Bytes>, arrived: set<nat>, st: State)
    requires Setting(c, records)
  {
    |st.lengths| == c.k - 1 &&
    forall i :: 0 <= i < c.k - 1 ==> st.lengths[i] == if i < |records| && (i in arrived || st.metadataValid) then |records[i]| else 0
  }

  /** The slot while it collects. */
  ghost predicate Collecting(c: ShardCodec, records: seq<Bytes>, arrived: set<nat>, st: State)
    requires Setting(c, records)
  {
    (st.hintValid <==> HasTail(c, arrived)) && (st.metadataValid ==> c.k - 1 in arrived) &&
    (st.hintValid || st.metadataValid ==> st.dataCount == |records|) &&
    st.present == arrived + (if st.hintValid then Unused(|records|, c.k) else {}) &&
    LengthsKnown(c, records, arrived, st) && RowsOk(c, records, st)
  }

  /** What has been written so far. */
  ghost predicate Written(records: seq<Bytes>, output: seq<Out>, delivered: set<nat>, released: set<nat>) {
    OutputOk(records, output) && Indices(output) == delivered && (released == {} ==> forall i :: 0 <= i < |output| ==> output[i].index == i)
  }

  function Limit(c: ShardCodec, st: State): (n: nat) {
    if st.hintValid || st.metadataValid || c.k == 0 then st.dataCount else c.k - 1
  }

  /** Below the limit, present shards are arrived records. */
  lemma PresentRecord(c: ShardCodec, records: seq<Bytes>, arrived: set<nat>, st: State, i: nat)
    requires Setting(c, records) && ArrivedOk(c, records, arrived) && Collecting(c, records, arrived, st) && i < Limit(c, st)
    ensures |records| <= Limit(c, st) && (i in st.present <==> i in arrived)
    ensures i in st.present ==>
      i < |records| && i < |st.block| && i < |st.lengths| && st.block[i] == GroupShards(c, records)[i] && st.lengths[i] == |records[i]|
  {
    hide CodecOk, GroupShards;
  }

  lemma LimitCovers(c: ShardCodec, records: seq<Bytes>, arrived: set<nat>, st: State)
    requires Setting(c, records) && Collecting(c, records, arrived, st)
    ensures |records| <= Limit(c, st)
  {
    hide CodecOk, RowsOk, LengthsKnown;
  }

  /** With the unused shards counted in, k shards are present exactly when d + 1
      have arrived. */
  lemma EnoughPresent(c: ShardCodec, records: seq<Bytes>, arrived: set<nat>, st: State)
    requires Setting(c, records) && ArrivedOk(c, records, arrived) && Collecting(c, records, arrived, st)
    ensures |st.present| >= c.k <==> |arrived| > |records|
  {
    hide CodecOk, RowsOk, LengthsKnown, Below;
    var d := |records|;
    if st.hintValid {
      UnusedSize(d, c.k);
      assert arrived !! Unused(d, c.k);
    } else {
      assert arrived <= Below(d);
      SubsetSize(arrived, Below(d));
    }
  }

  lemma UnusedSize(d: nat, k: nat)
    requires d < k
    ensures |Unused(d, k)| == k - 1 - d
  {
    hide Below;
    assert Below(k - 1) == Unused(d, k) + Below(d);
    assert Unused(d, k) !! Below(d);
  }

  ghost predicate RecordsReady(c: ShardCodec, records: seq<Bytes>, st: State)
    requires Setting(c, records)
  {
    |records| <= |st.block| && |records| <= |st.lengths| &&
    forall i :: 0 <= i < |records| ==> st.block[i] == GroupShards(c, records)[i] && st.lengths[i] == |records[i]|
  }

  lemma ReadyAt(c: ShardCodec, records: seq<Bytes>, st: State, i: nat)
    requires Setting(c, records) && RecordsReady(c, records, st) && i < |records|
    ensures i < |st.block| && i < |st.lengths| && st.block[i] == GroupShards(c, records)[i] && st.lengths[i] == |records[i]|
  {}

  /** One more record out. */
  lemma WrittenMore(c: ShardCodec, records: seq<Bytes>, output: seq<Out>, delivered: set<nat>, released: set<nat>, i: nat)
    requires Setting(c, records) && Written(records, output, delivered, released) && i < |records| && i !in delivered
    requires released == {} ==> delivered == Below(i)
    ensures Written(records, output + [Out(i, records[i])], delivered + {i}, released)
  {
    OutputSize(records, output);
    OutputAdd(records, output, i);
    hide OutputOk, Indices, CodecOk, RecordsOk;
  }

  /** The metadata shard is there, and known lengths agree with the records. */
  ghost predicate TableReady(c: ShardCodec, records: seq<Bytes>, st: State)
    requires Setting(c, records)
  {
    c.k <= |st.block| && st.block[c.k - 1] == GroupShards(c, records)[c.k - 1] &&
    (st.hintValid ==> st.dataCount == |records|) && |st.lengths| == c.k - 1 &&
    forall i :: 0 <= i < |records| ==> st.lengths[i] == 0 || st.lengths[i] == |records[i]|
  }

  function Joined(rows: seq<Bytes>): (b: Bytes) {
    if |rows| == 0 then [] else rows[0] + Joined(rows[1..])
  }

  /** The rows of a block from the table's on. */
  function TailOf(c: ShardCodec, st: State): (b: Bytes)
    requires 0 < c.k <= |st.block|
  {
    Joined(st.block[c.k - 1..])
  }

  lemma TableReads(c: ShardCodec, records: seq<Bytes>, st: State, i: nat)
    requires Setting(c, records) && TableReady(c, records, st) && i < |records|
    ensures var tail := TailOf(c, st);
            2 * |records| < c.size <= |tail| && CountIn(tail) == |records| && LengthIn(tail, i) == |records[i]| <= c.size && |records[i]| > 0
  {
    RowFacts(c, records);
    var rows := st.block[c.k - 1..];
    assert Joined(rows) == rows[0] + Joined(rows[1..]);
    hide CodecOk, GroupShards, LengthsOk, Joined;
    ReadBack(Lengths(records), c.size, i);
  }

  /** What the receiver finds in the table of a group. */
  ghost predicate TableRight(c: ShardCodec, records: seq<Bytes>, tail: Bytes, known: seq<nat>) {
    2 * |records| < |tail| && CountIn(tail) == |records| <= |known| &&
    forall i :: 0 <= i < |records| ==> LengthGood(tail, c.size, known, i) && LengthIn(tail, i) == |records[i]|
  }

  lemma TableServes(c: ShardCodec, records: seq<Bytes>, st: State)
    requires Setting(c, records) && TableReady(c, records, st)
    ensures TableRight(c, records, TailOf(c, st), st.lengths) && CountGood(TailOf(c, st), c.k, st.hintValid, st.dataCount)
  {
    TableReads(c, records, st, 0);
    forall i | 0 <= i < |records|
      ensures LengthGood(TailOf(c, st), c.size, st.lengths, i) && LengthIn(TailOf(c, st), i) == |records[i]|
    {
      TableReads(c, records, st, i);
      hide CountIn, LengthIn, GroupShards, CodecOk, TailOf;
    }
    hide LengthIn, GroupShards, CodecOk, TailOf;
  }

  function ReceivedRows(st: State): (m: map<nat, Bytes>) {
    map i | i in st.present && i < |st.block| :: st.block[i]
  }

  /** Every data row is the group's. */
  ghost predicate RowsFull(c: ShardCodec, records: seq<Bytes>, st: State)
    requires Setting(c, records)
  {
    c.k <= |st.block| && forall i :: 0 <= i < c.k ==> st.block[i] == GroupShards(c, records)[i]
  }

  /** The codec step of recover_group. */
  lemma RowsRecovered(c: ShardCodec, records: seq<Bytes>, st: State)
    requires Setting(c, records) && RowsOk(c, records, st) && |st.present| >= c.k
    ensures c.recover(ReceivedRows(st)) == Restored(GroupData(c, records))
    ensures RowsFull(c, records, st.(block := GroupData(c, records) + st.block[c.k..]))
    ensures Below(c.k) <= st.present ==> RowsFull(c, records, st)
  {
    hide Below;
    var d, m := GroupData(c, records), ReceivedRows(st);
    assert Codes(c, d);
    assert m.Keys == st.present;
    assert |m| == |m.Keys|;
    assert Part(m, GroupShards(c, records));
    assert c.recover(m) == Restored(d);
    hide GroupData, CodecOk;
  }

  lemma FullRowsServe(c: ShardCodec, records: seq<Bytes>, arrived: set<nat>, st: State, st': State)
    requires Setting(c, records) && Collecting(c, records, arrived, st) && RowsFull(c, records, st')
    requires st' == st.(block := st'.block, present := st'.present)
    ensures TableReady(c, records, st')
  {
    hide CodecOk, GroupShards, RowsOk;
  }

  lemma BlockHas(c: ShardCodec, records: seq<Bytes>, st: State)
    requires Setting(c, records) && RowsOk(c, records, st)
    ensures c.k <= |st.block|
  {}

  lemma FullSame(c: ShardCodec, records: seq<Bytes>, st: State, st': State)
    requires Setting(c, records) && RowsFull(c, records, st) && st'.block == st.block
    ensures RowsFull(c, records, st')
  {}

  lemma FullReady(c: ShardCodec, records: seq<Bytes>, full: State, st: State)
    requires Setting(c, records) && RowsFull(c, records, full) && st.block == full.block && |st.lengths| == c.k - 1
    requires forall i :: 0 <= i < |records| ==> st.lengths[i] == |records[i]|
    ensures RecordsReady(c, records, st)
  {
    hide CodecOk, GroupShards;
  }

  // ---------------------------------------------------------------------
  // A shard comes in.

  /** The size field of a tail shard names the number of records. */
  lemma HintReads(c: ShardCodec, records: seq<Bytes>, s: Shard)
    requires Setting(c, records) && FromGroup(c, records, s) && s.index >= c.k - 1
    ensures s.validLen % c.size == 0 && s.validLen / c.size == |records| + 1 && 2 * c.size <= s.validLen <= c.k * c.size
  {
    hide CodecOk, GroupShards, GroupData, Table;
    DivModOf(|records| + 1, 0, c.size);
    MulMonotone(|records| + 1, c.k, c.size);
    MulMonotone(2, |records| + 1, c.size);
  }

  /** The state with the hint of a tail shard taken. */
  function Hinted(c: ShardCodec, st: State, s: Shard, d: nat): (t: State)
    requires d < c.k
  {
    if s.index >= c.k - 1 then st.(hintValid := true, dataCount := d, present := st.present + Unused(d, c.k)) else st
  }

  /** The number of records a tail shard's size field names. */
  function HintOf(c: ShardCodec, s: Shard): (d: nat)
    requires c.k > 0 && c.size > 0
    ensures d < c.k
  {
    if s.index >= c.k - 1 && 2 * c.size <= s.validLen <= c.k * c.size then HintRange(c, s.validLen); s.validLen / c.size - 1 else 0
  }

  /** A record shard inside the known count, or a tail shard whose size field is a
      whole number of shards in range and agrees with what is known. */
  predicate HintOk(c: ShardCodec, st: State, s: Shard)
    requires c.k > 0 && c.size > 0
  {
    if s.index < c.k - 1 then st.hintValid ==> s.index < st.dataCount
    else 2 * c.size <= s.validLen <= c.k * c.size && s.validLen % c.size == 0 && (st.hintValid ==> st.dataCount == HintOf(c, s))
  }

  lemma HintRange(c: ShardCodec, len: nat)
    requires c.size > 0 && 2 * c.size <= len <= c.k * c.size
    ensures 2 <= len / c.size <= c.k
  {
    var q := len / c.size;
    assert len == q * c.size + len % c.size;
    assert (c.k + 1) * c.size == c.k * c.size + c.size;
    assert (q + 1) * c.size == q * c.size + c.size;
    MulCancelLess(q, c.k + 1, c.size);
    MulCancelLess(1, q, c.size);
  }

  /** The size field is that of d records and their table. */
  predicate NamesCount(c: ShardCodec, s: Shard, d: nat) { 0 < d < c.k && s.validLen == (d + 1) * c.size }

  /** A tail shard is accepted exactly when its size field is that of a group of d
      records, for some d from 1 up to the message shards that agrees with what is
      known; and d is then what it names. */
  lemma HintExactly(c: ShardCodec, st: State, s: Shard)
    requires c.k > 0 && c.size > 0 && s.index >= c.k - 1
    ensures HintOk(c, st, s) <==> exists d: nat :: NamesCount(c, s, d) && (st.hintValid ==> st.dataCount == d)
    ensures forall d: nat :: NamesCount(c, s, d) ==> HintOf(c, s) == d
  {
    if HintOk(c, st, s) {
      HintRange(c, s.validLen);
      DivWhole(s.validLen, c.size);
      assert NamesCount(c, s, HintOf(c, s));
    }
    forall d: nat | NamesCount(c, s, d) ensures HintOf(c, s) == d && s.validLen % c.size == 0 && 2 * c.size <= s.validLen <= c.k * c.size {
      DivModOf(d + 1, 0, c.size);
      MulMonotone(2, d + 1, c.size);
      MulMonotone(d + 1, c.k, c.size);
    }
  }

  lemma DivWhole(n: nat, m: nat)
    requires m > 0 && n % m == 0
    ensures n / m * m == n
  {}

  /** A shard of the group is never refused, and names the group's own count. */
  lemma GenuineHint(c: ShardCodec, records: seq<Bytes>, st: State, s: Shard)
    requires Setting(c, records) && FromGroup(c, records, s) && (st.hintValid ==> st.dataCount == |records|)
    ensures c.size > 0 && HintOk(c, st, s) && Hinted(c, st, s, HintOf(c, s)) == Hinted(c, st, s, |records|)
  {
    hide CodecOk, GroupShards, Unused;
    if s.index >= c.k - 1 { HintReads(c, records, s); }
  }

  function Stored(c: ShardCodec, st: State, s: Shard): (t: State) {
    st.(present := st.present + {s.index}, block := if s.index < |st.block| then st.block[s.index := s.payload] else st.block,
        lengths := if s.index < c.k - 1 && s.index < |st.lengths| then st.lengths[s.index := s.payloadLen] else st.lengths)
  }

  lemma StoredRows(c: ShardCodec, records: seq<Bytes>, arrived: set<nat>, st: State, s: Shard)
    requires Setting(c, records) && FromGroup(c, records, s) && RowsOk(c, records, st)
    ensures RowsOk(c, records, Stored(c, Hinted(c, st, s, |records|), s))
  {
    RowFacts(c, records);
    hide CodecOk, GroupShards, Below;
  }

  lemma StoredLengths(c: ShardCodec, records: seq<Bytes>, arrived: set<nat>, st: State, s: Shard)
    requires Setting(c, records) && FromGroup(c, records, s) && LengthsKnown(c, records, arrived, st)
    ensures LengthsKnown(c, records, arrived + {s.index}, Stored(c, Hinted(c, st, s, |records|), s))
  {
    hide CodecOk, GroupShards, Unused;
  }

  lemma StoredHint(c: ShardCodec, arrived: set<nat>, i: nat)
    ensures HasTail(c, arrived + {i}) <==> HasTail(c, arrived) || i + 1 >= c.k
  {
    var more := arrived + {i};
    if HasTail(c, arrived) {
      var x :| x in arrived && x + 1 >= c.k;
      assert x in more;
    }
    if i + 1 >= c.k {
      assert i in more;
    }
  }

  lemma StoredCollects(c: ShardCodec, records: seq<Bytes>, arrived: set<nat>, st: State, s: Shard)
    requires Setting(c, records) && FromGroup(c, records, s) && Collecting(c, records, arrived, st)
    ensures Collecting(c, records, arrived + {s.index}, Stored(c, Hinted(c, st, s, |records|), s))
  {
    hide CodecOk, GroupShards, FromGroup, Unused, RowsOk, LengthsKnown, HasTail;
    StoredRows(c, records, arrived, st, s);
    StoredLengths(c, records, arrived, st, s);
    StoredHint(c, arrived, s.index);
    var t, u := Stored(c, Hinted(c, st, s, |records|), s), Unused(|records|, c.k);
    assert t.hintValid ==> t.present == arrived + {s.index} + u;
    assert !t.hintValid ==> t.present == arrived + {s.index};
  }

  lemma MetadataCollects(c: ShardCodec, records: seq<Bytes>, arrived: set<nat>, st: State, st': State)
    requires Setting(c, records) && Collecting(c, records, arrived, st) && c.k - 1 in arrived && |st'.lengths| == c.k - 1
    requires st' == st.(lengths := st'.lengths, dataCount := |records|, metadataValid := true, present := st.present + Unused(|records|, c.k))
    requires forall i :: 0 <= i < |records| ==> st'.lengths[i] == |records[i]|
    requires forall i :: |records| <= i < c.k - 1 ==> st'.lengths[i] == st.lengths[i]
    ensures Collecting(c, records, arrived, st')
  {
    assert HasTail(c, arrived) by { assert c.k - 1 in arrived && c.k - 1 + 1 >= c.k; }
    hide CodecOk, GroupShards, Below;
  }

  lemma TableThere(c: ShardCodec, records: seq<Bytes>, arrived: set<nat>, st: State)
    requires Setting(c, records) && Collecting(c, records, arrived, st) && c.k - 1 in st.present
    ensures TableReady(c, records, st) && c.k - 1 in arrived
  {
    hide CodecOk, GroupShards, Below;
  }

  lemma {:induction false} LeadingGrows(arrived: set<nat>, more: set<nat>, d: nat, from: nat)
    requires arrived <= more && from <= d
    ensures Leading(arrived, d, from) <= Leading(more, d, from)
    decreases d - from
  {
    if from < d && from in arrived { LeadingGrows(arrived, more, d, from + 1); }
  }

  lemma TailKeepsLeading(c: ShardCodec, records: seq<Bytes>, arrived: set<nat>, i: nat)
    requires Setting(c, records) && i >= c.k - 1
    ensures Leading(arrived + {i}, |records|, 0) == Leading(arrived, |records|, 0)
  {
    hide CodecOk;
    LeadingGrows(arrived, arrived + {i}, |records|, 0);
    var n := Leading(arrived, |records|, 0);
    assert n < |records| ==> n !in arrived + {i};
    hide Leading;
  }

  /** All records out and the table here: d + 1 shards have come. */
  lemma AllOut(c: ShardCodec, records: seq<Bytes>, arrived: set<nat>, released: set<nat>, delivered: set<nat>)
    requires Setting(c, records) && c.k - 1 in arrived && released <= Records(arrived, |records|)
    requires delivered == Below(Leading(arrived, |records|, 0)) + released && Below(|records|) <= delivered
    ensures |arrived| > |records| && delivered == Below(|records|)
  {
    hide CodecOk, Below;
    assert Below(|records|) + {c.k - 1} <= arrived;
    SubsetSize(Below(|records|) + {c.k - 1}, arrived);
  }

  lemma SentIndex(c: ShardCodec, records: seq<Bytes>, s: Shard)
    requires Setting(c, records) && FromGroup(c, records, s)
    ensures s.index < |records| || c.k <= s.index + 1 <= c.k + c.r
  {
    RowFacts(c, records);
  }

  /** A shard already present in a collecting group has arrived before. */
  lemma KnownShard(c: ShardCodec, records: seq<Bytes>, arrived: set<nat>, st: State, s: Shard)
    requires Setting(c, records) && FromGroup(c, records, s) && Collecting(c, records, arrived, st)
    requires s.index in Hinted(c, st, s, |records|).present
    ensures s.index in arrived && Hinted(c, st, s, |records|) == st
  {
    SentIndex(c, records, s);
    hide CodecOk, GroupShards, FromGroup, RowsOk, LengthsKnown, Below;
    var u := Unused(|records|, c.k);
    assert s.index !in u;
    if s.index >= c.k - 1 {
      assert HasTail(c, arrived) by { assert s.index in arrived && s.index + 1 >= c.k; }
      assert st.present + u == st.present;
    }
  }

  /** A shard seen before changes nothing that is owed; in a completed group no
      shard does. */
  lemma ShardAgain(arrived: set<nat>, released: set<nat>, d: nat, i: nat)
    requires |arrived| > d || i in arrived
    ensures var more := arrived + {i};
            (|more| > d <==> |arrived| > d) && Owed(more, released, d) == Owed(arrived, released, d) &&
            (released <= Records(arrived, d) ==> released <= Records(more, d))
  {
    var more := arrived + {i};
    SubsetSize(arrived, more);
    if i in arrived {
      assert more == arrived;
    }
  }

  lemma AgainCollects(c: ShardCodec, records: seq<Bytes>, arrived: set<nat>, i: nat, st: State)
    requires Setting(c, records)
    ensures i in arrived && Collecting(c, records, arrived, st) ==> Collecting(c, records, arrived + {i}, st)
  {
    if i in arrived { assert arrived + {i} == arrived; }
    hide Collecting;
  }

  lemma OwedBefore(arrived: set<nat>, released: set<nat>, d: nat)
    requires |arrived| <= d
    ensures Owed(arrived, released, d) == Below(Leading(arrived, d, 0)) + released
  {}

  class Slot {
    const c: ShardCodec
    ghost const records: seq<Bytes>
    var st: State
    var completed: bool
    var delivered: set<nat>
    var output: seq<Out>
    ghost var arrived: set<nat>
    ghost var released: set<nat>

    ghost predicate Valid()
      reads this
    {
      Setting(c, records) && ArrivedOk(c, records, arrived) && Written(records, output, delivered, released) &&
      (st.hintValid ==> st.dataCount == |records|) && (!completed ==> Collecting(c, records, arrived, st)) && released <= Records(arrived, |records|) &&
      (completed <==> |arrived| > |records|) && delivered == Owed(arrived, released, |records|)
    }

    constructor (c: ShardCodec, ghost records: seq<Bytes>)
      requires CodecOk(c) && RecordsOk(c, records)
      ensures Valid() && this.c == c && this.records == records && arrived == {} && released == {} && output == []
    {
      this.c, this.records := c, records;
      completed, delivered, output, arrived, released := false, {}, [], {}, {};
      st := State(false, false, 0, {}, seq(c.k - 1, i => 0), seq(c.k + c.r, i => Zeros(c.size)));
      new;
      RowFacts(c, records);
    }

    /** emit_record with an output that accepts. */
    method EmitRecord(i: nat)
      requires Setting(c, records) && Written(records, output, delivered, released)
      requires i < |records| && i !in delivered && i < |st.block| && i < |st.lengths|
      requires st.block[i] == GroupShards(c, records)[i] && st.lengths[i] == |records[i]| && (released == {} ==> delivered == Below(i))
      modifies this`output, this`delivered
      ensures Written(records, output, delivered, released) && delivered == old(delivered) + {i}
    {
      RowFacts(c, records);
      WrittenMore(c, records, output, delivered, released, i);
      hide Setting, GroupShards, Written;
      output := output + [Out(i, st.block[i][..st.lengths[i]])];
      delivered := delivered + {i};
    }

    /** emit_contiguous: the leading records that are present and not yet out. */
    method EmitContiguous(ghost p: nat)
      requires Setting(c, records) && ArrivedOk(c, records, arrived) && Collecting(c, records, arrived, st)
      requires Written(records, output, delivered, released) && released <= Records(arrived, |records|)
      requires p <= Leading(arrived, |records|, 0) && delivered == Below(p) + released
      modifies this`output, this`delivered
      ensures Written(records, output, delivered, released) && delivered == Below(Leading(arrived, |records|, 0)) + released
    {
      hide Setting, GroupShards, Written, Collecting, ArrivedOk, Below, Leading, Limit;
      LimitCovers(c, records, arrived, st);
      var limit := Limit(c, st);
      var index := 0;
      while index < limit
        invariant index <= limit && Written(records, output, delivered, released) && index <= Leading(arrived, |records|, 0)
        invariant delivered == Below(if index < p then p else index) + released
      {
        PresentRecord(c, records, arrived, st, index);
        if index in delivered {
          index := index + 1;
          continue;
        }
        if index !in st.present {
          break;
        }
        EmitRecord(index);
        index := index + 1;
        assert delivered == Below(index) + released;
      }
    }

    /** The record loop of emit_from_metadata: everything not yet out. */
    method EmitRest(ghost p: nat)
      requires Setting(c, records) && RecordsReady(c, records, st) && st.dataCount == |records|
      requires Written(records, output, delivered, released) && released <= Below(|records|)
      requires p <= |records| && delivered == Below(p) + released
      modifies this`output, this`delivered
      ensures Written(records, output, delivered, released) && delivered == Below(|records|)
    {
      hide Setting, GroupShards, Written, RecordsReady, Below;
      var index := 0;
      while index < st.dataCount
        invariant index <= |records| && Written(records, output, delivered, released)
        invariant delivered == Below(if index < p then p else index) + released
      {
        if index !in delivered {
          ReadyAt(c, records, st, index);
          EmitRecord(index);
        }
        index := index + 1;
        assert delivered == Below(if index < p then p else index) + released;
      }
      assert delivered == Below(|records|);
    }

    /** parse_metadata and what follows it: the count, the lengths, and the unused
        shards marked. */
    method ReadMetadata() returns (ok: bool)
      requires Setting(c, records) && TableReady(c, records, st) && c.k - 1 in st.present
      modifies this`st
      ensures ok && |st.lengths| == c.k - 1 && (forall i :: 0 <= i < |records| ==> st.lengths[i] == |records[i]|)
      ensures forall i :: |records| <= i < c.k - 1 ==> st.lengths[i] == old(st.lengths[i])
      ensures st == old(st).(lengths := st.lengths, dataCount := |records|, metadataValid := true, present := old(st.present) + Unused(|records|, c.k))
    {
      hide CodecOk, Below;
      TableServes(c, records, st);
      hide TailOf, CountGood, LengthGood, CountIn, LengthIn, GroupShards;
      var status, count, done, lengths :=
        ParseMetadata(TailOf(c, st), c.k - 1 in st.present, c.k, c.size, st.hintValid, st.dataCount, st.lengths);
      if status != Parsed {
        return false;
      }
      st := st.(lengths := lengths, dataCount := count, metadataValid := true, present := st.present + Unused(count, c.k));
      return true;
    }

    /** The data rows, rebuilt unless all of them are there. */
    method RebuildRows() returns (ok: bool)
      requires Setting(c, records) && RowsOk(c, records, st) && |st.present| >= c.k
      modifies this`st
      ensures ok && RowsFull(c, records, st) && st == old(st).(block := st.block, present := st.present) && Below(c.k) <= st.present
    {
      RowsRecovered(c, records, st);
      BlockHas(c, records, st);
      hide CodecOk, RecordsOk, GroupShards, GroupData, RowsOk, Below, RowsFull;
      if Below(c.k) <= st.present {
        return true;
      }
      match c.recover(ReceivedRows(st))
      case NotRestored => return false;
      case Restored(data) =>
        st := st.(block := data + st.block[c.k..], present := st.present + Below(c.k));
        FullSame(c, records, st.(present := old(st.present)), st);
        return true;
    }

    /** recover_group: with k shards present the rest is rebuilt, the lengths are
        read and every record still owed goes out. */
    method RecoverGroup()
      requires Setting(c, records) && ArrivedOk(c, records, arrived) && Collecting(c, records, arrived, st) && !completed
      requires Written(records, output, delivered, released) && released <= Records(arrived, |records|)
      requires delivered == Below(Leading(arrived, |records|, 0)) + released
      modifies this`st, this`output, this`delivered, this`completed
      ensures Written(records, output, delivered, released) && completed == (|arrived| > |records|)
      ensures if completed then delivered == Below(|records|) else delivered == old(delivered) && st == old(st)
      ensures st.hintValid ==> st.dataCount == |records|
    {
      hide CodecOk, RecordsOk, GroupShards, Written, ArrivedOk, LengthsKnown, RowsOk, Below, Leading, RowsFull, TableReady, RecordsReady;
      EnoughPresent(c, records, arrived, st);
      if |st.present| < c.k {
        return;
      }
      ghost var was := st;
      var ok := RebuildRows();
      FullRowsServe(c, records, arrived, was, st);
      ghost var full := st;
      ok := ReadMetadata();
      FullReady(c, records, full, st);
      EmitRest(Leading(arrived, |records|, 0));
      completed := true;
    }

    /** apply_tail_hint, or the range check of a record shard: any shard, genuine
        or not. A refused one changes nothing. */
    method TakeHint(s: Shard) returns (ok: bool)
      requires c.k > 0 && c.size > 0
      modifies this`st
      ensures ok <==> HintOk(c, old(st), s)
      ensures st == if ok then Hinted(c, old(st), s, HintOf(c, s)) else old(st)
    {
      if s.index < c.k - 1 {
        return !(st.hintValid && s.index >= st.dataCount);
      }
      if s.validLen < 2 * c.size || s.validLen > c.k * c.size || s.validLen % c.size != 0 {
        return false;
      }
      HintRange(c, s.validLen);
      hide Below;
      var hinted := s.validLen / c.size - 1;
      if (st.hintValid && st.dataCount != hinted) || hinted == 0 || hinted > c.k - 1 {
        return false;
      }
      st := st.(dataCount := hinted, hintValid := true, present := st.present + Unused(hinted, c.k));
      return true;
    }

    /** After a new shard: read the table if it is here, then try to recover. */
    method Progress() returns (ok: bool)
      requires Setting(c, records) && ArrivedOk(c, records, arrived) && Collecting(c, records, arrived, st) && !completed
      requires Written(records, output, delivered, released) && released <= Records(arrived, |records|)
      requires delivered == Below(Leading(arrived, |records|, 0)) + released
      modifies this`st, this`output, this`delivered, this`completed
      ensures Valid() && ok
    {
      hide CodecOk, RecordsOk, GroupShards, Written, LengthsKnown, RowsOk, Below, Leading, HasTail, ArrivedOk, TableReady;
      if c.k - 1 in st.present {
        TableThere(c, records, arrived, st);
        ghost var was := st;
        ok := ReadMetadata();
        if !ok {
          return;
        }
        MetadataCollects(c, records, arrived, was, st);
        if Below(st.dataCount) <= delivered {
          AllOut(c, records, arrived, released, delivered);
          completed := true;
          return true;
        }
      }
      RecoverGroup();
      return true;
    }

    /** A shard new to a collecting group, its hint already taken. */
    method AcceptNew(s: Shard, ghost was: State) returns (ok: bool)
      requires Setting(c, records) && FromGroup(c, records, s) && ArrivedOk(c, records, arrived) && !completed
      requires Collecting(c, records, arrived, was) && st == Hinted(c, was, s, |records|)
      requires Written(records, output, delivered, released) && released <= Records(arrived, |records|)
      requires delivered == Below(Leading(arrived, |records|, 0)) + released
      modifies this
      ensures Valid() && ok && arrived == old(arrived) + {s.index} && released == old(released)
    {
      hide CodecOk, RecordsOk, GroupShards, Written, Collecting, Below, Leading, FromGroup, Owed, Stored;
      ghost var had, p := arrived, Leading(arrived, |records|, 0);
      SentIndex(c, records, s);
      StoredCollects(c, records, had, was, s);
      st := Stored(c, st, s);
      arrived := arrived + {s.index};
      if s.index < c.k - 1 {
        LeadingGrows(had, arrived, |records|, 0);
        EmitContiguous(p);
      } else {
        TailKeepsLeading(c, records, had, s.index);
      }
      ok := Progress();
    }

    /** fec_decoder_input for a shard of this group. */
    method Input(s: Shard) returns (ok: bool)
      requires Valid() && FromGroup(c, records, s)
      modifies this
      ensures Valid() && ok && arrived == old(arrived) + {s.index} && released == old(released)
    {
      hide CodecOk, RecordsOk, GroupShards, Written, Collecting, Below, Leading, FromGroup, Owed, Unused;
      SentIndex(c, records, s);
      ghost var was := st;
      GenuineHint(c, records, st, s);
      ok := TakeHint(s);
      if !ok {
        return;
      }
      if completed || s.index in st.present {
        if !completed { KnownShard(c, records, arrived, was, s); }
        ShardAgain(arrived, released, |records|, s.index);
        arrived := arrived + {s.index};
        AgainCollects(c, records, old(arrived), s.index, st);
        return true;
      }
      OwedBefore(arrived, released, |records|);
      ok := AcceptNew(s, was);
    }

    /** emit_available, when a newer group arrives: every record shard that is
        here goes out, gaps or not. */
    method Release()
      requires Valid() && !completed
      modifies this`output, this`delivered, this`released
      ensures Valid() && released == Records(arrived, |records|)
    {
      hide CodecOk, RecordsOk, GroupShards, OutputOk, Indices, Collecting, ArrivedOk, Below, Leading, Limit;
      LimitCovers(c, records, arrived, st);
      OwedBefore(arrived, released, |records|);
      ghost var all := Records(arrived, |records|);
      hide Owed;
      released := all;
      var limit := Limit(c, st);
      for index := 0 to limit
        invariant released == all && Written(records, output, delivered, released) && old(delivered) <= delivered <= old(delivered) + all
        invariant forall i :: 0 <= i < index && i in all ==> i in delivered
      {
        PresentRecord(c, records, arrived, st, index);
        if index in st.present && index !in delivered {
          assert index in all;
          EmitRecord(index);
        }
      }
      forall i | i in all ensures i in delivered {
      }
      OwedBefore(arrived, released, |records|);
    }
  }

  // ---------------------------------------------------------------------
  // A whole group.

  /** The metadata row as the encoder writes it. */
  method BuildTableRow(c: ShardCodec, records: seq<Bytes>) returns (row: Bytes)
    requires Setting(c, records)
    ensures row == Table(Lengths(records), c.size)
  {
    hide CodecOk, Table, Lengths;
    assert (c.r + 1) * c.size == c.r * c.size + c.size;
    var tail, inside := BuildTable(Lengths(records), (c.r + 1) * c.size);
    FirstRow(Lengths(records), c.size, (c.r + 1) * c.size);
    return tail[..c.size];
  }

  /** The data rows of a group as the encoder fills its block. */
  method BuildRows(c: ShardCodec, records: seq<Bytes>) returns (rows: seq<Bytes>)
    requires Setting(c, records)
    ensures rows == GroupData(c, records)
  {
    RowFacts(c, records);
    hide CodecOk, Table, GroupShards;
    rows := [];
    for i := 0 to |records|
      invariant |rows| == i && forall j :: 0 <= j < i ==> rows[j] == GroupData(c, records)[j]
    {
      rows := rows + [records[i] + Zeros(c.size - |records[i]|)];
    }
    for i := |records| to c.k - 1
      invariant |rows| == i && forall j :: 0 <= j < i ==> rows[j] == GroupData(c, records)[j]
    {
      rows := rows + [Zeros(c.size)];
    }
    var row := BuildTableRow(c, records);
    rows := rows + [row];
  }

  /** The i-th shard of a group in the order it is queued. */
  function ShardAt(c: ShardCodec, records: seq<Bytes>, e: seq<Bytes>, i: nat): (s: Shard)
    requires |records| < c.k && i < |records| + 1 + c.r && |e| == c.k + c.r
  {
    if i < |records| then Shard(i, c.k * c.size, |records[i]|, e[i])
    else Shard(c.k - 1 + i - |records|, (|records| + 1) * c.size, c.size, e[c.k - 1 + i - |records|])
  }

  lemma ShardFromGroup(c: ShardCodec, records: seq<Bytes>, i: nat)
    requires Setting(c, records) && i < |records| + 1 + c.r
    ensures |GroupShards(c, records)| == c.k + c.r && FromGroup(c, records, ShardAt(c, records, GroupShards(c, records), i))
  {
    RowFacts(c, records);
    hide CodecOk, GroupShards;
  }

  /** fec_encoder_push for each record, then encode_and_enqueue_tails. */
  method SendGroup(c: ShardCodec, records: seq<Bytes>) returns (shards: seq<Shard>)
    requires Setting(c, records)
    ensures |shards| == |records| + 1 + c.r
    ensures forall i :: 0 <= i < |shards| ==> FromGroup(c, records, shards[i])
    ensures forall i :: 0 <= i < |shards| ==> shards[i].index == if i < |records| then i else c.k - 1 + i - |records|
  {
    var rows := BuildRows(c, records);
    var e := c.encode(rows);
    assert e == GroupShards(c, records);
    hide CodecOk, GroupData, GroupShards, FromGroup;
    shards := [];
    for i := 0 to |records| + 1 + c.r
      invariant |shards| == i && forall j :: 0 <= j < i ==> FromGroup(c, records, shards[j])
      invariant forall j :: 0 <= j < i ==> shards[j].index == if j < |records| then j else c.k - 1 + j - |records|
    {
      ShardFromGroup(c, records, i);
      shards := shards + [ShardAt(c, records, e, i)];
    }
  }

  ghost function IndicesOf(shards: seq<Shard>, order: seq<nat>): (s: set<nat>)
    requires forall i :: 0 <= i < |order| ==> order[i] < |shards|
  {
    set i | 0 <= i < |order| :: shards[order[i]].index
  }

  /** A group sent, its shards arriving in any order with losses and repeats: the
      records come out right and once each, in order, and all of them exactly
      when d + 1 different shards arrive or all record shards do. */
  method Transfer(c: ShardCodec, records: seq<Bytes>, order: seq<nat>) returns (output: seq<Out>, ghost sent: seq<Shard>)
    requires Setting(c, records) && forall i :: 0 <= i < |order| ==> order[i] < |records| + 1 + c.r
    ensures |sent| == |records| + 1 + c.r && OutputOk(records, output)
    ensures forall i :: 0 <= i < |output| ==> output[i].index == i
    ensures Indices(output) == Owed(IndicesOf(sent, order), {}, |records|)
  {
    hide CodecOk, RecordsOk, FromGroup, OutputOk, Indices, Owed, Collecting;
    var shards := SendGroup(c, records);
    sent := shards;
    var slot := new Slot(c, records);
    for i := 0 to |order|
      invariant fresh(slot) && slot.Valid() && slot.c == c && slot.records == records
      invariant slot.arrived == IndicesOf(sent, order[..i]) && slot.released == {}
    {
      var ok := slot.Input(shards[order[i]]);
      assert IndicesOf(sent, order[..i + 1]) == IndicesOf(sent, order[..i]) + {sent[order[i]].index};
    }
    assert order[..|order|] == order;
    output := slot.output;
  }
}
