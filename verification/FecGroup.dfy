/** One group of the FEC transport: the shards its sender makes of d records, and
    the receiver's collecting slot. */
module FecGroup {
  import opened Gf256
  import opened ErasureCode
  import opened FecTable

  /** A systematic erasure code on k data shards of one size. */
  datatype ShardCodec = ShardCodec(k: nat, r: nat, size: nat, encode: seq<Bytes> -> seq<Bytes>, recover: map<nat, Bytes> -> Recovery)

  ghost predicate Shaped(d: seq<Bytes>, k: nat, size: nat) {
    |d| == k && forall j :: 0 <= j < k ==> |d[j]| == size
  }

  ghost predicate Codes(c: ShardCodec, d: seq<Bytes>) {
    var e := c.encode(d);
    |d| == c.k && |e| == c.k + c.r && (forall i :: 0 <= i < c.k ==> e[i] == d[i]) && (forall i :: 0 <= i < |e| ==> |e[i]| == c.size) &&
    forall m :: Part(m, e) && |m| >= c.k ==> c.recover(m) == Restored(d)
  }

  /** Any k shards give the data back. */
  ghost predicate CodecOk(c: ShardCodec) {
    2 <= c.k && c.k + c.r <= 255 && c.size < 65536 &&
    forall d :: Shaped(d, c.k, c.size) ==> Codes(c, d)
  }

  // ---------------------------------------------------------------------
  // The sender's side.

  function Zeros(n: nat): (z: Bytes) { seq(n, i => ZERO) }

  function Lengths(records: seq<Bytes>): (l: seq<nat>) {
    seq(|records|, i requires 0 <= i < |records| => |records[i]|)
  }

  /** Records fill the first of the k - 1 message shards, and the table fits. */
  ghost predicate RecordsOk(c: ShardCodec, records: seq<Bytes>) {
    1 <= |records| < c.k && 2 * |records| < c.size && forall i :: 0 <= i < |records| ==> 0 < |records[i]| <= c.size
  }

  /** The data shards of a closed group: padded records, unused zero shards, and
      the length table last. */
  ghost function GroupData(c: ShardCodec, records: seq<Bytes>): (d: seq<Bytes>)
    requires RecordsOk(c, records)
    ensures Shaped(d, c.k, c.size)
  {
    seq(c.k, j requires 0 <= j < c.k =>
      if j < |records| then records[j] + Zeros(c.size - |records[j]|)
      else if j < c.k - 1 then Zeros(c.size)
      else Table(Lengths(records), c.size))
  }

  ghost function GroupShards(c: ShardCodec, records: seq<Bytes>): (e: seq<Bytes>)
    requires RecordsOk(c, records)
  {
    c.encode(GroupData(c, records))
  }

  datatype Shard = Shard(index: nat, validLen: nat, payloadLen: nat, payload: Bytes)

  /** A shard the sender puts on the wire: a record's, or one of the tails. */
  ghost predicate FromGroup(c: ShardCodec, records: seq<Bytes>, s: Shard)
    requires RecordsOk(c, records)
  {
    s.index < |GroupShards(c, records)| && s.payload == GroupShards(c, records)[s.index] &&
    if s.index < c.k - 1 then s.index < |records| && s.payloadLen == |records[s.index]| && s.validLen == c.k * c.size
    else s.payloadLen == c.size && s.validLen == (|records| + 1) * c.size
  }

  // ---------------------------------------------------------------------
  // What the receiver owes.

  /** How many leading records are among the arrived shards. */
  ghost function Leading(arrived: set<nat>, d: nat, from: nat): (n: nat)
    requires from <= d
    ensures from <= n <= d && (forall i :: from <= i < n ==> i in arrived) && (n < d ==> n !in arrived)
    decreases d - from
  {
    if from < d && from in arrived then Leading(arrived, d, from + 1) else from
  }

  function Below(n: nat): (s: set<nat>)
    ensures forall i :: i in s <==> 0 <= i < n
    ensures |s| == n
  {
    if n == 0 then {} else Below(n - 1) + {n - 1}
  }

  ghost function Records(arrived: set<nat>, d: nat): (s: set<nat>) { set i | i in arrived && i < d }

  /** All records once d + 1 shards came; before that the leading ones, and those
      that had come when a newer group pushed this one. */
  ghost function Owed(arrived: set<nat>, released: set<nat>, d: nat): (s: set<nat>) {
    if |arrived| > d then Below(d) else Below(Leading(arrived, d, 0)) + released
  }

  datatype Out = Out(index: nat, bytes: Bytes)

  ghost function Indices(out: seq<Out>): (s: set<nat>) { set i | 0 <= i < |out| :: out[i].index }

  /** Every record written is right, and none is written twice. */
  ghost predicate OutputOk(records: seq<Bytes>, out: seq<Out>) {
    (forall i :: 0 <= i < |out| ==> out[i].index < |records| && out[i].bytes == records[out[i].index]) &&
    forall i, j :: 0 <= i < j < |out| ==> out[i].index != out[j].index
  }

  lemma OutputAdd(records: seq<Bytes>, out: seq<Out>, i: nat)
    requires OutputOk(records, out) && i < |records| && i !in Indices(out)
    ensures OutputOk(records, out + [Out(i, records[i])]) && Indices(out + [Out(i, records[i])]) == Indices(out) + {i}
  {
    var more := out + [Out(i, records[i])];
    forall x | 0 <= x < |out| ensures more[x].index != i {
      assert out[x].index in Indices(out);
    }
    assert more[|out|].index == i;
    forall j | j in Indices(out) ensures j in Indices(more) {
      var x :| 0 <= x < |out| && out[x].index == j;
      assert more[x].index == j;
    }
  }
}
