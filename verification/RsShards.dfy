/** The Reed-Solomon code on whole shards, for every valid geometry and shard
    size: any k shards of a block determine its data shards. */
module RsShards {
  import opened Gf256
  import opened Vectors
  import opened Generator
  import opened ErasureCode
  import opened RsRecover
  import RsCodec
  import RsEncode
  import RsPlan

  function ByteAt(s: Bytes, b: nat): (x: Byte) {
    if b < |s| then s[b] else ZERO
  }

  /** The bytes of the data shards at one position. */
  function MessageAt(d: seq<Bytes>, b: nat): (v: Vec) {
    seq(|d|, j requires 0 <= j < |d| => ByteAt(d[j], b))
  }

  ghost predicate DataShards(d: seq<Bytes>, k: nat, size: nat) {
    |d| == k && forall j :: 0 <= j < k ==> |d[j]| == size
  }

  /** At each byte position a codeword of the generator. */
  ghost function Encode(k: nat, r: nat, size: nat, d: seq<Bytes>): (e: seq<Bytes>)
    requires ValidGeometry(k, r) && |d| == k
    ensures |e| == k + r && forall i :: 0 <= i < k + r ==> |e[i]| == size
  {
    var g := RsCodec.GeneratorFor(k, r);
    RsCodec.GeneratorIsMds(k, r);
    seq(k + r, i requires 0 <= i < k + r => seq(size, b requires 0 <= b < size => Dot(g[i], MessageAt(d, b), k)))
  }

  ghost predicate Explains(k: nat, r: nat, size: nat, m: map<nat, Bytes>, d: seq<Bytes>)
    requires ValidGeometry(k, r)
  {
    DataShards(d, k, size) && Part(m, Encode(k, r, size, d))
  }

  // ---------------------------------------------------------------------

  lemma ShardByte(k: nat, r: nat, size: nat, d: seq<Bytes>, i: nat, b: nat)
    requires ValidGeometry(k, r) && |d| == k && i < k + r && b < size
    ensures var g := RsCodec.GeneratorFor(k, r);
            Mds(g, k, k + r) && Systematic(g, k) && Encode(k, r, size, d)[i][b] == Dot(g[i], MessageAt(d, b), k)
  {
    RsCodec.GeneratorIsMds(k, r);
  }

  /** The data shards travel unchanged. */
  lemma DataUnchanged(k: nat, r: nat, size: nat, d: seq<Bytes>, i: nat)
    requires ValidGeometry(k, r) && DataShards(d, k, size) && i < k
    ensures Encode(k, r, size, d)[i] == d[i]
  {
    hide Dot, RsCodec.GeneratorFor;
    var g := RsCodec.GeneratorFor(k, r);
    forall b | 0 <= b < size ensures Encode(k, r, size, d)[i][b] == d[i][b] {
      ShardByte(k, r, size, d, i, b);
      DotUnit(g[i], MessageAt(d, b), i, k);
    }
  }

  function Sum(v: Vec, w: Vec): (s: Vec)
    requires |v| == |w|
  {
    seq(|v|, i requires 0 <= i < |v| => Xor(v[i], w[i]))
  }

  lemma {:induction false} DotSum(u: Vec, v: Vec, w: Vec, n: nat)
    requires n <= |u| && n <= |v| == |w|
    ensures Dot(u, Sum(v, w), n) == Xor(Dot(u, v, n), Dot(u, w, n))
  {
    hide Xor, Mul;
    if n == 0 {
      XorZero(ZERO);
    } else {
      var m := n - 1;
      DotSum(u, v, w, m);
      MulDistrib(u[m], v[m], w[m]);
      XorSwap(Dot(u, v, m), Dot(u, w, m), Mul(u[m], v[m]), Mul(u[m], w[m]));
    }
  }

  /** k received shards explain one block only. */
  lemma UniqueData(k: nat, r: nat, size: nat, m: map<nat, Bytes>, x: seq<Bytes>, y: seq<Bytes>)
    requires ValidGeometry(k, r) && |m| >= k && Explains(k, r, size, m, x) && Explains(k, r, size, m, y)
    ensures x == y
  {
    hide Xor, Dot, Encode, RsCodec.GeneratorFor;
    var g := RsCodec.GeneratorFor(k, r);
    RsCodec.GeneratorIsMds(k, r);
    var all := Enumerate(m.Keys);
    var rows := all[..k];
    assert RowChoice(rows, k, k + r);
    var sub := Select(g, rows);
    forall b | 0 <= b < size ensures MessageAt(x, b) == MessageAt(y, b) {
      var v, w := MessageAt(x, b), MessageAt(y, b);
      var d := Sum(v, w);
      forall i | 0 <= i < k ensures Dot(sub[i], d, k) == ZERO {
        ShardByte(k, r, size, x, rows[i], b);
        ShardByte(k, r, size, y, rows[i], b);
        assert m[rows[i]] == Encode(k, r, size, x)[rows[i]] == Encode(k, r, size, y)[rows[i]];
        DotSum(sub[i], v, w, k);
        XorSelf(Dot(sub[i], v, k), Dot(sub[i], w, k));
      }
      assert InKernel(sub, d, k);
      forall i | 0 <= i < k ensures v[i] == w[i] {
        assert d[i] == ZERO;
        XorSelf(v[i], w[i]);
      }
    }
    forall j | 0 <= j < k ensures x[j] == y[j] {
      forall b | 0 <= b < size ensures x[j][b] == y[j][b] {
        assert MessageAt(x, b)[j] == MessageAt(y, b)[j];
      }
    }
  }

  // ---------------------------------------------------------------------
  // Recovery as a function of the received shards.

  /** What recovery owes the received shards of a block: its data shards. */
  ghost function Recovered(k: nat, r: nat, size: nat, m: map<nat, Bytes>): (x: Recovery)
    requires ValidGeometry(k, r)
  {
    if |m| >= k && exists d :: Explains(k, r, size, m, d) then
      var d :| Explains(k, r, size, m, d);
      Restored(d)
    else NotRestored
  }

  lemma RecoversData(k: nat, r: nat, size: nat, m: map<nat, Bytes>, d: seq<Bytes>)
    requires ValidGeometry(k, r) && Explains(k, r, size, m, d)
    ensures Recovered(k, r, size, m) == if |m| >= k then Restored(d) else NotRestored
  {
    hide Encode;
    if |m| >= k {
      var x :| Explains(k, r, size, m, x) && Recovered(k, r, size, m) == Restored(x);
      UniqueData(k, r, size, m, x, d);
    }
  }

  // ---------------------------------------------------------------------
  // The codec object computes this code.

  ghost predicate HoldsData(block: array2<Byte>, d: seq<Bytes>)
    reads block
  {
    |d| <= block.Length0 && forall j, b :: 0 <= j < |d| && 0 <= b < block.Length1 ==> block[j, b] == ByteAt(d[j], b)
  }

  /** rs_encode leaves the block's shards in the buffer. */
  method EncodeGroup(codec: RsCodec.Codec, block: array2<Byte>, impl: RsCodec.EncodeImpl, simd: bool, ghost d: seq<Bytes>)
    requires codec.Valid() && block.Length0 == codec.k + codec.r && block.Length1 == codec.shardBytes
    requires DataShards(d, codec.k, codec.shardBytes) && HoldsData(block, d)
    modifies block
    ensures forall i, b :: 0 <= i < codec.k + codec.r && 0 <= b < codec.shardBytes ==>
      block[i, b] == Encode(codec.k, codec.r, codec.shardBytes, d)[i][b]
  {
    hide Dot, Encode, RsCodec.GeneratorFor, RsPlan.ValidPlan;
    ghost var ms, size := RsEncode.Messages(block, codec.k), codec.shardBytes;
    codec.Encode(block, impl, simd);
    forall i, b | 0 <= i < codec.k + codec.r && 0 <= b < size ensures block[i, b] == Encode(codec.k, codec.r, size, d)[i][b] {
      assert ms[b] == MessageAt(d, b);
      ShardByte(codec.k, codec.r, size, d, i, b);
      if i < codec.k { DataUnchanged(codec.k, codec.r, size, d, i); }
    }
  }

  lemma {:induction false} CountIsCard(present: seq<bool>, n: nat, ids: set<nat>)
    requires n <= |present| && forall i :: i in ids <==> 0 <= i < n && present[i]
    ensures CountPresent(present, n) == |ids|
  {
    if n == 0 {
      assert ids == {};
    } else {
      CountIsCard(present, n - 1, ids - {n - 1});
    }
  }

  lemma ReceivedAgrees(k: nat, r: nat, size: nat, present: seq<bool>, col: Vec, m: map<nat, Bytes>, d: seq<Bytes>, b: nat)
    requires ValidGeometry(k, r) && |present| == |col| == k + r && b < size && Explains(k, r, size, m, d)
    requires forall i :: 0 <= i < |col| && present[i] ==> i in m && col[i] == ByteAt(m[i], b)
    ensures Agrees(RsCodec.GeneratorFor(k, r), k, present, col, MessageAt(d, b))
  {
    hide Dot, RsCodec.GeneratorFor, Encode;
    RsCodec.GeneratorIsMds(k, r);
    forall i | 0 <= i < k + r && present[i] ensures col[i] == Dot(RsCodec.GeneratorFor(k, r)[i], MessageAt(d, b), k) {
      ShardByte(k, r, size, d, i, b);
      assert m[i] == Encode(k, r, size, d)[i];
    }
  }

  /** rs_recover on the received shards of a block succeeds exactly when there are
      k of them, and then the buffer holds the block's data. */
  method RecoverGroup(codec: RsCodec.Codec, block: array2<Byte>, present: seq<bool>, ghost m: map<nat, Bytes>, ghost d: seq<Bytes>)
    returns (status: RecoverStatus)
    requires codec.Valid() && block.Length0 == codec.k + codec.r == |present| && block.Length1 == codec.shardBytes
    requires Explains(codec.k, codec.r, codec.shardBytes, m, d) && forall i :: i in m <==> 0 <= i < |present| && present[i]
    requires forall i, b :: i in m && 0 <= b < codec.shardBytes ==> block[i, b] == ByteAt(m[i], b)
    modifies block
    ensures status.RecoverOk? <==> Recovered(codec.k, codec.r, codec.shardBytes, m) == Restored(d)
    ensures status.RecoverOk? ==> HoldsData(block, d)
  {
    hide Dot, RsCodec.GeneratorFor, RsPlan.ValidPlan, Encode, Recovered;
    ghost var k, r, size := codec.k, codec.r, codec.shardBytes;
    RecoversData(k, r, size, m, d);
    CountIsCard(present, k + r, m.Keys);
    assert |m| == |m.Keys|;
    forall b | 0 <= b < size ensures Agrees(codec.generator, k, present, ColumnAt(block, b), MessageAt(d, b)) {
      ReceivedAgrees(k, r, size, present, ColumnAt(block, b), m, d, b);
    }
    hide Agrees;
    status := codec.RecoverShards(block, present);
    if status.RecoverOk? {
      forall j, b | 0 <= j < k && 0 <= b < size ensures block[j, b] == ByteAt(d[j], b) {
        assert ColumnAt(block, b)[..k][j] == block[j, b];
      }
    }
  }
}
