/** The Reed-Solomon code as the wire decoder's block codec: the decoder's
    assumptions about its codec hold of it, for every valid geometry. */
module RsWireCodec {
  import opened Gf256
  import opened Generator
  import opened ErasureCode
  import RsShards
  import opened WireDecoder
  import WireStream

  /** The block cut into its k data shards. */
  function Slices(k: nat, block: Bytes): (d: seq<Bytes>) {
    seq(k, j requires 0 <= j < k => Slice(block, j))
  }

  ghost function EncodeBlock(k: nat, r: nat, block: Bytes): (e: seq<Bytes>)
    requires ValidGeometry(k, r)
    ensures |e| == k + r && forall i :: 0 <= i < k + r ==> |e[i]| == PKG_SIZE
  {
    RsShards.Encode(k, r, PKG_SIZE, Slices(k, block))
  }

  /** The data shards side by side. */
  function DataRegion(k: nat, m: map<nat, Bytes>): (block: Bytes) {
    seq(k * PKG_SIZE, x requires 0 <= x < k * PKG_SIZE =>
      if x / PKG_SIZE in m then RsShards.ByteAt(m[x / PKG_SIZE], x % PKG_SIZE) else ZERO)
  }

  function AsMap(e: seq<Bytes>): (m: map<nat, Bytes>) {
    map i: nat | 0 <= i < |e| :: e[i]
  }

  ghost function RebuildBlock(k: nat, r: nat, m: map<nat, Bytes>): (b: Rebuild)
    requires ValidGeometry(k, r)
  {
    match RsShards.Recovered(k, r, PKG_SIZE, m)
    case Restored(d) => Rebuilt(AsMap(d))
    case NotRestored => NotRebuilt
  }

  ghost function BlockCodec(k: nat, r: nat): (c: Codec)
    requires ValidGeometry(k, r)
  {
    Codec(k, r, true, true, block => EncodeBlock(k, r, block), m => RebuildBlock(k, r, m), m => DataRegion(k, m))
  }

  // ---------------------------------------------------------------------

  lemma SliceLength(block: Bytes, k: nat, j: nat)
    requires |block| == k * PKG_SIZE && j < k
    ensures |Slice(block, j)| == PKG_SIZE
    ensures forall b :: 0 <= b < PKG_SIZE ==> Slice(block, j)[b] == block[j * PKG_SIZE + b]
  {
    assert (j + 1) * PKG_SIZE <= k * PKG_SIZE;
  }

  lemma SlicesAreShards(k: nat, block: Bytes)
    requires |block| == k * PKG_SIZE
    ensures RsShards.DataShards(Slices(k, block), k, PKG_SIZE)
  {
    forall j | 0 <= j < k ensures |Slice(block, j)| == PKG_SIZE { SliceLength(block, k, j); }
  }

  /** Blocks are determined by their data shards. */
  lemma RegionIsBlock(k: nat, m: map<nat, Bytes>, block: Bytes)
    requires |block| == k * PKG_SIZE && forall j :: 0 <= j < k ==> j in m && m[j] == Slice(block, j)
    ensures DataRegion(k, m) == block
  {
    forall x | 0 <= x < k * PKG_SIZE ensures DataRegion(k, m)[x] == block[x] {
      var j, b := x / PKG_SIZE, x % PKG_SIZE;
      assert x == j * PKG_SIZE + b;
      assert j < k;
      SliceLength(block, k, j);
    }
  }

  lemma DataShardsAreSlices(k: nat, r: nat, block: Bytes, i: nat)
    requires ValidGeometry(k, r) && |block| == k * PKG_SIZE && i < k
    ensures EncodeBlock(k, r, block)[i] == Slice(block, i)
  {
    hide Slice, RsShards.Encode;
    SlicesAreShards(k, block);
    RsShards.DataUnchanged(k, r, PKG_SIZE, Slices(k, block), i);
  }

  lemma Decodes(k: nat, r: nat, block: Bytes, m: map<nat, Bytes>)
    requires ValidGeometry(k, r) && |block| == k * PKG_SIZE && Part(m, EncodeBlock(k, r, block)) && HasAll(m, k)
    ensures DataRegion(k, m) == block
  {
    hide Slice, EncodeBlock, DataRegion;
    forall j | 0 <= j < k ensures m[j] == Slice(block, j) {
      DataShardsAreSlices(k, r, block, j);
    }
    RegionIsBlock(k, m, block);
  }

  lemma RebuildsIt(k: nat, r: nat, block: Bytes, m: map<nat, Bytes>)
    requires ValidGeometry(k, r) && |block| == k * PKG_SIZE && Part(m, EncodeBlock(k, r, block))
    ensures RebuildBlock(k, r, m).Rebuilt? <==> |m| >= k
    ensures |m| >= k ==> DataRegion(k, RebuildBlock(k, r, m).shards) == block
  {
    hide Slice, RsShards.Encode, DataRegion, RsShards.Recovered;
    SlicesAreShards(k, block);
    RsShards.RecoversData(k, r, PKG_SIZE, m, Slices(k, block));
    RegionIsBlock(k, AsMap(Slices(k, block)), block);
  }

  /** Every valid geometry gives the decoder a codec it can rely on. */
  lemma BlockCodecOk(k: nat, r: nat)
    requires ValidGeometry(k, r)
    ensures WireStream.CodecOk(BlockCodec(k, r)) && WireStream.Mds(BlockCodec(k, r))
  {
    hide EncodeBlock, DataRegion, RebuildBlock, Slice;
    var codec := BlockCodec(k, r);
    forall block: Bytes | |block| == codec.k * PKG_SIZE
      ensures WireStream.EncodesBlock(codec, block) && WireStream.RecoversFrom(codec, block)
    {
      forall i | 0 <= i < k ensures EncodeBlock(k, r, block)[i] == Slice(block, i) { DataShardsAreSlices(k, r, block, i); }
      forall m | Part(m, EncodeBlock(k, r, block)) && HasAll(m, k) ensures DataRegion(k, m) == block {
        Decodes(k, r, block, m);
      }
      forall m | Part(m, EncodeBlock(k, r, block)) && HasAll(m, k + r) ensures HasAll(m, k) {
      }
      forall m | Part(m, EncodeBlock(k, r, block))
        ensures RebuildBlock(k, r, m).Rebuilt? ==> DataRegion(k, RebuildBlock(k, r, m).shards) == block
        ensures |m| >= k ==> RebuildBlock(k, r, m).Rebuilt?
      {
        RebuildsIt(k, r, block, m);
      }
    }
  }
}
