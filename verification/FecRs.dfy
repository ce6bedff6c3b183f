/** The FEC transport over Reed-Solomon: every geometry it accepts satisfies what
    its groups rely on. */
module FecRs {
  import opened Gf256
  import opened Generator
  import opened ErasureCode
  import RsShards
  import opened FecGroup

  ghost function GroupCodec(k: nat, r: nat, size: nat): (c: ShardCodec)
    requires ValidGeometry(k, r)
  {
    ShardCodec(k, r, size, d => if |d| == k then RsShards.Encode(k, r, size, d) else [], m => RsShards.Recovered(k, r, size, m))
  }

  lemma GroupCodecOk(k: nat, r: nat, size: nat)
    requires ValidGeometry(k, r) && 2 <= k && size < 65536
    ensures CodecOk(GroupCodec(k, r, size))
  {
    hide RsShards.Encode, RsShards.Recovered;
    var c := GroupCodec(k, r, size);
    forall d: seq<Bytes> | Shaped(d, c.k, c.size) ensures Codes(c, d) {
      forall i | 0 <= i < k ensures RsShards.Encode(k, r, size, d)[i] == d[i] { RsShards.DataUnchanged(k, r, size, d, i); }
      forall m: map<nat, Bytes> | Part(m, RsShards.Encode(k, r, size, d)) && |m| >= k
        ensures RsShards.Recovered(k, r, size, m) == Restored(d)
      {
        RsShards.RecoversData(k, r, size, m, d);
      }
    }
  }
}
