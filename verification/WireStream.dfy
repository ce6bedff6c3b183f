/** What the sender puts on the v3 wire for one stream, and what the receiver
    may make of each block. */
module WireStream {
  import opened Arith
  import opened Gf256
  import opened ErasureCode
  import opened WireDecoder

  const LEN_MODULUS: nat := 65536

  ghost predicate EncodesBlock(codec: Codec, block: Bytes) {
    var e := codec.encode(block);
    |e| == codec.k + codec.r &&
    (codec.systematic ==> forall i :: 0 <= i < codec.k ==> e[i] == Slice(block, i)) &&
    (forall m :: Part(m, e) && (HasAll(m, codec.k + codec.r) || (codec.systematic && HasAll(m, codec.k))) ==>
       codec.decode(m) == block) &&
    (forall m :: Part(m, e) && codec.recover(m).Rebuilt? ==> codec.decode(codec.recover(m).shards) == block) &&
    (codec.allowsBestEffort && !codec.systematic ==>
       forall m, i :: Part(m, e) && i in m && i < codec.k ==> Slice(codec.decode(m), i) == Slice(block, i))
  }

  /** Decoding gives the block back from complete groups, from complete data of
      a systematic codec, and from whatever recovery rebuilds. */
  ghost predicate CodecOk(codec: Codec) {
    1 <= codec.k && codec.k + codec.r <= MAX_SHARDS &&
    forall block :: |block| == codec.k * PKG_SIZE ==> EncodesBlock(codec, block)
  }

  ghost predicate RecoversFrom(codec: Codec, block: Bytes) {
    forall m :: Part(m, codec.encode(block)) && |m| >= codec.k ==> codec.recover(m).Rebuilt?
  }

  /** Any k shards of a block suffice. */
  ghost predicate Mds(codec: Codec) {
    forall block :: |block| == codec.k * PKG_SIZE ==> RecoversFrom(codec, block)
  }

  // ---------------------------------------------------------------------

  datatype Stream = Stream(blocks: seq<Bytes>, stamps: seq<Stamp>)

  ghost predicate StreamOk(c: Config, s: Stream) {
    |s.stamps| == |s.blocks| && forall i :: 0 <= i < |s.blocks| ==> 0 < |s.blocks[i]| <= InputSize(c)
  }

  function Padded(c: Config, block: Bytes): (b: Bytes)
    requires |block| <= InputSize(c)
    ensures |b| == InputSize(c) && b[..|block|] == block
  {
    block + seq(InputSize(c) - |block|, i => ZERO)
  }

  /** The header's length field is sixteen bits wide. */
  function WireLen(block: Bytes): (n: nat)
    ensures n <= |block|
  {
    |block| % LEN_MODULUS
  }

  /** What the receiver writes for a recovered block. */
  function Sent(block: Bytes): (b: Bytes) { block[..WireLen(block)] }

  function Encoding(c: Config, s: Stream, id: nat): (e: seq<Bytes>)
    requires id < |s.blocks| && |s.blocks[id]| <= InputSize(c)
  {
    c.codec.encode(Padded(c, s.blocks[id]))
  }

  /** A datagram the sender of this stream puts on the wire. */
  ghost predicate FromStream(c: Config, s: Stream, p: Datagram)
    requires StreamOk(c, s)
  {
    match p
    case End(blocks, count, payloadLen) => blocks == |s.blocks| && count == Shards(c) && payloadLen == 0
    case Data(block, index, count, validLen, stamp, payload) =>
      block < |s.blocks| && count == Shards(c) && index < count && validLen == WireLen(s.blocks[block]) &&
      stamp == s.stamps[block] && |payload| == PKG_SIZE && index < |Encoding(c, s, block)| && payload == Encoding(c, s, block)[index]
  }

  // ---------------------------------------------------------------------

  function Concat(blocks: seq<Bytes>): (b: Bytes) {
    if |blocks| == 0 then [] else Concat(blocks[..|blocks| - 1]) + blocks[|blocks| - 1]
  }

  function SentBlocks(blocks: seq<Bytes>): (b: seq<Bytes>) {
    seq(|blocks|, i requires 0 <= i < |blocks| => Sent(blocks[i]))
  }

  function Flat(fates: seq<Fate>): (b: Bytes) {
    if |fates| == 0 then [] else Flat(fates[..|fates| - 1]) + fates[|fates| - 1].bytes
  }

  /** The kept data shards of a block, in order, cut at the wire length. */
  function KeptText(block: Bytes, kept: set<nat>, i: nat, k: nat, remaining: nat): (t: Bytes)
    decreases k - i
  {
    if i >= k || remaining == 0 then []
    else
      var len := Min(PKG_SIZE, remaining);
      (if i in kept then Take(Slice(block, i), len) else []) + KeptText(block, kept, i + 1, k, remaining - len)
  }

  ghost predicate FateOk(c: Config, block: Bytes, fate: Fate) {
    |block| <= InputSize(c) &&
    match fate
    case Whole(bytes) => bytes == Sent(block)
    case Gap(kept, bytes) => bytes == KeptText(Padded(c, block), kept, 0, c.codec.k, WireLen(block))
  }

  // ---------------------------------------------------------------------

  lemma FlatAdd(fates: seq<Fate>, f: Fate)
    ensures Flat(fates + [f]) == Flat(fates) + f.bytes
  {
    assert (fates + [f])[..|fates|] == fates;
  }

  lemma {:induction false} NothingKept(block: Bytes, i: nat, k: nat, remaining: nat)
    ensures KeptText(block, {}, i, k, remaining) == []
    decreases k - i
  {
    if i < k && remaining > 0 {
      NothingKept(block, i + 1, k, remaining - Min(PKG_SIZE, remaining));
    }
  }

  /** The shards written for a skipped group are the block's own bytes. */
  lemma {:induction false} PartsAreKept(c: Config, g: Group, block: Bytes, i: nat, remaining: nat, sink: nat)
    requires CodecOk(c.codec) && |block| == InputSize(c) && Part(g.shards, c.codec.encode(block)) && c.codec.allowsBestEffort
    ensures var p := WriteParts(c, g, i, remaining, sink);
            p.ok ==> p.bytes == KeptText(block, Kept(c, g), i, c.codec.k, remaining)
    decreases c.codec.k - i
  {
    hide Slice, Take;
    if i < c.codec.k && remaining > 0 {
      var len := Min(PKG_SIZE, remaining);
      assert EncodesBlock(c.codec, block);
      if i !in g.shards {
        PartsAreKept(c, g, block, i + 1, remaining - len, sink);
      } else if sink > 0 {
        assert ShardText(c, g, i) == Slice(block, i);
        PartsAreKept(c, g, block, i + 1, remaining - len, sink - 1);
      }
    }
  }

  lemma WholeIsSent(c: Config, block: Bytes)
    requires |block| <= InputSize(c)
    ensures Take(Padded(c, block), WireLen(block)) == Sent(block)
  {
    var b, n := Padded(c, block), WireLen(block);
    assert b[..n] == b[..|block|][..n];
  }

  /** All blocks written whole: the output is the sent blocks in order. */
  lemma {:induction false} WholeOutput(c: Config, blocks: seq<Bytes>, fates: seq<Fate>)
    requires |fates| <= |blocks|
    requires forall i :: 0 <= i < |fates| ==> FateOk(c, blocks[i], fates[i]) && fates[i].Whole?
    ensures Flat(fates) == Concat(SentBlocks(blocks[..|fates|]))
  {
    if |fates| > 0 {
      var n := |fates| - 1;
      WholeOutput(c, blocks, fates[..n]);
      assert SentBlocks(blocks[..|fates|])[..n] == SentBlocks(blocks[..n]);
    }
  }

  lemma {:induction false} ConcatLength(blocks: seq<Bytes>)
    ensures |Concat(SentBlocks(blocks))| <= |Concat(blocks)|
    ensures |Concat(SentBlocks(blocks))| == |Concat(blocks)| <==> forall i :: 0 <= i < |blocks| ==> |blocks[i]| < LEN_MODULUS
    ensures (forall i :: 0 <= i < |blocks| ==> |blocks[i]| < LEN_MODULUS) ==> Concat(SentBlocks(blocks)) == Concat(blocks)
  {
    if |blocks| > 0 {
      var n := |blocks| - 1;
      ConcatLength(blocks[..n]);
      assert SentBlocks(blocks)[..n] == SentBlocks(blocks[..n]);
      assert forall i :: 0 <= i < n ==> blocks[..n][i] == blocks[i];
    }
  }

  /** The sixteen-bit length field carries the stream exactly when every block is
      shorter than 65536 bytes; full blocks of 47 or more data shards are not. */
  lemma LengthFieldExact(blocks: seq<Bytes>)
    ensures Concat(SentBlocks(blocks)) == Concat(blocks) <==> forall i :: 0 <= i < |blocks| ==> |blocks[i]| < LEN_MODULUS
  {
    ConcatLength(blocks);
  }

  /** Forty-six data shards fit the length field for every block, forty-seven do
      not: a full block of those is announced as 264 bytes. */
  lemma GeometryFitsLengthField(k: nat)
    ensures k * PKG_SIZE < LEN_MODULUS <==> k <= 46
    ensures WireLen(seq(47 * PKG_SIZE, i => ZERO)) == 264
  {}
}
