/** The codec object: geometry, generator and encode plan, switched together. */
module RsCodec {
  import opened Gf256
  import opened Vectors
  import opened Generator
  import opened Rscode
  import opened GaussJordan
  import opened RsPlan
  import opened RsEncode
  import opened RsRecover

  datatype EncodeImpl = ImplAuto | ImplGeneral | ImplSimd | ImplFast16 | ImplLegacy | ImplRscode

  /** rebuild_generator: rscode's rows for 4+2, Cauchy rows for every other geometry. */
  function GeneratorFor(k: nat, r: nat): (g: seq<Vec>) {
    if k == 4 && r == 2 then RscodeGenerator() else CauchyGenerator(k, r)
  }

  /** Every valid geometry gets a systematic generator any k rows of which
      determine the data. */
  lemma GeneratorIsMds(k: nat, r: nat)
    requires ValidGeometry(k, r)
    ensures Mds(GeneratorFor(k, r), k, k + r) && Systematic(GeneratorFor(k, r), k)
  {
    hide RscodeGenerator, CauchyGenerator;
    RscodeIsMds();
    CauchyIsMds(k, r);
  }

  method BuildGeneratorCauchy(k: nat, r: nat) returns (ok: bool, g: seq<Vec>)
    requires ValidGeometry(k, r)
    ensures ok && g == CauchyGenerator(k, r)
  {
    hide Xor, Inv, ByteOf;
    var m := new Byte[k + r, k]((i, c) requires 0 <= i && 0 <= c => Unit(i, c));
    ghost var want := CauchyGenerator(k, r);
    for row := 0 to r
      invariant forall i, c :: 0 <= i < k + row && 0 <= c < k ==> m[i, c] == want[i][c]
    {
      var x := ByteOf(row + 1);
      for column := 0 to k
        invariant forall i, c :: 0 <= i <= k + row && 0 <= c < k && (i < k + row || c < column) ==> m[i, c] == want[i][c]
      {
        var y := ByteOf(r + 1 + column);
        var den := Xor(x, y);
        XorSelf(x, y);
        if den == ZERO {
          ByteOfInjective(row + 1, r + 1 + column);
          assert false;
        }
        m[k + row, column] := Inv(den);
      }
    }
    forall i | 0 <= i < k + r ensures View(m)[i] == want[i] {
      assert Row(m, i) == want[i];
    }
    return true, View(m);
  }

  method BuildGeneratorRscode42() returns (ok: bool, g: seq<Vec>)
    ensures ok && g == RscodeGenerator()
  {
    hide EncodeData;
    var m := new Byte[6, 4]((i, c) requires 0 <= i && 0 <= c => Unit(i, c));
    for column := 0 to 4
      invariant forall i, c :: 0 <= i < 6 && 0 <= c < 4 && (i < 4 || c < column) ==> m[i, c] == RscodeGenerator()[i][c]
    {
      var message := UnitVec(column, 4);
      EncodeKeepsMessage(message);
      var codeword := RscodeEncodeData(message);
      m[4, column] := codeword[4];
      m[5, column] := codeword[5];
    }
    forall i | 0 <= i < 6 ensures View(m)[i] == RscodeGenerator()[i] {
      assert Row(m, i) == RscodeGenerator()[i];
    }
    return true, View(m);
  }

  class Codec {
    var k: nat
    var r: nat
    var shardBytes: nat
    var generator: seq<Vec>
    var plan: Plan

    ghost predicate Valid()
      reads this
    {
      ParamsValid(k, r, shardBytes) && generator == GeneratorFor(k, r) &&
      ValidPlan(plan) && plan.k == k && plan.r == r && plan.shardBytes == shardBytes && plan.coeff == generator
    }

    /** rs_init: the 4+2 geometry with full-size shards. */
    constructor ()
      ensures Valid() && k == 4 && r == 2 && shardBytes == PKG_SIZE
    {
      hide RscodeGenerator, ValidPlan;
      RscodeShape();
      var ok, g := BuildGeneratorRscode42();
      var ok', p := BuildPlan(g, 4, 2, PKG_SIZE);
      k, r, shardBytes := 4, 2, PKG_SIZE;
      generator := g;
      plan := p;
    }

    /** RsCodec_set_params_ex: geometry, generator and plan change together or
        not at all. */
    method SetParams(k': nat, r': nat, shardBytes': nat) returns (rc: int)
      requires Valid()
      modifies this
      ensures Valid()
      ensures var bytes := if shardBytes' == 0 then PKG_SIZE else shardBytes';
              if ParamsValid(k', r', bytes) then rc == 0 && k == k' && r == r' && shardBytes == bytes
              else rc == -1 && k == old(k) && r == old(r) && shardBytes == old(shardBytes) &&
                   generator == old(generator) && plan == old(plan)
    {
      hide RscodeGenerator, CauchyGenerator, ValidPlan;
      var bytes := if shardBytes' == 0 then PKG_SIZE else shardBytes';
      if !ParamsValid(k', r', bytes) {
        return -1;
      }
      if k == k' && r == r' && shardBytes == bytes {
        return 0;
      }
      var ok, g;
      if k' == 4 && r' == 2 {
        ok, g := BuildGeneratorRscode42();
      } else {
        ok, g := BuildGeneratorCauchy(k', r');
      }
      GeneratorIsMds(k', r');
      var ok', p := BuildPlan(g, k', r', bytes);
      k, r, shardBytes := k', r', bytes;
      generator, plan := g, p;
      return 0;
    }

    /** rs_encode: whichever path the settings select, a block of the current shape
        ends up encoded; any other buffer is left alone. */
    method Encode(data: array2<Byte>, impl: EncodeImpl, simdAvailable: bool)
      requires Valid()
      modifies data
      ensures Valid()
      ensures data.Length0 == k + r && data.Length1 == shardBytes ==> Encoded(data, old(Messages(data, k)), plan)
      ensures data.Length0 != k + r || data.Length1 != shardBytes ==>
        forall i, b :: 0 <= i < data.Length0 && 0 <= b < data.Length1 ==> data[i, b] == old(data[i, b])
    {
      hide RscodeGenerator, CauchyGenerator, Encoded;
      if data.Length0 != k + r || data.Length1 != shardBytes {
        return;
      }
      var useLegacy := impl == ImplLegacy;
      var useRscode := impl == ImplRscode && k == 4 && r == 2 && shardBytes == PKG_SIZE;
      var useFast := !useLegacy && !useRscode && k == 16 && r == 2 && shardBytes == PKG_SIZE && impl == ImplFast16;
      var useSimd := !useLegacy && !useRscode && !useFast && simdAvailable && (impl == ImplAuto || impl == ImplSimd);
      if useRscode {
        EncodeRscode42(data, plan);
      } else if useLegacy {
        EncodeLegacy(data, plan);
      } else if useFast {
        EncodeFast16(data, plan);
      } else if useSimd {
        EncodeNibble(data, plan);
      } else {
        EncodeGeneral(data, plan);
      }
    }

    /** rs_recover for the current geometry. */
    method RecoverShards(shards: array2<Byte>, present: seq<bool>) returns (status: RecoverStatus)
      requires Valid() && |present| == shards.Length0
      modifies shards
      ensures Valid()
      ensures status.RecoverErr? <==> |present| != k + r
      ensures |present| == k + r ==> (status.RecoverOk? <==> CountPresent(present, k + r) >= k)
      ensures !status.RecoverOk? ==> forall i, b :: 0 <= i < shards.Length0 && 0 <= b < shards.Length1 ==> shards[i, b] == old(shards[i, b])
      ensures status.RecoverOk? ==> forall b :: 0 <= b < shards.Length1 ==>
        ColumnRecovered(generator, k, present, old(ColumnAt(shards, b)), ColumnAt(shards, b))
    {
      hide RscodeGenerator, CauchyGenerator, ColumnRecovered, ValidPlan;
      GeneratorIsMds(k, r);
      status := Recover(generator, k, k + r, shards, present);
    }
  }


  /** A block is encoded exactly when every byte position is a codeword. */
  lemma EncodedColumns(data: array2<Byte>, ms: seq<Vec>, p: Plan)
    requires Shaped(data, p) && Systematic(p.coeff, p.k) && |ms| == p.shardBytes
    requires forall b :: 0 <= b < |ms| ==> |ms[b]| == p.k
    ensures Encoded(data, ms, p) <==>
            forall b :: 0 <= b < p.shardBytes ==> ColumnAt(data, b) == Apply(p.coeff, ms[b], p.k)
  {
    hide Dot;
    forall b, i | 0 <= b < p.shardBytes && 0 <= i < p.k ensures Dot(p.coeff[i], ms[b], p.k) == ms[b][i] {
      DotUnit(p.coeff[i], ms[b], i, p.k);
    }
    if Encoded(data, ms, p) {
      forall b | 0 <= b < p.shardBytes ensures ColumnAt(data, b) == Apply(p.coeff, ms[b], p.k) {
      }
    }
    if forall b :: 0 <= b < p.shardBytes ==> ColumnAt(data, b) == Apply(p.coeff, ms[b], p.k) {
      forall i, b | 0 <= i < p.k + p.r && 0 <= b < p.shardBytes ensures data[i, b] == Dot(p.coeff[i], ms[b], p.k) {
        assert ColumnAt(data, b)[i] == data[i, b];
      }
    }
  }

  /** The channel: lost shards come back as arbitrary bytes. */
  method Erase(data: array2<Byte>, present: seq<bool>, noise: seq<Vec>)
    requires |present| == data.Length0 && Matrix(noise, data.Length0, data.Length1)
    modifies data
    ensures forall i, b :: 0 <= i < data.Length0 && 0 <= b < data.Length1 ==>
      data[i, b] == if present[i] then old(data[i, b]) else noise[i][b]
  {
    forall i, b | 0 <= i < data.Length0 && 0 <= b < data.Length1 {
      data[i, b] := if present[i] then data[i, b] else noise[i][b];
    }
  }

  /** Encode by any path, lose any shards but k, recover: the data block comes
      back byte for byte, and the parity too whenever a data shard was lost. */
  method EncodeEraseRecover(codec: Codec, data: array2<Byte>, impl: EncodeImpl, simd: bool,
                            present: seq<bool>, noise: seq<Vec>) returns (status: RecoverStatus)
    requires codec.Valid() && data.Length0 == codec.k + codec.r && data.Length1 == codec.shardBytes
    requires |present| == data.Length0 && Matrix(noise, data.Length0, data.Length1)
    modifies data
    ensures codec.Valid()
    ensures status.RecoverOk? <==> CountPresent(present, |present|) >= codec.k
    ensures status.RecoverOk? ==>
      Messages(data, codec.k) == old(Messages(data, codec.k)) &&
      (AllDataPresent(present, codec.k) || Encoded(data, old(Messages(data, codec.k)), codec.plan))
  {
    hide RscodeGenerator, CauchyGenerator, ValidPlan, Dot, Encoded;
    ghost var ms, p := Messages(data, codec.k), codec.plan;
    GeneratorIsMds(codec.k, codec.r);
    codec.Encode(data, impl, simd);
    EncodedColumns(data, ms, p);
    forall i, b | 0 <= i < |present| && 0 <= b < p.shardBytes ensures data[i, b] == Dot(p.coeff[i], ms[b], p.k) {
      assert ColumnAt(data, b)[i] == data[i, b];
    }
    Erase(data, present, noise);
    forall b | 0 <= b < p.shardBytes ensures Agrees(p.coeff, p.k, present, ColumnAt(data, b), ms[b]) {
    }
    status := codec.RecoverShards(data, present);
    if status.RecoverOk? {
      forall b | 0 <= b < p.shardBytes
        ensures Message(data, b, p.k) == ms[b]
        ensures AllDataPresent(present, p.k) || ColumnAt(data, b) == Apply(p.coeff, ms[b], p.k)
      {
        assert Message(data, b, p.k) == ColumnAt(data, b)[..p.k];
      }
      EncodedColumns(data, ms, p);
    }
  }
}
