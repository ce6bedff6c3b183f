/** The encode paths. Each is proved against the same description of the
    encoded block, so all of them write the same parity bytes. */
module RsEncode {
  import opened Gf256
  import opened Vectors
  import opened Generator
  import opened Rscode
  import opened RsPlan
  import opened Arith

  function Message(data: array2<Byte>, b: nat, k: nat): (m: Vec)
    reads data
    requires k <= data.Length0 && b < data.Length1
  {
    seq(k, c requires 0 <= c < k reads data => data[c, b])
  }

  /** One message per byte position: the k data bytes at that position. */
  function Messages(data: array2<Byte>, k: nat): (ms: seq<Vec>)
    reads data
    requires k <= data.Length0
    ensures |ms| == data.Length1
    ensures forall b :: 0 <= b < |ms| ==> ms[b] == Message(data, b, k)
  {
    seq(data.Length1, b requires 0 <= b < data.Length1 reads data => Message(data, b, k))
  }

  ghost predicate Shaped(data: array2<Byte>, p: Plan) {
    ValidPlan(p) && data.Length0 == p.k + p.r && data.Length1 == p.shardBytes
  }

  /** The data shards still hold the messages. */
  ghost predicate DataKept(data: array2<Byte>, ms: seq<Vec>, p: Plan)
    reads data
    requires Shaped(data, p)
  {
    |ms| == p.shardBytes && (forall b :: 0 <= b < |ms| ==> |ms[b]| == p.k) &&
    forall c, b :: 0 <= c < p.k && 0 <= b < p.shardBytes ==> data[c, b] == ms[b][c]
  }

  /** The finished block: data unchanged, every parity byte a full dot product. */
  ghost predicate Encoded(data: array2<Byte>, ms: seq<Vec>, p: Plan)
    reads data
    requires Shaped(data, p)
  {
    DataKept(data, ms, p) &&
    forall s, b :: p.k <= s < p.k + p.r && 0 <= b < p.shardBytes ==> data[s, b] == Dot(p.coeff[s], ms[b], p.k)
  }

  method LegacyByte(msg: Vec, row: Vec, k: nat) returns (value: Byte)
    requires |msg| == |row| == k
    ensures value == Dot(row, msg, k)
  {
    hide Xor, Mul;
    value := ZERO;
    for column := 0 to k
      invariant value == Dot(row, msg, column)
    {
      value := Xor(value, Mul(row[column], msg[column]));
    }
  }

  /** rs_encode_legacy_gmul: byte-major, one multiplication per term. */
  method EncodeLegacy(data: array2<Byte>, p: Plan)
    requires Shaped(data, p)
    modifies data
    ensures Encoded(data, old(Messages(data, p.k)), p)
  {
    hide Dot;
    ghost var ms := Messages(data, p.k);
    for b := 0 to p.shardBytes
      invariant DataKept(data, ms, p)
      invariant forall s, x :: p.k <= s < p.k + p.r && 0 <= x < b ==> data[s, x] == Dot(p.coeff[s], ms[x], p.k)
    {
      var msg := Message(data, b, p.k);
      assert msg == ms[b];
      for s := p.k to p.k + p.r
        invariant DataKept(data, ms, p)
        invariant forall t, x :: p.k <= t < p.k + p.r && 0 <= x < b ==> data[t, x] == Dot(p.coeff[t], ms[x], p.k)
        invariant forall t :: p.k <= t < s ==> data[t, b] == Dot(p.coeff[t], ms[b], p.k)
      {
        var value := LegacyByte(msg, p.coeff[s], p.k);
        data[s, b] := value;
      }
    }
  }

  method ClearParity(data: array2<Byte>, p: Plan)
    requires Shaped(data, p)
    modifies data
    ensures DataKept(data, old(Messages(data, p.k)), p)
    ensures forall s, b :: p.k <= s < p.k + p.r && 0 <= b < p.shardBytes ==> data[s, b] == ZERO
  {
    ghost var ms := Messages(data, p.k);
    for s := p.k to p.k + p.r
      invariant DataKept(data, ms, p)
      invariant forall t, x :: p.k <= t < s && 0 <= x < p.shardBytes ==> data[t, x] == ZERO
    {
      for b := 0 to p.shardBytes
        invariant DataKept(data, ms, p)
        invariant forall t, x :: p.k <= t <= s && 0 <= x < p.shardBytes && (t < s || x < b) ==> data[t, x] == ZERO
      {
        data[s, b] := ZERO;
      }
    }
  }

  /** One table lookup of the general and 16+2 paths. */
  method Product(p: Plan, j: nat, column: nat, x: Byte) returns (y: Byte)
    requires ValidPlan(p) && j < p.r && column < p.k
    ensures y == Mul(p.coeff[p.k + j][column], x)
  {
    hide Mul, ByteOf, Value;
    if p.hasMulTable {
      FlatInRange(p.k, p.r, j, column);
      DivModOf(j, column, p.k);
      ByteOfValue(x);
      assert ProductSlot(p.mulTable, j * p.k + column, CoeffAt(p.coeff, p.k, p.r, j * p.k + column));
      y := p.mulTable[(j * p.k + column) * 256 + Value(x)];
    } else {
      y := Mul(p.coeff[p.k + j][column], x);
    }
  }

  /** rs_encode_general_table: each data shard is scanned once and XORed into
      every parity row through the product tables. */
  method EncodeGeneral(data: array2<Byte>, p: Plan)
    requires Shaped(data, p)
    modifies data
    ensures Encoded(data, old(Messages(data, p.k)), p)
  {
    hide Xor, Mul;
    ghost var ms := Messages(data, p.k);
    ClearParity(data, p);
    for column := 0 to p.k
      invariant DataKept(data, ms, p)
      invariant forall s, b :: p.k <= s < p.k + p.r && 0 <= b < p.shardBytes ==> data[s, b] == Dot(p.coeff[s], ms[b], column)
    {
      for s := p.k to p.k + p.r
        invariant DataKept(data, ms, p)
        invariant forall t, b :: p.k <= t < p.k + p.r && 0 <= b < p.shardBytes ==>
          data[t, b] == Dot(p.coeff[t], ms[b], if t < s then column + 1 else column)
      {
        AddColumn(data, p, ms, column, s);
      }
    }
  }

  /** XORs one product into one parity byte: its dot product gains a term. */
  method Accumulate(data: array2<Byte>, p: Plan, ghost ms: seq<Vec>, column: nat, s: nat, b: nat, y: Byte)
    requires Shaped(data, p) && DataKept(data, ms, p) && column < p.k <= s < p.k + p.r && b < p.shardBytes
    requires data[s, b] == Dot(p.coeff[s], ms[b], column) && y == Mul(p.coeff[s][column], data[column, b])
    modifies data
    ensures DataKept(data, ms, p) && data[s, b] == Dot(p.coeff[s], ms[b], column + 1)
    ensures forall t, x :: p.k <= t < p.k + p.r && 0 <= x < p.shardBytes && (t != s || x != b) ==> data[t, x] == old(data[t, x])
  {
    hide Xor, Mul;
    data[s, b] := Xor(data[s, b], y);
  }

  /** The innermost loop: one data shard into one parity shard. */
  method AddColumn(data: array2<Byte>, p: Plan, ghost ms: seq<Vec>, column: nat, s: nat)
    requires Shaped(data, p) && DataKept(data, ms, p) && column < p.k <= s < p.k + p.r
    requires forall b :: 0 <= b < p.shardBytes ==> data[s, b] == Dot(p.coeff[s], ms[b], column)
    modifies data
    ensures DataKept(data, ms, p)
    ensures forall b :: 0 <= b < p.shardBytes ==> data[s, b] == Dot(p.coeff[s], ms[b], column + 1)
    ensures forall t, b :: p.k <= t < p.k + p.r && t != s && 0 <= b < p.shardBytes ==> data[t, b] == old(data[t, b])
  {
    hide Xor, Mul;
    for b := 0 to p.shardBytes
      invariant DataKept(data, ms, p)
      invariant forall x :: 0 <= x < p.shardBytes ==> data[s, x] == Dot(p.coeff[s], ms[x], if x < b then column + 1 else column)
      invariant forall t, x :: p.k <= t < p.k + p.r && t != s && 0 <= x < p.shardBytes ==> data[t, x] == old(data[t, x])
    {
      var y := Product(p, s - p.k, column, data[column, b]);
      Accumulate(data, p, ms, column, s, b, y);
    }
  }

  // ---------------------------------------------------------------------
  // The split-nibble path, as the scalar kernel of the SIMD encoder runs it.

  lemma SplitNibbles(x: Byte)
    ensures Xor(ByteOf(Low(x)), ByteOf(16 * High(x))) == x
  {
    hide Hex, High, Low, Xor;
    LowBound(x);
    var l, h := Hex(0, Low(x)), Hex(High(x), 0);
    assert l == ByteOf(Low(x)) && h == ByteOf(16 * High(x));
    hide ByteOf;
    HexDigits(0, Low(x)); HexDigits(High(x), 0);
    ZeroDigits();
    HighInjective(l, ZERO); LowInjective(l, x);
    HighInjective(h, x); LowInjective(h, ZERO);
    XorBits(l, h, x);
  }

  lemma XorBits(l: Byte, h: Byte, x: Byte)
    requires !l.b7 && !l.b6 && !l.b5 && !l.b4 && l.b3 == x.b3 && l.b2 == x.b2 && l.b1 == x.b1 && l.b0 == x.b0
    requires !h.b3 && !h.b2 && !h.b1 && !h.b0 && h.b7 == x.b7 && h.b6 == x.b6 && h.b5 == x.b5 && h.b4 == x.b4
    ensures Xor(l, h) == x
  {}

  lemma ZeroDigits()
    ensures High(ZERO) == 0 && Low(ZERO) == 0
  {}

  method NibbleProduct(p: Plan, j: nat, column: nat, x: Byte) returns (y: Byte)
    requires ValidPlan(p) && j < p.r && column < p.k
    ensures y == Mul(p.coeff[p.k + j][column], x)
  {
    hide Xor, Mul, ByteOf, High, Low;
    FlatInRange(p.k, p.r, j, column);
    DivModOf(j, column, p.k);
    LowBound(x);
    ghost var c := CoeffAt(p.coeff, p.k, p.r, j * p.k + column);
    assert NibbleSlot(p.nibbleTable, j * p.k + column, c);
    var base := (j * p.k + column) * 32;
    y := Xor(p.nibbleTable[base + Low(x)], p.nibbleTable[base + 16 + High(x)]);
    MulDistrib(c, ByteOf(Low(x)), ByteOf(16 * High(x)));
    SplitNibbles(x);
  }

  /** rs_gf256_encode_column_scalar: all parity rows of one data shard, byte by byte. */
  method EncodeColumnScalar(data: array2<Byte>, p: Plan, ghost ms: seq<Vec>, column: nat)
    requires Shaped(data, p) && DataKept(data, ms, p) && column < p.k
    requires forall s, b :: p.k <= s < p.k + p.r && 0 <= b < p.shardBytes ==> data[s, b] == Dot(p.coeff[s], ms[b], column)
    modifies data
    ensures DataKept(data, ms, p)
    ensures forall s, b :: p.k <= s < p.k + p.r && 0 <= b < p.shardBytes ==> data[s, b] == Dot(p.coeff[s], ms[b], column + 1)
  {
    hide Xor, Mul;
    for b := 0 to p.shardBytes
      invariant DataKept(data, ms, p)
      invariant forall s, x :: p.k <= s < p.k + p.r && 0 <= x < p.shardBytes ==>
        data[s, x] == Dot(p.coeff[s], ms[x], if x < b then column + 1 else column)
    {
      var value := data[column, b];
      for s := p.k to p.k + p.r
        invariant DataKept(data, ms, p) && value == data[column, b]
        invariant forall t, x :: p.k <= t < p.k + p.r && 0 <= x < p.shardBytes ==>
          data[t, x] == Dot(p.coeff[t], ms[x], if x < b || (x == b && t < s) then column + 1 else column)
      {
        var y := NibbleProduct(p, s - p.k, column, value);
        Accumulate(data, p, ms, column, s, b, y);
      }
    }
  }

  /** rs_encode_general_simd. */
  method EncodeNibble(data: array2<Byte>, p: Plan)
    requires Shaped(data, p)
    modifies data
    ensures Encoded(data, old(Messages(data, p.k)), p)
  {
    hide Xor, Mul;
    ghost var ms := Messages(data, p.k);
    ClearParity(data, p);
    for column := 0 to p.k
      invariant DataKept(data, ms, p)
      invariant forall s, b :: p.k <= s < p.k + p.r && 0 <= b < p.shardBytes ==> data[s, b] == Dot(p.coeff[s], ms[b], column)
    {
      EncodeColumnScalar(data, p, ms, column);
    }
  }

  // ---------------------------------------------------------------------
  // The specialised 16+2 path and rscode's own 4+2 encoder.

  method FastColumn(data: array2<Byte>, p: Plan, ghost ms: seq<Vec>, column: nat)
    requires Shaped(data, p) && DataKept(data, ms, p) && column < p.k && p.r == 2
    requires forall s, b :: p.k <= s < p.k + p.r && 0 <= b < p.shardBytes ==> data[s, b] == Dot(p.coeff[s], ms[b], column)
    modifies data
    ensures DataKept(data, ms, p)
    ensures forall s, b :: p.k <= s < p.k + p.r && 0 <= b < p.shardBytes ==> data[s, b] == Dot(p.coeff[s], ms[b], column + 1)
  {
    hide Xor, Mul;
    for b := 0 to p.shardBytes
      invariant DataKept(data, ms, p)
      invariant forall s, x :: p.k <= s < p.k + p.r && 0 <= x < p.shardBytes ==>
        data[s, x] == Dot(p.coeff[s], ms[x], if x < b then column + 1 else column)
    {
      var symbol := data[column, b];
      var y0 := Product(p, 0, column, symbol);
      var y1 := Product(p, 1, column, symbol);
      Accumulate(data, p, ms, column, p.k, b, y0);
      Accumulate(data, p, ms, column, p.k + 1, b, y1);
    }
  }

  /** rs_encode_16_2_fast. */
  method EncodeFast16(data: array2<Byte>, p: Plan)
    requires Shaped(data, p) && p.k == 16 && p.r == 2 && p.shardBytes == PKG_SIZE
    modifies data
    ensures Encoded(data, old(Messages(data, p.k)), p)
  {
    hide Xor, Mul;
    ghost var ms := Messages(data, p.k);
    ClearParity(data, p);
    for column := 0 to 16
      invariant DataKept(data, ms, p)
      invariant forall s, b :: p.k <= s < p.k + p.r && 0 <= b < p.shardBytes ==> data[s, b] == Dot(p.coeff[s], ms[b], column)
    {
      FastColumn(data, p, ms, column);
    }
  }

  /** encode_data run as a loop over its two register cells. */
  method RscodeEncodeData(msg: Vec) returns (codeword: Vec)
    ensures codeword == EncodeData(msg)
  {
    hide Xor, Mul, GenPoly0, GenPoly1;
    var l0, l1 := ZERO, ZERO;
    for i := 0 to |msg|
      invariant Lfsr(msg, i) == Register(l0, l1)
    {
      var dbyte := Xor(msg[i], l1);
      l1 := Xor(l0, Mul(GenPoly1(), dbyte));
      l0 := Mul(GenPoly0(), dbyte);
    }
    codeword := msg + [l1, l0];
  }

  lemma ParityBytes(msg: Vec)
    requires |msg| == 4
    ensures var g := RscodeGenerator();
            Matrix(g, 6, 4) && |EncodeData(msg)| == 6 && EncodeData(msg)[4] == Dot(g[4], msg, 4) && EncodeData(msg)[5] == Dot(g[5], msg, 4)
  {
    hide Dot, EncodeData, RscodeGenerator;
    RscodeShape();
    EncodeKeepsMessage(msg);
    GeneratorEncodes(msg);
    assert Apply(RscodeGenerator(), msg, 4)[4] == Dot(RscodeGenerator()[4], msg, 4);
    assert Apply(RscodeGenerator(), msg, 4)[5] == Dot(RscodeGenerator()[5], msg, 4);
  }

  /** One byte position of rs_encode_rscode_4_2. */
  method EncodeColumn42(data: array2<Byte>, b: nat)
    requires data.Length0 == 6 && b < data.Length1
    modifies data
    ensures var msg, g := old(Message(data, b, 4)), RscodeGenerator();
            Matrix(g, 6, 4) && data[4, b] == Dot(g[4], msg, 4) && data[5, b] == Dot(g[5], msg, 4)
    ensures forall s, x :: 0 <= s < 6 && 0 <= x < data.Length1 && (s < 4 || x != b) ==> data[s, x] == old(data[s, x])
  {
    hide Dot, EncodeData, RscodeGenerator;
    var msg := Message(data, b, 4);
    var codeword := RscodeEncodeData(msg);
    ParityBytes(msg);
    data[4, b] := codeword[4];
    data[5, b] := codeword[5];
  }

  /** rs_encode_rscode_4_2 agrees with the plan built from the extracted rows. */
  method EncodeRscode42(data: array2<Byte>, p: Plan)
    requires Shaped(data, p) && p.k == 4 && p.r == 2 && p.coeff == RscodeGenerator()
    modifies data
    ensures Encoded(data, old(Messages(data, p.k)), p)
  {
    hide Dot, EncodeData, RscodeGenerator, ValidPlan;
    RscodeShape();
    ghost var ms := Messages(data, 4);
    for b := 0 to p.shardBytes
      invariant forall s, x :: 0 <= s < 4 && 0 <= x < p.shardBytes ==> data[s, x] == old(data[s, x])
      invariant forall s, x :: 4 <= s < 6 && 0 <= x < b ==> data[s, x] == Dot(p.coeff[s], ms[x], 4)
    {
      assert Message(data, b, 4) == ms[b];
      EncodeColumn42(data, b);
    }
  }

  /** The description leaves no freedom: two blocks encoded from the same
      messages hold the same bytes. */
  lemma EncodingUnique(d1: array2<Byte>, d2: array2<Byte>, ms: seq<Vec>, p: Plan)
    requires Shaped(d1, p) && Shaped(d2, p) && Encoded(d1, ms, p) && Encoded(d2, ms, p)
    ensures forall s, b :: 0 <= s < d1.Length0 && 0 <= b < d1.Length1 ==> d1[s, b] == d2[s, b]
  {
    forall s, b | 0 <= s < d1.Length0 && 0 <= b < d1.Length1 ensures d1[s, b] == d2[s, b] {
      if s < p.k {
        assert d1[s, b] == ms[b][s];
      } else {
        assert d1[s, b] == Dot(p.coeff[s], ms[b], p.k);
      }
    }
  }
}
