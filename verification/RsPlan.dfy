/** The immutable encode plan: coefficients plus flat product tables. */
module RsPlan {
  import opened Gf256
  import opened Vectors
  import opened Generator
  import opened Arith

  const PKG_SIZE: nat := 1400
  const CODEC_MAX_ENCODE_BLOCK: nat := PKG_SIZE * 255
  const RS_ENCODE_MUL_TABLE_MAX_BYTES: nat := 8 * 1024 * 1024

  predicate ParamsValid(k: nat, r: nat, shardBytes: nat) {
    1 <= k && 1 <= r && 1 <= shardBytes <= 65535 &&
    k + r <= RS_ABS_MAX_SHARDS && (k + r) * shardBytes <= CODEC_MAX_ENCODE_BLOCK
  }

  datatype Plan = Plan(k: nat, r: nat, shardBytes: nat, coeff: seq<Vec>,
                       hasMulTable: bool, mulTable: seq<Byte>, nibbleTable: seq<Byte>)

  /** The coefficient addressed by the flat position row * k + column. */
  function CoeffAt(g: seq<Vec>, k: nat, r: nat, p: nat): (c: Byte)
    requires Matrix(g, k + r, k) && 0 < k && p < r * k
  {
    FlatBounds(k, r, p);
    g[k + p / k][p % k]
  }

  lemma FlatBounds(k: nat, r: nat, p: nat)
    requires 0 < k && p < r * k
    ensures p / k < r && p % k < k
  {
    assert (p / k) * k <= p;
    MulCancelLess(p / k, r, k);
  }

  lemma FlatInRange(k: nat, r: nat, row: nat, column: nat)
    requires row < r && column < k
    ensures row * k + column < r * k
  {
    assert (row + 1) * k <= r * k;
  }

  /** The 256 products of c, at flat position p. */
  ghost predicate ProductSlot(t: seq<Byte>, p: nat, c: Byte) {
    p * 256 + 256 <= |t| && forall x :: 0 <= x < 256 ==> t[p * 256 + x] == Mul(c, ByteOf(x))
  }

  /** Thirty-two entries: products of the low nibbles, then of the high nibbles
      shifted by four bits. */
  ghost predicate NibbleSlot(t: seq<Byte>, p: nat, c: Byte) {
    p * 32 + 32 <= |t| && forall x :: 0 <= x < 16 ==>
      t[p * 32 + x] == Mul(c, ByteOf(x)) && t[p * 32 + 16 + x] == Mul(c, ByteOf(16 * x))
  }

  ghost predicate MulTableOk(t: seq<Byte>, g: seq<Vec>, k: nat, r: nat)
    requires Matrix(g, k + r, k) && 0 < k
  {
    forall p :: 0 <= p < r * k ==> ProductSlot(t, p, CoeffAt(g, k, r, p))
  }

  ghost predicate NibbleTableOk(t: seq<Byte>, g: seq<Vec>, k: nat, r: nat)
    requires Matrix(g, k + r, k) && 0 < k
  {
    forall p :: 0 <= p < r * k ==> NibbleSlot(t, p, CoeffAt(g, k, r, p))
  }

  ghost predicate ValidPlan(p: Plan) {
    ParamsValid(p.k, p.r, p.shardBytes) && Matrix(p.coeff, p.k + p.r, p.k) &&
    (p.hasMulTable ==> MulTableOk(p.mulTable, p.coeff, p.k, p.r)) &&
    NibbleTableOk(p.nibbleTable, p.coeff, p.k, p.r)
  }

  // ---------------------------------------------------------------------

  method AppendProducts(t0: seq<Byte>, ghost p: nat, c: Byte) returns (t: seq<Byte>)
    requires |t0| == p * 256
    ensures |t| == p * 256 + 256 && t0 <= t && ProductSlot(t, p, c)
  {
    hide Mul, ByteOf;
    t := t0;
    for x := 0 to 256
      invariant |t| == p * 256 + x && t0 <= t
      invariant forall y :: 0 <= y < x ==> t[p * 256 + y] == Mul(c, ByteOf(y))
    {
      t := t + [Mul(c, ByteOf(x))];
    }
  }

  method AppendNibbles(t0: seq<Byte>, ghost p: nat, c: Byte) returns (t: seq<Byte>)
    requires |t0| == p * 32
    ensures |t| == p * 32 + 32 && t0 <= t && NibbleSlot(t, p, c)
  {
    hide Mul, ByteOf;
    var low, high := [], [];
    for x := 0 to 16
      invariant |low| == |high| == x
      invariant forall y :: 0 <= y < x ==> low[y] == Mul(c, ByteOf(y)) && high[y] == Mul(c, ByteOf(16 * y))
    {
      low := low + [Mul(c, ByteOf(x))];
      high := high + [Mul(c, ByteOf(16 * x))];
    }
    t := t0 + low + high;
    assert forall y :: 0 <= y < 16 ==> t[p * 32 + y] == low[y] && t[p * 32 + 16 + y] == high[y];
  }

  lemma SlotsKept(t0: seq<Byte>, t: seq<Byte>, p: nat, c: Byte)
    requires t0 <= t
    ensures ProductSlot(t0, p, c) ==> ProductSlot(t, p, c)
    ensures NibbleSlot(t0, p, c) ==> NibbleSlot(t, p, c)
  {}

  /** The expanded table always fits under its cap for a valid geometry. */
  lemma MulTableFits(k: nat, r: nat)
    requires 1 <= k && 1 <= r && k + r <= RS_ABS_MAX_SHARDS
    ensures r * k * 256 <= RS_ENCODE_MUL_TABLE_MAX_BYTES
  {
    assert r * k <= r * 255;
    assert r * 255 <= 255 * 255 / 2 || k * 255 <= 255 * 255 / 2;
    assert r * k <= 255 * k;
  }

  method BuildMulTable(g: seq<Vec>, k: nat, r: nat) returns (t: seq<Byte>)
    requires Matrix(g, k + r, k) && 0 < k
    ensures MulTableOk(t, g, k, r)
  {
    hide Mul, ByteOf, ProductSlot;
    t := [];
    for row := 0 to r
      invariant |t| == row * k * 256
      invariant forall p :: 0 <= p < row * k && p < r * k ==> ProductSlot(t, p, CoeffAt(g, k, r, p))
    {
      for column := 0 to k
        invariant |t| == (row * k + column) * 256
        invariant forall p :: 0 <= p < row * k + column && p < r * k ==> ProductSlot(t, p, CoeffAt(g, k, r, p))
      {
        FlatInRange(k, r, row, column);
        DivModOf(row, column, k);
        var t' := AppendProducts(t, row * k + column, g[k + row][column]);
        forall p | 0 <= p < row * k + column && p < r * k ensures ProductSlot(t', p, CoeffAt(g, k, r, p)) {
          SlotsKept(t, t', p, CoeffAt(g, k, r, p));
        }
        t := t';
      }
      assert row * k + k == (row + 1) * k;
    }
  }

  method BuildNibbleTable(g: seq<Vec>, k: nat, r: nat) returns (t: seq<Byte>)
    requires Matrix(g, k + r, k) && 0 < k
    ensures NibbleTableOk(t, g, k, r)
  {
    hide Mul, ByteOf, NibbleSlot;
    t := [];
    for row := 0 to r
      invariant |t| == row * k * 32
      invariant forall p :: 0 <= p < row * k && p < r * k ==> NibbleSlot(t, p, CoeffAt(g, k, r, p))
    {
      for column := 0 to k
        invariant |t| == (row * k + column) * 32
        invariant forall p :: 0 <= p < row * k + column && p < r * k ==> NibbleSlot(t, p, CoeffAt(g, k, r, p))
      {
        FlatInRange(k, r, row, column);
        DivModOf(row, column, k);
        var t' := AppendNibbles(t, row * k + column, g[k + row][column]);
        forall p | 0 <= p < row * k + column && p < r * k ensures NibbleSlot(t', p, CoeffAt(g, k, r, p)) {
          SlotsKept(t, t', p, CoeffAt(g, k, r, p));
        }
        t := t';
      }
      assert row * k + k == (row + 1) * k;
    }
  }

  /** rs_encode_plan_build. */
  method BuildPlan(g: seq<Vec>, k: nat, r: nat, shardBytes: nat) returns (ok: bool, p: Plan)
    requires Matrix(g, k + r, k)
    ensures ok <==> ParamsValid(k, r, shardBytes)
    ensures ok ==> ValidPlan(p) && p.coeff == g && p.k == k && p.r == r && p.shardBytes == shardBytes && p.hasMulTable
  {
    p := Plan(0, 0, 0, [], false, [], []);
    if !ParamsValid(k, r, shardBytes) {
      return false, p;
    }
    MulTableFits(k, r);
    var nibbles := BuildNibbleTable(g, k, r);
    var products, has := [], false;
    if k * r * 256 <= RS_ENCODE_MUL_TABLE_MAX_BYTES {
      products := BuildMulTable(g, k, r);
      has := true;
    }
    return true, Plan(k, r, shardBytes, g, has, products, nibbles);
  }
}
