/** In-place Gauss-Jordan elimination of [A | I] over GF(256). */
module GaussJordan {
  import opened Gf256
  import opened Vectors
  import opened Generator

  // ---------------------------------------------------------------------
  // Row operations on values.

  function ScaleVec(u: Vec, f: Byte): (r: Vec) {
    seq(|u|, c requires 0 <= c < |u| => Mul(u[c], f))
  }

  function AddScaled(u: Vec, f: Byte, p: Vec): (r: Vec)
    requires |u| == |p|
  {
    seq(|u|, c requires 0 <= c < |u| => Xor(u[c], Mul(f, p[c])))
  }

  function Swapped(m: seq<Vec>, i: nat, j: nat): (r: seq<Vec>)
    requires i < |m| && j < |m|
  {
    m[i := m[j]][j := m[i]]
  }

  /** The left half of a row is its right half times A. */
  ghost predicate RowConsistent(row: Vec, a: seq<Vec>, k: nat)
    requires Matrix(a, k, k)
  {
    |row| == 2 * k && forall c :: 0 <= c < k ==> row[c] == Dot(row[k..], Column(a, c), k)
  }

  ghost predicate Consistent(m: seq<Vec>, a: seq<Vec>, k: nat)
    requires Matrix(a, k, k)
  {
    |m| == k && forall r :: 0 <= r < k ==> RowConsistent(m[r], a, k)
  }

  /** No row operation so far has enlarged the kernel. */
  ghost predicate KernelKept(m: seq<Vec>, a: seq<Vec>, k: nat)
    requires Matrix(a, k, k) && Consistent(m, a, k)
  {
    forall v :: InKernel(m, v, k) ==> InKernel(a, v, k)
  }

  /** The first n columns are those of the identity. */
  ghost predicate UnitColumns(m: seq<Vec>, n: nat, k: nat)
  {
    n <= k == |m| && (forall r :: 0 <= r < k ==> n <= |m[r]|) &&
    forall r, c :: 0 <= r < k && 0 <= c < n ==> m[r][c] == Unit(r, c)
  }

  ghost predicate Eliminating(m: seq<Vec>, a: seq<Vec>, n: nat, k: nat) {
    Matrix(a, k, k) && Consistent(m, a, k) && KernelKept(m, a, k) && UnitColumns(m, n, k)
  }

  /** Column n has its pivot, and zeros in the other rows above row. */
  ghost predicate PivotDone(m: seq<Vec>, n: nat, row: nat, k: nat) {
    n < k == |m| && (forall r :: 0 <= r < k ==> n < |m[r]|) &&
    m[n][n] == ONE && forall r :: 0 <= r < row && r < k && r != n ==> m[r][n] == ZERO
  }

  // ---------------------------------------------------------------------
  // Each row operation keeps the invariant.

  lemma ScaleConsistent(row: Vec, f: Byte, a: seq<Vec>, k: nat)
    requires Matrix(a, k, k) && RowConsistent(row, a, k)
    ensures RowConsistent(ScaleVec(row, f), a, k)
  {
    hide Xor, Mul;
    var s := ScaleVec(row, f);
    forall c | 0 <= c < k ensures s[c] == Dot(s[k..], Column(a, c), k) {
      forall i | 0 <= i < k ensures s[k..][i] == Mul(f, row[k..][i]) {
        MulComm(row[k + i], f);
      }
      DotScale(s[k..], f, row[k..], Column(a, c), k);
      MulComm(row[c], f);
    }
  }

  lemma AddConsistent(row: Vec, f: Byte, p: Vec, a: seq<Vec>, k: nat)
    requires Matrix(a, k, k) && RowConsistent(row, a, k) && RowConsistent(p, a, k)
    ensures RowConsistent(AddScaled(row, f, p), a, k)
  {
    hide Xor, Mul;
    var s := AddScaled(row, f, p);
    forall c | 0 <= c < k ensures s[c] == Dot(s[k..], Column(a, c), k) {
      DotAxpy(s[k..], row[k..], f, p[k..], Column(a, c), k);
    }
  }

  lemma SwapKeeps(m: seq<Vec>, a: seq<Vec>, n: nat, k: nat, i: nat)
    requires Eliminating(m, a, n, k) && n <= i < k
    ensures Eliminating(Swapped(m, i, n), a, n, k)
  {
    var s := Swapped(m, i, n);
    forall v | InKernel(s, v, k) ensures InKernel(a, v, k) {
      forall r | 0 <= r < k ensures Dot(m[r], v, k) == ZERO {
        assert m[r] == s[if r == i then n else if r == n then i else r];
      }
      assert InKernel(m, v, k);
    }
  }

  lemma ScaleKeeps(m: seq<Vec>, a: seq<Vec>, n: nat, k: nat, f: Byte)
    requires Eliminating(m, a, n, k) && n < k && f != ZERO
    ensures Eliminating(m[n := ScaleVec(m[n], f)], a, n, k)
  {
    hide Xor, Mul;
    var s := m[n := ScaleVec(m[n], f)];
    ScaleConsistent(m[n], f, a, k);
    forall v | InKernel(s, v, k) ensures InKernel(a, v, k) {
      forall r | 0 <= r < k ensures Dot(m[r], v, k) == ZERO {
        if r == n {
          forall c | 0 <= c < k ensures s[n][c] == Mul(f, m[n][c]) { MulComm(m[n][c], f); }
          DotScale(s[n], f, m[n], v, k);
          MulNonzero(f, Dot(m[n], v, k));
        } else {
          assert s[r] == m[r];
        }
      }
      assert InKernel(m, v, k);
    }
    forall c | 0 <= c < n ensures s[n][c] == Unit(n, c) { MulZero(f); }
  }

  lemma AddKeeps(m: seq<Vec>, a: seq<Vec>, n: nat, k: nat, row: nat, f: Byte)
    requires Eliminating(m, a, n, k) && n < k && row < k && row != n
    ensures Eliminating(m[row := AddScaled(m[row], f, m[n])], a, n, k)
  {
    hide Xor, Mul;
    var s := m[row := AddScaled(m[row], f, m[n])];
    AddConsistent(m[row], f, m[n], a, k);
    forall v | InKernel(s, v, k) ensures InKernel(a, v, k) {
      forall r | 0 <= r < k ensures Dot(m[r], v, k) == ZERO {
        if r == row {
          assert s[n] == m[n];
          DotAxpy(s[row], m[row], f, m[n], v, k);
          MulZero(f);
          XorZero(Dot(m[row], v, k));
        } else {
          assert s[r] == m[r];
        }
      }
      assert InKernel(m, v, k);
    }
    forall c | 0 <= c < n ensures s[row][c] == Unit(row, c) {
      MulZero(f);
      XorZero(m[row][c]);
    }
  }

  // ---------------------------------------------------------------------
  // A column without a pivot exposes a nonzero kernel vector.

  ghost function Witness(m: seq<Vec>, n: nat, k: nat): (v: Vec)
    requires UnitColumns(m, n, k) && n < k && forall r :: 0 <= r < k ==> n < |m[r]|
  {
    seq(k, c requires 0 <= c < k => if c < n then m[c][n] else Unit(n, c))
  }

  lemma {:induction false} WitnessDot(m: seq<Vec>, n: nat, k: nat, r: nat, j: nat)
    requires UnitColumns(m, n, k) && n < k && forall r :: 0 <= r < k ==> k <= |m[r]|
    requires forall i :: n <= i < k ==> m[i][n] == ZERO
    requires r < k && j <= k
    ensures Dot(m[r], Witness(m, n, k), j) == if r < j <= n then m[r][n] else ZERO
  {
    hide Xor, Mul;
    if j != 0 {
      WitnessDot(m, n, k, r, j - 1);
      var c, w := j - 1, Witness(m, n, k);
      MulZero(m[r][c]); MulZero(w[c]); MulOne(m[r][c]); MulOne(w[c]);
      XorZero(Mul(m[r][c], w[c])); XorZero(Dot(m[r], w, c));
      XorSelf(m[r][n], m[r][n]);
    }
  }

  lemma NoPivotIsSingular(m: seq<Vec>, a: seq<Vec>, n: nat, k: nat)
    requires Eliminating(m, a, n, k) && n < k
    requires forall i :: n <= i < k ==> m[i][n] == ZERO
    ensures !TrivialKernel(a, k) && !Invertible(a, k)
  {
    var w := Witness(m, n, k);
    forall r | 0 <= r < k ensures Dot(m[r], w, k) == ZERO {
      WitnessDot(m, n, k, r, k);
    }
    assert InKernel(a, w, k);
    assert w[n] == ONE;
    if Invertible(a, k) {
      InvertibleHasTrivialKernel(a, k);
    }
  }

  lemma AllColumnsDone(m: seq<Vec>, a: seq<Vec>, k: nat)
    requires Eliminating(m, a, k, k)
    ensures LeftInverse(seq(k, r requires 0 <= r < k => m[r][k..]), a, k)
  {
    var b := seq(k, r requires 0 <= r < k => m[r][k..]);
    forall r, c | 0 <= r < k && 0 <= c < k ensures Dot(b[r], Column(a, c), k) == Unit(r, c) {
      assert RowConsistent(m[r], a, k);
    }
  }

  // ---------------------------------------------------------------------
  // The augmented matrix in place.

  function Row(m: array2<Byte>, i: nat): (r: Vec)
    reads m
    requires i < m.Length0
  {
    seq(m.Length1, c requires 0 <= c < m.Length1 reads m => m[i, c])
  }

  function View(m: array2<Byte>): (v: seq<Vec>)
    reads m
    ensures |v| == m.Length0
    ensures forall i :: 0 <= i < |v| ==> v[i] == Row(m, i)
  {
    seq(m.Length0, i requires 0 <= i < m.Length0 reads m => Row(m, i))
  }

  method SwapRows(m: array2<Byte>, i: nat, j: nat)
    requires i < m.Length0 && j < m.Length0
    modifies m
    ensures View(m) == Swapped(old(View(m)), i, j)
  {
    for c := 0 to m.Length1
      invariant forall t, d :: 0 <= t < m.Length0 && 0 <= d < m.Length1 ==>
        m[t, d] == old(m[if d < c && t == i then j else if d < c && t == j then i else t, d])
    {
      m[i, c], m[j, c] := m[j, c], m[i, c];
    }
    forall t | 0 <= t < m.Length0 ensures View(m)[t] == Swapped(old(View(m)), i, j)[t] {
      assert Row(m, t) == old(Row(m, if t == i then j else if t == j then i else t));
    }
  }

  method ScaleRow(m: array2<Byte>, i: nat, f: Byte)
    requires i < m.Length0
    modifies m
    ensures View(m) == old(View(m))[i := ScaleVec(old(View(m))[i], f)]
  {
    for c := 0 to m.Length1
      invariant forall t, d :: 0 <= t < m.Length0 && t != i && 0 <= d < m.Length1 ==> m[t, d] == old(m[t, d])
      invariant forall d :: 0 <= d < m.Length1 ==> m[i, d] == if d < c then Mul(old(m[i, d]), f) else old(m[i, d])
    {
      m[i, c] := Mul(m[i, c], f);
    }
    forall t | 0 <= t < m.Length0 && t != i ensures View(m)[t] == old(View(m))[t] {
      assert Row(m, t) == old(Row(m, t));
    }
    assert Row(m, i) == ScaleVec(old(Row(m, i)), f);
  }

  /** Subtracts a multiple of row p so that column p of row i becomes zero. */
  method EliminateRow(m: array2<Byte>, i: nat, p: nat)
    requires i < m.Length0 && p < m.Length0 && i != p && p < m.Length1
    modifies m
    ensures View(m) == old(View(m))[i := AddScaled(old(View(m))[i], old(m[i, p]), old(View(m))[p])]
  {
    hide Xor, Mul;
    var factor := m[i, p];
    if factor == ZERO {
      forall c | 0 <= c < m.Length1 ensures m[i, c] == Xor(m[i, c], Mul(factor, m[p, c])) {
        MulZero(m[p, c]);
        XorZero(m[i, c]);
      }
    } else {
      for c := 0 to m.Length1
        invariant forall t, d :: 0 <= t < m.Length0 && t != i && 0 <= d < m.Length1 ==> m[t, d] == old(m[t, d])
        invariant forall d :: 0 <= d < m.Length1 ==>
          m[i, d] == if d < c then Xor(old(m[i, d]), Mul(factor, old(m[p, d]))) else old(m[i, d])
      {
        m[i, c] := Xor(m[i, c], Mul(factor, m[p, c]));
      }
    }
    forall t | 0 <= t < m.Length0 && t != i ensures View(m)[t] == old(View(m))[t] {
      assert Row(m, t) == old(Row(m, t));
    }
    assert Row(m, i) == AddScaled(old(Row(m, i)), factor, old(Row(m, p)));
  }

  /** The first row at or below n with a nonzero entry in column n. */
  method FindPivot(m: array2<Byte>, n: nat) returns (pivot: nat)
    requires n < m.Length0 && n < m.Length1
    ensures n <= pivot <= m.Length0
    ensures forall i :: n <= i < pivot ==> m[i, n] == ZERO
    ensures pivot < m.Length0 ==> m[pivot, n] != ZERO
  {
    pivot := n;
    while pivot < m.Length0 && m[pivot, n] == ZERO
      invariant n <= pivot <= m.Length0
      invariant forall i :: n <= i < pivot ==> m[i, n] == ZERO
    {
      pivot := pivot + 1;
    }
  }

  lemma StartConsistent(m: seq<Vec>, a: seq<Vec>, k: nat)
    requires Matrix(a, k, k) && Matrix(m, k, 2 * k)
    requires forall r, c :: 0 <= r < k && 0 <= c < k ==> m[r][c] == a[r][c] && m[r][k + c] == Unit(r, c)
    ensures Eliminating(m, a, 0, k)
  {
    hide Xor, Mul;
    forall r | 0 <= r < k ensures RowConsistent(m[r], a, k) {
      forall c | 0 <= c < k ensures m[r][c] == Dot(m[r][k..], Column(a, c), k) {
        DotUnit(m[r][k..], Column(a, c), r, k);
      }
    }
    forall v | InKernel(m, v, k) ensures InKernel(a, v, k) {
      forall r | 0 <= r < k ensures Dot(a[r], v, k) == ZERO {
        DotCong(a[r], v, m[r], v, k);
      }
    }
  }

  lemma PivotStarts(m: seq<Vec>, n: nat, k: nat)
    requires n < k == |m| && (forall r :: 0 <= r < k ==> n < |m[r]|) && m[n][n] != ZERO
    ensures PivotDone(m[n := ScaleVec(m[n], Inv(m[n][n]))], n, 0, k)
    ensures Inv(m[n][n]) != ZERO
  {
    hide Mul, Inv;
    MulInv(m[n][n]);
  }

  lemma PivotAdvances(m: seq<Vec>, n: nat, row: nat, k: nat)
    requires PivotDone(m, n, row, k) && row < k && row != n && |m[row]| == |m[n]|
    ensures PivotDone(m[row := AddScaled(m[row], m[row][n], m[n])], n, row + 1, k)
  {
    hide Xor, Mul;
    MulOne(m[row][n]);
    XorSelf(m[row][n], m[row][n]);
  }

  /** Turns column n into a unit column, given a nonzero entry at or below row n. */
  method ReduceColumn(m: array2<Byte>, ghost a: seq<Vec>, n: nat, pivot: nat, k: nat)
    requires m.Length0 == k && m.Length1 == 2 * k && n <= pivot < k
    requires Eliminating(View(m), a, n, k) && m[pivot, n] != ZERO
    modifies m
    ensures Eliminating(View(m), a, n + 1, k)
  {
    hide Inv, ScaleVec, AddScaled, Consistent, KernelKept, UnitColumns;
    if pivot != n {
      SwapKeeps(View(m), a, n, k, pivot);
      SwapRows(m, pivot, n);
    }
    assert m[n, n] == View(m)[n][n] && m[n, n] != ZERO;
    PivotStarts(View(m), n, k);
    ScaleKeeps(View(m), a, n, k, Inv(m[n, n]));
    ScaleRow(m, n, Inv(m[n, n]));
    for row := 0 to k
      invariant Eliminating(View(m), a, n, k)
      invariant PivotDone(View(m), n, row, k)
    {
      if row != n {
        assert m[row, n] == View(m)[row][n];
        PivotAdvances(View(m), n, row, k);
        AddKeeps(View(m), a, n, k, row, m[row, n]);
        EliminateRow(m, row, n);
      }
    }
    NextColumn(View(m), a, n, k);
  }

  lemma NextColumn(m: seq<Vec>, a: seq<Vec>, n: nat, k: nat)
    requires Eliminating(m, a, n, k) && PivotDone(m, n, k, k)
    ensures Eliminating(m, a, n + 1, k)
  {}

  /** matrix_inverse_dyn: succeeds exactly on the invertible matrices of order
      1 to 254, and then the result times the input is the identity. */
  method MatrixInverse(a: seq<Vec>, k: nat) returns (ok: bool, inverse: seq<Vec>)
    requires Matrix(a, k, k)
    ensures ok <==> 1 <= k < RS_ABS_MAX_SHARDS && Invertible(a, k)
    ensures ok <==> 1 <= k < RS_ABS_MAX_SHARDS && TrivialKernel(a, k)
    ensures ok ==> LeftInverse(inverse, a, k)
  {
    if k == 0 || k >= RS_ABS_MAX_SHARDS {
      return false, [];
    }
    var m := new Byte[k, 2 * k](
      (r, c) requires 0 <= r < k && 0 <= c < 2 * k => if c < k then a[r][c] else Unit(r, c - k));
    StartConsistent(View(m), a, k);
    for n := 0 to k
      invariant Eliminating(View(m), a, n, k)
    {
      var pivot := FindPivot(m, n);
      if pivot == k {
        NoPivotIsSingular(View(m), a, n, k);
        return false, [];
      }
      ReduceColumn(m, a, n, pivot, k);
    }
    ghost var v := View(m);
    AllColumnsDone(v, a, k);
    InvertibleHasTrivialKernel(a, k);
    ok := true;
    inverse := seq(k, r requires 0 <= r < k reads m => Row(m, r)[k..]);
    assert inverse == seq(k, r requires 0 <= r < k => v[r][k..]);
  }
}
