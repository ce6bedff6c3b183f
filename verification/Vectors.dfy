/** Dot products and matrices over GF(256). Sums run over a prefix of length n,
    in the order the codec's accumulation loops run. */
module Vectors {
  import opened Gf256

  type Vec = seq<Byte>

  function Dot(u: Vec, v: Vec, n: nat): (r: Byte)
    requires n <= |u| && n <= |v|
  {
    if n == 0 then ZERO else Xor(Dot(u, v, n - 1), Mul(u[n - 1], v[n - 1]))
  }

  ghost predicate Matrix(a: seq<Vec>, rows: nat, width: nat) {
    |a| == rows && forall i :: 0 <= i < rows ==> |a[i]| == width
  }

  function Column(a: seq<Vec>, c: nat): (r: Vec)
    requires forall i :: 0 <= i < |a| ==> c < |a[i]|
  {
    seq(|a|, i requires 0 <= i < |a| => a[i][c])
  }

  /** The matrix times a vector of length n. */
  function Apply(a: seq<Vec>, v: Vec, n: nat): (r: Vec)
    requires n <= |v| && forall i :: 0 <= i < |a| ==> n <= |a[i]|
  {
    seq(|a|, i requires 0 <= i < |a| => Dot(a[i], v, n))
  }

  ghost predicate IsZero(v: Vec) {
    forall i :: 0 <= i < |v| ==> v[i] == ZERO
  }

  function Unit(i: nat, j: nat): (r: Byte) {
    if i == j then ONE else ZERO
  }

  // ---------------------------------------------------------------------

  lemma {:induction false} DotCong(u: Vec, v: Vec, x: Vec, y: Vec, n: nat)
    requires n <= |u| && n <= |v| && n <= |x| && n <= |y|
    requires forall i :: 0 <= i < n ==> u[i] == x[i] && v[i] == y[i]
    ensures Dot(u, v, n) == Dot(x, y, n)
  {
    hide Xor, Mul;
    if n != 0 {
      DotCong(u, v, x, y, n - 1);
    }
  }

  lemma {:induction false} DotComm(u: Vec, v: Vec, n: nat)
    requires n <= |u| && n <= |v|
    ensures Dot(u, v, n) == Dot(v, u, n)
  {
    hide Xor, Mul;
    if n != 0 {
      DotComm(u, v, n - 1);
      MulComm(u[n - 1], v[n - 1]);
    }
  }

  lemma {:induction false} DotZero(u: Vec, v: Vec, n: nat)
    requires n <= |u| && n <= |v|
    requires forall i :: 0 <= i < n ==> u[i] == ZERO || v[i] == ZERO
    ensures Dot(u, v, n) == ZERO
  {
    hide Xor, Mul;
    if n != 0 {
      DotZero(u, v, n - 1);
      MulZero(u[n - 1]); MulZero(v[n - 1]);
      XorZero(ZERO);
    }
  }

  /** The dot product is linear: x = y + k z entry by entry carries over. */
  lemma {:induction false} DotAxpy(x: Vec, y: Vec, k: Byte, z: Vec, v: Vec, n: nat)
    requires n <= |x| && n <= |y| && n <= |z| && n <= |v|
    requires forall i :: 0 <= i < n ==> x[i] == Xor(y[i], Mul(k, z[i]))
    ensures Dot(x, v, n) == Xor(Dot(y, v, n), Mul(k, Dot(z, v, n)))
  {
    hide Xor, Mul;
    if n == 0 {
      MulZero(k);
      XorZero(ZERO);
    } else {
      DotAxpy(x, y, k, z, v, n - 1);
      var a, b, c := y[n - 1], z[n - 1], v[n - 1];
      assert Mul(x[n - 1], c) == Xor(Mul(a, c), Mul(k, Mul(b, c))) by {
        MulComm(x[n - 1], c); MulDistrib(c, a, Mul(k, b));
        MulComm(c, a); MulComm(c, Mul(k, b)); MulAssoc(k, b, c);
      }
      MulDistrib(k, Dot(z, v, n - 1), Mul(b, c));
      XorSwap(Dot(y, v, n - 1), Mul(k, Dot(z, v, n - 1)), Mul(a, c), Mul(k, Mul(b, c)));
    }
  }

  lemma {:induction false} DotScale(x: Vec, k: Byte, z: Vec, v: Vec, n: nat)
    requires n <= |x| && n <= |z| && n <= |v|
    requires forall i :: 0 <= i < n ==> x[i] == Mul(k, z[i])
    ensures Dot(x, v, n) == Mul(k, Dot(z, v, n))
  {
    hide Xor, Mul;
    if n == 0 {
      MulZero(k);
    } else {
      DotScale(x, k, z, v, n - 1);
      MulAssoc(k, z[n - 1], v[n - 1]);
      MulDistrib(k, Dot(z, v, n - 1), Mul(z[n - 1], v[n - 1]));
    }
  }

  /** A unit row picks one entry. */
  lemma {:induction false} DotUnit(u: Vec, v: Vec, r: nat, n: nat)
    requires n <= |u| && n <= |v| && r < |v|
    requires forall i :: 0 <= i < n ==> u[i] == Unit(r, i)
    ensures Dot(u, v, n) == if r < n then v[r] else ZERO
  {
    hide Xor, Mul;
    if n != 0 {
      DotUnit(u, v, r, n - 1);
      MulZero(v[n - 1]); MulOne(v[n - 1]);
      XorZero(v[n - 1]); XorZero(Dot(u, v, n - 1));
    }
  }

  ghost function Combine(u: Vec, a: seq<Vec>, n: nat, w: nat): (r: Vec)
    requires n <= |u| && n <= |a| && forall i :: 0 <= i < n ==> w <= |a[i]|
    ensures |r| == w
  {
    seq(w, c requires 0 <= c < w => Dot(u, Column(a[..n], c), n))
  }

  /** Exchange of summation: (u A) v = u (A v). */
  lemma {:induction false} DotExchange(u: Vec, a: seq<Vec>, v: Vec, n: nat, w: nat)
    requires n <= |u| && n <= |a| && w <= |v|
    requires forall i :: 0 <= i < n ==> w <= |a[i]|
    ensures Dot(Combine(u, a, n, w), v, w) == Dot(u, Apply(a[..n], v, w), n)
  {
    hide Xor, Mul;
    var x := Combine(u, a, n, w);
    if n == 0 {
      DotZero(x, v, w);
    } else {
      var y := Combine(u, a, n - 1, w);
      DotExchange(u, a, v, n - 1, w);
      forall c | 0 <= c < w ensures x[c] == Xor(y[c], Mul(u[n - 1], a[n - 1][c])) {
        DotCong(u, Column(a[..n - 1], c), u, Column(a[..n], c), n - 1);
      }
      DotAxpy(x, y, u[n - 1], a[n - 1], v, w);
      DotCong(u, Apply(a[..n - 1], v, w), u, Apply(a[..n], v, w), n - 1);
    }
  }

  // ---------------------------------------------------------------------
  // Invertible and singular square matrices.

  ghost predicate LeftInverse(b: seq<Vec>, a: seq<Vec>, k: nat)
    requires Matrix(a, k, k)
  {
    Matrix(b, k, k) &&
    forall r, c :: 0 <= r < k && 0 <= c < k ==> Dot(b[r], Column(a, c), k) == Unit(r, c)
  }

  ghost predicate Invertible(a: seq<Vec>, k: nat)
    requires Matrix(a, k, k)
  {
    exists b :: LeftInverse(b, a, k)
  }

  ghost predicate InKernel(a: seq<Vec>, v: Vec, k: nat)
    requires forall i :: 0 <= i < |a| ==> k <= |a[i]|
  {
    |v| == k && forall r :: 0 <= r < |a| ==> Dot(a[r], v, k) == ZERO
  }

  ghost predicate TrivialKernel(a: seq<Vec>, k: nat)
    requires Matrix(a, k, k)
  {
    forall v :: InKernel(a, v, k) ==> IsZero(v)
  }

  /** A left inverse undoes the matrix on every vector. */
  lemma LeftInverseUndoes(b: seq<Vec>, a: seq<Vec>, v: Vec, k: nat)
    requires Matrix(a, k, k) && LeftInverse(b, a, k) && |v| == k
    ensures Apply(b, Apply(a, v, k), k) == v
  {
    hide Xor, Mul;
    forall r | 0 <= r < k ensures Dot(b[r], Apply(a, v, k), k) == v[r] {
      assert a[..k] == a;
      DotExchange(b[r], a, v, k, k);
      DotUnit(Combine(b[r], a, k, k), v, r, k);
    }
  }

  lemma InvertibleHasTrivialKernel(a: seq<Vec>, k: nat)
    requires Matrix(a, k, k) && Invertible(a, k)
    ensures TrivialKernel(a, k)
  {
    var b :| LeftInverse(b, a, k);
    forall v | InKernel(a, v, k) ensures IsZero(v) {
      LeftInverseUndoes(b, a, v, k);
      forall r | 0 <= r < k ensures v[r] == ZERO {
        DotZero(b[r], Apply(a, v, k), k);
      }
    }
  }
}
