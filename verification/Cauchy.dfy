/** A square Cauchy matrix over GF(256) has a trivial kernel. */
module Cauchy {
  import opened Gf256
  import opened Vectors

  /** One row of a Cauchy matrix: entry j is 1 / (x + y_j). */
  function CauchyRow(x: Byte, ys: Vec): (r: Vec) {
    seq(|ys|, j requires 0 <= j < |ys| => Inv(Xor(x, ys[j])))
  }

  ghost predicate Distinct<T(!new)>(s: seq<T>) {
    forall i, j :: 0 <= i < j < |s| ==> s[i] != s[j]
  }

  ghost predicate DisjointFrom(x: Byte, ys: Vec) {
    forall j :: 0 <= j < |ys| ==> ys[j] != x
  }

  /** 1/a + 1/b = (a + b) / (a b). */
  lemma InverseSum(a: Byte, b: Byte)
    requires a != ZERO && b != ZERO
    ensures Xor(Inv(a), Inv(b)) == Mul(Xor(a, b), Mul(Inv(a), Inv(b)))
  {
    hide Xor, Mul, Inv;
    var ia, ib := Inv(a), Inv(b);
    MulInv(a); MulInv(b);
    var p := Mul(ia, ib);
    MulComm(Xor(a, b), p); MulDistrib(p, a, b);
    assert Mul(p, a) == ib by { MulComm(ia, ib); MulAssoc(ib, ia, a); MulComm(ia, a); MulOne(ib); }
    assert Mul(p, b) == ia by { MulAssoc(ia, ib, b); MulComm(ib, b); MulOne(ia); }
    XorComm(ia, ib);
  }

  /** (x + l) / (x + y) = 1 + (y + l) / (x + y). */
  lemma ShiftedQuotient(x: Byte, y: Byte, l: Byte)
    requires x != y
    ensures Mul(Xor(x, l), Inv(Xor(x, y))) == Xor(ONE, Mul(Xor(y, l), Inv(Xor(x, y))))
  {
    hide Xor, Mul, Inv;
    var a, e := Xor(x, y), Xor(y, l);
    XorSelf(x, y);
    XorAssoc(x, y, e); XorCancel(l, y);
    assert Xor(a, e) == Xor(x, l);
    MulComm(Xor(a, e), Inv(a)); MulDistrib(Inv(a), a, e);
    MulComm(Inv(a), a); MulComm(Inv(a), e); MulInv(a);
  }

  /** If x_i = 1 + e_i r_i and u_i = e_i v_i then x.v = (sum of v) + r.u. */
  lemma {:induction false} SplitSum(x: Vec, r: Vec, e: Vec, v: Vec, u: Vec, ones: Vec, n: nat)
    requires n <= |x| && n <= |r| && n <= |e| && n <= |v| && n <= |u| && n <= |ones|
    requires forall i :: 0 <= i < n ==> ones[i] == ONE
    requires forall i :: 0 <= i < n ==> x[i] == Xor(ONE, Mul(e[i], r[i]))
    requires forall i :: 0 <= i < n ==> u[i] == Mul(e[i], v[i])
    ensures Dot(x, v, n) == Xor(Dot(ones, v, n), Dot(r, u, n))
  {
    hide Xor, Mul;
    if n == 0 {
      XorZero(ZERO);
    } else {
      SplitSum(x, r, e, v, u, ones, n - 1);
      var ei, ri, vi := e[n - 1], r[n - 1], v[n - 1];
      MulComm(x[n - 1], vi); MulDistrib(vi, ONE, Mul(ei, ri)); MulComm(vi, ONE);
      assert Mul(vi, Mul(ei, ri)) == Mul(ri, Mul(ei, vi)) by {
        MulComm(vi, Mul(ei, ri)); MulComm(ei, ri); MulAssoc(ri, ei, vi);
      }
      XorSwap(Dot(ones, v, n - 1), Dot(r, u, n - 1), Mul(ONE, vi), Mul(ri, Mul(ei, vi)));
    }
  }

  /** If p_i + q_i = d p_i q_i and w_i = q_i u_i then p.u + q.u = d (p.w). */
  lemma {:induction false} DifferenceSum(p: Vec, q: Vec, u: Vec, w: Vec, d: Byte, n: nat)
    requires n <= |p| && n <= |q| && n <= |u| && n <= |w|
    requires forall i :: 0 <= i < n ==> Xor(p[i], q[i]) == Mul(d, Mul(p[i], q[i]))
    requires forall i :: 0 <= i < n ==> w[i] == Mul(q[i], u[i])
    ensures Xor(Dot(p, u, n), Dot(q, u, n)) == Mul(d, Dot(p, w, n))
  {
    hide Xor, Mul;
    if n == 0 {
      MulZero(d);
      XorZero(ZERO);
    } else {
      DifferenceSum(p, q, u, w, d, n - 1);
      var pi, qi, ui := p[n - 1], q[n - 1], u[n - 1];
      assert Xor(Mul(pi, ui), Mul(qi, ui)) == Mul(d, Mul(pi, w[n - 1])) by {
        MulComm(pi, ui); MulComm(qi, ui); MulDistrib(ui, pi, qi);
        MulComm(ui, Xor(pi, qi));
        MulAssoc(d, Mul(pi, qi), ui); MulAssoc(pi, qi, ui);
      }
      XorSwap(Dot(p, u, n - 1), Mul(pi, ui), Dot(q, u, n - 1), Mul(qi, ui));
      MulDistrib(d, Dot(p, w, n - 1), Mul(pi, w[n - 1]));
    }
  }

  /** Multiplying one kernel equation by x + y_last leaves a sum that no longer
      depends on x apart from the reduced row. */
  lemma EliminateColumn(x: Byte, ys: Vec, v: Vec, e: Vec, u: Vec, ones: Vec, m: nat)
    requires |ys| == |v| == m + 1 && DisjointFrom(x, ys)
    requires |e| == |u| == |ones| == m
    requires forall i :: 0 <= i < m ==> e[i] == Xor(ys[i], ys[m])
    requires forall i :: 0 <= i < m ==> u[i] == Mul(e[i], v[i])
    requires forall i :: 0 <= i < m ==> ones[i] == ONE
    requires Dot(CauchyRow(x, ys), v, m + 1) == ZERO
    ensures Dot(CauchyRow(x, ys), u, m) == Xor(Dot(ones, v, m), v[m])
  {
    hide Xor, Mul, Inv;
    var r := CauchyRow(x, ys);
    var a := Xor(x, ys[m]);
    XorSelf(x, ys[m]);
    var scaled := seq(m, i requires 0 <= i < m => Mul(a, r[i]));
    forall i | 0 <= i < m ensures scaled[i] == Xor(ONE, Mul(e[i], r[i])) {
      ShiftedQuotient(x, ys[i], ys[m]);
    }
    DotScale(scaled, a, r, v, m);
    SplitSum(scaled, r, e, v, u, ones, m);
    LastTerm(a, Dot(r, v, m), v[m]);
    XorCancel(Dot(r, u, m), Dot(ones, v, m));
  }

  lemma LastTerm(a: Byte, s: Byte, v: Byte)
    requires a != ZERO && Xor(s, Mul(Inv(a), v)) == ZERO
    ensures Mul(a, s) == v
  {
    hide Xor, Mul, Inv;
    XorSelf(s, Mul(Inv(a), v));
    MulInv(a); MulAssoc(a, Inv(a), v); MulOne(v);
  }

  lemma {:induction false} CauchyKernel(xs: Vec, ys: Vec, v: Vec)
    requires |xs| == |ys| == |v|
    requires Distinct(xs) && Distinct(ys)
    requires forall i :: 0 <= i < |xs| ==> DisjointFrom(xs[i], ys)
    requires forall i :: 0 <= i < |xs| ==> Dot(CauchyRow(xs[i], ys), v, |ys|) == ZERO
    ensures IsZero(v)
  {
    hide Xor, Mul, Inv;
    if |xs| != 0 {
      var m := |xs| - 1;
      var e := seq(m, i requires 0 <= i < m => Xor(ys[i], ys[m]));
      var u := seq(m, i requires 0 <= i < m => Mul(e[i], v[i]));
      var ones := seq(m, i => ONE);
      var q := CauchyRow(xs[m], ys);
      var w := seq(m, i requires 0 <= i < m => Mul(q[i], u[i]));
      EliminateColumn(xs[m], ys, v, e, u, ones, m);
      var ys' := ys[..m];
      forall i | 0 <= i < m
        ensures DisjointFrom(xs[..m][i], ys') && Dot(CauchyRow(xs[..m][i], ys'), w, m) == ZERO
      {
        EliminateColumn(xs[i], ys, v, e, u, ones, m);
        ReducedEquation(xs[i], xs[m], ys, u, w, m);
      }
      CauchyKernel(xs[..m], ys', w);
      BackSubstitute(xs[m], ys, v, e, u, w, m);
    }
  }

  /** The smaller system has only the zero solution, hence so has the larger. */
  lemma BackSubstitute(x: Byte, ys: Vec, v: Vec, e: Vec, u: Vec, w: Vec, m: nat)
    requires |ys| == |v| == m + 1 && DisjointFrom(x, ys) && Distinct(ys)
    requires |e| == |u| == |w| == m && IsZero(w)
    requires forall i :: 0 <= i < m ==> e[i] == Xor(ys[i], ys[m])
    requires forall i :: 0 <= i < m ==> u[i] == Mul(e[i], v[i])
    requires forall i :: 0 <= i < m ==> w[i] == Mul(CauchyRow(x, ys)[i], u[i])
    requires Dot(CauchyRow(x, ys), v, m + 1) == ZERO
    ensures IsZero(v)
  {
    hide Xor, Mul, Inv;
    var q := CauchyRow(x, ys);
    forall i | 0 <= i < m ensures v[i] == ZERO {
      XorSelf(ys[i], ys[m]); XorSelf(x, ys[i]); MulInv(Xor(x, ys[i]));
      MulNonzero(q[i], u[i]); MulNonzero(e[i], v[i]);
    }
    DotZero(q, v, m);
    XorZero(Mul(q[m], v[m]));
    XorSelf(x, ys[m]); MulInv(Xor(x, ys[m]));
    MulNonzero(q[m], v[m]);
  }

  /** Two eliminated equations combine to one equation of the smaller system. */
  lemma ReducedEquation(x: Byte, x0: Byte, ys: Vec, u: Vec, w: Vec, m: nat)
    requires x != x0 && DisjointFrom(x, ys) && DisjointFrom(x0, ys)
    requires |u| == |w| == m <= |ys|
    requires forall i :: 0 <= i < m ==> w[i] == Mul(CauchyRow(x0, ys)[i], u[i])
    requires Dot(CauchyRow(x, ys), u, m) == Dot(CauchyRow(x0, ys), u, m)
    ensures Dot(CauchyRow(x, ys[..m]), w, m) == ZERO
  {
    hide Xor, Mul, Inv;
    var p, q, d := CauchyRow(x, ys), CauchyRow(x0, ys), Xor(x, x0);
    forall i | 0 <= i < m ensures Xor(p[i], q[i]) == Mul(d, Mul(p[i], q[i])) {
      XorSelf(x, ys[i]); XorSelf(x0, ys[i]);
      InverseSum(Xor(x, ys[i]), Xor(x0, ys[i]));
      XorSwap(x, ys[i], x0, ys[i]); XorSelf(ys[i], ys[i]); XorZero(d);
    }
    DifferenceSum(p, q, u, w, d, m);
    XorSelf(Dot(p, u, m), Dot(q, u, m));
    XorSelf(x, x0);
    MulNonzero(d, Dot(p, w, m));
    DotCong(CauchyRow(x, ys[..m]), w, p, w, m);
  }
}
