/** rscode's shift-register encoder with two parity bytes, and the 4+2 generator
    the codec extracts from it by encoding unit vectors. */
module Rscode {
  import opened Gf256
  import opened Vectors
  import opened Generator

  /** Coefficients of (x + alpha)(x + alpha^2) below the leading one. */
  function GenPoly0(): (g: Byte) { Mul(Gexp(2), Gexp(1)) }

  function GenPoly1(): (g: Byte) { Xor(Gexp(2), Gexp(1)) }

  /** The two register cells. */
  datatype Register = Register(l0: Byte, l1: Byte)

  function Clock(s: Register, m: Byte): (r: Register) {
    var d := Xor(m, s.l1);
    Register(Mul(GenPoly0(), d), Xor(s.l0, Mul(GenPoly1(), d)))
  }

  function Lfsr(msg: Vec, n: nat): (s: Register)
    requires n <= |msg|
  {
    if n == 0 then Register(ZERO, ZERO) else Clock(Lfsr(msg, n - 1), msg[n - 1])
  }

  function EncodeData(msg: Vec): (codeword: Vec) {
    var s := Lfsr(msg, |msg|);
    msg + [s.l1, s.l0]
  }

  function UnitVec(i: nat, n: nat): (v: Vec) {
    seq(n, c requires 0 <= c < n => Unit(i, c))
  }

  function RscodeGenerator(): (g: seq<Vec>) {
    seq(6, i requires 0 <= i < 6 =>
      seq(4, c requires 0 <= c < 4 =>
        if i < 4 then Unit(i, c) else EncodeData(UnitVec(c, 4))[i]))
  }

  // ---------------------------------------------------------------------
  // The encoder is linear, so the generator encodes every message.

  lemma AxpyStep(k: Byte, g: Byte, p: Byte, q: Byte, r: Byte, y: Byte, z: Byte)
    requires p == Xor(q, Mul(k, r))
    ensures Xor(p, Mul(g, Xor(y, Mul(k, z)))) == Xor(Xor(q, Mul(g, y)), Mul(k, Xor(r, Mul(g, z))))
  {
    hide Xor, Mul;
    MulDistrib(g, y, Mul(k, z));
    MulDistrib(k, r, Mul(g, z));
    assert Mul(g, Mul(k, z)) == Mul(k, Mul(g, z)) by { MulAssoc(g, k, z); MulComm(g, k); MulAssoc(k, g, z); }
    XorSwap(q, Mul(k, r), Mul(g, y), Mul(k, Mul(g, z)));
  }

  lemma {:induction false} LfsrLinear(x: Vec, y: Vec, k: Byte, z: Vec, n: nat)
    requires n <= |x| && n <= |y| && n <= |z|
    requires forall i :: 0 <= i < n ==> x[i] == Xor(y[i], Mul(k, z[i]))
    ensures Lfsr(x, n).l0 == Xor(Lfsr(y, n).l0, Mul(k, Lfsr(z, n).l0))
    ensures Lfsr(x, n).l1 == Xor(Lfsr(y, n).l1, Mul(k, Lfsr(z, n).l1))
  {
    hide Xor, Mul, GenPoly0, GenPoly1;
    if n == 0 {
      MulZero(k);
      XorZero(ZERO);
    } else {
      LfsrLinear(x, y, k, z, n - 1);
      var sx, sy, sz := Lfsr(x, n - 1), Lfsr(y, n - 1), Lfsr(z, n - 1);
      var dy, dz := Xor(y[n - 1], sy.l1), Xor(z[n - 1], sz.l1);
      assert Xor(x[n - 1], sx.l1) == Xor(dy, Mul(k, dz)) by {
        XorSwap(y[n - 1], Mul(k, z[n - 1]), sy.l1, Mul(k, sz.l1));
        MulDistrib(k, z[n - 1], sz.l1);
      }
      AxpyStep(k, GenPoly1(), sx.l0, sy.l0, sz.l0, dy, dz);
      MulZero(k); XorZero(ZERO);
      AxpyStep(k, GenPoly0(), ZERO, ZERO, ZERO, dy, dz);
      XorZero(Mul(GenPoly0(), Xor(dy, Mul(k, dz))));
      XorZero(Mul(GenPoly0(), dy)); XorZero(Mul(GenPoly0(), dz));
    }
  }

  function Truncate(v: Vec, m: nat): (t: Vec) {
    seq(|v|, i requires 0 <= i < |v| => if i < m then v[i] else ZERO)
  }

  lemma {:induction false} LfsrZero(v: Vec, n: nat)
    requires n <= |v| && forall i :: 0 <= i < n ==> v[i] == ZERO
    ensures Lfsr(v, n) == Register(ZERO, ZERO)
  {
    hide Xor, Mul, GenPoly0, GenPoly1;
    if n != 0 {
      LfsrZero(v, n - 1);
      XorZero(ZERO);
      MulZero(GenPoly0()); MulZero(GenPoly1());
    }
  }

  lemma ParityRows(c: nat)
    requires c < 4
    ensures var g := RscodeGenerator();
            |g| == 6 && |g[4]| == |g[5]| == 4 && g[4][c] == Lfsr(UnitVec(c, 4), 4).l1 && g[5][c] == Lfsr(UnitVec(c, 4), 4).l0
  {
    hide Lfsr;
    var e := EncodeData(UnitVec(c, 4));
    assert e[4] == Lfsr(UnitVec(c, 4), 4).l1 && e[5] == Lfsr(UnitVec(c, 4), 4).l0;
  }

  lemma DotStep(u: Vec, v: Vec, m: nat)
    requires 0 < m <= |u| && m <= |v|
    ensures Dot(u, v, m) == Xor(Dot(u, v, m - 1), Mul(u[m - 1], v[m - 1]))
  {}

  /** The generator's parity rows applied to a prefix of v. */
  lemma {:induction false} ParityOfPrefix(v: Vec, m: nat)
    requires |v| == 4 && m <= 4
    ensures Dot(RscodeGenerator()[4], v, m) == Lfsr(Truncate(v, m), 4).l1
    ensures Dot(RscodeGenerator()[5], v, m) == Lfsr(Truncate(v, m), 4).l0
  {
    hide Xor, Mul, Lfsr;
    if m == 0 {
      LfsrZero(Truncate(v, 0), 4);
    } else {
      hide RscodeGenerator, Dot;
      ParityRows(m - 1);
      ParityOfPrefix(v, m - 1);
      DotStep(RscodeGenerator()[4], v, m);
      DotStep(RscodeGenerator()[5], v, m);
      var x, y, z := Truncate(v, m), Truncate(v, m - 1), UnitVec(m - 1, 4);
      forall i | 0 <= i < 4 ensures x[i] == Xor(y[i], Mul(v[m - 1], z[i])) {
        MulOne(v[m - 1]); MulZero(v[m - 1]);
        XorZero(y[i]); XorZero(v[m - 1]);
      }
      LfsrLinear(x, y, v[m - 1], z, 4);
      MulComm(v[m - 1], Lfsr(z, 4).l0); MulComm(v[m - 1], Lfsr(z, 4).l1);
    }
  }

  /** Multiplying by the extracted generator is encoding: the plan's parity
      bytes equal encode_data's for every message. */
  lemma GeneratorEncodes(v: Vec)
    requires |v| == 4
    ensures Apply(RscodeGenerator(), v, 4) == EncodeData(v)
  {
    hide Xor, Mul, Lfsr;
    ParityOfPrefix(v, 4);
    assert Truncate(v, 4) == v;
    forall i | 0 <= i < 6 ensures Dot(RscodeGenerator()[i], v, 4) == EncodeData(v)[i] {
      if i < 4 {
        DotUnit(RscodeGenerator()[i], v, i, 4);
      }
    }
  }

  // ---------------------------------------------------------------------
  // Codewords vanish at alpha and alpha^2.

  function Horner(c: Vec, b: Byte, n: nat): (r: Byte)
    requires n <= |c|
  {
    if n == 0 then ZERO else Xor(Mul(b, Horner(c, b, n - 1)), c[n - 1])
  }

  ghost predicate IsRoot(b: Byte) {
    Mul(b, b) == Xor(Mul(GenPoly1(), b), GenPoly0())
  }

  lemma Roots()
    ensures IsRoot(Gexp(1)) && IsRoot(Gexp(2))
  {
    hide Xor, Mul, Gexp;
    var a, a2 := Gexp(1), Gexp(2);
    MulComm(Xor(a2, a), a); MulDistrib(a, a2, a); MulComm(a, a2);
    MulComm(Xor(a2, a), a2); MulDistrib(a2, a2, a);
    XorCancel(Mul(a, a), Mul(a, a2));
    XorComm(Mul(a, a2), Mul(a, a));
    XorCancel(Mul(a2, a2), Mul(a2, a));
  }

  /** One clock keeps l1 b + l0 = b^2 h, where h is the message polynomial so far. */
  lemma ClockAtRoot(s: Register, m: Byte, b: Byte, h: Byte)
    requires IsRoot(b) && Xor(Mul(s.l1, b), s.l0) == Mul(Mul(b, b), h)
    ensures Xor(Mul(Clock(s, m).l1, b), Clock(s, m).l0) == Mul(Mul(b, b), Xor(Mul(b, h), m))
  {
    hide Xor, Mul, GenPoly0, GenPoly1;
    var d, bb := Xor(m, s.l1), Mul(b, b);
    var g0, g1 := GenPoly0(), GenPoly1();
    // left side: (l0 + g1 d) b + g0 d = l0 b + d b^2
    assert Xor(Mul(Mul(g1, d), b), Mul(g0, d)) == Mul(bb, d) by {
      MulComm(bb, d); MulDistrib(d, Mul(g1, b), g0); MulComm(d, g0); MulComm(d, Mul(g1, b));
      MulAssoc(g1, b, d); MulComm(b, d); MulAssoc(g1, d, b);
    }
    assert Mul(Xor(s.l0, Mul(g1, d)), b) == Xor(Mul(s.l0, b), Mul(Mul(g1, d), b)) by {
      MulComm(Xor(s.l0, Mul(g1, d)), b); MulDistrib(b, s.l0, Mul(g1, d));
      MulComm(b, s.l0); MulComm(b, Mul(g1, d));
    }
    XorAssoc(Mul(s.l0, b), Mul(Mul(g1, d), b), Mul(g0, d));
    // right side: b^2 (b h + m) = b (l1 b + l0) + b^2 m
    assert Mul(bb, Mul(b, h)) == Xor(Mul(bb, s.l1), Mul(s.l0, b)) by {
      MulAssoc(bb, b, h); MulComm(bb, b); MulAssoc(b, bb, h);
      MulDistrib(b, Mul(s.l1, b), s.l0); MulComm(b, s.l0);
      MulComm(s.l1, b); MulAssoc(b, b, s.l1);
    }
    MulDistrib(bb, Mul(b, h), m);
    MulDistrib(bb, m, s.l1);
    var p, q, r := Mul(bb, m), Mul(bb, s.l1), Mul(s.l0, b);
    assert Xor(r, Xor(p, q)) == Xor(Xor(q, r), p) by {
      XorComm(p, q); XorComm(q, r); XorAssoc(r, q, p);
    }
  }

  lemma {:induction false} LfsrAtRoot(msg: Vec, n: nat, b: Byte)
    requires n <= |msg| && IsRoot(b)
    ensures Xor(Mul(Lfsr(msg, n).l1, b), Lfsr(msg, n).l0) == Mul(Mul(b, b), Horner(msg, b, n))
  {
    hide Xor, Mul, Clock, IsRoot;
    if n == 0 {
      MulZero(b); MulZero(Mul(b, b)); XorZero(ZERO);
    } else {
      LfsrAtRoot(msg, n - 1, b);
      ClockAtRoot(Lfsr(msg, n - 1), msg[n - 1], b, Horner(msg, b, n - 1));
    }
  }

  lemma {:induction false} HornerCong(u: Vec, v: Vec, b: Byte, n: nat)
    requires n <= |u| && n <= |v| && forall i :: 0 <= i < n ==> u[i] == v[i]
    ensures Horner(u, b, n) == Horner(v, b, n)
  {
    hide Xor, Mul;
    if n != 0 {
      HornerCong(u, v, b, n - 1);
    }
  }

  lemma CodewordVanishes(msg: Vec, b: Byte)
    requires IsRoot(b)
    ensures Horner(EncodeData(msg), b, |msg| + 2) == ZERO
  {
    hide Xor, Mul, IsRoot, Lfsr;
    var n, s, c := |msg|, Lfsr(msg, |msg|), EncodeData(msg);
    LfsrAtRoot(msg, n, b);
    HornerCong(c, msg, b, n);
    var h := Horner(msg, b, n);
    assert Horner(c, b, n + 1) == Xor(Mul(b, h), s.l1);
    MulDistrib(b, Mul(b, h), s.l1); MulAssoc(b, b, h); MulComm(b, s.l1);
    XorAssoc(Mul(Mul(b, b), h), Mul(s.l1, b), s.l0);
    XorSelf(Mul(Mul(b, b), h), Mul(Mul(b, b), h));
  }

  // ---------------------------------------------------------------------
  // A codeword with at most two nonzero positions is zero.

  /** The contribution of position p to the value of c[..n] at alpha^e. */
  ghost function Term(c: Vec, e: nat, p: nat, n: nat): (r: Byte)
    requires p < |c|
  {
    if p < n then Mul(Gexp(e * (n - 1 - p)), c[p]) else ZERO
  }

  lemma TermStep(c: Vec, e: nat, p: nat, n: nat)
    requires p < |c| && 0 < n
    ensures p != n - 1 ==> Term(c, e, p, n) == Mul(Gexp(e), Term(c, e, p, n - 1))
    ensures p == n - 1 ==> Term(c, e, p, n) == c[p] && Term(c, e, p, n - 1) == ZERO
  {
    hide Mul;
    MulZero(Gexp(e));
    if p < n - 1 {
      hide Gexp;
      MulAssoc(Gexp(e), Gexp(e * (n - 2 - p)), c[p]);
      MulExp(e, e * (n - 2 - p));
      assert e + e * (n - 2 - p) == e * (n - 1 - p);
    } else if p == n - 1 {
      assert e * (n - 1 - p) == 0;
      assert Gexp(0) == ONE;
      MulOne(c[p]);
    }
  }

  lemma {:induction false} HornerSparse(c: Vec, e: nat, p: nat, q: nat, n: nat)
    requires n <= |c| && p < q < |c|
    requires forall i :: 0 <= i < n && i != p && i != q ==> c[i] == ZERO
    ensures Horner(c, Gexp(e), n) == Xor(Term(c, e, p, n), Term(c, e, q, n))
  {
    XorZero(ZERO);
    hide Xor, Mul, Gexp;
    if n != 0 {
      HornerSparse(c, e, p, q, n - 1);
      TermStep(c, e, p, n);
      TermStep(c, e, q, n);
      hide Term;
      var b, u, w := Gexp(e), Term(c, e, p, n - 1), Term(c, e, q, n - 1);
      MulDistrib(b, u, w);
      MulZero(b);
      XorZero(Mul(b, u)); XorZero(Mul(b, w));
      XorComm(Mul(b, w), c[n - 1]);
      XorZero(Xor(Mul(b, u), Mul(b, w)));
    }
  }

  /** a P = c Q and a P^2 = c Q^2 with distinct nonzero P, Q force a = c = 0. */
  lemma TwoEquations(a: Byte, c: Byte, p: Byte, q: Byte)
    requires p != ZERO && q != ZERO && p != q
    requires Xor(Mul(p, a), Mul(q, c)) == ZERO
    requires Xor(Mul(Mul(p, p), a), Mul(Mul(q, q), c)) == ZERO
    ensures a == ZERO && c == ZERO
  {
    hide Xor, Mul;
    XorSelf(Mul(p, a), Mul(q, c));
    XorSelf(Mul(Mul(p, p), a), Mul(Mul(q, q), c));
    MulAssoc(p, p, a); MulAssoc(q, q, c);
    var z := Mul(q, c);
    MulComm(p, z); MulComm(q, z); MulDistrib(z, p, q);
    XorSelf(Mul(z, p), Mul(z, q));
    XorSelf(p, q);
    MulNonzero(z, Xor(p, q));
    MulNonzero(q, c); MulNonzero(p, a);
  }

  lemma SparseCodewordIsZero(msg: Vec, p: nat, q: nat)
    requires |msg| == 4 && p < q < 6
    requires forall i :: 0 <= i < 6 && i != p && i != q ==> EncodeData(msg)[i] == ZERO
    ensures IsZero(EncodeData(msg))
  {
    hide Xor, Mul, Gexp, IsRoot, EncodeData, Horner;
    var c := EncodeData(msg);
    assert |c| == 6 by { EncodeKeepsMessage(msg); }
    Roots();
    CodewordVanishes(msg, Gexp(1)); CodewordVanishes(msg, Gexp(2));
    HornerSparse(c, 1, p, q, 6); HornerSparse(c, 2, p, q, 6);
    var x, y := 5 - p, 5 - q;
    MulExp(x, x); MulExp(y, y);
    GexpNonzero(x); GexpNonzero(y); GexpDistinct(y, x);
    assert 2 * x == x + x && 2 * y == y + y;
    TwoEquations(c[p], c[q], Gexp(x), Gexp(y));
  }

  lemma RscodeSubmatrixKernel(rows: seq<nat>, v: Vec)
    requires RowChoice(rows, 4, 6) && InKernel(Select(RscodeGenerator(), rows), v, 4)
    ensures IsZero(v)
  {
    hide Xor, Mul, EncodeData, RscodeGenerator;
    var s := Elements(rows);
    ElementsSize(rows);
    MissingSize(s, 6);
    assert Below(s, 6) == s;
    var m := Missing(s, 6);
    var g := RscodeGenerator();
    assert |g| == 6 && Matrix(g, 6, 4) by { RscodeShape(); }
    GeneratorEncodes(v);
    forall i | 0 <= i < 6 && i != m[0] && i != m[1] ensures EncodeData(v)[i] == ZERO {
      assert i in s;
      var t :| 0 <= t < 4 && rows[t] == i;
      assert Select(g, rows)[t] == g[i];
    }
    SparseCodewordIsZero(v, m[0], m[1]);
    EncodeKeepsMessage(v);
  }

  lemma EncodeKeepsMessage(v: Vec)
    ensures |EncodeData(v)| == |v| + 2 && EncodeData(v)[..|v|] == v
  {}

  lemma RscodeShape()
    ensures Matrix(RscodeGenerator(), 6, 4) && Systematic(RscodeGenerator(), 4)
  {}

  lemma RscodeIsMds()
    ensures Mds(RscodeGenerator(), 4, 6) && Systematic(RscodeGenerator(), 4)
  {
    hide RscodeGenerator;
    RscodeShape();
    var g := RscodeGenerator();
    forall rows | RowChoice(rows, 4, 6) ensures TrivialKernel(Select(g, rows), 4) {
      forall v | InKernel(Select(g, rows), v, 4) ensures IsZero(v) {
        RscodeSubmatrixKernel(rows, v);
      }
    }
  }
}
