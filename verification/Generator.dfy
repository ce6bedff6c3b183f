/** The systematic generators of the codec, and why any k rows determine the data. */
module Generator {
  import opened Gf256
  import opened Vectors
  import opened Cauchy

  const RS_ABS_MAX_SHARDS: nat := 255

  ghost predicate ValidGeometry(k: nat, r: nat) {
    1 <= k && 1 <= r && k + r <= RS_ABS_MAX_SHARDS
  }

  /** Identity rows, then 1 / (x_i + y_j) with x_i = i + 1 and y_j = r + 1 + j. */
  function CauchyGenerator(k: nat, r: nat): (g: seq<Vec>) {
    seq(k + r, i requires 0 <= i < k + r =>
      seq(k, c requires 0 <= c < k =>
        if i < k then Unit(i, c) else Inv(Xor(ByteOf(i - k + 1), ByteOf(r + 1 + c)))))
  }

  ghost predicate Systematic(g: seq<Vec>, k: nat)
  {
    k <= |g| && forall i, c :: 0 <= i < k && 0 <= c < |g[i]| ==> g[i][c] == Unit(i, c)
  }

  ghost predicate RowChoice(rows: seq<nat>, k: nat, n: nat) {
    |rows| == k && Distinct(rows) && forall i :: 0 <= i < k ==> rows[i] < n
  }

  function Select(g: seq<Vec>, rows: seq<nat>): (s: seq<Vec>)
    requires forall i :: 0 <= i < |rows| ==> rows[i] < |g|
  {
    seq(|rows|, i requires 0 <= i < |rows| => g[rows[i]])
  }

  /** Maximum distance separable: every choice of k rows has a trivial kernel. */
  ghost predicate Mds(g: seq<Vec>, k: nat, n: nat) {
    Matrix(g, n, k) && forall rows :: RowChoice(rows, k, n) ==> TrivialKernel(Select(g, rows), k)
  }

  // ---------------------------------------------------------------------
  // The positions below n outside a set, in order.

  ghost function Missing(s: set<nat>, n: nat): (m: seq<nat>)
    ensures forall i :: 0 <= i < |m| ==> m[i] < n && m[i] !in s
    ensures forall i, j :: 0 <= i < j < |m| ==> m[i] < m[j]
    ensures forall x :: 0 <= x < n && x !in s ==> x in m
  {
    if n == 0 then [] else if n - 1 in s then Missing(s, n - 1) else Missing(s, n - 1) + [n - 1]
  }

  ghost function Below(s: set<nat>, n: nat): set<nat> {
    set x | x in s && x < n
  }

  lemma {:induction false} MissingSize(s: set<nat>, n: nat)
    ensures |Missing(s, n)| + |Below(s, n)| == n
  {
    if n == 0 {
      assert Below(s, 0) == {};
    } else {
      MissingSize(s, n - 1);
      if n - 1 in s {
        assert Below(s, n) == Below(s, n - 1) + {n - 1};
      } else {
        assert Below(s, n) == Below(s, n - 1);
      }
    }
  }

  ghost function Elements(q: seq<nat>): set<nat> {
    set i | 0 <= i < |q| :: q[i]
  }

  lemma {:induction false} ElementsSize(q: seq<nat>)
    requires Distinct(q)
    ensures |Elements(q)| == |q|
  {
    if |q| != 0 {
      var m := |q| - 1;
      ElementsSize(q[..m]);
      assert Elements(q) == Elements(q[..m]) + {q[m]};
    }
  }

  lemma {:induction false} Enumerate(s: set<nat>) returns (q: seq<nat>)
    ensures Distinct(q) && |q| == |s| && forall i :: 0 <= i < |q| ==> q[i] in s
  {
    if s == {} {
      q := [];
    } else {
      var x :| x in s;
      var p := Enumerate(s - {x});
      q := p + [x];
    }
  }

  ghost function Pick(v: Vec, m: seq<nat>): (r: Vec)
    requires forall i :: 0 <= i < |m| ==> m[i] < |v|
  {
    seq(|m|, i requires 0 <= i < |m| => v[m[i]])
  }

  lemma DotPickAppend(u: Vec, v: Vec, m: seq<nat>, x: nat)
    requires forall i :: 0 <= i < |m| ==> m[i] < |u| && m[i] < |v|
    requires x < |u| && x < |v|
    ensures Dot(Pick(u, m + [x]), Pick(v, m + [x]), |m| + 1) == Xor(Dot(Pick(u, m), Pick(v, m), |m|), Mul(u[x], v[x]))
  {
    hide Xor, Mul;
    DotCong(Pick(u, m), Pick(v, m), Pick(u, m + [x]), Pick(v, m + [x]), |m|);
  }

  /** Terms at positions where v vanishes can be left out of a dot product. */
  lemma {:induction false} DotCompress(u: Vec, v: Vec, s: set<nat>, n: nat)
    requires n <= |u| && n <= |v|
    requires forall i :: 0 <= i < n && i in s ==> v[i] == ZERO
    ensures Dot(u, v, n) == Dot(Pick(u, Missing(s, n)), Pick(v, Missing(s, n)), |Missing(s, n)|)
  {
    hide Xor, Mul, Pick;
    if n != 0 {
      DotCompress(u, v, s, n - 1);
      if n - 1 in s {
        MulZero(u[n - 1]);
        XorZero(Dot(u, v, n - 1));
        assert Missing(s, n) == Missing(s, n - 1);
      } else {
        DotPickAppend(u, v, Missing(s, n - 1), n - 1);
        assert Missing(s, n) == Missing(s, n - 1) + [n - 1];
      }
    }
  }

  // ---------------------------------------------------------------------
  // The Cauchy generator.

  lemma ParityRow(k: nat, r: nat, row: nat, js: seq<nat>)
    requires ValidGeometry(k, r) && k <= row < k + r
    requires forall i :: 0 <= i < |js| ==> js[i] < k
    ensures Pick(CauchyGenerator(k, r)[row], js) == CauchyRow(ByteOf(row - k + 1), Ys(r, js))
  {
    hide Xor, Inv, ByteOf;
  }

  ghost function Ys(r: nat, js: seq<nat>): (y: Vec) {
    seq(|js|, i requires 0 <= i < |js| => ByteOf(r + 1 + js[i]))
  }

  ghost function Xs(k: nat, ps: seq<nat>): (x: Vec)
    requires forall i :: 0 <= i < |ps| ==> k <= ps[i]
  {
    seq(|ps|, i requires 0 <= i < |ps| => ByteOf(ps[i] - k + 1))
  }

  /** The denominators x_i + y_j never vanish, and each family is distinct. */
  lemma PointsDistinct(k: nat, r: nat, ps: seq<nat>, js: seq<nat>)
    requires ValidGeometry(k, r) && Distinct(ps) && Distinct(js)
    requires forall i :: 0 <= i < |ps| ==> k <= ps[i] < k + r
    requires forall i :: 0 <= i < |js| ==> js[i] < k
    ensures Distinct(Xs(k, ps)) && Distinct(Ys(r, js))
    ensures forall i :: 0 <= i < |ps| ==> DisjointFrom(Xs(k, ps)[i], Ys(r, js))
  {
    hide ByteOf;
    forall i, j | 0 <= i < j < |ps| ensures Xs(k, ps)[i] != Xs(k, ps)[j] {
      if Xs(k, ps)[i] == Xs(k, ps)[j] { ByteOfInjective(ps[i] - k + 1, ps[j] - k + 1); }
    }
    forall i, j | 0 <= i < j < |js| ensures Ys(r, js)[i] != Ys(r, js)[j] {
      if Ys(r, js)[i] == Ys(r, js)[j] { ByteOfInjective(r + 1 + js[i], r + 1 + js[j]); }
    }
    forall i, j | 0 <= i < |ps| && 0 <= j < |js| ensures Ys(r, js)[j] != Xs(k, ps)[i] {
      if Ys(r, js)[j] == Xs(k, ps)[i] { ByteOfInjective(r + 1 + js[j], ps[i] - k + 1); }
    }
  }

  /** A kernel vector vanishes at every surviving data position. */
  lemma DataRowsForceZero(g: seq<Vec>, k: nat, rows: seq<nat>, v: Vec, i: nat)
    requires Systematic(g, k) && Matrix(g, |g|, k) && RowChoice(rows, k, |g|)
    requires InKernel(Select(g, rows), v, k) && i < k && i in Elements(rows)
    ensures v[i] == ZERO
  {
    var t :| 0 <= t < k && rows[t] == i;
    assert Select(g, rows)[t] == g[i];
    DotUnit(g[i], v, i, k);
  }

  /** A surviving parity row is one Cauchy equation in the missing positions. */
  lemma ParityEquation(k: nat, r: nat, rows: seq<nat>, v: Vec, p: nat)
    requires ValidGeometry(k, r) && RowChoice(rows, k, k + r)
    requires InKernel(Select(CauchyGenerator(k, r), rows), v, k)
    requires k <= p < k + r && p in Elements(rows)
    ensures var js := Missing(Elements(rows), k);
            Dot(CauchyRow(ByteOf(p - k + 1), Ys(r, js)), Pick(v, js), |js|) == ZERO
  {
    hide Xor, Mul, Inv, ByteOf, Missing;
    var g, s := CauchyGenerator(k, r), Elements(rows);
    forall i | 0 <= i < k && i in s ensures v[i] == ZERO {
      DataRowsForceZero(g, k, rows, v, i);
    }
    var t :| 0 <= t < k && rows[t] == p;
    assert Select(g, rows)[t] == g[p];
    DotCompress(g[p], v, s, k);
    ParityRow(k, r, p, Missing(s, k));
  }

  /** As many parity rows survive as data positions are missing. */
  lemma EqualCounts(k: nat, n: nat, rows: seq<nat>) returns (ps: seq<nat>)
    requires RowChoice(rows, k, n)
    ensures Distinct(ps) && |ps| == |Missing(Elements(rows), k)|
    ensures forall i :: 0 <= i < |ps| ==> k <= ps[i] < n && ps[i] in Elements(rows)
  {
    var s := Elements(rows);
    ElementsSize(rows);
    MissingSize(s, k);
    assert s == Below(s, k) + (s - Below(s, k));
    ps := Enumerate(s - Below(s, k));
    forall i | 0 <= i < |ps| ensures k <= ps[i] < n && ps[i] in s {
      assert ps[i] in s - Below(s, k);
    }
  }

  lemma CauchySubmatrixKernel(k: nat, r: nat, rows: seq<nat>, v: Vec)
    requires ValidGeometry(k, r) && RowChoice(rows, k, k + r)
    requires InKernel(Select(CauchyGenerator(k, r), rows), v, k)
    ensures IsZero(v)
  {
    hide Xor, Mul, Inv, ByteOf, Dot, CauchyGenerator;
    var s := Elements(rows);
    var js := Missing(s, k);
    var ps := EqualCounts(k, k + r, rows);
    PointsDistinct(k, r, ps, js);
    forall i | 0 <= i < |ps| ensures Dot(CauchyRow(Xs(k, ps)[i], Ys(r, js)), Pick(v, js), |js|) == ZERO {
      ParityEquation(k, r, rows, v, ps[i]);
    }
    CauchyKernel(Xs(k, ps), Ys(r, js), Pick(v, js));
    forall i | 0 <= i < k ensures v[i] == ZERO {
      if i in s {
        CauchySystematic(k, r);
        DataRowsForceZero(CauchyGenerator(k, r), k, rows, v, i);
      } else {
        var t :| 0 <= t < |js| && js[t] == i;
        assert Pick(v, js)[t] == v[i];
      }
    }
  }

  lemma CauchySystematic(k: nat, r: nat)
    ensures Systematic(CauchyGenerator(k, r), k) && Matrix(CauchyGenerator(k, r), k + r, k)
  {}

  lemma CauchyIsMds(k: nat, r: nat)
    requires ValidGeometry(k, r)
    ensures Mds(CauchyGenerator(k, r), k, k + r) && Systematic(CauchyGenerator(k, r), k)
  {
    var g := CauchyGenerator(k, r);
    forall rows | RowChoice(rows, k, k + r) ensures TrivialKernel(Select(g, rows), k) {
      forall v | InKernel(Select(g, rows), v, k) ensures IsZero(v) {
        CauchySubmatrixKernel(k, r, rows, v);
      }
    }
  }
}
