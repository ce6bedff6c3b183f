/** GF(256) as rscode builds it: powers of alpha from a shift register with
    polynomial x^8 + x^4 + x^3 + x^2 + 1, multiplication through logarithms. */
module Gf256 {
  import opened Arith

  /** A byte is its eight bits; addition in the field is exclusive or. */
  datatype Byte = Byte(b7: bool, b6: bool, b5: bool, b4: bool, b3: bool, b2: bool, b1: bool, b0: bool)

  type Bytes = seq<Byte>

  const ZERO := Byte(false, false, false, false, false, false, false, false)
  const ONE := Byte(false, false, false, false, false, false, false, true)
  const FIELD_ORDER: nat := 255

  function Xor(a: Byte, b: Byte): (r: Byte) {
    Byte(a.b7 != b.b7, a.b6 != b.b6, a.b5 != b.b5, a.b4 != b.b4,
         a.b3 != b.b3, a.b2 != b.b2, a.b1 != b.b1, a.b0 != b.b0)
  }

  function Bit(b: bool): (r: nat) {
    if b then 1 else 0
  }

  function High(b: Byte): (r: nat) {
    8 * Bit(b.b7) + 4 * Bit(b.b6) + 2 * Bit(b.b5) + Bit(b.b4)
  }

  function Low(b: Byte): (r: nat) {
    8 * Bit(b.b3) + 4 * Bit(b.b2) + 2 * Bit(b.b1) + Bit(b.b0)
  }

  function Value(b: Byte): (r: nat) {
    16 * High(b) + Low(b)
  }

  /** The byte whose two hexadecimal digits are given. */
  function Hex(h: nat, l: nat): (r: Byte) {
    Byte(h / 8 % 2 == 1, h / 4 % 2 == 1, h / 2 % 2 == 1, h % 2 == 1,
         l / 8 % 2 == 1, l / 4 % 2 == 1, l / 2 % 2 == 1, l % 2 == 1)
  }

  /** Conversion of a number below 256 to an unsigned char. */
  function ByteOf(n: nat): (r: Byte) {
    Hex(n / 16, n % 16)
  }

  /** One clock of the shift register: multiplication by alpha. */
  function Double(b: Byte): (r: Byte) {
    Byte(b.b6, b.b5, b.b4, b.b3 != b.b7, b.b2 != b.b7, b.b1 != b.b7, b.b0, b.b7)
  }

  function Shift(n: nat, b: Byte): (r: Byte) {
    if n == 0 then b else Shift(n - 1, Double(b))
  }

  /** The power table: alpha to the i. */
  function Gexp(i: nat): (r: Byte) {
    Shift(i, ONE)
  }

  /** The search that fills the logarithm table: the first z whose power is a. */
  function LogFrom(a: Byte, z: nat): (r: nat)
    requires z <= FIELD_ORDER
    ensures z <= r <= FIELD_ORDER
    ensures r < FIELD_ORDER ==> Gexp(r) == a
    ensures forall i :: z <= i < r ==> Gexp(i) != a
    decreases FIELD_ORDER - z
  {
    if z == FIELD_ORDER || Gexp(z) == a then z else LogFrom(a, z + 1)
  }

  function Glog(a: Byte): (r: nat) {
    if a == ZERO then 0 else LogFrom(a, 0)
  }

  function Mul(a: Byte, b: Byte): (r: Byte) {
    if a == ZERO || b == ZERO then ZERO else Gexp(Glog(a) + Glog(b))
  }

  function Inv(a: Byte): (r: Byte)
  {
    Gexp(FIELD_ORDER - Glog(a))
  }

  // ---------------------------------------------------------------------
  // Laws of exclusive or. Other lemmas hide its definition and use these.

  lemma XorComm(a: Byte, b: Byte)
    ensures Xor(a, b) == Xor(b, a)
  {}

  lemma XorAssoc(a: Byte, b: Byte, c: Byte)
    ensures Xor(Xor(a, b), c) == Xor(a, Xor(b, c))
  {}

  lemma XorZero(a: Byte)
    ensures Xor(a, ZERO) == a && Xor(ZERO, a) == a
  {}

  lemma XorSelf(a: Byte, b: Byte)
    ensures Xor(a, b) == ZERO <==> a == b
  {}

  lemma XorSwap(a: Byte, b: Byte, c: Byte, d: Byte)
    ensures Xor(Xor(a, b), Xor(c, d)) == Xor(Xor(a, c), Xor(b, d))
  {}

  lemma XorCancel(a: Byte, b: Byte)
    ensures Xor(Xor(a, b), b) == a && Xor(b, Xor(b, a)) == a
  {}

  // ---------------------------------------------------------------------
  // Bytes and numbers below 256 correspond.

  lemma NibbleBits(l: nat)
    requires l < 16
    ensures 8 * Bit(l / 8 % 2 == 1) + 4 * Bit(l / 4 % 2 == 1) + 2 * Bit(l / 2 % 2 == 1) + Bit(l % 2 == 1) == l
  {
    assert l == 0 || l == 1 || l == 2 || l == 3 || l == 4 || l == 5 || l == 6 || l == 7 ||
           l == 8 || l == 9 || l == 10 || l == 11 || l == 12 || l == 13 || l == 14 || l == 15;
  }

  lemma HexDigits(h: nat, l: nat)
    requires h < 16 && l < 16
    ensures High(Hex(h, l)) == h && Low(Hex(h, l)) == l
  {
    NibbleBits(h);
    NibbleBits(l);
    hide Bit;
  }

  lemma ValueByteOf(n: nat)
    requires n < 256
    ensures Value(ByteOf(n)) == n
  {
    hide Hex, High, Low;
    HexDigits(n / 16, n % 16);
  }

  lemma LowBound(b: Byte)
    ensures Low(b) < 16 && High(b) < 16
  {}

  lemma HighInjective(a: Byte, b: Byte)
    requires High(a) == High(b)
    ensures a.b7 == b.b7 && a.b6 == b.b6 && a.b5 == b.b5 && a.b4 == b.b4
  {}

  lemma LowInjective(a: Byte, b: Byte)
    requires Low(a) == Low(b)
    ensures a.b3 == b.b3 && a.b2 == b.b2 && a.b1 == b.b1 && a.b0 == b.b0
  {}

  lemma ValueInjective(a: Byte, b: Byte)
    requires Value(a) == Value(b)
    ensures a == b
  {
    hide High, Low;
    LowBound(a);
    LowBound(b);
    HighInjective(a, b);
    LowInjective(a, b);
  }

  lemma ByteOfInjective(m: nat, n: nat)
    requires m < 256 && n < 256 && ByteOf(m) == ByteOf(n)
    ensures m == n
  {
    hide *;
    ValueByteOf(m);
    ValueByteOf(n);
  }

  lemma ByteOfValue(b: Byte)
    ensures Value(b) < 256 && ByteOf(Value(b)) == b
  {
    assert Value(b) < 256;
    hide *;
    ValueByteOf(Value(b));
    ValueInjective(ByteOf(Value(b)), b);
  }

  // ---------------------------------------------------------------------
  // Shifting is additive in the count, linear in the byte and injective.

  lemma {:induction false} ShiftAdd(m: nat, n: nat, b: Byte)
    ensures Shift(m + n, b) == Shift(m, Shift(n, b))
  {
    hide Double;
    if n != 0 {
      ShiftAdd(m, n - 1, Double(b));
    }
  }

  lemma DoubleLinear(a: Byte, b: Byte)
    ensures Double(Xor(a, b)) == Xor(Double(a), Double(b))
  {}

  lemma {:induction false} ShiftLinear(n: nat, a: Byte, b: Byte)
    ensures Shift(n, Xor(a, b)) == Xor(Shift(n, a), Shift(n, b))
  {
    hide Double, Xor;
    if n != 0 {
      DoubleLinear(a, b);
      ShiftLinear(n - 1, Double(a), Double(b));
    }
  }

  lemma DoubleInjective(a: Byte, b: Byte)
    requires Double(a) == Double(b)
    ensures a == b
  {}

  lemma {:induction false} ShiftInjective(n: nat, a: Byte, b: Byte)
    requires Shift(n, a) == Shift(n, b)
    ensures a == b
  {
    hide Double;
    if n != 0 {
      ShiftInjective(n - 1, Double(a), Double(b));
      DoubleInjective(a, b);
    }
  }

  lemma {:induction false} ShiftZero(n: nat)
    ensures Shift(n, ZERO) == ZERO
  {
    if n != 0 {
      ShiftZero(n - 1);
    }
  }

  lemma GexpNonzero(i: nat)
    ensures Gexp(i) != ZERO
  {
    hide Double, Shift;
    if Gexp(i) == ZERO {
      ShiftZero(i);
      ShiftInjective(i, ONE, ZERO);
    }
  }

  // ---------------------------------------------------------------------
  // The order of alpha is exactly 255.

  // Powers of the shift by repeated squaring, as explicit linear maps.

  function Shifted4(b: Byte): Byte {
    Byte(b.b7 != b.b3,
         (b.b7 != b.b6) != b.b2,
         ((b.b7 != b.b6) != b.b5) != b.b1,
         ((b.b6 != b.b5) != b.b4) != b.b0,
         (b.b7 != b.b5) != b.b4,
         b.b6 != b.b4,
         b.b5,
         b.b4)
  }

  function Shifted8(b: Byte): Byte {
    Byte((b.b5 != b.b4) != b.b3,
         (b.b4 != b.b3) != b.b2,
         ((b.b7 != b.b3) != b.b2) != b.b1,
         ((b.b6 != b.b2) != b.b1) != b.b0,
         ((b.b4 != b.b3) != b.b1) != b.b0,
         (((b.b7 != b.b5) != b.b4) != b.b2) != b.b0,
         ((b.b7 != b.b6) != b.b5) != b.b1,
         ((b.b6 != b.b5) != b.b4) != b.b0)
  }

  function Shifted16(b: Byte): Byte {
    Byte(((b.b7 != b.b6) != b.b4) != b.b1,
         (((b.b7 != b.b6) != b.b5) != b.b3) != b.b0,
         ((b.b6 != b.b5) != b.b4) != b.b2,
         ((b.b5 != b.b4) != b.b3) != b.b1,
         ((((b.b7 != b.b6) != b.b3) != b.b2) != b.b1) != b.b0,
         ((b.b5 != b.b4) != b.b2) != b.b0,
         b.b6 != b.b3,
         (b.b7 != b.b5) != b.b2)
  }

  function Shifted32(b: Byte): Byte {
    Byte((b.b6 != b.b3) != b.b0,
         b.b5 != b.b2,
         (b.b7 != b.b4) != b.b1,
         ((b.b7 != b.b6) != b.b3) != b.b0,
         ((b.b5 != b.b3) != b.b2) != b.b0,
         (((((b.b7 != b.b6) != b.b4) != b.b3) != b.b2) != b.b1) != b.b0,
         (b.b5 != b.b2) != b.b1,
         ((b.b7 != b.b4) != b.b1) != b.b0)
  }

  lemma ShiftBy4(b: Byte)
    ensures Shift(1, b) == Double(b) && Shift(2, b) == Double(Double(b)) && Shift(4, b) == Shifted4(b)
  {
    assert Double(Double(Double(Double(b)))) == Shifted4(b);
    hide Double, Shifted4;
    var c, d, e := Double(b), Double(Double(b)), Double(Double(Double(b)));
    assert Shift(1, b) == Shift(0, c) && Shift(1, c) == Shift(0, d) && Shift(2, b) == Shift(1, c);
    assert Shift(4, b) == Shift(3, c) && Shift(3, c) == Shift(2, d) && Shift(2, d) == Shift(1, e) && Shift(1, e) == Shift(0, Double(e));
  }

  lemma ShiftBy8(b: Byte)
    ensures Shift(8, b) == Shifted8(b)
  {
    assert Shifted8(b) == Shifted4(Shifted4(b));
    hide *;
    ShiftBy4(b);
    ShiftBy4(Shifted4(b));
    ShiftAdd(4, 4, b);
  }

  lemma ShiftBy16(b: Byte)
    ensures Shift(16, b) == Shifted16(b)
  {
    assert Shifted16(b) == Shifted8(Shifted8(b));
    hide *;
    ShiftBy8(b);
    ShiftBy8(Shifted8(b));
    ShiftAdd(8, 8, b);
  }

  lemma ShiftBy32(b: Byte)
    ensures Shift(32, b) == Shifted32(b)
  {
    assert Shifted32(b) == Shifted16(Shifted16(b));
    hide *;
    ShiftBy16(b);
    ShiftBy16(Shifted16(b));
    ShiftAdd(16, 16, b);
  }

  lemma PowersOfAlpha()
    ensures Gexp(15) != ONE && Gexp(51) != ONE && Gexp(85) != ONE && Gexp(255) == ONE
  {
    hide Shift;
    ShiftBy4(ONE); ShiftAdd(1, 2, ONE); ShiftBy4(Gexp(2));
    ShiftAdd(4, 1, ONE); ShiftBy4(Gexp(1)); ShiftAdd(4, 3, ONE); ShiftBy4(Gexp(3));
    ShiftAdd(8, 7, ONE); ShiftBy8(Gexp(7));
    ShiftAdd(16, 3, ONE); ShiftBy16(Gexp(3)); ShiftAdd(32, 19, ONE); ShiftBy32(Gexp(19));
    ShiftAdd(16, 5, ONE); ShiftBy16(Gexp(5)); ShiftAdd(32, 21, ONE); ShiftBy32(Gexp(21));
    ShiftAdd(32, 53, ONE); ShiftBy32(Gexp(53));
    ShiftAdd(16, 15, ONE); ShiftBy16(Gexp(15)); ShiftAdd(32, 31, ONE); ShiftBy32(Gexp(31));
    ShiftAdd(32, 63, ONE); ShiftBy32(Gexp(63)); ShiftAdd(32, 95, ONE); ShiftBy32(Gexp(95));
    ShiftAdd(32, 127, ONE); ShiftBy32(Gexp(127)); ShiftAdd(32, 159, ONE); ShiftBy32(Gexp(159));
    ShiftAdd(32, 191, ONE); ShiftBy32(Gexp(191)); ShiftAdd(32, 223, ONE); ShiftBy32(Gexp(223));
  }

  lemma {:induction false} PeriodMultiple(d: nat, m: nat)
    requires Gexp(d) == ONE
    ensures Gexp(m * d) == ONE
  {
    hide Double;
    if m != 0 {
      PeriodMultiple(d, m - 1);
      ShiftAdd((m - 1) * d, d, ONE);
      assert m * d == (m - 1) * d + d;
    }
  }

  lemma PeriodRemainder(d: nat, n: nat)
    requires d > 0 && Gexp(d) == ONE && Gexp(n) == ONE
    ensures Gexp(n % d) == ONE
  {
    hide Double;
    var q := n / d;
    PeriodMultiple(d, q);
    assert n == (n % d) + q * d;
    ShiftAdd(n % d, q * d, ONE);
  }

  /** A proper divisor of 255 = 3 * 5 * 17 divides 85, 51 or 15. */
  lemma ProperDivisor(d: nat)
    requires 0 < d < 255 && 255 % d == 0
    ensures 85 % d == 0 || 51 % d == 0 || 15 % d == 0
  {
    var q := 255 / d;
    assert q * d == 255;
    if d < 16 {
      assert d == 1 || d == 2 || d == 3 || d == 4 || d == 5 || d == 6 || d == 7 || d == 8 ||
             d == 9 || d == 10 || d == 11 || d == 12 || d == 13 || d == 14 || d == 15;
    } else {
      MulCancelLess(1, q, d);
      MulCancelLess(q, 16, d);
      assert q == 2 || q == 3 || q == 4 || q == 5 || q == 6 || q == 7 || q == 8 || q == 9 ||
             q == 10 || q == 11 || q == 12 || q == 13 || q == 14 || q == 15;
      assert d == 85 || d == 51 || d == 17;
    }
  }

  /** No smaller positive power of alpha is one. */
  lemma {:induction false} AlphaHasOrder255(d: nat)
    requires 0 < d < 255
    ensures Gexp(d) != ONE
  {
    hide Gexp;
    if Gexp(d) == ONE {
      PowersOfAlpha();
      if 255 % d != 0 {
        PeriodRemainder(d, 255);
        AlphaHasOrder255(255 % d);
      } else {
        ProperDivisor(d);
        PeriodMultiple(d, 85 / d);
        PeriodMultiple(d, 51 / d);
        PeriodMultiple(d, 15 / d);
        assert false;
      }
    }
  }

  lemma GexpDistinct(i: nat, j: nat)
    requires i < j < i + 255
    ensures Gexp(i) != Gexp(j)
  {
    hide Double, Shift;
    if Gexp(i) == Gexp(j) {
      ShiftAdd(i, j - i, ONE);
      ShiftInjective(i, ONE, Gexp(j - i));
      AlphaHasOrder255(j - i);
    }
  }

  // ---------------------------------------------------------------------
  // Every nonzero byte is a power of alpha, by counting.

  ghost function PowerSet(n: nat): (s: set<int>)
    ensures forall x :: x in s <==> exists i :: 0 <= i < n && x == Value(Gexp(i))
  {
    if n == 0 then {} else PowerSet(n - 1) + {Value(Gexp(n - 1))}
  }

  lemma {:induction false} PowerSetSize(n: nat)
    requires n <= 255
    ensures |PowerSet(n)| == n
  {
    hide Gexp, Value;
    if n != 0 {
      PowerSetSize(n - 1);
      if Value(Gexp(n - 1)) in PowerSet(n - 1) {
        var i :| 0 <= i < n - 1 && Value(Gexp(n - 1)) == Value(Gexp(i));
        ValueInjective(Gexp(n - 1), Gexp(i));
        GexpDistinct(i, n - 1);
      }
    }
  }

  ghost function Range(n: nat): (s: set<int>)
    ensures forall x :: x in s <==> 1 <= x <= n
    ensures |s| == n
  {
    if n == 0 then {} else Range(n - 1) + {n}
  }

  lemma SubsetOfEqualSize(a: set<int>, b: set<int>)
    requires a <= b && |a| == |b|
    ensures a == b
  {
    var c := b - a;
    assert b == a + c;
    assert |b| == |a| + |c|;
  }

  lemma ValueNonzero(b: Byte)
    ensures Value(b) == 0 <==> b == ZERO
    ensures Value(b) < 256
  {}

  lemma PowersCoverNonzero(a: Byte)
    requires a != ZERO
    ensures exists i :: 0 <= i < 255 && Gexp(i) == a
  {
    hide Gexp, Value;
    assert PowerSet(255) <= Range(255) by {
      hide PowerSet, Range;
      forall x | x in PowerSet(255) ensures x in Range(255) {
        var i :| 0 <= i < 255 && x == Value(Gexp(i));
        GexpNonzero(i);
        ValueNonzero(Gexp(i));
      }
    }
    hide PowerSet, Range;
    PowerSetSize(255);
    SubsetOfEqualSize(PowerSet(255), Range(255));
    ValueNonzero(a);
    assert Value(a) in PowerSet(255);
    var i :| 0 <= i < 255 && Value(a) == Value(Gexp(i));
    ValueInjective(a, Gexp(i));
  }

  /** The logarithm inverts the power table on every nonzero byte. */
  lemma LogExp(a: Byte)
    requires a != ZERO
    ensures Glog(a) < 255 && Gexp(Glog(a)) == a
  {
    hide Gexp;
    PowersCoverNonzero(a);
  }

  lemma ExpPeriodic(i: nat)
    ensures Gexp(i) == Gexp(i % 255)
  {
    hide Double, Shift;
    PowersOfAlpha();
    PeriodMultiple(255, i / 255);
    ShiftAdd(i % 255, (i / 255) * 255, ONE);
  }

  lemma SameExponent(i: nat, j: nat)
    requires Gexp(i) == Gexp(j)
    ensures i % 255 == j % 255
  {
    hide Gexp;
    ExpPeriodic(i);
    ExpPeriodic(j);
    if i % 255 < j % 255 { GexpDistinct(i % 255, j % 255); }
    if j % 255 < i % 255 { GexpDistinct(j % 255, i % 255); }
  }

  lemma ModAdd(a: nat, b: nat, i: nat, j: nat)
    requires a % 255 == i % 255 && b % 255 == j % 255
    ensures (a + b) % 255 == (i + j) % 255
  {
    assert a + b == (i + j) + 255 * (a / 255 - i / 255 + b / 255 - j / 255);
  }

  /** The product of two powers adds their exponents. */
  lemma MulExp(i: nat, j: nat)
    ensures Mul(Gexp(i), Gexp(j)) == Gexp(i + j)
  {
    hide Gexp, Glog;
    GexpNonzero(i); GexpNonzero(j);
    LogExp(Gexp(i)); LogExp(Gexp(j));
    var a, b := Glog(Gexp(i)), Glog(Gexp(j));
    SameExponent(a, i); SameExponent(b, j);
    ExpPeriodic(a + b);
    ExpPeriodic(i + j);
    ModAdd(a, b, i, j);
  }

  /** Multiplication by alpha^i is i clocks of the shift register. */
  lemma MulShift(i: nat, b: Byte)
    ensures Mul(Gexp(i), b) == Shift(i, b)
  {
    hide Double, Shift, Glog;
    if b == ZERO {
      ShiftZero(i);
    } else {
      LogExp(b);
      MulExp(i, Glog(b));
      ShiftAdd(i, Glog(b), ONE);
    }
  }

  // ---------------------------------------------------------------------
  // The field laws. The other modules use only these.

  lemma MulComm(a: Byte, b: Byte)
    ensures Mul(a, b) == Mul(b, a)
  {
    hide Gexp, Glog;
    assert Glog(a) + Glog(b) == Glog(b) + Glog(a);
  }

  lemma MulAssoc(a: Byte, b: Byte, c: Byte)
    ensures Mul(a, Mul(b, c)) == Mul(Mul(a, b), c)
  {
    hide Gexp, Glog;
    if a != ZERO && b != ZERO && c != ZERO {
      LogExp(a); LogExp(b); LogExp(c);
      var i, j, k := Glog(a), Glog(b), Glog(c);
      MulExp(j, k); MulExp(i, j + k);
      MulExp(i, j); MulExp(i + j, k);
      assert i + (j + k) == (i + j) + k;
    }
  }

  lemma MulDistrib(a: Byte, b: Byte, c: Byte)
    ensures Mul(a, Xor(b, c)) == Xor(Mul(a, b), Mul(a, c))
  {
    if a == ZERO {
    } else {
      hide Xor, Shift, Glog;
      LogExp(a);
      MulShift(Glog(a), b); MulShift(Glog(a), c); MulShift(Glog(a), Xor(b, c));
      ShiftLinear(Glog(a), b, c);
    }
  }

  lemma MulOne(a: Byte)
    ensures Mul(ONE, a) == a && Mul(a, ONE) == a
  {
    hide Mul, Double;
    assert Shift(0, a) == a && Gexp(0) == ONE;
    MulShift(0, a);
    MulComm(a, ONE);
  }

  lemma MulZero(a: Byte)
    ensures Mul(ZERO, a) == ZERO && Mul(a, ZERO) == ZERO
  {
    hide Gexp, Glog;
  }

  lemma MulInv(a: Byte)
    requires a != ZERO
    ensures Mul(a, Inv(a)) == ONE && Inv(a) != ZERO
  {
    hide Gexp, Glog, Mul;
    LogExp(a);
    MulExp(Glog(a), 255 - Glog(a));
    PowersOfAlpha();
    GexpNonzero(255 - Glog(a));
  }

  lemma MulNonzero(a: Byte, b: Byte)
    ensures Mul(a, b) == ZERO <==> a == ZERO || b == ZERO
  {
    hide Gexp, Glog;
    if a != ZERO && b != ZERO {
      GexpNonzero(Glog(a) + Glog(b));
    }
  }
}
