/**
  Two wrong bits: the check misses them just when their distance is a multiple of the order of
  x modulo the check's polynomial.  A remainder is a bv16 with the coefficient of 1 in its top
  bit, so that one shift of the check multiplies by x.
 */
module BitErrors {
  import opened CMath
  import opened Crc

  const ONE: bv16 := 0x8000

  /** 7 * 31 * 151 */
  const ORDER := 32767

  /** The n-th power of x. */
  function Power(n: nat): bv16 {
    Shifts(ONE, n)
  }

  // ------------------------------------------------------------- shifts

  lemma {:induction false} ShiftsAdd(x: bv16, m: nat, n: nat)
    ensures Shifts(x, m + n) == Shifts(Shifts(x, m), n)
  {
    hide Shift;
    if n > 0 {
      ShiftsAdd(x, m, n - 1);
      assert m + n - 1 == m + (n - 1);
    }
  }

  lemma {:induction false} ShiftFirst(x: bv16, n: nat)
    ensures Shifts(Shift(x), n) == Shifts(x, n + 1)
  {
    hide Shift;
    ShiftsAdd(x, 1, n);
    assert Shifts(x, 1) == Shift(Shifts(x, 0));
  }

  lemma {:induction false} ShiftsAreLinear(x: bv16, y: bv16, n: nat)
    ensures Shifts(Xor(x, y), n) == Xor(Shifts(x, n), Shifts(y, n))
  {
    hide Shift, Xor;
    if n > 0 {
      ShiftsAreLinear(x, y, n - 1);
      ShiftIsLinear(Shifts(x, n - 1), Shifts(y, n - 1));
    }
  }

  lemma {:induction false} ShiftOfZero(x: bv16)
    ensures Shift(x) == 0 <==> x == 0
  {
  }

  lemma {:induction false} EqualIsZero(x: bv16, y: bv16)
    ensures Xor(x, y) == 0 <==> x == y
  {
    hide Xor;
    XorZero(x);
    XorZero(y);
    XorAssoc(x, x, y);
  }

  lemma {:induction false} ShiftsOfZero(x: bv16, n: nat)
    ensures Shifts(x, n) == 0 <==> x == 0
  {
    hide Shift;
    if n > 0 {
      ShiftsOfZero(x, n - 1);
      ShiftOfZero(Shifts(x, n - 1));
    }
  }

  lemma {:induction false} ShiftsAreInjective(x: bv16, y: bv16, n: nat)
    ensures Shifts(x, n) == Shifts(y, n) <==> x == y
  {
    hide Shifts, Xor;
    ShiftsAreLinear(x, y, n);
    ShiftsOfZero(Xor(x, y), n);
    EqualIsZero(x, y);
    EqualIsZero(Shifts(x, n), Shifts(y, n));
  }

  // ------------------------------------------------------------- products

  function Twice(y: bv16): bv16 {
    y << 1
  }

  /** A shift without a branch. */
  function Once(z: bv16): bv16 {
    (z >> 1) ^ (0xA001 & (0 - (z & 1)))
  }

  /** z, if the top bit of y is set. */
  function Taken(y: bv16, z: bv16): bv16 {
    z & (0 - (y >> 15))
  }

  /** The product of z and the top four bits of y. */
  function Row(y: bv16, z: bv16): bv16 {
    var y1, z1 := Twice(y), Once(z);
    var y2, z2 := Twice(y1), Once(z1);
    Xor(Taken(y, z), Xor(Taken(y1, z1), Xor(Taken(y2, z2), Taken(Twice(y2), Once(z2)))))
  }

  function Once4(z: bv16): bv16 {
    Once(Once(Once(Once(z))))
  }

  /** The product of two remainders. */
  function Times(y: bv16, z: bv16): bv16 {
    var z4 := Once4(z);
    var z8 := Once4(z4);
    Xor(Row(y, z), Xor(Row(y << 4, z4), Xor(Row(y << 8, z8), Row(y << 12, Once4(z8)))))
  }

  lemma {:induction false} OnceIsShift(z: bv16)
    ensures Once(z) == Shift(z)
  {
    Masks();
    LowBitIs(z);
    XorZero(z >> 1);
  }

  lemma {:induction false} Masks()
    ensures 0xA001 & (0 - (0 as bv16)) == 0 && 0xA001 & (0 - (1 as bv16)) == 0xA001
  {
  }

  lemma {:induction false} LowBitIs(z: bv16)
    ensures z & 1 == 0 || z & 1 == 1
  {
  }

  /** The top bit apart, y is a shift of its double. */
  lemma {:induction false} TopBit(y: bv16, z: bv16)
    ensures y == Xor(Taken(y, ONE), Shift(Twice(y)))
    ensures Taken(y, z) == if y >> 15 == 1 then z else 0
    ensures y >> 15 != 1 ==> y >> 15 == 0
  {
  }

  lemma {:induction false} TopBitShifts(y: bv16, n: nat)
    ensures Shifts(y, n) == Xor(Taken(y, Power(n)), Shifts(Twice(y), n + 1))
  {
    hide Taken, Shift, Twice, Xor;
    TopBit(y, ONE);
    TopBit(y, Power(n));
    ShiftsAreLinear(Taken(y, ONE), Shift(Twice(y)), n);
    ShiftFirst(Twice(y), n);
    ShiftsOfZero(0, n);
  }

  lemma {:induction false} Reassoc4(a: bv16, b: bv16, c: bv16, d: bv16, e: bv16)
    ensures Xor(a, Xor(b, Xor(c, Xor(d, e)))) == Xor(Xor(a, Xor(b, Xor(c, d))), e)
  {
    hide Xor;
    XorAssoc(c, d, e);
    XorAssoc(b, Xor(c, d), e);
    XorAssoc(a, Xor(b, Xor(c, d)), e);
  }

  lemma {:induction false} Twice4(y: bv16)
    ensures Twice(Twice(Twice(Twice(y)))) == y << 4
  {
  }

  lemma {:induction false} NextPower(n: nat)
    ensures Power(n + 1) == Once(Power(n))
  {
    hide Shift, Once;
    OnceIsShift(Power(n));
  }

  lemma {:induction false} NextPower4(n: nat)
    ensures Power(n + 4) == Once4(Power(n))
  {
    hide Power, Once;
    NextPower(n);
    NextPower(n + 1);
    NextPower(n + 2);
    NextPower(n + 3);
  }

  lemma {:induction false} RowShifts(y: bv16, n: nat)
    ensures Shifts(y, n) == Xor(Row(y, Power(n)), Shifts(y << 4, n + 4))
  {
    hide Power, Taken, Once, Twice, Shifts, Xor;
    var y1, y2, y3 := Twice(y), Twice(Twice(y)), Twice(Twice(Twice(y)));
    TopBitShifts(y, n);
    TopBitShifts(y1, n + 1);
    TopBitShifts(y2, n + 2);
    TopBitShifts(y3, n + 3);
    NextPower(n);
    NextPower(n + 1);
    NextPower(n + 2);
    Twice4(y);
    Reassoc4(Taken(y, Power(n)), Taken(y1, Power(n + 1)), Taken(y2, Power(n + 2)), Taken(y3, Power(n + 3)),
             Shifts(y << 4, n + 4));
  }

  lemma {:induction false} ShiftedOut(y: bv16)
    ensures (y << 4) << 4 == y << 8 && (y << 8) << 4 == y << 12 && (y << 12) << 4 == 0
  {
  }

  /** The product with a power of x is that many shifts. */
  lemma {:induction false} TimesShifts(y: bv16, n: nat)
    ensures Shifts(y, n) == Times(y, Power(n))
  {
    hide Power, Row, Shifts, Xor, Once4;
    RowShifts(y, n);
    RowShifts(y << 4, n + 4);
    RowShifts(y << 8, n + 8);
    RowShifts(y << 12, n + 12);
    NextPower4(n);
    NextPower4(n + 4);
    NextPower4(n + 8);
    ShiftedOut(y);
    ShiftsOfZero(0, n + 16);
    XorZero(Row(y << 12, Power(n + 12)));
  }

  /** Powers multiply. */
  lemma {:induction false} PowerSum(m: nat, n: nat)
    ensures Power(m + n) == Times(Power(m), Power(n))
  {
    hide Shifts, Times;
    ShiftsAdd(ONE, m, n);
    TimesShifts(Power(m), n);
  }

  // ------------------------------------------------------------- the order of x

  lemma {:induction false} FirstPowers()
    ensures Power(3) == 0x1000 && Power(15) == 0x0001 && Power(16) == 0xA001
  {
    assert Power(0) == ONE;
    hide Power;
    NextPower(0);
    NextPower(1);
    NextPower(2);
    NextPower4(3);
    NextPower4(7);
    NextPower4(11);
    NextPower(15);
  }

  lemma {:induction false} Power217()
    ensures Power(3) == 0x1000 && Power(217) == 0x3E55 && Power(434) == 0xB330 && Power(186) == 0x1A22
  {
    hide Power;
    FirstPowers();
    PowerSum(15, 16);
    PowerSum(31, 31);
    PowerSum(31, 62);
    PowerSum(93, 93);
    PowerSum(186, 31);
    PowerSum(217, 217);
  }

  lemma {:induction false} Power1057()
    ensures Power(186) == 0x1A22 && Power(434) == 0xB330 && Power(1057) == 0xCE41
  {
    hide Power;
    Power217();
    PowerSum(434, 434);
    PowerSum(868, 186);
    PowerSum(1054, 3);
  }

  lemma {:induction false} Power4681()
    ensures Power(4681) == 0x8C69
  {
    hide Power;
    FirstPowers();
    Power217();
    Power1057();
    PowerSum(16, 3);
    PowerSum(1057, 1057);
    PowerSum(2114, 2114);
    PowerSum(4228, 434);
    PowerSum(4662, 19);
  }

  /** The order divides 32767. */
  lemma {:induction false} FullTurn()
    ensures Power(ORDER) == ONE
  {
    hide Power;
    Power4681();
    PowerSum(4681, 4681);
    PowerSum(9362, 4681);
    PowerSum(14043, 14043);
    PowerSum(28086, 4681);
  }

  /** The common period of two periods. */
  lemma {:induction false} CommonPeriod(a: nat, b: nat) returns (g: nat, k: nat, l: nat)
    requires a > 0 && b > 0 && Power(a) == ONE && Power(b) == ONE
    ensures Power(g) == ONE && a == g * k && b == g * l && k > 0 && l > 0
    decreases a + b
  {
    hide Shifts;
    if a == b {
      g, k, l := a, 1, 1;
    } else if a < b {
      ShiftsAdd(ONE, a, b - a);
      g, k, l := CommonPeriod(a, b - a);
      l := l + k;
    } else {
      ShiftsAdd(ONE, b, a - b);
      g, k, l := CommonPeriod(a - b, b);
      k := k + l;
    }
  }

  lemma {:induction false} Multiples(g: nat, n: nat)
    requires Power(g) == ONE
    ensures Power(g * n) == ONE
  {
    hide Shifts, Power;
    if n == 0 {
      PowerZero();
    } else {
      Multiples(g, n - 1);
      assert g * n == g * (n - 1) + g;
      PowerAfter(g * (n - 1), g);
    }
  }

  /** Up to n the order has no other divisors than 1 and its three prime factors. */
  predicate FewDivisors(n: nat) {
    n == 0 || (FewDivisors(n - 1) && (32767 % n != 0 || n == 1 || n == 7 || n == 31 || n == 151))
  }

  lemma {:induction false} IsDivisor(h: nat, k: nat, n: nat)
    requires FewDivisors(n) && h * k == ORDER && h <= n
    ensures h == 1 || h == 7 || h == 31 || h == 151
  {
    if h < n {
      IsDivisor(h, k, n - 1);
    } else {
      assert h > 0;
      Divides(h, k);
    }
  }

  lemma {:induction false} Divides(h: nat, k: nat)
    requires h > 0
    ensures (h * k) % h == 0
  {
    var a := h * k;
    QuotientBetween(a, h, k, k);
    assert a == h * (a / h) + a % h;
  }

  lemma {:induction false} FewUpTo60()
    ensures FewDivisors(60)
  {
    assert FewDivisors(12);
    assert FewDivisors(24);
    assert FewDivisors(36);
    assert FewDivisors(48);
  }

  lemma {:induction false} FewUpTo120()
    ensures FewDivisors(120)
  {
    FewUpTo60();
    assert FewDivisors(72);
    assert FewDivisors(84);
    assert FewDivisors(96);
    assert FewDivisors(108);
  }

  lemma {:induction false} FewUpToRoot()
    ensures FewDivisors(182)
  {
    FewUpTo120();
    assert FewDivisors(132);
    assert FewDivisors(144);
    assert FewDivisors(156);
    assert FewDivisors(168);
    assert FewDivisors(180);
  }

  lemma {:induction false} LargeProduct(g: nat, l: nat)
    requires g * l == ORDER && l > 182
    ensures g <= 182
  {
    FactorBelow(g, 183, l);
  }

  lemma {:induction false} ProperDivisor(g: nat, l: nat) returns (m: nat, j: nat)
    requires g * l == ORDER && l > 1
    ensures m == g * j && (m == 217 || m == 1057 || m == 4681)
  {
    FewUpToRoot();
    if l <= 182 {
      IsDivisor(l, g, 182);
      m, j := g, 1;
    } else {
      LargeProduct(g, l);
      IsDivisor(g, l, 182);
      m := if g == 151 then 1057 else 217;
      j := if g == 151 then 7 else if g == 31 then 7 else if g == 7 then 31 else 217;
    }
  }

  lemma {:induction false} NotEarlier(d: nat)
    requires 0 < d < ORDER
    ensures Power(d) != ONE
  {
    hide Power;
    if Power(d) == ONE {
      FullTurn();
      var g, k, l := CommonPeriod(d, ORDER);
      assert l > 1 by {
        assert d >= g by {
          assert g * (k - 1) >= 0;
        }
      }
      var m, j := ProperDivisor(g, l);
      Multiples(g, j);
      Power217();
      Power1057();
      Power4681();
      assert false;
    }
  }

  /** The order of x is 32767. */
  lemma {:induction false} OrderOfX(n: nat)
    ensures Power(n) == ONE <==> n % ORDER == 0
  {
    hide Shifts, Power;
    var q, r := n / ORDER, n % ORDER;
    FullTurn();
    Multiples(ORDER, q);
    PowerAfter(ORDER * q, r);
    assert Power(n) == Power(r);
    if r > 0 {
      NotEarlier(r);
    } else {
      PowerZero();
    }
  }

  lemma {:induction false} PowerZero()
    ensures Power(0) == ONE
  {
  }

  lemma {:induction false} PowerAfter(m: nat, n: nat)
    requires Power(m) == ONE
    ensures Power(m + n) == Power(n)
  {
    hide Shifts;
    ShiftsAdd(ONE, m, n);
  }

  // ------------------------------------------------------------- two wrong bits

  /** Bit k of a byte; bit 0 is sent first. */
  function Bit(k: nat): bv8
    requires k < 8
  {
    match k
    case 0 => 1
    case 1 => 2
    case 2 => 4
    case 3 => 8
    case 4 => 16
    case 5 => 32
    case 6 => 64
    case _ => 128
  }

  /** The frame with the p-th bit that is sent inverted. */
  function Flip(data: Frame, p: nat): (r: Frame)
    requires p < 8 * |data|
    ensures |r| == |data|
  {
    data[p / 8 := XorByte(data[p / 8], Bit(p % 8))]
  }

  lemma {:induction false} LowerBit(k: nat)
    requires 0 < k < 8
    ensures Shift(Bit(k) as bv16) == Bit(k - 1) as bv16
  {
  }

  lemma {:induction false} BitShifts(k: nat, n: nat)
    requires k < 8
    ensures Shifts(Bit(k) as bv16, n + k) == Shifts(1, n)
  {
    hide Shift, Bit, Shifts;
    if k == 0 {
      FirstBit();
    } else {
      LowerBit(k);
      ShiftFirst(Bit(k) as bv16, n + k - 1);
      BitShifts(k - 1, n);
    }
  }

  lemma {:induction false} FirstBit()
    ensures Bit(0) as bv16 == 1
  {
  }

  /** What a wrong bit p adds to the check of the first n bytes. */
  function Echo(p: nat, n: nat): bv16 {
    if p < 8 * n then Shifts(1, 8 * n - p) else 0
  }

  lemma {:induction false} StepOfZero(y: bv16)
    ensures Step(y, 0) == Shifts(y, 8)
  {
    hide Xor, Step, Shifts;
    EightShifts(y, 0);
    XorZero(y);
  }

  lemma {:induction false} StepOfBit(k: nat)
    requires k < 8
    ensures Step(0, Bit(k)) == Shifts(1, 8 - k)
  {
    hide Xor, Step, Shifts, Bit;
    EightShifts(0, Bit(k));
    XorZero(Bit(k) as bv16);
    BitShifts(k, 8 - k);
  }

  lemma {:induction false} NoChange(b: bv8)
    ensures XorByte(b, 0) == b
  {
  }

  lemma {:induction false} FlipEchoes(c: bv16, data: Frame, p: nat, n: nat)
    requires p < 8 * |data| && n <= |data|
    ensures From(c, Flip(data, p), n) == Xor(From(c, data, n), Echo(p, n))
  {
    hide Step, Xor, XorByte, Bit, Shifts;
    if n == 0 {
      XorZero(c);
    } else {
      FlipEchoes(c, data, p, n - 1);
      var x, y, b := From(c, data, n - 1), Echo(p, n - 1), data[n - 1];
      var e := if p / 8 == n - 1 then Bit(p % 8) else 0;
      NoChange(b);
      assert Flip(data, p)[n - 1] == XorByte(b, e);
      StepIsLinear(x, y, b, e);
      NextEcho(p, n);
    }
  }

  lemma {:induction false} NextEcho(p: nat, n: nat)
    requires n > 0
    ensures Echo(p, n) == Step(Echo(p, n - 1), if p / 8 == n - 1 then Bit(p % 8) else 0)
  {
    hide Step, Bit, Shifts;
    if p / 8 == n - 1 {
      StepOfBit(p % 8);
    } else {
      StepOfZero(Echo(p, n - 1));
      if p < 8 * (n - 1) {
        ShiftsAdd(1, 8 * (n - 1) - p, 8);
      } else {
        ShiftsOfZero(0, 8);
      }
    }
  }

  lemma {:induction false} ReturnsToOne(d: nat)
    ensures Shifts(1, d) == 1 <==> d % ORDER == 0
  {
    hide Shifts;
    FirstPowers();
    ShiftsAdd(ONE, 15, d);
    ShiftsAdd(ONE, d, 15);
    ShiftsAreInjective(Power(d), ONE, 15);
    OrderOfX(d);
  }

  lemma {:induction false} EchoesMeet(p: nat, q: nat, n: nat)
    requires p < q < 8 * n
    ensures Echo(p, n) == Echo(q, n) <==> (q - p) % ORDER == 0
  {
    hide Shifts;
    ShiftsAdd(1, q - p, 8 * n - q);
    ShiftsAreInjective(Shifts(1, q - p), 1, 8 * n - q);
    ReturnsToOne(q - p);
  }

  /** Two wrong bits go undetected just when their distance is a multiple of 32767 bits. */
  lemma {:induction false} TwoErrorsAreDetected(data: Frame, p: nat, q: nat)
    requires p < q < 8 * |data|
    ensures Check(Flip(Flip(data, p), q)) == Check(data) <==> (q - p) % ORDER == 0
    ensures Check(Flip(Flip(data, q), p)) == Check(data) <==> (q - p) % ORDER == 0
  {
    hide From, Xor, Flip, Echo;
    var n := |data|;
    var c, x, y := Check(data), Echo(p, n), Echo(q, n);
    FlipEchoes(0xFFFF, data, p, n);
    FlipEchoes(0xFFFF, Flip(data, p), q, n);
    FlipEchoes(0xFFFF, data, q, n);
    FlipEchoes(0xFFFF, Flip(data, q), p, n);
    XorAssoc(c, x, y);
    XorAssoc(c, y, x);
    XorComm(x, y);
    XorIsDifference(c, Xor(x, y));
    EqualIsZero(x, y);
    EchoesMeet(p, q, n);
  }

  /** So in a frame of the length that the program checks they are always detected. */
  lemma {:induction false} ShortFramesDetectTwo(data: Frame, p: nat, q: nat)
    requires |data| <= 255 && p < 8 * |data| && q < 8 * |data| && p != q
    ensures Check(Flip(Flip(data, p), q)) != Check(data)
  {
    hide Check, Flip;
    TwoErrorsAreDetected(data, if p < q then p else q, if p < q then q else p);
  }
}
