/** C's integer division, which rounds towards zero, and its exclusive or of bytes. */
module CMath {
  function Div(a: int, b: int): (q: int)
    requires b != 0
  {
    if (a >= 0) == (b > 0) then Abs(a) / Abs(b) else -(Abs(a) / Abs(b))
  }

  function Mod(a: int, b: int): int
    requires b != 0
  {
    a - Div(a, b) * b
  }

  function XorByte(a: bv8, b: bv8): bv8 {
    a ^ b
  }

  function Abs(a: int): nat {
    if a < 0 then -a else a
  }

  lemma {:induction false} FactorBelow(x: int, y: int, b: int)
    requires b > 0 && x * b < y * b
    ensures x < y
  {
    assert (x - y) * b < 0;
  }

  lemma {:induction false} Quotient(a: int, b: int, q: int)
    requires b > 0 && q == a / b
    ensures q * b <= a < (q + 1) * b
  {
    assert a == b * q + a % b;
  }

  /** The quotient of a division lies between the same integers as the exact one. */
  lemma {:induction false} QuotientBetween(a: int, b: int, lo: int, hi: int)
    requires b > 0 && lo * b <= a < (hi + 1) * b
    ensures lo <= a / b <= hi
  {
    var q := a / b;
    Quotient(a, b, q);
    FactorBelow(q, hi + 1, b);
    FactorBelow(lo, q + 1, b);
  }

  /** And so does the quotient that is rounded towards zero. */
  lemma {:induction false} DivBetween(a: int, b: int, lo: int, hi: int)
    requires b > 0 && lo * b <= a <= hi * b
    ensures lo <= Div(a, b) <= hi
  {
    if a >= 0 {
      assert hi * b < (hi + 1) * b;
      QuotientBetween(a, b, lo, hi);
    } else {
      assert -hi * b <= -a <= -lo * b;
      assert -lo * b < (-lo + 1) * b;
      QuotientBetween(-a, b, -hi, -lo);
    }
  }

  lemma {:induction false} DivSigned(a: int, b: int)
    requires b > 0
    ensures Div(a, b) == if a >= 0 then Abs(a) / b else -(Abs(a) / b)
  {
  }

  /** The quotient is the exact one without its fraction. */
  lemma {:induction false} DivRounds(a: int, b: int)
    requires b > 0
    ensures var q := Div(a, b);
            Abs(q) * b <= Abs(a) < (Abs(q) + 1) * b && (q > 0 ==> a > 0) && (q < 0 ==> a < 0)
  {
    var q := Abs(a) / b;
    DivSigned(a, b);
    Quotient(Abs(a), b, q);
    QuotientOfNat(Abs(a), b);
  }

  lemma {:induction false} DivExact(a: int, b: int)
    requires b > 0
    ensures Div(a * b, b) == a
  {
    DivBetween(a * b, b, a, a);
  }

  lemma {:induction false} QuotientGrows(a: nat, b: nat, c: int)
    requires a <= b && c > 0
    ensures a / c <= b / c
  {
    var q, r := a / c, b / c;
    Quotient(a, c, q);
    Quotient(b, c, r);
    FactorBelow(q, r + 1, c);
  }

  lemma {:induction false} QuotientOfNat(a: nat, c: int)
    requires c > 0
    ensures a / c >= 0
  {
    var q := a / c;
    Quotient(a, c, q);
    FactorBelow(-1, q, c);
  }

  /** Division by a positive number never turns an order round. */
  lemma {:induction false} DivGrows(a: int, b: int, c: int)
    requires a <= b && c > 0
    ensures Div(a, c) <= Div(b, c)
  {
    if a >= 0 {
      assert Div(a, c) == a / c && Div(b, c) == b / c;
      QuotientGrows(a, b, c);
    } else if b < 0 {
      assert Div(a, c) == -(-a / c) && Div(b, c) == -(-b / c);
      QuotientGrows(-b, -a, c);
    } else {
      assert Div(a, c) == -(-a / c) && Div(b, c) == b / c;
      QuotientOfNat(-a, c);
      QuotientOfNat(b, c);
    }
  }
}
