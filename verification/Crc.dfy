/**
  The cyclic redundancy check of the Modbus frames (MODBUS over Serial Line Specification
  and Implementation Guide V1.02, section 6.2.2), and the errors it is sure to detect.
 */
module Crc {
  import opened CMath

  type Frame = seq<bv8>

  function Xor(x: bv16, y: bv16): bv16 {
    x ^ y
  }

  function Half(x: bv16): bv16 {
    x >> 1
  }

  predicate LowBit(x: bv16) {
    x & 1 == 1
  }

  /** One bit of the check. */
  function Shift(x: bv16): bv16 {
    if LowBit(x) then Xor(Half(x), 0xA001) else Half(x)
  }

  function Shifts(x: bv16, n: nat): bv16 {
    if n == 0 then x else Shift(Shifts(x, n - 1))
  }

  function Shift4(x: bv16): bv16 {
    Shift(Shift(Shift(Shift(x))))
  }

  function Step(c: bv16, b: bv8): bv16 {
    Shift4(Shift4(Xor(c, b as bv16)))
  }

  /** The check of the first n bytes, started at c. */
  function From(c: bv16, data: Frame, n: nat): bv16
    requires n <= |data|
  {
    if n == 0 then c else Step(From(c, data, n - 1), data[n - 1])
  }

  function Check(data: Frame): bv16 {
    From(0xFFFF, data, |data|)
  }

  /** crc_chk_value; its length is a byte. */
  method CrcChkValue(data: array<bv8>, length: nat) returns (crc: bv16)
    requires length <= 255 && length <= data.Length
    ensures crc == Check(data[..length])
  {
    hide Step;
    crc := 0xFFFF;
    var k := 0;
    while k < length
      invariant k <= length && crc == From(0xFFFF, data[..length], k)
    {
      ghost var start := crc;
      crc := crc ^ (data[k] as bv16);
      ghost var x := crc;
      var i := 0;
      while i < 8
        invariant i <= 8 && crc == Shifts(x, i)
      {
        if crc & 1 == 1 {
          crc := (crc >> 1) ^ 0xA001;
        } else {
          crc := crc >> 1;
        }
        i := i + 1;
      }
      EightShifts(start, data[k]);
      k := k + 1;
    }
  }

  lemma {:induction false} FourShifts(x: bv16, n: nat)
    ensures Shifts(x, n + 4) == Shift4(Shifts(x, n))
  {
    hide Shift;
    assert Shifts(x, n + 2) == Shift(Shifts(x, n + 1));
  }

  lemma {:induction false} EightShifts(c: bv16, b: bv8)
    ensures Shifts(Xor(c, b as bv16), 8) == Step(c, b)
  {
    var x := Xor(c, b as bv16);
    FourShifts(x, 0);
    FourShifts(x, 4);
  }

  /** The example of the Modbus serial line guide: the check of the bytes 2 and 7 is 0x1241. */
  lemma {:induction false} CheckOfExample()
    ensures Check([0x02, 0x07]) == 0x1241
    ensures Check([]) == 0xFFFF
  {
    var data: Frame := [0x02, 0x07];
    assert From(0xFFFF, data, 1) == Step(From(0xFFFF, data, 0), 0x02);
    assert From(0xFFFF, data, 2) == Step(From(0xFFFF, data, 1), 0x07);
    ExampleSteps();
  }

  lemma {:induction false} ExampleSteps()
    ensures Step(0xFFFF, 0x02) == 0x813E && Step(0x813E, 0x07) == 0x1241
  {
  }

  // ------------------------------------------------------------- the frame's own check

  function Low(c: bv16): bv8 {
    (c & 0xFF) as bv8
  }

  function High(c: bv16): bv8 {
    (c >> 8) as bv8
  }

  /** The check of two bytes moves into the low byte just when the low bytes cancel. */
  lemma {:induction false} LowByteLeaves(z: bv16)
    ensures Shift4(Shift4(z)) & 0xFF00 == 0 <==> z & 0xFF == 0
    ensures z & 0xFF == 0 ==> Shift4(Shift4(z)) == z >> 8
    ensures Shift4(Shift4(z)) == 0 <==> z == 0
  {
  }

  lemma {:induction false} Cancels(c: bv16, x: bv8, w: bv16, y: bv8)
    ensures (c ^ (x as bv16)) & 0xFF == 0 <==> x == Low(c)
    ensures x == Low(c) ==> (c ^ (x as bv16)) >> 8 == High(c) as bv16
    ensures w ^ (y as bv16) == 0 <==> w == y as bv16
    ensures (y as bv16) & 0xFF00 == 0
  {
  }

  lemma {:induction false} OwnCheck(c: bv16, x: bv8, y: bv8)
    ensures Step(Step(c, x), y) == 0 <==> x == Low(c) && y == High(c)
  {
    hide Shift4, Low, High;
    var z := Xor(c, x as bv16);
    var w := Step(c, x);
    LowByteLeaves(z);
    LowByteLeaves(Xor(w, y as bv16));
    Cancels(c, x, w, y);
    if x == Low(c) {
      assert w == High(c) as bv16;
      SameByte(High(c), y);
    }
  }

  lemma {:induction false} SameByte(x: bv8, y: bv8)
    ensures x as bv16 == y as bv16 <==> x == y
  {
  }

  lemma {:induction false} FromPrefix(c: bv16, data: Frame, more: Frame, n: nat)
    requires n <= |data|
    ensures From(c, data + more, n) == From(c, data, n)
  {
    hide Step;
    if n > 0 {
      FromPrefix(c, data, more, n - 1);
    }
  }

  /** A frame and two bytes check to zero just when the bytes are the frame's check, low byte
      first. */
  lemma {:induction false} SealedChecksToZero(data: Frame, x: bv8, y: bv8)
    ensures Check(data + [x, y]) == 0 <==> x == Low(Check(data)) && y == High(Check(data))
  {
    hide Step;
    var n := |data|;
    var whole := data + [x, y];
    FromPrefix(0xFFFF, data, [x, y], n);
    assert From(0xFFFF, whole, n + 1) == Step(From(0xFFFF, whole, n), x);
    assert Check(whole) == Step(From(0xFFFF, whole, n + 1), y);
    OwnCheck(Check(data), x, y);
  }

  /** What the frame builders do: the check is copied behind the frame, low byte first. */
  method Seal(buf: array<bv8>, n: nat)
    requires n <= 253 && n + 2 <= buf.Length
    modifies buf
    ensures Check(buf[..n + 2]) == 0
    ensures forall i :: 0 <= i < buf.Length && i != n && i != n + 1 ==> buf[i] == old(buf[i])
  {
    hide Check, Low, High;
    var check := CrcChkValue(buf, n);
    ghost var data := buf[..n];
    buf[n] := Low(check);
    buf[n + 1] := High(check);
    assert buf[..n + 2] == data + [Low(check), High(check)];
    SealedChecksToZero(data, Low(check), High(check));
  }

  // ------------------------------------------------------------- errors

  /** The frame with the bits of the error inverted. */
  function Disturbed(data: Frame, error: Frame, n: nat): (r: Frame)
    requires n <= |data| && n <= |error|
    ensures |r| == n && forall i :: 0 <= i < n ==> r[i] == XorByte(data[i], error[i])
  {
    if n == 0 then [] else Disturbed(data, error, n - 1) + [XorByte(data[n - 1], error[n - 1])]
  }

  lemma {:induction false} XorBits(x: bv16, y: bv16)
    ensures Half(Xor(x, y)) == Xor(Half(x), Half(y))
    ensures LowBit(Xor(x, y)) <==> LowBit(x) != LowBit(y)
  {
  }

  lemma {:induction false} XorAssoc(a: bv16, b: bv16, c: bv16)
    ensures Xor(Xor(a, b), c) == Xor(a, Xor(b, c))
  {
  }

  lemma {:induction false} XorComm(a: bv16, b: bv16)
    ensures Xor(a, b) == Xor(b, a)
  {
  }

  lemma {:induction false} XorSwap(a: bv16, b: bv16, c: bv16, d: bv16)
    ensures Xor(Xor(a, b), Xor(c, d)) == Xor(Xor(a, c), Xor(b, d))
  {
    hide Xor;
    XorAssoc(a, b, Xor(c, d));
    XorAssoc(b, c, d);
    XorComm(b, c);
    XorAssoc(c, b, d);
    XorAssoc(a, c, Xor(b, d));
  }

  lemma {:induction false} XorZero(a: bv16)
    ensures Xor(a, 0) == a == Xor(0, a) && Xor(a, a) == 0
  {
  }

  lemma {:induction false} ShiftIsLinear(x: bv16, y: bv16)
    ensures Shift(Xor(x, y)) == Xor(Shift(x), Shift(y))
  {
    hide Xor, Half, LowBit;
    XorBits(x, y);
    var p, q := if LowBit(x) then 0xA001 else 0, if LowBit(y) then 0xA001 else 0;
    XorSwap(Half(x), Half(y), p, q);
    XorZero(Half(x));
    XorZero(Half(y));
    XorZero(Half(Xor(x, y)));
    XorZero(0xA001);
    XorZero(0);
  }

  lemma {:induction false} Shift4IsLinear(x: bv16, y: bv16)
    ensures Shift4(Xor(x, y)) == Xor(Shift4(x), Shift4(y))
  {
    hide Shift, Xor;
    ShiftIsLinear(x, y);
    ShiftIsLinear(Shift(x), Shift(y));
    ShiftIsLinear(Shift(Shift(x)), Shift(Shift(y)));
    ShiftIsLinear(Shift(Shift(Shift(x))), Shift(Shift(Shift(y))));
  }

  lemma {:induction false} ByteXor(a: bv8, b: bv8)
    ensures XorByte(a, b) as bv16 == Xor(a as bv16, b as bv16)
  {
  }

  lemma {:induction false} StepIsLinear(c: bv16, d: bv16, a: bv8, b: bv8)
    ensures Step(Xor(c, d), XorByte(a, b)) == Xor(Step(c, a), Step(d, b))
  {
    hide Shift4, Xor, XorByte;
    ByteXor(a, b);
    var x, y := Xor(c, a as bv16), Xor(d, b as bv16);
    XorSwap(c, d, a as bv16, b as bv16);
    Shift4IsLinear(x, y);
    Shift4IsLinear(Shift4(x), Shift4(y));
  }

  /** The check of the disturbed frame differs from that of the frame by the error's own. */
  lemma {:induction false} FromIsLinear(c: bv16, d: bv16, data: Frame, error: Frame, n: nat)
    requires n <= |data| == |error|
    ensures From(Xor(c, d), Disturbed(data, error, |data|), n) == Xor(From(c, data, n), From(d, error, n))
  {
    hide Step, Xor, XorByte;
    if n > 0 {
      FromIsLinear(c, d, data, error, n - 1);
      var x, y := From(c, data, n - 1), From(d, error, n - 1);
      StepIsLinear(x, y, data[n - 1], error[n - 1]);
    }
  }

  lemma {:induction false} XorIsDifference(x: bv16, y: bv16)
    ensures Xor(x, y) == x <==> y == 0
  {
  }

  /** An error is detected just when its own check, started at zero, is not zero. */
  lemma {:induction false} DetectedExactly(data: Frame, error: Frame)
    requires |data| == |error|
    ensures Check(Disturbed(data, error, |data|)) != Check(data) <==> From(0, error, |error|) != 0
  {
    hide Step, Xor, XorByte;
    FromIsLinear(0xFFFF, 0, data, error, |data|);
    XorZero(0xFFFF);
    XorIsDifference(Check(data), From(0, error, |error|));
  }

  lemma {:induction false} StepKeepsNonzero(c: bv16)
    ensures Step(c, 0) == 0 <==> c == 0
  {
  }

  /** Undisturbed bytes never hide a difference. */
  lemma {:induction false} ZerosKeepNonzero(c: bv16, error: Frame, m: nat, n: nat)
    requires m <= n <= |error| && forall i :: m <= i < n ==> error[i] == 0
    ensures From(c, error, n) == 0 <==> From(c, error, m) == 0
  {
    hide Step;
    if m < n {
      ZerosKeepNonzero(c, error, m, n - 1);
      StepKeepsNonzero(From(c, error, n - 1));
    }
  }

  /** Byte j of a burst of up to 16 bits that begins at bit k of its first byte. */
  function BurstByte(burst: bv16, k: bv24, j: nat): bv8
    requires k < 8 && j < 3
  {
    var bits := (burst as bv24) << k;
    if j == 0 then (bits & 0xFF) as bv8
    else if j == 1 then ((bits >> 8) & 0xFF) as bv8
    else ((bits >> 16) & 0xFF) as bv8
  }

  lemma {:induction false} BurstIsNonzero(burst: bv16, k: bv24)
    requires k < 8 && burst != 0
    ensures Step(Step(Step(0, BurstByte(burst, k, 0)), BurstByte(burst, k, 1)), BurstByte(burst, k, 2)) != 0
  {
  }

  /** A burst of up to 16 bits that begins in byte i. */
  ghost predicate IsBurst(error: Frame, i: nat, k: bv24, burst: bv16)
    requires k < 8
  {
    && burst != 0
    && (forall p :: 0 <= p < |error| && !(i <= p < i + 3) ==> error[p] == 0)
    && (forall j :: 0 <= j < 3 ==> BurstByte(burst, k, j) == if i + j < |error| then error[i + j] else 0)
  }

  /** The check with zeros for the bytes past the end. */
  function FromPadded(c: bv16, error: Frame, n: nat): bv16 {
    if n <= |error| then From(c, error, n) else Step(FromPadded(c, error, n - 1), 0)
  }

  lemma {:induction false} PaddingKeepsNonzero(error: Frame, n: nat)
    requires n >= |error|
    ensures FromPadded(0, error, n) == 0 <==> From(0, error, |error|) == 0
  {
    hide Step;
    if n > |error| {
      PaddingKeepsNonzero(error, n - 1);
      StepKeepsNonzero(FromPadded(0, error, n - 1));
    }
  }

  lemma {:induction false} BurstAtByte(error: Frame, i: nat, k: bv24, burst: bv16)
    requires k < 8 && IsBurst(error, i, k, burst)
    ensures FromPadded(0, error, i + 3) != 0
  {
    hide Step, BurstByte;
    var b0, b1, b2 := BurstByte(burst, k, 0), BurstByte(burst, k, 1), BurstByte(burst, k, 2);
    assert FromPadded(0, error, i) == 0 by {
      QuietStart(error, i);
    }
    PaddedStep(error, i, b0);
    PaddedStep(error, i + 1, b1);
    PaddedStep(error, i + 2, b2);
    BurstIsNonzero(burst, k);
  }

  lemma {:induction false} PaddedStep(error: Frame, n: nat, b: bv8)
    requires b == if n < |error| then error[n] else 0
    ensures FromPadded(0, error, n + 1) == Step(FromPadded(0, error, n), b)
  {
    hide Step;
  }

  lemma {:induction false} QuietStart(error: Frame, n: nat)
    requires forall p :: 0 <= p < |error| && p < n ==> error[p] == 0
    ensures FromPadded(0, error, n) == 0
  {
    hide Step;
    if n > 0 {
      QuietStart(error, n - 1);
      PaddedStep(error, n - 1, 0);
      StepKeepsNonzero(0);
    }
  }

  lemma {:induction false} AfterBurst(error: Frame, i: nat, k: bv24, burst: bv16)
    requires k < 8 && IsBurst(error, i, k, burst)
    ensures forall p :: i + 3 <= p < |error| ==> error[p] == 0
  {
  }

  /** Any burst of up to 16 bits, wherever it begins, changes the check; one changed byte is
      such a burst, and so are two adjacent ones. */
  lemma {:induction false} BurstsAreDetected(data: Frame, error: Frame, i: nat, k: bv24, burst: bv16)
    requires |data| == |error| && k < 8 && IsBurst(error, i, k, burst)
    ensures Check(Disturbed(data, error, |data|)) != Check(data)
  {
    hide Step, BurstByte, IsBurst;
    BurstAtByte(error, i, k, burst);
    if i + 3 >= |error| {
      PaddingKeepsNonzero(error, i + 3);
    } else {
      AfterBurst(error, i, k, burst);
      ZerosKeepNonzero(0, error, i + 3, |error|);
    }
    DetectedExactly(data, error);
  }

  function Pair(x: bv8, y: bv8): bv16 {
    (x as bv16) | ((y as bv16) << 8)
  }

  /** Frames of the same length that differ in exactly one byte, or in two adjacent ones, have
      different checks. */
  lemma {:induction false} AdjacentBytesAreDetected(a: Frame, b: Frame, i: nat)
    requires |a| == |b| && a != b && i < |a|
    requires forall p :: 0 <= p < |a| && p != i && p != i + 1 ==> a[p] == b[p]
    ensures Check(a) != Check(b)
  {
    hide Step, BurstByte, XorByte, Pair;
    var error := Disturbed(a, b, |a|);
    forall p | 0 <= p < |a| ensures XorByte(a[p], error[p]) == b[p] && (a[p] == b[p] <==> error[p] == 0) {
      XorTwice(a[p], b[p]);
    }
    assert Disturbed(a, error, |a|) == b;
    var e1 := if i + 1 < |a| then error[i + 1] else 0;
    var burst := Pair(error[i], e1);
    BytesOfBurst(error[i], e1);
    var p :| 0 <= p < |a| && a[p] != b[p];
    assert error[p] != 0 && (p == i || p == i + 1);
    BurstsAreDetected(a, error, i, 0, burst);
  }

  lemma {:induction false} XorTwice(a: bv8, b: bv8)
    ensures XorByte(a, XorByte(a, b)) == b && (a == b <==> XorByte(a, b) == 0)
  {
  }

  lemma {:induction false} BytesOfBurst(x: bv8, y: bv8)
    ensures var burst := Pair(x, y);
            && BurstByte(burst, 0, 0) == x && BurstByte(burst, 0, 1) == y && BurstByte(burst, 0, 2) == 0
            && (burst == 0 <==> x == 0 && y == 0)
  {
  }

  // ------------------------------------------------------------- parity

  function Fold8(x: bv16): bv16 {
    Xor(x, x >> 8)
  }

  function Fold4(x: bv16): bv16 {
    Xor(x, x >> 4)
  }

  function Fold2(x: bv16): bv16 {
    Xor(x, x >> 2)
  }

  function Fold1(x: bv16): bv16 {
    Xor(x, Half(x))
  }

  /** Whether the number of set bits is odd: the halves are folded onto each other. */
  predicate Odd16(x: bv16) {
    LowBit(Fold1(Fold2(Fold4(Fold8(x)))))
  }

  predicate OddBits(data: Frame, n: nat)
    requires n <= |data|
  {
    n > 0 && OddBits(data, n - 1) != Odd16(data[n - 1] as bv16)
  }

  lemma {:induction false} MoveTogether8(x: bv16, y: bv16)
    ensures (x ^ y) >> 8 == (x >> 8) ^ (y >> 8)
  {
  }

  lemma {:induction false} XorMoves8(x: bv16, y: bv16)
    ensures Xor(x, y) >> 8 == Xor(x >> 8, y >> 8)
  {
    MoveTogether8(x, y);
  }

  lemma {:induction false} MoveTogether4(x: bv16, y: bv16)
    ensures (x ^ y) >> 4 == (x >> 4) ^ (y >> 4)
  {
  }

  lemma {:induction false} XorMoves4(x: bv16, y: bv16)
    ensures Xor(x, y) >> 4 == Xor(x >> 4, y >> 4)
  {
    MoveTogether4(x, y);
  }

  lemma {:induction false} MoveTogether2(x: bv16, y: bv16)
    ensures (x ^ y) >> 2 == (x >> 2) ^ (y >> 2)
  {
  }

  lemma {:induction false} XorMoves2(x: bv16, y: bv16)
    ensures Xor(x, y) >> 2 == Xor(x >> 2, y >> 2)
  {
    MoveTogether2(x, y);
  }

  lemma {:induction false} FoldsAreLinear(x: bv16, y: bv16)
    ensures Fold8(Xor(x, y)) == Xor(Fold8(x), Fold8(y)) && Fold4(Xor(x, y)) == Xor(Fold4(x), Fold4(y))
    ensures Fold2(Xor(x, y)) == Xor(Fold2(x), Fold2(y)) && Fold1(Xor(x, y)) == Xor(Fold1(x), Fold1(y))
  {
    hide Xor, Half;
    XorMoves8(x, y);
    XorMoves4(x, y);
    XorMoves2(x, y);
    XorBits(x, y);
    XorSwap(x, y, x >> 8, y >> 8);
    XorSwap(x, y, x >> 4, y >> 4);
    XorSwap(x, y, x >> 2, y >> 2);
    XorSwap(x, y, Half(x), Half(y));
  }

  lemma {:induction false} XorParity(x: bv16, y: bv16)
    ensures Odd16(Xor(x, y)) <==> Odd16(x) != Odd16(y)
  {
    hide Fold8, Fold4, Fold2, Fold1, Xor, LowBit;
    FoldsAreLinear(x, y);
    FoldsAreLinear(Fold8(x), Fold8(y));
    FoldsAreLinear(Fold4(Fold8(x)), Fold4(Fold8(y)));
    FoldsAreLinear(Fold2(Fold4(Fold8(x))), Fold2(Fold4(Fold8(y))));
    XorBits(Fold1(Fold2(Fold4(Fold8(x)))), Fold1(Fold2(Fold4(Fold8(y)))));
  }

  /** Moving bits does not change their number. */
  lemma {:induction false} MovedByte(x: bv16)
    ensures Odd16(Half(x & 0x00FE)) == Odd16(x & 0x00FE)
    ensures Odd16(Half(x & 0xFF00)) == Odd16(x & 0xFF00)
    ensures Odd16(x & 1) <==> LowBit(x)
  {
  }

  lemma {:induction false} SplitBits(x: bv16)
    ensures x == Xor(Xor(x & 0xFF00, x & 0x00FE), x & 1)
    ensures Half(x) == Xor(Half(x & 0xFF00), Half(x & 0x00FE))
  {
  }

  lemma {:induction false} PolynomialIsOdd()
    ensures Odd16(0xA001) && !Odd16(0xFFFF)
  {
  }

  lemma {:induction false} ShiftKeepsParity(x: bv16)
    ensures Odd16(Shift(x)) == Odd16(x)
  {
    hide Odd16, Xor, Half, LowBit;
    var high, low := x & 0xFF00, x & 0x00FE;
    PolynomialIsOdd();
    SplitBits(x);
    MovedByte(x);
    XorParity(high, low);
    XorParity(Xor(high, low), x & 1);
    XorParity(Half(high), Half(low));
    XorParity(Half(x), 0xA001);
  }

  lemma {:induction false} StepParity(c: bv16, b: bv8)
    ensures Odd16(Step(c, b)) <==> Odd16(c) != Odd16(b as bv16)
  {
    hide Shift4, Odd16, Xor;
    var x := Xor(c, b as bv16);
    XorParity(c, b as bv16);
    Shift4KeepsParity(x);
    Shift4KeepsParity(Shift4(x));
  }

  lemma {:induction false} Shift4KeepsParity(x: bv16)
    ensures Odd16(Shift4(x)) == Odd16(x)
  {
    hide Shift, Odd16;
    ShiftKeepsParity(x);
    ShiftKeepsParity(Shift(x));
    ShiftKeepsParity(Shift(Shift(x)));
    ShiftKeepsParity(Shift(Shift(Shift(x))));
  }

  /** The check of a frame has an odd number of set bits just when the frame has. */
  lemma {:induction false} CheckParity(data: Frame, n: nat)
    requires n <= |data|
    ensures Odd16(From(0xFFFF, data, n)) <==> OddBits(data, n)
  {
    hide Step, Odd16;
    if n == 0 {
      PolynomialIsOdd();
    } else {
      CheckParity(data, n - 1);
      StepParity(From(0xFFFF, data, n - 1), data[n - 1]);
    }
  }

  /** So an odd number of wrong bits is always detected. */
  lemma {:induction false} OddErrorsAreDetected(a: Frame, b: Frame)
    requires OddBits(a, |a|) != OddBits(b, |b|)
    ensures Check(a) != Check(b)
  {
    hide OddBits, Odd16, From;
    CheckParity(a, |a|);
    CheckParity(b, |b|);
  }
}
