/**
  The integer PID controllers for temperature and humidity: anti-windup, the range of the
  derivative filter and its product, and the range of the output.
 */
module Pid {
  import opened CMath

  /** The parameters of a call: P is ten times its register, I and D a tenth of theirs. */
  datatype Gains = Gains(p: int, i: int, d: int)

  /** What a controller keeps between calls: the integral sum, and the last vn and wn. */
  datatype State = State(sum: int, vn: int, wn: int)

  const START := State(0, 0, 0)

  function Clamp(x: int, lo: int, hi: int): (r: int)
    ensures lo <= hi ==> lo <= r <= hi
  {
    if x < lo then lo else if x > hi then hi else x
  }

  predicate InBand(en: int, g: Gains) {
    Abs(en) <= Div(g.p, 2)
  }

  /** The proportional part. */
  function Xp(en: int, g: Gains): int {
    Clamp(if g.p <= 0 then 0
          else if InBand(en, g) then Div(10000 * en, g.p) + 5000
          else if en > 0 then 10000 else 0, 0, 10000)
  }

  /** The integral sum with the new difference; it is dropped outside the band. */
  function Summed(sum: int, en: int, g: Gains): int {
    if g.i > 0 && InBand(en, g) then sum + en else 0
  }

  /** The integral part. */
  function Xi(sum: int, en: int, g: Gains): int {
    Clamp(if g.i > 0 && InBand(en, g) then Div(50 * Summed(sum, en, g), g.i) else 0, -10000, 10000)
  }

  /** Anti-windup: out of range, the new difference is taken back. */
  function Unwound(sum: int, en: int, g: Gains): int {
    var vn := Xp(en, g) + Xi(sum, en, g);
    if vn > 15000 || vn < -5000 then Summed(sum, en, g) - en else Summed(sum, en, g)
  }

  /** The derivative part. */
  function Xd(vn: int, last: int, en: int, g: Gains): int {
    if g.d > 0 && InBand(en, g) then 2 * g.d * (vn - last) else 0
  }

  function Next(s: State, en: int, g: Gains): State {
    var vn := Xp(en, g) + Xi(s.sum, en, g);
    State(Unwound(s.sum, en, g), vn, vn + Xd(vn, s.vn, en, g))
  }

  /** The divisor of the derivative filter. */
  function Divisor(g: Gains): int {
    1 + Div(g.d * 100, 500)
  }

  /** The filtered value, between 0 and 10000. */
  function Filtered(s: State, en: int, g: Gains): int
    requires Divisor(g) != 0
  {
    Clamp(Div(Next(s, en, g).wn + Div(g.d * 100 * s.wn, 500), Divisor(g)), 0, 10000)
  }

  /** The last two limits, in the order in which they are applied. */
  function Limited(x: int, lo: int, hi: int): (r: int)
    ensures lo <= hi ==> r == Clamp(x, lo, hi)
    ensures lo > hi ==> r == lo
  {
    var r := if x > hi then hi else x;
    if r < lo then lo else r
  }

  /** The filter divides by zero for these values of D and no others. */
  lemma {:induction false} DividesByZero(g: Gains)
    ensures Divisor(g) == 0 <==> -9 <= g.d <= -5
  {
  }

  // ------------------------------------------------------------- the controller

  class Controller {
    var sum: int
    var vn: int
    var wn: int

    ghost function Value(): State
      reads this
    {
      State(sum, vn, wn)
    }

    constructor ()
      ensures Value() == START
    {
      sum, vn, wn := 0, 0, 0;
    }

    /** What pid_calc1 and pid_calc2 share: one sample, up to the value between 0 and 10000. */
    method Sample(pv: int, sp: int, g: Gains) returns (pidv: int)
      requires Divisor(g) != 0
      modifies this
      ensures Value() == Next(old(Value()), sp - pv, g)
      ensures pidv == Filtered(old(Value()), sp - pv, g)
    {
      hide Div;
      var en := sp - pv;
      var half := Div(g.p, 2);
      var xp := 0;
      if g.p > 0 {
        if Abs(en) <= half {
          xp := Div(10000 * en, g.p) + 5000;
        } else if sp > pv {
          xp := 10000;
        }
      }
      if xp < 0 {
        xp := 0;
      }
      if xp > 10000 {
        xp := 10000;
      }
      var xi := 0;
      if g.i > 0 && Abs(en) <= half {
        sum := sum + en;
        xi := Div(50 * sum, g.i);
      } else {
        sum := 0;
      }
      if xi < -10000 {
        xi := -10000;
      }
      if xi > 10000 {
        xi := 10000;
      }
      var v := xp + xi;
      if v > 15000 || v < -5000 {
        sum := sum - en;
      }
      var xd := 0;
      if g.d > 0 && Abs(en) <= half {
        xd := 2 * g.d * (v - vn);
      }
      var w := v + xd;
      var iv := w + Div(g.d * 100 * wn, 500);
      var jv := 1 + Div(g.d * 100, 500);
      var yn := Div(iv, jv);
      vn, wn := v, w;
      if yn > 10000 {
        pidv := 10000;
      } else if yn < 0 {
        pidv := 0;
      } else {
        pidv := yn;
      }
    }

    /** pid_calc1: the temperature output, limited by the registers OHI and OLO. */
    method CalcTemperature(pv: int, sp: int, g: Gains, ohi: int, olo: int) returns (pidv: int)
      requires Divisor(g) != 0
      modifies this
      ensures Value() == Next(old(Value()), sp - pv, g)
      ensures pidv == Limited(Filtered(old(Value()), sp - pv, g), olo * 100, ohi * 100)
      ensures olo * 100 <= pidv <= ohi * 100 <==> olo <= ohi
    {
      pidv := Sample(pv, sp, g);
      if pidv > ohi * 100 {
        pidv := ohi * 100;
      }
      if pidv < olo * 100 {
        pidv := olo * 100;
      }
    }

    /** pid_calc2: the humidity output, which is centred at zero before the limits. */
    method CalcHumidity(pv: int, sp: int, g: Gains, ohi: int, olo: int) returns (pidv: int)
      requires Divisor(g) != 0
      modifies this
      ensures Value() == Next(old(Value()), sp - pv, g)
      ensures pidv == Limited((Filtered(old(Value()), sp - pv, g) - 5000) * 2, olo * 100, ohi * 100)
      ensures olo * 100 <= pidv <= ohi * 100 <==> olo <= ohi
    {
      pidv := Sample(pv, sp, g);
      pidv := (pidv - 5000) * 2;
      if pidv > ohi * 100 {
        pidv := ohi * 100;
      }
      if pidv < olo * 100 {
        pidv := olo * 100;
      }
    }
  }

  // ------------------------------------------------------------- runs

  datatype Call = Call(en: int, g: Gains)

  /** The state after the first n calls, from the start. */
  function Run(calls: seq<Call>, n: nat): State
    requires n <= |calls|
  {
    if n == 0 then START else Next(Run(calls, n - 1), calls[n - 1].en, calls[n - 1].g)
  }

  /** C's division compares like the exact quotient, for a positive divisor. */
  lemma {:induction false} DivBounds(a: int, b: int)
    requires b > 0
    ensures a >= b ==> Div(a, b) >= 1
    ensures a <= -b ==> Div(a, b) <= -1
    ensures -b < a < b ==> Div(a, b) == 0
  {
    DivSigned(a, b);
    DivAtLeast(Abs(a), b, 1);
    QuotientOfNat(Abs(a), b);
  }

  lemma {:induction false} DivAtLeast(a: nat, b: int, k: nat)
    requires b > 0
    ensures a / b >= k <==> a >= k * b
  {
    var q := a / b;
    Quotient(a, b, q);
    if a >= k * b {
      FactorBelow(k, q + 1, b);
    } else {
      FactorBelow(q, k, b);
    }
  }

  lemma {:induction false} DivSaturates(sum: int, i: int)
    requires i > 0
    ensures sum >= 200 * i ==> Div(50 * sum, i) >= 10000
    ensures sum <= -200 * i ==> Div(50 * sum, i) <= -10000
  {
    DivSigned(50 * sum, i);
    DivAtLeast(Abs(50 * sum), i, 10000);
  }

  /** One call keeps the sum strictly within 200 times I. */
  lemma {:induction false} SumStaysBounded(sum: int, en: int, g: Gains)
    requires g.i >= 1 && g.p <= 10000 && -200 * g.i < sum < 200 * g.i
    ensures -200 * g.i < Unwound(sum, en, g) < 200 * g.i
  {
    if InBand(en, g) {
      hide Div, InBand;
      DivSaturates(sum + en, g.i);
      if en != 0 {
        BandIsOpen(en, g);
        DivBounds(10000 * en, g.p);
      }
    }
  }

  lemma {:induction false} BandIsOpen(en: int, g: Gains)
    requires InBand(en, g) && en != 0
    ensures g.p > 0
  {
  }

  ghost predicate SameI(calls: seq<Call>, i: int) {
    forall k :: 0 <= k < |calls| ==> calls[k].g.i == i
  }

  lemma {:induction false} RunStaysBounded(calls: seq<Call>, i: int, n: nat)
    requires i >= 1 && SameI(calls, i) && n <= |calls|
    requires forall k :: 0 <= k < |calls| ==> calls[k].g.p <= 10000
    ensures -200 * i < Run(calls, n).sum < 200 * i
  {
    hide Unwound;
    if n > 0 {
      RunStaysBounded(calls, i, n - 1);
      SumStaysBounded(Run(calls, n - 1).sum, calls[n - 1].en, calls[n - 1].g);
    }
  }

  /** With a wider band a difference of one is too small for the proportional part, and the
      sum grows without a limit. */
  lemma {:induction false} RunWindsUp(p: int, i: int, d: int, calls: seq<Call>, n: nat)
    requires p > 10000 && i >= 1 && n <= |calls|
    requires forall k :: 0 <= k < |calls| ==> calls[k] == Call(1, Gains(p, i, d))
    ensures Run(calls, n).sum == n
  {
    if n > 0 {
      RunWindsUp(p, i, d, calls, n - 1);
      WindsUpByOne(n - 1, Gains(p, i, d));
    }
  }

  lemma {:induction false} WindsUpByOne(sum: nat, g: Gains)
    requires g.p > 10000 && g.i >= 1
    ensures Unwound(sum, 1, g) == sum + 1
  {
    DivBounds(10000, g.p);
    assert InBand(1, g);
  }

  /** Every run with these gains keeps the sum within its bound. */
  ghost predicate NeverWindsUp(p: int, i: int) {
    forall calls: seq<Call>, n: nat :: n <= |calls| && SameI(calls, i)
      && (forall k :: 0 <= k < |calls| ==> calls[k].g.p == p)
      ==> -200 * i < Run(calls, n).sum < 200 * i
  }

  /** Anti-windup works exactly for bands of up to 10000. */
  lemma {:induction false} AntiWindup(p: int, i: int)
    requires i >= 1
    ensures NeverWindsUp(p, i) <==> p <= 10000
  {
    if p <= 10000 {
      forall calls: seq<Call>, n: nat | n <= |calls| && SameI(calls, i)
        && (forall k :: 0 <= k < |calls| ==> calls[k].g.p == p)
        ensures -200 * i < Run(calls, n).sum < 200 * i
      {
        RunStaysBounded(calls, i, n);
      }
    } else {
      var calls := seq(200 * i, _ => Call(1, Gains(p, i, 0)));
      RunWindsUp(p, i, 0, calls, |calls|);
    }
  }

  // ------------------------------------------------------------- direction

  lemma {:induction false} HalfBand(en: int, g: Gains)
    requires g.p > 0
    ensures InBand(en, g) <==> 2 * Abs(en) <= g.p
  {
  }

  /** Outside the band the controller is all on or all off, and forgets the sum. */
  lemma {:induction false} OutsideBand(s: State, en: int, g: Gains)
    requires g.p > 0 && 2 * Abs(en) > g.p
    ensures var v := if en > 0 then 10000 else 0; Next(s, en, g) == State(0, v, v)
    ensures g.d == 0 ==> Filtered(s, en, g) == if en > 0 then 10000 else 0
  {
    HalfBand(en, g);
  }

  lemma {:induction false} ProportionalGrows(en: int, more: int, g: Gains)
    requires g.p > 0 && en <= more
    ensures Xp(en, g) <= Xp(more, g)
  {
    HalfBand(en, g);
    HalfBand(more, g);
    hide Div, InBand;
    DivGrows(10000 * en, 10000 * more, g.p);
  }

  lemma {:induction false} IntegralGrows(sum: int, en: int, more: int, other: int, g: Gains)
    requires InBand(en, g) && InBand(other, g) && sum + en <= more + other
    ensures Xi(sum, en, g) <= Xi(more, other, g)
  {
    hide Div, InBand;
    if g.i > 0 {
      DivGrows(50 * (sum + en), 50 * (more + other), g.i);
    }
  }

  lemma {:induction false} WithoutD(s: State, en: int, g: Gains)
    requires g.d == 0
    ensures Divisor(g) == 1 && Next(s, en, g).wn == Next(s, en, g).vn == Xp(en, g) + Xi(s.sum, en, g)
    ensures Filtered(s, en, g) == Clamp(Next(s, en, g).vn, 0, 10000)
  {
    hide Xp, Xi;
    DivBetween(Next(s, en, g).vn, 1, Next(s, en, g).vn, Next(s, en, g).vn);
  }

  /** Without the derivative part a larger difference, and a larger sum from before, never lower
      the output, within the band and across its limits. */
  lemma {:induction false} OutputGrows(s: State, t: State, en: int, more: int, g: Gains)
    requires g.p > 0 && g.d == 0 && en <= more && s.sum <= t.sum
    ensures Filtered(s, en, g) <= Filtered(t, more, g)
  {
    WithoutD(s, en, g);
    WithoutD(t, more, g);
    ProportionalGrows(en, more, g);
    HalfBand(en, g);
    HalfBand(more, g);
    if InBand(en, g) && InBand(more, g) {
      IntegralGrows(s.sum, en, t.sum, more, g);
    } else if !InBand(en, g) {
      OutsideBand(s, en, g);
      if en > 0 {
        OutsideBand(t, more, g);
      }
    } else {
      OutsideBand(t, more, g);
    }
  }

  /** Without the integral and derivative parts, the output is 5000 and, rounded towards it,
      10000 times the part that the difference is of the band; without a difference it is 5000. */
  lemma {:induction false} OutputIsProportional(s: State, en: int, g: Gains)
    requires g.p > 0 && g.i <= 0 && g.d == 0 && 2 * Abs(en) <= g.p
    ensures var x := Filtered(s, en, g) - 5000;
            && Abs(x) * g.p <= 10000 * Abs(en) < (Abs(x) + 1) * g.p
            && (x > 0 ==> en > 0) && (x < 0 ==> en < 0) && (en == 0 ==> x == 0)
  {
    WithoutD(s, en, g);
    HalfBand(en, g);
    hide Div, InBand;
    DivRounds(10000 * en, g.p);
    DivBetween(10000 * en, g.p, -5000, 5000);
    assert Xi(s.sum, en, g) == 0;
    assert Xp(en, g) == 5000 + Div(10000 * en, g.p);
  }

  /** The derivative part pushes with the change of vn, by twice D for each unit. */
  lemma {:induction false} DerivativePushes(s: State, en: int, g: Gains)
    requires g.p > 0 && g.d > 0 && 2 * Abs(en) <= g.p
    ensures var t := Next(s, en, g); t.wn - t.vn == 2 * g.d * (t.vn - s.vn)
  {
    HalfBand(en, g);
  }

  /** A value that stays passes the filter unchanged, but for the limits. */
  lemma {:induction false} FilterIsSteady(s: State, en: int, g: Gains, k: nat)
    requires g.d == 5 * k && Next(s, en, g).wn == s.wn
    ensures Divisor(g) == 1 + k
    ensures Filtered(s, en, g) == if s.wn < 0 then 0 else if s.wn > 10000 then 10000 else s.wn
  {
    hide Next, Div;
    DivExact(k, 500);
    DivExact(k * s.wn, 500);
    DivExact(s.wn, 1 + k);
    assert g.d * 100 * s.wn == k * s.wn * 500;
    assert s.wn + k * s.wn == s.wn * (1 + k);
  }

  /** Without a band a difference turns everything off; without I as well there is no output. */
  lemma {:induction false} WithoutBand(s: State, en: int, g: Gains)
    requires g.p <= 0 && g.d == 0 && (en != 0 || g.i <= 0)
    ensures Next(s, en, g) == START && Filtered(s, en, g) == 0
  {
    WithoutD(s, en, g);
  }

  /** The differences of the calls from the k-th on whose vn is in range. */
  function Kept(calls: seq<Call>, k: nat, n: nat): int
    requires k <= n <= |calls|
  {
    if n == k then 0
    else Kept(calls, k, n - 1) + if -5000 <= Run(calls, n).vn <= 15000 then calls[n - 1].en else 0
  }

  /** With I, and as long as the difference stays in the band, the sum is that of the differences
      whose vn was in range, since the last call that was without I or outside the band. */
  lemma {:induction false} SumIsOfRecent(calls: seq<Call>, k: nat, n: nat)
    requires k <= n <= |calls|
    requires k > 0 ==> (var c := calls[k - 1]; c.g.i <= 0 || (c.g.p > 0 && 2 * Abs(c.en) > c.g.p))
    requires forall j :: k <= j < n ==>
               calls[j].g.i > 0 && calls[j].g.p > 0 && 2 * Abs(calls[j].en) <= calls[j].g.p
    ensures Run(calls, n).sum == Kept(calls, k, n)
  {
    if n == k {
      if k > 0 && calls[k - 1].g.i > 0 {
        OutsideBand(Run(calls, k - 1), calls[k - 1].en, calls[k - 1].g);
      }
    } else {
      SumIsOfRecent(calls, k, n - 1);
      HalfBand(calls[n - 1].en, calls[n - 1].g);
    }
  }

  // ------------------------------------------------------------- 32 bits

  predicate Fits32(x: int) {
    -0x8000_0000 <= x < 0x8000_0000
  }

  /** The product of the derivative filter, for every state that calls with D up to d reach. */
  ghost predicate ProductFits(d: nat) {
    forall calls: seq<Call>, n: nat :: n < |calls| && (forall k :: 0 <= k < |calls| ==> 0 <= calls[k].g.d <= d)
      ==> Fits32(calls[n].g.d * 100 * Run(calls, n).wn)
  }

  lemma {:induction false} NextRange(s: State, en: int, g: Gains, d: nat)
    requires 0 <= g.d <= d && -10000 <= s.vn <= 20000
    ensures var t := Next(s, en, g);
            -10000 <= t.vn <= 20000 && -(20000 + 60000 * d) <= t.wn <= 20000 + 60000 * d
  {
    hide Xp, Xi, Xd;
    var vn := Xp(en, g) + Xi(s.sum, en, g);
    VnRange(s.sum, en, g);
    XdRange(vn, s.vn, en, g, d);
  }

  lemma {:induction false} VnRange(sum: int, en: int, g: Gains)
    ensures -10000 <= Xp(en, g) + Xi(sum, en, g) <= 20000
  {
    hide Div, InBand;
  }

  lemma {:induction false} XdRange(vn: int, last: int, en: int, g: Gains, d: nat)
    requires 0 <= g.d <= d && -10000 <= vn <= 20000 && -10000 <= last <= 20000
    ensures -60000 * d <= Xd(vn, last, en, g) <= 60000 * d
  {
    hide InBand;
    MulBounds(g.d, d, vn - last, 30000);
    assert 2 * g.d * (vn - last) == 2 * (g.d * (vn - last));
  }

  lemma {:induction false} MulBounds(a: nat, d: nat, x: int, m: int)
    requires a <= d && -m <= x <= m
    ensures -m * d <= a * x <= m * d
  {
    assert a * (m - x) >= 0 && a * (m + x) >= 0 && (d - a) * m >= 0;
  }

  /** With D up to d, wn stays within 20000 + 60000 d on every run. */
  lemma {:induction false} RunRange(calls: seq<Call>, d: nat, n: nat)
    requires n <= |calls| && forall k :: 0 <= k < |calls| ==> 0 <= calls[k].g.d <= d
    ensures var s := Run(calls, n);
            -10000 <= s.vn <= 20000 && -(20000 + 60000 * d) <= s.wn <= 20000 + 60000 * d
  {
    hide Next;
    if n > 0 {
      RunRange(calls, d, n - 1);
      NextRange(Run(calls, n - 1), calls[n - 1].en, calls[n - 1].g, d);
    }
  }

  /** Two calls take wn to its bound. */
  lemma {:induction false} BoundIsReached(d: nat)
    requires d > 0
    ensures var g := Gains(10000, 1, d);
            Run([Call(-5000, g), Call(5000, g), Call(0, g)], 2).wn == 20000 + 60000 * d
  {
    var g := Gains(10000, 1, d);
    var calls := [Call(-5000, g), Call(5000, g), Call(0, g)];
    assert Run(calls, 1) == State(0, -10000, -10000 + Xd(-10000, 0, -5000, g));
    assert Run(calls, 2).vn == 20000;
  }

  lemma {:induction false} SmallProduct(d: int, wn: int)
    requires 0 <= d <= 18 && -1_100_000 <= wn <= 1_100_000
    ensures Fits32(d * 100 * wn)
  {
    MulBounds(d, 18, wn, 1_100_000);
    assert d * 100 * wn == 100 * (d * wn);
  }

  lemma {:induction false} LargeProduct(d: nat)
    requires d >= 19
    ensures !Fits32(d * 100 * (20000 + 60000 * d))
  {
    MulBounds(19 * 60000, 60000 * d, 100 * d, 100 * d);
    assert d * 100 * (20000 + 60000 * d) >= d * 100 * (20000 + 60000 * 19);
  }

  /** The product d * 100 * wn_1 never leaves 32 bits exactly if D is at most 18. */
  lemma {:induction false} ProductFitsExactly(d: nat)
    ensures ProductFits(d) <==> d <= 18
  {
    hide Run, Next, Fits32;
    if d <= 18 {
      forall calls: seq<Call>, n: nat | n < |calls| && (forall k :: 0 <= k < |calls| ==> 0 <= calls[k].g.d <= d)
        ensures Fits32(calls[n].g.d * 100 * Run(calls, n).wn)
      {
        RunRange(calls, 18, n);
        SmallProduct(calls[n].g.d, Run(calls, n).wn);
      }
    } else {
      var g := Gains(10000, 1, d);
      var calls := [Call(-5000, g), Call(5000, g), Call(0, g)];
      BoundIsReached(d);
      LargeProduct(d);
      assert !Fits32(calls[2].g.d * 100 * Run(calls, 2).wn);
    }
  }

  /** The results of a call's arithmetic, in the order in which they are computed, up to the
      divisor of the filter. */
  function Intermediates(s: State, pv: int, sp: int, g: Gains): seq<int> {
    var en := sp - pv;
    var sum, vn, wn := Summed(s.sum, en, g), Xp(en, g) + Xi(s.sum, en, g), Next(s, en, g).wn;
    [en, if g.p > 0 && InBand(en, g) then 10000 * en else 0, sum, 50 * sum, vn, Unwound(s.sum, en, g),
     2 * g.d, Xd(vn, s.vn, en, g), wn, g.d * 100 * s.wn, wn + Div(g.d * 100 * s.wn, 500), g.d * 100, Divisor(g)]
  }

  /** And those after it: the filtered value, both limits, and the centred value of the humidity. */
  function Results(s: State, en: int, g: Gains, ohi: int, olo: int): seq<int>
    requires Divisor(g) != 0
  {
    var y, wn := Filtered(s, en, g), Next(s, en, g).wn;
    [Div(wn + Div(g.d * 100 * s.wn, 500), Divisor(g)), y, (y - 5000) * 2, ohi * 100, olo * 100]
  }

  lemma {:induction false} SumFits(sum: int, en: int, g: Gains)
    requires 1 <= g.i <= 3276 && g.p <= 10000 && -200 * g.i < sum < 200 * g.i
    ensures Fits32(50 * Summed(sum, en, g))
    ensures InBand(en, g) ==> -5000 <= en <= 5000
  {
    if InBand(en, g) {
      DivBetween(g.p, 2, if g.p < 0 then g.p else 0, 5000);
    }
  }

  lemma {:induction false} DerivativeFits(d: int, wn: int)
    requires 0 <= d <= 18 && -1_100_000 <= wn <= 1_100_000
    ensures Fits32(d * 100 * wn) && -4_000_000 <= Div(d * 100 * wn, 500) <= 4_000_000
  {
    SmallProduct(d, wn);
    MulBounds(d, 18, wn, 1_100_000);
    assert d * 100 * wn == 100 * (d * wn);
    DivBetween(d * 100 * wn, 500, -4_000_000, 4_000_000);
  }

  lemma {:induction false} CallFits(s: State, pv: int, sp: int, g: Gains)
    requires 1 <= g.i <= 3276 && g.p <= 10000 && 0 <= g.d <= 18 && -200 * g.i < s.sum < 200 * g.i
    requires -10000 <= s.vn <= 20000 && -1_100_000 <= s.wn <= 1_100_000 && Fits16(pv) && Fits16(sp)
    ensures forall k :: 0 <= k < |Intermediates(s, pv, sp, g)| ==> Fits32(Intermediates(s, pv, sp, g)[k])
  {
    var en := sp - pv;
    var vn := Xp(en, g) + Xi(s.sum, en, g);
    SmallDivisor(g);
    hide Div, InBand, Xp, Xi, Xd, Unwound, Summed;
    SumFits(s.sum, en, g);
    SumStaysBounded(s.sum, en, g);
    VnRange(s.sum, en, g);
    XdRange(vn, s.vn, en, g, 18);
    DerivativeFits(g.d, s.wn);
  }

  lemma {:induction false} SmallDivisor(g: Gains)
    requires 0 <= g.d <= 18
    ensures 1 <= Divisor(g) <= 5
  {
    DivBetween(g.d * 100, 500, 0, 4);
  }

  lemma {:induction false} ResultsFit(s: State, en: int, g: Gains, ohi: int, olo: int)
    requires 0 <= g.d <= 18 && Divisor(g) >= 1 && Fits16(ohi) && Fits16(olo)
    requires -10000 <= s.vn <= 20000 && -1_100_000 <= s.wn <= 1_100_000
    ensures forall k :: 0 <= k < |Results(s, en, g, ohi, olo)| ==> Fits32(Results(s, en, g, ohi, olo)[k])
  {
    hide Div, Xp, Xi, Xd, Unwound, Summed, Divisor;
    NextRange(s, en, g, 18);
    DerivativeFits(g.d, s.wn);
    var iv := Next(s, en, g).wn + Div(g.d * 100 * s.wn, 500);
    assert -6_000_000 <= iv <= 6_000_000;
    QuotientShrinks(iv, Divisor(g), 6_000_000);
  }

  lemma {:induction false} QuotientShrinks(a: int, b: int, m: int)
    requires b >= 1 && m >= 0 && -m <= a <= m
    ensures -m <= Div(a, b) <= m
  {
    assert m * b >= m;
    DivBetween(a, b, -m, m);
  }

  predicate Fits16(x: int) {
    -0x8000 <= x < 0x8000
  }

  /** With the gains of both lemmas and an I that a register can hold, nothing that a call
      computes from its registers leaves 32 bits, on any run. */
  lemma {:induction false} RunFits(calls: seq<Call>, i: int, n: nat, pv: int, sp: int, ohi: int, olo: int)
    requires 1 <= i <= 3276 && SameI(calls, i) && n < |calls| && calls[n].en == sp - pv
    requires Fits16(pv) && Fits16(sp) && Fits16(ohi) && Fits16(olo)
    requires forall k :: 0 <= k < |calls| ==> calls[k].g.p <= 10000 && 0 <= calls[k].g.d <= 18
    ensures var s, g := Run(calls, n), calls[n].g;
            && Divisor(g) != 0
            && var values := Intermediates(s, pv, sp, g) + Results(s, calls[n].en, g, ohi, olo);
            forall k :: 0 <= k < |values| ==> Fits32(values[k])
  {
    hide Intermediates, Results, Fits32, Next, Divisor;
    RunStaysBounded(calls, i, n);
    RunRange(calls, 18, n);
    SmallDivisor(calls[n].g);
    CallFits(Run(calls, n), pv, sp, calls[n].g);
    ResultsFit(Run(calls, n), calls[n].en, calls[n].g, ohi, olo);
  }
}
