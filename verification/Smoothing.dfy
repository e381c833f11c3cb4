/** The moving average over the last outputs of the PID controller. */
module Smoothing {
  import opened CMath

  /** Conversion to a 16-bit signed value. */
  function ToShort(x: int): int {
    (x + 0x8000) % 0x1_0000 - 0x8000
  }

  lemma {:induction false} SmallIsShort(x: int)
    requires -0x8000 <= x < 0x8000
    ensures ToShort(x) == x
  {
  }

  function Sum(s: seq<int>): int {
    if s == [] then 0 else Sum(s[..|s| - 1]) + s[|s| - 1]
  }

  /** The window moved on by one: the newest value comes first, the oldest is dropped. */
  function Moved(window: seq<int>, x: int): seq<int>
    requires window != []
  {
    [x] + window[..|window| - 1]
  }

  function Average(window: seq<int>): int
    requires window != []
  {
    ToShort(Div(Sum(window), |window|))
  }

  /** pid_filter; its length is a byte, and not 0. */
  method PidFilter(pid: int, p: array<int>, num: nat) returns (ave: int)
    requires 1 <= num <= 255 && num <= p.Length
    modifies p
    ensures p[..num] == Moved(old(p[..num]), pid)
    ensures forall k :: num <= k < p.Length ==> p[k] == old(p[k])
    ensures ave == Average(p[..num])
  {
    var i := num - 1;
    while i > 0
      invariant 0 <= i < num
      invariant forall k :: 0 <= k < p.Length ==> p[k] == if i < k < num then old(p[k - 1]) else old(p[k])
    {
      p[i] := p[i - 1];
      i := i - 1;
    }
    p[0] := pid;
    var sum := 0;
    i := 0;
    while i < num
      invariant 0 <= i <= num && sum == Sum(p[..i])
    {
      assert p[..i + 1][..i] == p[..i];
      sum := sum + p[i];
      i := i + 1;
    }
    ave := ToShort(Div(sum, num));
  }

  /** The window after n inputs. */
  function Window(start: seq<int>, inputs: seq<int>, n: nat): (w: seq<int>)
    requires start != [] && n <= |inputs|
    ensures |w| == |start|
  {
    if n == 0 then start else Moved(Window(start, inputs, n - 1), inputs[n - 1])
  }

  /** It holds the last inputs, newest first, and before there are enough, the old contents. */
  lemma {:induction false} WindowHolds(start: seq<int>, inputs: seq<int>, n: nat)
    requires start != [] && n <= |inputs|
    ensures forall j :: 0 <= j < |start| ==>
              Window(start, inputs, n)[j] == if j < n then inputs[n - 1 - j] else start[j - n]
  {
    if n > 0 {
      WindowHolds(start, inputs, n - 1);
    }
  }

  lemma {:induction false} SumBetween(s: seq<int>, lo: int, hi: int)
    requires forall k :: 0 <= k < |s| ==> lo <= s[k] <= hi
    ensures lo * |s| <= Sum(s) <= hi * |s|
  {
    if s != [] {
      SumBetween(s[..|s| - 1], lo, hi);
      assert lo * |s| == lo * (|s| - 1) + lo && hi * |s| == hi * (|s| - 1) + hi;
    }
  }

  /** Once the window is full, the average lies between bounds of the last inputs. */
  lemma {:induction false} AverageBetween(start: seq<int>, inputs: seq<int>, lo: int, hi: int)
    requires start != [] && |inputs| >= |start| && -0x8000 <= lo <= hi < 0x8000
    requires forall k :: |inputs| - |start| <= k < |inputs| ==> lo <= inputs[k] <= hi
    ensures lo <= Average(Window(start, inputs, |inputs|)) <= hi
  {
    hide Window, Sum, Div, ToShort;
    var w := Window(start, inputs, |inputs|);
    WindowHolds(start, inputs, |inputs|);
    SumBetween(w, lo, hi);
    DivBetween(Sum(w), |w|, lo, hi);
    SmallIsShort(Div(Sum(w), |w|));
  }

  /** The average is the sum divided by the length, rounded towards zero. */
  lemma {:induction false} AverageIsMean(w: seq<int>)
    requires w != [] && forall k :: 0 <= k < |w| ==> -0x8000 <= w[k] < 0x8000
    ensures Abs(Average(w)) * |w| <= Abs(Sum(w)) < (Abs(Average(w)) + 1) * |w|
    ensures (Average(w) > 0 ==> Sum(w) > 0) && (Average(w) < 0 ==> Sum(w) < 0)
  {
    hide Sum, ToShort, Div, Abs;
    SumBetween(w, -0x8000, 0x7FFF);
    DivBetween(Sum(w), |w|, -0x8000, 0x7FFF);
    SmallIsShort(Div(Sum(w), |w|));
    DivRounds(Sum(w), |w|);
  }

  lemma {:induction false} SumAdds(a: seq<int>, b: seq<int>)
    ensures Sum(a + b) == Sum(a) + Sum(b)
    ensures forall x :: Sum([x]) == x
    decreases |b|
  {
    forall x ensures Sum([x]) == x {
      assert [x][..0] == [] && Sum([x]) == Sum([x][..0]) + x;
    }
    if b == [] {
      assert a + b == a;
    } else {
      assert (a + b)[..|a + b| - 1] == a + b[..|b| - 1];
      SumAdds(a, b[..|b| - 1]);
    }
  }
}
