/**
  The counters of the cooler and the blower: an output switches only after it has been asked
  for, or not asked for, often enough.
 */
module Hysteresis {

  /** The counter and the latch between two calls. */
  datatype State = State(nn: int, on: bool)

  const START := State(0, false)

  /** One call with the threshold t; want says that the output is asked for. */
  function Next(s: State, want: bool, t: int): State {
    var nn := if want then (if s.on then s.nn else s.nn + 1) else s.nn - 1;
    if nn <= 0 then State(0, false) else State(nn, s.on || nn > t)
  }

  /** What every sequence of calls keeps. */
  predicate Inv(s: State, t: int) {
    0 <= s.nn <= t + 1 && (if s.on then s.nn > 0 else s.nn <= t)
  }

  function Run(wants: seq<bool>, t: int, n: nat): State
    requires n <= |wants|
  {
    if n == 0 then START else Next(Run(wants, t, n - 1), wants[n - 1], t)
  }

  lemma {:induction false} RunKeepsInv(wants: seq<bool>, t: nat, n: nat)
    requires n <= |wants|
    ensures Inv(Run(wants, t, n), t)
  {
    if n > 0 {
      RunKeepsInv(wants, t, n - 1);
    }
  }

  /** The latch switches in the k-th call. */
  predicate Switches(wants: seq<bool>, t: int, k: nat)
    requires 0 < k <= |wants|
  {
    Run(wants, t, k - 1).on != Run(wants, t, k).on
  }

  /** How many calls a switch needs at least. */
  function Distance(s: State, t: int): int {
    if s.on then s.nn else t + 1 - s.nn
  }

  lemma {:induction false} QuietAfter(wants: seq<bool>, t: nat, k: nat, m: nat)
    requires 0 < k <= m <= |wants| && m - k <= t && Switches(wants, t, k)
    ensures Distance(Run(wants, t, m), t) >= t + 1 - (m - k)
    ensures m > k ==> !Switches(wants, t, m)
    decreases m
  {
    RunKeepsInv(wants, t, m - 1);
    if m > k {
      QuietAfter(wants, t, k, m - 1);
    }
  }

  /** Any two switches are at least t + 1 calls apart, whatever is asked for. */
  lemma {:induction false} MinimumDwell(wants: seq<bool>, t: nat, k: nat, m: nat)
    requires 0 < k < m <= |wants| && Switches(wants, t, k) && Switches(wants, t, m)
    ensures m - k >= t + 1
  {
    if m - k <= t {
      QuietAfter(wants, t, k, m);
    }
  }

  /** Asked for without a break, the output comes on in call t + 1 exactly. */
  lemma {:induction false} ComesOn(wants: seq<bool>, t: nat, n: nat)
    requires n <= |wants| && forall k :: 0 <= k < n ==> wants[k]
    ensures Run(wants, t, n) == State(if n <= t then n else t + 1, n > t)
  {
    if n > 0 {
      ComesOn(wants, t, n - 1);
    }
  }

  /** And no longer asked for, it goes off t + 1 calls later: the minimum is reached. */
  lemma {:induction false} GoesOff(wants: seq<bool>, t: nat, n: nat)
    requires t + 1 + n <= |wants| && n <= t + 1
    requires forall k :: 0 <= k < t + 1 + n ==> (wants[k] <==> k < t + 1)
    ensures Run(wants, t, t + 1 + n) == State(t + 1 - n, n <= t)
  {
    if n == 0 {
      ComesOn(wants, t, t + 1);
    } else {
      GoesOff(wants, t, n - 1);
    }
  }

  class Latch {
    var nn: int
    var retf: bool

    ghost function Value(): State
      reads this
    {
      State(nn, retf)
    }

    constructor ()
      ensures Value() == START
    {
      nn, retf := 0, false;
    }

    /** What cool and blower share; op is 1000 or 0. */
    method Count(op: int, t: int)
      modifies this
      ensures op == 1000 || op == 0 ==> Value() == Next(old(Value()), op == 1000, t)
    {
      if retf {
        if op < 500 {
          nn := nn - 1;
        }
      } else if op > 500 {
        nn := nn + 1;
      } else {
        nn := nn - 1;
      }
      if nn > t {
        retf := true;
      }
      if nn <= 0 {
        nn, retf := 0, false;
      }
    }

    /** cool: asked for up to the limit; nothing is put out unless it is too warm. */
    method Cool(pid: int, col: int, tco: int, temperature: int, target: int) returns (out: bool)
      modifies this
      ensures Value() == Next(old(Value()), pid <= col * 100, tco)
      ensures out == (Value().on && temperature > target)
    {
      var sp := col * 100;
      var op := if pid <= sp then 1000 else 0;
      Count(op, tco);
      if temperature <= target {
        return false;
      }
      out := retf;
    }

    /** blower: asked for below the limit only. */
    method Blower(pid: int, blo: int, tbl: int, temperature: int, target: int) returns (out: bool)
      modifies this
      ensures Value() == Next(old(Value()), pid < blo * 100, tbl)
      ensures out == (Value().on && temperature > target)
    {
      var sp := blo * 100;
      var op := if pid < sp then 1000 else 0;
      Count(op, tbl);
      if temperature <= target {
        return false;
      }
      out := retf;
    }
  }
}
