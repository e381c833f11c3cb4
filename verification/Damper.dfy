/**
  The damper: the main loop writes the motor registers one at a time, and the timer may run
  between any two of its steps.
 */
module Damper {
  import opened CMath
  import opened Wrappers

  /** The registers of the damper. */
  datatype Registers = Registers(
    open: bool, close: bool,                  // CONTROL_DAMPER_OPEN and _CLOSE
    fullyOpen: bool, fullyClosed: bool,       // DETECT_DAMPER_FULLY_OPEN and _CLOSE
    position: int, target: int,               // R_AI_AD and P_AO_AD
    min: int, max: int,                       // DAMPER_MIN_LEN and _MAX_LEN
    timeOpen: nat, timeClose: nat,            // DAMPER_TIME_OPEN and _CLOSE
    openStatus: nat, openTime: nat,           // AIR_DOOR_OPEN_RUNNING_STATUS and _TIME
    closeStatus: nat, closeTime: nat)         // AIR_DOOR_CLOSING_RUNNING_STATUS and _TIME

  /** A 16-bit register. */
  function Wrap(x: nat): nat {
    x % 0x1_0000
  }

  // ------------------------------------------------------------- the timer

  /** The upper half of the tick: the damper opens. */
  function OpenHalf(r: Registers): Registers {
    if r.fullyOpen then r.(open := false, position := r.max)
    else if !r.open then r
    else
      var r1 := r.(closeStatus := 0);
      var r2 := if r1.openStatus == 0
                then r1.(openTime := Wrap(r1.timeOpen + r1.closeTime), closeTime := 0, openStatus := 1)
                else r1;
      var r3 := if r2.openTime == 0 && r2.openStatus == 1 && r2.position < r2.max
                then r2.(position := r2.position + 1, openStatus := 0)
                else r2;
      if r3.openTime > 0 then r3.(openTime := r3.openTime - 1) else r3
  }

  /** The lower half: it closes. */
  function CloseHalf(r: Registers): Registers {
    if r.fullyClosed then r.(close := false, position := r.min)
    else if !r.close then r
    else
      var r1 := r.(openStatus := 0);
      var r2 := if r1.closeStatus == 0
                then r1.(closeTime := Wrap(r1.timeClose + r1.openTime), openTime := 0, closeStatus := 1)
                else r1;
      var r3 := if r2.closeTime == 0 && r2.closeStatus == 1 && r2.position > r2.min
                then r2.(position := r2.position - 1, closeStatus := 0)
                else r2;
      if r3.closeTime > 0 then r3.(closeTime := r3.closeTime - 1) else r3
  }

  function Tick(r: Registers): Registers {
    CloseHalf(OpenHalf(r))
  }

  // ------------------------------------------------------------- the main loop

  /** Where the main loop stands: before which test or write of which function. */
  datatype Place =
    | Idle
    | Open(status: bool)                      // control_open_damper: the test
    | OpenStop                                // writes OPEN, off
    | OpenClear(status: bool)                 // writes CLOSE, off
    | OpenSet(status: bool)                   // writes OPEN, the status
    | Close(status: bool, schedule: int)      // control_close_damper: the test
    | CloseStop                               // writes CLOSE, off
    | CloseClear(status: bool, schedule: int) // writes OPEN, off
    | CloseTest(status: bool)                 // compares the position with the target
    | CloseSet(status: bool)                  // writes CLOSE, the status

  datatype State = State(regs: Registers, at: Place)

  /** One test or one register write of the main loop. */
  function Main(s: State): State {
    var r := s.regs;
    match s.at
    case Idle => s
    case Open(status) => State(r, if r.fullyOpen then OpenStop else OpenClear(status))
    case OpenStop => State(r.(open := false), Idle)
    case OpenClear(status) => State(r.(close := false), OpenSet(status))
    case OpenSet(status) => State(r.(open := status), Idle)
    case Close(status, schedule) => State(r, if r.fullyClosed then CloseStop else CloseClear(status, schedule))
    case CloseStop => State(r.(close := false), Idle)
    case CloseClear(status, schedule) =>
      State(r.(open := false), if schedule == 1 then CloseTest(status) else CloseSet(status))
    case CloseTest(status) => State(r, CloseSet(r.position > r.target && status))
    case CloseSet(status) => State(r.(close := status), Idle)
  }

  /** control_damper: where it enters, if it calls anything; the flags are as it reads them. */
  function DamperCall(testing: bool, fanStopped: bool, kind: int, status: bool, schedule: int): (p: Place)
    ensures Entry(p)
    ensures testing ==> p == Idle
    ensures !testing && fanStopped ==> p == Open(false)
  {
    if testing then Idle
    else if fanStopped then Open(false)
    else if kind == 1 then Open(status)
    else if kind == 2 then Close(status, schedule)
    else Idle
  }

  /** What may happen next. */
  datatype Event =
    | Timer
    | MainStep
    | Call(place: Place)                      // the main loop enters a function
    | Edit(position: int)                     // the P_EDIT_AD step, check and copy in one
    | Input(fullyOpen: bool, fullyClosed: bool, target: int, timeOpen: nat, timeClose: nat)

  /** A function is entered at its beginning. */
  predicate Entry(p: Place) {
    p.Idle? || p.Open? || p.Close?
  }

  function Apply(s: State, e: Event): State {
    match e
    case Timer => s.(regs := Tick(s.regs))
    case MainStep => Main(s)
    case Call(place) => if s.at.Idle? && Entry(place) then s.(at := place) else s
    case Edit(position) =>
      if s.at.Idle? && s.regs.min <= position <= s.regs.max then s.(regs := s.regs.(position := position)) else s
    case Input(o, c, target, timeOpen, timeClose) =>
      s.(regs := s.regs.(fullyOpen := o, fullyClosed := c, target := target,
                         timeOpen := Wrap(timeOpen), timeClose := Wrap(timeClose)))
  }

  function Run(s: State, events: seq<Event>, n: nat): State
    requires n <= |events|
  {
    if n == 0 then s else Apply(Run(s, events, n - 1), events[n - 1])
  }

  /** What every step keeps: one motor at most, none opposite the one about to be written,
      and the position within its bounds. */
  predicate Inv(s: State) {
    && !(s.regs.open && s.regs.close)
    && (s.at.OpenSet? ==> !s.regs.close)
    && (s.at.CloseTest? || s.at.CloseSet? ==> !s.regs.open)
    && s.regs.min <= s.regs.position <= s.regs.max
  }

  lemma {:induction false} TickOnlyStops(r: Registers)
    ensures var t := Tick(r);
            && (t.open ==> r.open) && (t.close ==> r.close) && t.min == r.min && t.max == r.max
            && t.fullyOpen == r.fullyOpen && t.fullyClosed == r.fullyClosed
            && (r.min <= r.position <= r.max ==> t.min <= t.position <= t.max)
  {
  }

  lemma {:induction false} StepKeepsInv(s: State, e: Event)
    requires Inv(s)
    ensures Inv(Apply(s, e))
  {
    hide Tick;
    TickOnlyStops(s.regs);
  }

  /** In every interleaving the motors are never both on and the position stays in bounds. */
  lemma {:induction false} NeverBothMotors(s: State, events: seq<Event>, n: nat)
    requires Inv(s) && n <= |events|
    ensures Inv(Run(s, events, n))
    ensures var r := Run(s, events, n).regs;
            !(r.open && r.close) && s.regs.min == r.min <= r.position <= r.max == s.regs.max
  {
    hide Apply;
    if n > 0 {
      NeverBothMotors(s, events, n - 1);
      StepKeepsInv(Run(s, events, n - 1), events[n - 1]);
      BoundsStay(Run(s, events, n - 1), events[n - 1]);
    }
  }

  lemma {:induction false} BoundsStay(s: State, e: Event)
    ensures Apply(s, e).regs.min == s.regs.min && Apply(s, e).regs.max == s.regs.max
  {
    hide Tick;
    TickOnlyStops(s.regs);
  }

  // ------------------------------------------------------------- travel

  /** n ticks and nothing else. */
  function Ticks(r: Registers, n: nat): Registers {
    if n == 0 then r else Tick(Ticks(r, n - 1))
  }

  /** Opening, with no switch reached and nothing left of a closing movement. */
  predicate Opening(r: Registers) {
    && r.open && !r.close && !r.fullyOpen && !r.fullyClosed && r.closeTime == 0
    && r.position <= r.max && r.timeOpen < 0x1_0000
  }

  /** made steps are done and the next one is under way since rest ticks. */
  predicate Travelled(r: Registers, start: Registers, made: nat, rest: nat) {
    && Opening(r) && r.max == start.max && r.timeOpen == start.timeOpen
    && if start.position + made >= start.max then r.position == r.max
       else r.position == start.position + made
            && if rest == 0 then r.openStatus == 0
               else r.openStatus == 1 && r.openTime == start.timeOpen - rest
  }

  lemma {:induction false} OpeningTick(r: Registers, start: Registers, made: nat, rest: nat)
    requires Travelled(r, start, made, rest) && rest <= start.timeOpen
    ensures if rest == start.timeOpen then Travelled(Tick(r), start, made + 1, 0)
            else Travelled(Tick(r), start, made, rest + 1)
  {
  }

  /** How many whole periods n ticks are, and how many ticks are over. */
  function Periods(n: nat, period: nat): nat
    requires period > 0
  {
    QuotientOfNat(n, period);
    n / period
  }

  function Over(n: nat, period: nat): nat
    requires period > 0
  {
    n % period
  }

  lemma {:induction false} NextTick(n: nat, period: nat)
    requires period > 0
    ensures Periods(0, period) == 0 && Over(0, period) == 0 && Over(n, period) < period
    ensures if Over(n, period) == period - 1
            then Periods(n + 1, period) == Periods(n, period) + 1 && Over(n + 1, period) == 0
            else Periods(n + 1, period) == Periods(n, period) && Over(n + 1, period) == Over(n, period) + 1
  {
    NoTicks(period);
    var q, r := n / period, n % period;
    assert n == q * period + r;
    assert (q + 1) * period == q * period + period && (q + 2) * period == q * period + 2 * period;
    var next := if r == period - 1 then q + 1 else q;
    QuotientBetween(n + 1, period, next, next);
    assert n + 1 == (n + 1) / period * period + (n + 1) % period;
  }

  lemma {:induction false} NoTicks(period: nat)
    requires period > 0
    ensures Periods(0, period) == 0 && Over(0, period) == 0
  {
  }

  lemma {:induction false} OpeningTicks(r: Registers, n: nat)
    requires Opening(r) && r.openStatus == 0
    ensures Travelled(Ticks(r, n), r, Periods(n, r.timeOpen + 1), Over(n, r.timeOpen + 1))
  {
    hide Travelled, Opening, Tick, Periods, Over;
    var period := r.timeOpen + 1;
    if n == 0 {
      StartOfTravel(r);
      NextTick(0, period);
    } else {
      OpeningTicks(r, n - 1);
      NextTick(n - 1, period);
      OpeningTick(Ticks(r, n - 1), r, Periods(n - 1, period), Over(n - 1, period));
    }
  }

  lemma {:induction false} StartOfTravel(r: Registers)
    requires Opening(r) && r.openStatus == 0
    ensures Travelled(r, r, 0, 0)
  {
  }

  /** From rest, n opening ticks move the damper by one for every timeOpen + 1 of them, up to
      the maximum. */
  lemma {:induction false} OpeningTravel(r: Registers, n: nat)
    requires Opening(r) && r.openStatus == 0
    ensures Ticks(r, n).position == Min(r.max, r.position + n / (r.timeOpen + 1))
  {
    OpeningSteps(r, n);
  }

  lemma {:induction false} OpeningSteps(r: Registers, n: nat)
    requires Opening(r) && r.openStatus == 0
    ensures Ticks(r, n).position == Min(r.max, r.position + Periods(n, r.timeOpen + 1))
  {
    hide Periods, Over;
    OpeningTicks(r, n);
  }

  // ------------------------------------------------------------- reversal and limits

  /** The damper is to open and has not begun; what is left of closing counts as well. */
  predicate Reversing(r: Registers) {
    && r.open && !r.close && !r.fullyOpen && !r.fullyClosed && r.openStatus == 0
    && r.position < r.max && r.timeOpen + r.closeTime < 0x1_0000
  }

  /** The registers while the first step waits. */
  function Waiting(r: Registers, k: nat): Registers
    requires k <= r.timeOpen + r.closeTime
  {
    r.(closeStatus := 0, openStatus := 1, openTime := r.timeOpen + r.closeTime - k, closeTime := 0)
  }

  lemma {:induction false} WaitsFirst(r: Registers, k: nat)
    requires Reversing(r) && 1 <= k <= r.timeOpen + r.closeTime
    ensures Ticks(r, k) == Waiting(r, k)
  {
    if k == 1 {
      assert Ticks(r, 0) == r && Ticks(r, 1) == Tick(r);
    } else {
      WaitsFirst(r, k - 1);
    }
  }

  /** The registers after that step. */
  function Stepped(r: Registers): Registers {
    r.(closeStatus := 0, openStatus := 0, openTime := 0, closeTime := 0, position := r.position + 1)
  }

  lemma {:induction false} StepsThen(r: Registers)
    requires Reversing(r)
    ensures Ticks(r, r.timeOpen + r.closeTime + 1) == Stepped(r)
  {
    var k := r.timeOpen + r.closeTime;
    assert Ticks(r, k + 1) == Tick(Ticks(r, k));
    if k > 0 {
      WaitsFirst(r, k);
    } else {
      assert Ticks(r, 0) == r;
    }
  }

  lemma {:induction false} TicksAdd(r: Registers, a: nat, b: nat)
    ensures Ticks(r, a + b) == Ticks(Ticks(r, a), b)
  {
    hide Tick;
    if b > 0 {
      TicksAdd(r, a, b - 1);
      assert a + b - 1 == a + (b - 1);
    }
  }

  /** After a change of direction the first step takes as much longer as was left of the movement
      before; then the damper travels as from rest. */
  lemma {:induction false} ReversalTravel(r: Registers, n: nat)
    requires Reversing(r)
    ensures var first := r.timeOpen + r.closeTime + 1;
            Ticks(r, n).position ==
              if n < first then r.position else Min(r.max, r.position + 1 + Periods(n - first, r.timeOpen + 1))
  {
    hide *;
    var first := r.timeOpen + r.closeTime + 1;
    if n < first {
      StillWaits(r, n);
    } else {
      SteppedOpens(r);
      StepsThen(r);
      TicksAdd(r, first, n - first);
      OpeningSteps(Stepped(r), n - first);
    }
  }

  lemma {:induction false} StillWaits(r: Registers, n: nat)
    requires Reversing(r) && n <= r.timeOpen + r.closeTime
    ensures Ticks(r, n).position == r.position
  {
    hide Tick;
    if n > 0 {
      WaitsFirst(r, n);
    }
  }

  lemma {:induction false} SteppedOpens(r: Registers)
    requires Reversing(r)
    ensures var s := Stepped(r);
            && Opening(s) && s.openStatus == 0 && s.position == r.position + 1
            && s.max == r.max && s.timeOpen == r.timeOpen
  {
  }

  /** A limit switch stops its motor and sets the position to its end; the lower one is the last word. */
  lemma {:induction false} SwitchesStop(r: Registers)
    ensures var t := Tick(r);
            && (r.fullyOpen ==> !t.open) && (r.fullyClosed ==> !t.close && t.position == r.min)
            && (r.fullyOpen && !r.fullyClosed && !r.close ==> t.position == r.max)
  {
  }

  /** The damper seen from the other side. */
  function Mirror(r: Registers): Registers {
    Registers(r.close, r.open, r.fullyClosed, r.fullyOpen, -r.position, -r.target, -r.max, -r.min,
              r.timeClose, r.timeOpen, r.closeStatus, r.closeTime, r.openStatus, r.openTime)
  }

  /** Between the switches, closing is opening in the mirror. */
  lemma {:induction false} TickMirrors(r: Registers)
    requires !(r.open && r.close) && !r.fullyOpen && !r.fullyClosed
    ensures Tick(Mirror(r)) == Mirror(Tick(r))
  {
    HalfMirrors(r);
    HalfMirrors(Mirror(r));
    assert r.open ==> !OpenHalf(r).close && !OpenHalf(r).fullyClosed;
    assert !r.open ==> OpenHalf(r) == r;
    assert OpenHalf(Mirror(r)) == Mirror(CloseHalf(r));
  }

  lemma {:induction false} HalfMirrors(r: Registers)
    ensures CloseHalf(Mirror(r)) == Mirror(OpenHalf(r)) && Mirror(Mirror(r)) == r
  {
  }

  lemma {:induction false} TicksMirror(r: Registers, n: nat)
    requires !(r.open && r.close) && !r.fullyOpen && !r.fullyClosed
    ensures Ticks(Mirror(r), n) == Mirror(Ticks(r, n))
    ensures var t := Ticks(r, n); !(t.open && t.close) && !t.fullyOpen && !t.fullyClosed
  {
    hide Mirror, Tick;
    if n > 0 {
      TicksMirror(r, n - 1);
      TickMirrors(Ticks(r, n - 1));
      TickOnlyStops(Ticks(r, n - 1));
    }
  }

  predicate Closing(r: Registers) {
    && r.close && !r.open && !r.fullyOpen && !r.fullyClosed && r.openTime == 0
    && r.position >= r.min && r.timeClose < 0x1_0000
  }

  /** From rest, n closing ticks move it back by one for every timeClose + 1, down to the minimum. */
  lemma {:induction false} ClosingTravel(r: Registers, n: nat)
    requires Closing(r) && r.closeStatus == 0
    ensures Ticks(r, n).position == Max(r.min, r.position - n / (r.timeClose + 1))
  {
    hide Tick;
    TicksMirror(r, n);
    OpeningTravel(Mirror(r), n);
  }

  // ------------------------------------------------------------- the code

  class Controller {
    var regs: Registers

    constructor (regs: Registers)
      ensures this.regs == regs
    {
      this.regs := regs;
    }

    /** The damper's part of timer_callback_func. */
    method TimerCallback()
      modifies this
      ensures regs == Tick(old(regs))
    {
      TimerOpen();
      TimerClose();
    }

    method TimerOpen()
      modifies this
      ensures regs == OpenHalf(old(regs))
    {
      if regs.fullyOpen {
        regs := regs.(open := false, position := regs.max);
      } else if regs.open {
        regs := regs.(closeStatus := 0);
        if regs.openStatus == 0 {
          regs := regs.(openTime := Wrap(regs.timeOpen + regs.closeTime));
          regs := regs.(closeTime := 0);
          regs := regs.(openStatus := 1);
        }
        if regs.openTime == 0 && regs.openStatus == 1 {
          if regs.position < regs.max {
            regs := regs.(position := regs.position + 1);
            regs := regs.(openStatus := 0);
          }
        }
        if regs.openTime > 0 {
          regs := regs.(openTime := regs.openTime - 1);
        }
      }
    }

    method TimerClose()
      modifies this
      ensures regs == CloseHalf(old(regs))
    {
      if regs.fullyClosed {
        regs := regs.(close := false, position := regs.min);
      } else if regs.close {
        regs := regs.(openStatus := 0);
        if regs.closeStatus == 0 {
          regs := regs.(closeTime := Wrap(regs.timeClose + regs.openTime));
          regs := regs.(openTime := 0);
          regs := regs.(closeStatus := 1);
        }
        if regs.closeTime == 0 && regs.closeStatus == 1 {
          if regs.position > regs.min {
            regs := regs.(position := regs.position - 1);
            regs := regs.(closeStatus := 0);
          }
        }
        if regs.closeTime > 0 {
          regs := regs.(closeTime := regs.closeTime - 1);
        }
      }
    }

    /** control_open_damper, with no timer in between. */
    method ControlOpenDamper(status: bool)
      modifies this
      ensures Mains(State(old(regs), Open(status)), 3) == State(regs, Idle)
    {
      MainsUnfold(State(regs, Open(status)), 0);
      MainsUnfold(State(regs, Open(status)), 1);
      MainsUnfold(State(regs, Open(status)), 2);
      if regs.fullyOpen {
        regs := regs.(open := false);
      } else {
        regs := regs.(close := false);
        regs := regs.(open := status);
      }
    }

    /** control_close_damper, with no timer in between. */
    method ControlCloseDamper(status: bool, schedule: int)
      modifies this
      ensures Mains(State(old(regs), Close(status, schedule)), 4) == State(regs, Idle)
    {
      MainsUnfold(State(regs, Close(status, schedule)), 0);
      MainsUnfold(State(regs, Close(status, schedule)), 1);
      MainsUnfold(State(regs, Close(status, schedule)), 2);
      MainsUnfold(State(regs, Close(status, schedule)), 3);
      if regs.fullyClosed {
        regs := regs.(close := false);
      } else {
        regs := regs.(open := false);
        if schedule == 1 {
          if regs.position > regs.target {
            regs := regs.(close := status);
          } else {
            regs := regs.(close := false);
          }
        } else {
          regs := regs.(close := status);
        }
      }
    }

    /** control_damper, with no timer in between. */
    method ControlDamper(testing: bool, fanStopped: bool, kind: int, status: bool, schedule: int)
      modifies this
      ensures Mains(State(old(regs), DamperCall(testing, fanStopped, kind, status, schedule)), 4) == State(regs, Idle)
    {
      if testing {
        MainsIdle(regs, 4);
        return;
      }
      if fanStopped {
        ControlOpenDamper(false);
        MainsUnfold(State(old(regs), Open(false)), 3);
        return;
      }
      match kind
      case 1 =>
        ControlOpenDamper(status);
        MainsUnfold(State(old(regs), Open(status)), 3);
      case 2 =>
        ControlCloseDamper(status, schedule);
      case _ =>
        MainsIdle(regs, 4);
    }
  }

  /** What a call of control_damper leaves with no timer in between: nothing but the motors; the one
      asked for runs as asked unless it has reached its switch, or has gone as far as the schedule
      wants, and the other is off unless the switch has been reached. */
  lemma {:induction false} CallEffect(r: Registers, testing: bool, fanStopped: bool, kind: int, status: bool,
                                      schedule: int)
    ensures var s := Mains(State(r, DamperCall(testing, fanStopped, kind, status, schedule)), 4);
            var t := s.regs;
            && s.at == Idle && t == r.(open := t.open, close := t.close)
            && (testing || (!fanStopped && kind != 1 && kind != 2) ==> t == r)
            && (!testing && fanStopped ==> !t.open && t.close == (r.close && r.fullyOpen))
            && (!testing && !fanStopped && kind == 1 ==>
                  t.open == (status && !r.fullyOpen) && t.close == (r.close && r.fullyOpen))
            && (!testing && !fanStopped && kind == 2 ==>
                  && t.close == (status && !r.fullyClosed && (schedule == 1 ==> r.position > r.target))
                  && t.open == (r.open && r.fullyClosed))
  {
    var p := DamperCall(testing, fanStopped, kind, status, schedule);
    MainsUnfold(State(r, p), 0);
    MainsUnfold(State(r, p), 1);
    MainsUnfold(State(r, p), 2);
    MainsUnfold(State(r, p), 3);
  }

  lemma {:induction false} MainsIdle(r: Registers, n: nat)
    ensures Mains(State(r, Idle), n) == State(r, Idle)
  {
    if n > 0 {
      MainsIdle(r, n - 1);
    }
  }

  /** n steps of the main loop in a row. */
  function Mains(s: State, n: nat): State {
    if n == 0 then s else Main(Mains(s, n - 1))
  }

  lemma {:induction false} MainsUnfold(s: State, n: nat)
    ensures Mains(s, 0) == s && Mains(s, n + 1) == Main(Mains(s, n))
  {
  }
}
