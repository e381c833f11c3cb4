/**
  The reflux valve of channel 1: with demand it works and rests in turns, and after a number
  of cycles it stays on.  The main loop scans, one test or register write at a time; the timer
  counts down once a second, between any two of them.
 */
module Reflux {

  /** What a step of the scan reads. */
  datatype Inputs = Inputs(
    enabled: bool,                            // bit 0 of REFLUX_TEMPERATURE
    day: int, coolDay: int,                   // R_RUN_DAY and P_PRE_TP_RF1_DAY
    current: nat, setting: nat,               // R_AI_TP_RF1 and P_AO_TP_RF1
    gzs: nat, zqs: nat, zqc: nat,             // work time, cycle time, number of cycles
    testing: bool, alarm: bool,               // TEST_COOL2_1_MODE, SENSOR_3_ABNORMAL_ALARM
    fanStopped: bool)                         // the fan's state and mode do not allow the valve

  /** The registers of the channel; cold and hot are the phases 0, 1 and 2 of the two sides. */
  datatype State = State(cold: nat, hot: nat, work: nat, stop: nat, cycle: nat, delay: nat,
                         hotWater: bool, valve: bool)

  const START := State(0, 0, 0, 0, 0, 0, false, false)

  /** A difference in an unsigned 16-bit register. */
  function Minus16(a: nat, b: nat): (d: nat)
    ensures d < 0x1_0000
  {
    (a - b) % 0x1_0000
  }

  /** control_cool2_1 */
  function Valve(s: State, on: bool, i: Inputs): State {
    if i.testing || i.alarm then s
    else s.(valve := on && !i.fanStopped)
  }

  predicate ColdSide(i: Inputs) {
    i.day >= i.coolDay
  }

  /** On the cold side the water is to be cooled, on the other it is to be heated. */
  predicate Demand(cold: bool, i: Inputs) {
    if cold then i.current > i.setting else i.current < i.setting
  }

  function Phase(s: State, cold: bool): nat {
    if cold then s.cold else s.hot
  }

  function WithPhase(s: State, cold: bool, p: nat): State {
    if cold then s.(cold := p) else s.(hot := p)
  }

  function Down(x: nat): nat {
    if x > 0 then x - 1 else 0
  }

  /** The timer, once a second. */
  function Tick(s: State): State {
    s.(work := Down(s.work), stop := Down(s.stop), delay := Down(s.delay))
  }

  // ------------------------------------------------------------- single steps

  /** The tests and writes of a scan that has chosen its side, in the order of the code. */
  datatype Step =
    | Reset                                   // writes the other side's phase, 0
    | Water                                   // chooses the water
    | DelayTest
    | DemandTest
    | StartTest                               // is the phase 0?
    | StartWork                               // writes the work time
    | StartCycle                              // writes the cycle, 0
    | StartPhase                              // writes the phase, 1
    | CycleTest
    | WorkTest
    | RestTest                                // is the phase 1?
    | RestStop                                // writes the stop time
    | RestPhase                               // writes the phase, 2
    | StopTest
    | NextTest                                // is the phase 2?
    | NextWork                                // writes the work time
    | NextCycle                               // writes the cycle, one more
    | NextPhase                               // writes the phase, 1
    | NoneOff                                 // without demand, turns the valve off
    | NonePhase                               // and writes the phase, 0

  /** The delay after the incubator has been stopped, in seconds. */
  const DELAY := 30

  /** Where the main loop stands. */
  datatype Place =
    | Idle
    | Begin                                   // the tests that choose the side
    | Switch(on: bool)                        // the call of the valve, last
    | Stop(left: nat)                         // elsewhere: writes hot 0, cold 0 and the delay
    | Side(cold: bool, step: Step)

  datatype Machine = Machine(s: State, at: Place)

  function Move(s: State, cold: bool, step: Step, i: Inputs): Machine {
    match step
    case Reset => Machine(WithPhase(s, !cold, 0), Side(cold, Water))
    case Water => Machine(s.(hotWater := !cold), Side(cold, DelayTest))
    case DelayTest => Machine(s, if s.delay == 0 then Side(cold, DemandTest) else Idle)
    case DemandTest => Machine(s, Side(cold, if Demand(cold, i) then StartTest else NoneOff))
    case StartTest => Machine(s, Side(cold, if Phase(s, cold) == 0 then StartWork else CycleTest))
    case StartWork => Machine(s.(work := i.gzs), Side(cold, StartCycle))
    case StartCycle => Machine(s.(cycle := 0), Side(cold, StartPhase))
    case StartPhase => Machine(WithPhase(s, cold, 1), Side(cold, CycleTest))
    case CycleTest => Machine(s, if s.cycle < i.zqc then Side(cold, WorkTest) else Switch(true))
    case WorkTest => Machine(s, if s.work > 0 then Switch(true) else Side(cold, RestTest))
    case RestTest => Machine(s, Side(cold, if Phase(s, cold) == 1 then RestStop else StopTest))
    case RestStop => Machine(s.(stop := Minus16(i.zqs, i.gzs)), Side(cold, RestPhase))
    case RestPhase => Machine(WithPhase(s, cold, 2), Side(cold, StopTest))
    case StopTest => Machine(s, if s.stop > 0 then Switch(false) else Side(cold, NextTest))
    case NextTest => Machine(s, if Phase(s, cold) == 2 then Side(cold, NextWork) else Idle)
    case NextWork => Machine(s.(work := i.gzs), Side(cold, NextCycle))
    case NextCycle => Machine(s.(cycle := (s.cycle + 1) % 0x1_0000), Side(cold, NextPhase))
    case NextPhase => Machine(WithPhase(s, cold, 1), Idle)
    case NoneOff => Machine(Valve(s, false, i), Side(cold, NonePhase))
    case NonePhase => Machine(WithPhase(s, cold, 0), Idle)
  }

  /** One test or one register write of the main loop, on what it reads just then. */
  function Main(m: Machine, i: Inputs): Machine {
    match m.at
    case Idle => m
    case Begin => Machine(m.s, if i.enabled then Side(ColdSide(i), Reset) else Switch(false))
    case Switch(on) => Machine(Valve(m.s, on, i), Idle)
    case Stop(left) =>
      if left >= 2 then Machine(m.s.(hot := 0), Stop(1))
      else if left == 1 then Machine(m.s.(cold := 0), Stop(0))
      else Machine(m.s.(delay := DELAY), Idle)
    case Side(cold, step) => Move(m.s, cold, step, i)
  }

  /** What may happen next. */
  datatype Event =
    | Second                                  // the timer
    | Call                                    // the main loop enters the scan
    | MainStep(i: Inputs)
    | Halt                                    // it enters the part that stops the incubator

  function Apply(m: Machine, e: Event): Machine {
    match e
    case Second => m.(s := Tick(m.s))
    case Call => if m.at.Idle? then m.(at := Begin) else m
    case MainStep(i) => Main(m, i)
    case Halt => if m.at.Idle? then m.(at := Stop(2)) else m
  }

  function Run(m: Machine, events: seq<Event>, n: nat): Machine
    requires n <= |events|
  {
    if n == 0 then m else Apply(Run(m, events, n - 1), events[n - 1])
  }

  // ------------------------------------------------------------- safety

  predicate Registers16(i: Inputs) {
    i.gzs < 0x1_0000 && i.zqs < 0x1_0000 && i.zqc < 0x1_0000
  }

  /** No setting of the number of cycles that a step reads exceeds z. */
  ghost predicate Bounded(events: seq<Event>, z: nat) {
    forall k :: 0 <= k < |events| && events[k].MainStep? ==> Registers16(events[k].i) && events[k].i.zqc <= z
  }

  /** What holds of the registers at every place: the phases are 0, 1 and 2, one side at most
      is active, and no more cycles are counted than were ever asked for. */
  predicate Safe(s: State, z: nat) {
    && s.cold <= 2 && s.hot <= 2 && !(s.cold > 0 && s.hot > 0) && s.cycle <= z
    && s.work < 0x1_0000 && s.stop < 0x1_0000 && s.delay < 0x1_0000
  }

  /** The steps between the test of the cycle and its increment. */
  predicate InCycle(step: Step) {
    match step
    case WorkTest | RestTest | RestStop | RestPhase | StopTest | NextTest | NextWork | NextCycle => true
    case _ => false
  }

  /** What is known of a side's phase at a step. */
  predicate PhaseFits(phase: nat, step: Step) {
    match step
    case StartWork | StartCycle | StartPhase => phase == 0
    case CycleTest | WorkTest | RestTest => phase > 0
    case RestStop | RestPhase => phase == 1
    case StopTest | NextTest | NextWork | NextCycle | NextPhase => phase == 2
    case _ => true
  }

  /** The work time is over from the test on, until it is written again. */
  predicate WorkIsOver(step: Step) {
    match step
    case RestTest | RestStop | RestPhase | StopTest | NextTest | NextWork => true
    case _ => false
  }

  predicate StepInv(s: State, cold: bool, step: Step, z: nat) {
    && (!step.Reset? ==> Phase(s, !cold) == 0)
    && (InCycle(step) ==> s.cycle < z)
    && PhaseFits(Phase(s, cold), step)
    && (WorkIsOver(step) ==> s.work == 0)
  }

  /** A resting channel has no work time left. */
  predicate Resting(m: Machine) {
    m.s.cold == 2 || m.s.hot == 2 ==>
      m.s.work == 0 || (m.at.Side? && (m.at.step.NextCycle? || m.at.step.NextPhase?))
  }

  predicate Inv(m: Machine, z: nat) {
    Safe(m.s, z) && Resting(m) && (m.at.Side? ==> StepInv(m.s, m.at.cold, m.at.step, z))
  }

  lemma {:induction false} MoveKeepsInv(s: State, cold: bool, step: Step, i: Inputs, z: nat)
    requires Inv(Machine(s, Side(cold, step)), z) && Registers16(i) && i.zqc <= z < 0x1_0000
    ensures Inv(Move(s, cold, step, i), z)
  {
    hide Minus16;
  }

  lemma {:induction false} StepKeepsInv(m: Machine, e: Event, z: nat)
    requires Inv(m, z) && z < 0x1_0000
    requires e.MainStep? ==> Registers16(e.i) && e.i.zqc <= z
    ensures Inv(Apply(m, e), z)
  {
    hide Move, Minus16;
    if e.MainStep? && m.at.Side? {
      MoveKeepsInv(m.s, m.at.cold, m.at.step, e.i, z);
    }
  }

  /** Whatever the inputs and however the timer interferes: hot and cold are never both active,
      the phases are 0, 1 or 2, and the cycle never exceeds the largest setting read so far. */
  lemma {:induction false} RunKeepsInv(m: Machine, events: seq<Event>, z: nat, n: nat)
    requires Inv(m, z) && z < 0x1_0000 && n <= |events| && Bounded(events, z)
    ensures Inv(Run(m, events, n), z)
  {
    hide Apply, Inv;
    if n > 0 {
      RunKeepsInv(m, events, z, n - 1);
      StepKeepsInv(Run(m, events, n - 1), events[n - 1], z);
    }
  }

  // ------------------------------------------------------------- sustained demand

  predicate Sustained(i: Inputs) {
    i.enabled && Demand(ColdSide(i), i) && !i.testing && !i.alarm && !i.fanStopped && Registers16(i)
  }

  /** The same settings and the same side, with demand. */
  predicate Like(i: Inputs, j: Inputs) {
    && Sustained(i) && Sustained(j) && (ColdSide(i) <==> ColdSide(j))
    && i.gzs == j.gzs && i.zqs == j.zqs && i.zqc == j.zqc
  }

  ghost predicate Demanding(events: seq<Event>, i: Inputs) {
    forall k :: 0 <= k < |events| ==>
      events[k].Second? || events[k].Call? || (events[k].MainStep? && Like(events[k].i, i))
  }

  /** All cycles are done. */
  predicate Done(s: State, i: Inputs) {
    s.delay == 0 && Phase(s, ColdSide(i)) > 0 && s.cycle >= i.zqc
  }

  /** More than any one cycle needs. */
  function Budget(i: Inputs): nat {
    i.gzs + Minus16(i.zqs, i.gzs) + 2
  }

  function Cycles(cycle: nat, zqc: nat): nat {
    if cycle < zqc then zqc - cycle else 0
  }

  /** The phase that the last write of a cycle completes counts from the write of the cycle on. */
  function Reached(m: Machine, cold: bool): nat {
    if m.at == Side(cold, NextPhase) then 1 else Phase(m.s, cold)
  }

  /** How far the channel is from being done: cycles, then the phase, then the countdown. */
  function Left(m: Machine, i: Inputs): nat {
    var phase := Reached(m, ColdSide(i));
    m.s.delay +
    if phase == 0 then i.zqc * Budget(i) + Budget(i)
    else Cycles(m.s.cycle, i.zqc) * Budget(i) +
         if phase == 1 then m.s.work + Minus16(i.zqs, i.gzs) + 1 else m.s.stop
  }

  /** The next tick takes something off. */
  predicate Counting(m: Machine, i: Inputs) {
    var phase := Reached(m, ColdSide(i));
    m.s.delay > 0 || (phase == 1 && m.s.work > 0) || (phase == 2 && m.s.stop > 0)
  }

  /** Where a scan stands under demand, and what the settings then mean for the registers. */
  predicate StepTuned(s: State, cold: bool, step: Step, i: Inputs) {
    && cold == ColdSide(i)
    && (InCycle(step) ==> s.cycle < i.zqc)
    && match step
       case Reset | Water | DelayTest => true
       case StartCycle | NextCycle | NextPhase => s.delay == 0 && s.work <= i.gzs
       case StartPhase => s.delay == 0 && s.work <= i.gzs && s.cycle == 0
       case RestPhase => s.delay == 0 && s.stop <= Minus16(i.zqs, i.gzs)
       case NoneOff | NonePhase => false
       case _ => s.delay == 0
  }

  predicate Tuned(m: Machine, i: Inputs) {
    match m.at
    case Idle | Begin => true
    case Switch(on) => on || m.s.cycle < i.zqc
    case Stop(_) => false
    case Side(cold, step) => StepTuned(m.s, cold, step, i)
  }

  /** The rest of the scan will take something off, unless a countdown runs or all is done. */
  predicate Owes(m: Machine, i: Inputs) {
    Counting(m, i) || Done(m.s, i) || m.at.Begin? || (m.at.Side? && !m.at.step.NextPhase?)
  }

  /** A scan that stands here turns the valve on when all is done. */
  predicate Opens(m: Machine) {
    m.at.Begin? || (m.at.Switch? && m.at.on) || (m.at.Side? && !m.at.step.NextPhase?)
  }

  lemma {:induction false} TickLowers(m: Machine, i: Inputs)
    ensures var t := m.(s := Tick(m.s));
            && (Tuned(m, i) ==> Tuned(t, i)) && Left(t, i) <= Left(m, i)
            && (Counting(m, i) ==> Left(t, i) < Left(m, i))
            && (!Counting(m, i) && Owes(m, i) ==> Owes(t, i))
            && (Done(m.s, i) ==> Done(t.s, i)) && t.s.valve == m.s.valve
  {
    hide Budget, Minus16;
  }

  lemma {:induction false} AllCycles(zqc: nat)
    ensures Cycles(0, zqc) == zqc
  {
  }

  lemma {:induction false} NextBudget(zqc: nat, cycle: nat, budget: nat)
    requires cycle < zqc
    ensures Cycles(cycle + 1, zqc) * budget + budget == Cycles(cycle, zqc) * budget
  {
  }

  lemma {:induction false} MoveTuned(s: State, cold: bool, step: Step, i: Inputs, j: Inputs, z: nat)
    requires Inv(Machine(s, Side(cold, step)), z) && StepTuned(s, cold, step, i) && Like(j, i)
    requires i.zqc <= z < 0x1_0000
    ensures var t := Move(s, cold, step, j);
            && Tuned(t, i)
            && (Done(s, i) ==> Done(t.s, i))
            && (Done(s, i) && s.valve ==> t.s.valve)
            && (Done(s, i) && !step.NextPhase? ==> Opens(t))
  {
    hide Minus16;
  }

  /** The three writes that complete a phase take something off. */
  lemma {:induction false} PhaseLowers(s: State, cold: bool, step: Step, i: Inputs, j: Inputs, z: nat)
    requires Inv(Machine(s, Side(cold, step)), z) && StepTuned(s, cold, step, i) && Like(j, i)
    requires i.zqc <= z < 0x1_0000
    requires step.StartPhase? || step.RestPhase? || step.NextCycle?
    ensures Left(Move(s, cold, step, j), i) < Left(Machine(s, Side(cold, step)), i)
  {
    hide Minus16, Cycles;
    if step.StartPhase? {
      AllCycles(i.zqc);
    } else {
      NextBudget(i.zqc, s.cycle, Budget(i));
    }
  }

  /** No other one adds anything, or ends the promise to take something off without doing so. */
  lemma {:induction false} MoveLeaves(s: State, cold: bool, step: Step, i: Inputs, j: Inputs, z: nat)
    requires Inv(Machine(s, Side(cold, step)), z) && StepTuned(s, cold, step, i) && Like(j, i)
    requires i.zqc <= z < 0x1_0000
    requires !(step.StartPhase? || step.RestPhase? || step.NextCycle?)
    ensures var m, t := Machine(s, Side(cold, step)), Move(s, cold, step, j);
            && Left(t, i) == Left(m, i)
            && (Counting(m, i) <==> Counting(t, i))
            && (Owes(m, i) ==> Owes(t, i))
  {
    hide Minus16, Budget, Cycles;
  }

  /** Under demand no step of the main loop adds to what is left.  One that ends a countdown
      takes something off, and so does one that ends the promise to do so. */
  lemma {:induction false} StepLowers(m: Machine, i: Inputs, j: Inputs, z: nat)
    requires Inv(m, z) && Tuned(m, i) && Like(j, i) && i.zqc <= z < 0x1_0000
    ensures var t := Main(m, j);
            && Inv(t, z) && Tuned(t, i) && Left(t, i) <= Left(m, i)
            && (Counting(m, i) ==> Left(t, i) < Left(m, i) || Counting(t, i))
            && (Owes(m, i) ==> Left(t, i) < Left(m, i) || Owes(t, i))
            && (Done(m.s, i) ==> Done(t.s, i))
            && (Done(m.s, i) && m.s.valve ==> t.s.valve)
            && (Done(m.s, i) && Opens(m) ==> Opens(t) || t.s.valve)
            && (m.at.Idle? ==> t == m)
  {
    hide Move, Inv, StepTuned, Budget, Minus16, Cycles;
    StepKeepsInv(m, MainStep(j), z);
    if m.at.Side? {
      MoveTuned(m.s, m.at.cold, m.at.step, i, j, z);
      if m.at.step.StartPhase? || m.at.step.RestPhase? || m.at.step.NextCycle? {
        PhaseLowers(m.s, m.at.cold, m.at.step, i, j, z);
      } else {
        MoveLeaves(m.s, m.at.cold, m.at.step, i, j, z);
      }
    } else {
      BeginTuned(j, i, m.s);
    }
  }

  lemma {:induction false} BeginTuned(j: Inputs, i: Inputs, s: State)
    requires Like(j, i)
    ensures StepTuned(s, ColdSide(j), Reset, i)
  {
  }

  // ------------------------------------------------------------- rounds

  /** Since the last round: no scan has begun, one that has begun is under way, or it has ended. */
  datatype Watch = Waiting | Scanning | Scanned

  /** A run that counts its rounds: in a round a whole scan is followed by a tick, with any
      other ticks and scans in between. */
  datatype Watched = Watched(m: Machine, watch: Watch, rounds: nat)

  function Observe(w: Watched, e: Event): Watched {
    var t := Apply(w.m, e);
    if e.Second? then
      if w.watch.Scanned? then Watched(t, Waiting, w.rounds + 1) else w.(m := t)
    else if w.watch.Waiting? && w.m.at.Idle? && !t.at.Idle? then Watched(t, Scanning, w.rounds)
    else if w.watch.Scanning? && t.at.Idle? then Watched(t, Scanned, w.rounds)
    else w.(m := t)
  }

  function Observed(w: Watched, events: seq<Event>, n: nat): Watched
    requires n <= |events|
  {
    if n == 0 then w else Observe(Observed(w, events, n - 1), events[n - 1])
  }

  /** Watching changes nothing. */
  lemma {:induction false} ObservedRuns(w: Watched, events: seq<Event>, n: nat)
    requires n <= |events|
    ensures Observed(w, events, n).m == Run(w.m, events, n)
  {
    if n > 0 {
      ObservedRuns(w, events, n - 1);
    }
  }

  /** Every round so far has taken something off, and the one under way has done so or is going
      to; when all is done, one more round turns the valve on. */
  predicate OnTheWay(w: Watched, i: Inputs, start: nat) {
    if Done(w.m.s, i) then
      w.m.s.valve
      || match w.watch
         case Waiting => w.rounds <= start
         case Scanning => w.rounds < start || (w.rounds == start && Opens(w.m))
         case Scanned => w.rounds < start
    else
      var so := Left(w.m, i) + w.rounds;
      match w.watch
      case Waiting => so <= start
      case Scanning => so < start || (so == start && Owes(w.m, i))
      case Scanned => so < start || (so == start && Counting(w.m, i))
  }

  predicate DemandInv(w: Watched, i: Inputs, z: nat) {
    Inv(w.m, z) && Tuned(w.m, i) && (w.watch.Scanning? ==> !w.m.at.Idle?)
  }

  lemma {:induction false} ObserveLowers(w: Watched, e: Event, i: Inputs, z: nat, start: nat)
    requires DemandInv(w, i, z) && OnTheWay(w, i, start) && i.zqc <= z < 0x1_0000
    requires e.Second? || e.Call? || (e.MainStep? && Like(e.i, i))
    ensures DemandInv(Observe(w, e), i, z) && OnTheWay(Observe(w, e), i, start)
  {
    LeftIsPositive(w.m, i);
    hide Left, Inv, Done, Tick, Main, Counting, StepTuned, Sustained;
    var m := w.m;
    match e
    case Second =>
      StepKeepsInv(m, e, z);
      TickLowers(m, i);
    case Call =>
      StepKeepsInv(m, e, z);
      CallKeeps(m, i);
    case MainStep(j) =>
      StepLowers(m, i, j, z);
  }

  lemma {:induction false} CallKeeps(m: Machine, i: Inputs)
    ensures var t := Apply(m, Call);
            && Left(t, i) == Left(m, i) && (Counting(t, i) <==> Counting(m, i)) && t.s == m.s
            && (m.at.Idle? ==> Owes(t, i) && Opens(t)) && (Tuned(m, i) ==> Tuned(t, i))
  {
    hide Budget, Minus16, Cycles;
  }

  lemma {:induction false} LeftIsPositive(m: Machine, i: Inputs)
    ensures Done(m.s, i) || Left(m, i) > 0
  {
    hide Minus16;
    var budget := Budget(i);
    if m.s.cycle < i.zqc {
      assert Cycles(m.s.cycle, i.zqc) * budget >= budget;
    }
    assert i.zqc * budget >= 0;
  }

  lemma {:induction false} EveryRoundLowers(m: Machine, events: seq<Event>, i: Inputs, z: nat, n: nat)
    requires Inv(m, z) && Tuned(m, i) && i.zqc <= z < 0x1_0000 && Demanding(events, i) && n <= |events|
    ensures var w := Observed(Watched(m, Waiting, 0), events, n);
            DemandInv(w, i, z) && OnTheWay(w, i, Left(m, i))
  {
    hide Left, Inv, Done, Tuned, Observe, OnTheWay;
    if n == 0 {
      AtFirst(m, i);
    } else {
      EveryRoundLowers(m, events, i, z, n - 1);
      ObserveLowers(Observed(Watched(m, Waiting, 0), events, n - 1), events[n - 1], i, z, Left(m, i));
    }
  }

  lemma {:induction false} AtFirst(m: Machine, i: Inputs)
    ensures OnTheWay(Watched(m, Waiting, 0), i, Left(m, i))
  {
    hide Left, Done;
  }

  /** How many rounds the run of n events has. */
  function Rounds(m: Machine, events: seq<Event>, n: nat): nat
    requires n <= |events|
  {
    Observed(Watched(m, Waiting, 0), events, n).rounds
  }

  /** Under sustained demand the channel is done after as many rounds as are left, and after
      one more the valve is on for good, however the scans and the ticks are interleaved. */
  lemma {:induction false} DemandIsMet(m: Machine, events: seq<Event>, i: Inputs, z: nat, n: nat)
    requires Inv(m, z) && Tuned(m, i) && i.zqc <= z < 0x1_0000 && Demanding(events, i) && n <= |events|
    ensures Rounds(m, events, n) >= Left(m, i) ==> Done(Run(m, events, n).s, i)
    ensures Rounds(m, events, n) > Left(m, i) ==> Run(m, events, n).s.valve
  {
    hide Left, Inv, Done, Tuned, Demanding, Observed, Run, DemandInv, Owes, Counting, Opens;
    var w := Observed(Watched(m, Waiting, 0), events, n);
    EveryRoundLowers(m, events, i, z, n);
    ObservedRuns(Watched(m, Waiting, 0), events, n);
    LeftIsPositive(w.m, i);
  }

  /** And done it stays. */
  lemma {:induction false} DoneStays(m: Machine, events: seq<Event>, i: Inputs, z: nat, n: nat)
    requires Inv(m, z) && Tuned(m, i) && i.zqc <= z < 0x1_0000 && Demanding(events, i) && n <= |events|
    requires Done(m.s, i)
    ensures var t := Run(m, events, n);
            Inv(t, z) && Tuned(t, i) && Done(t.s, i) && (m.s.valve ==> t.s.valve)
  {
    hide Left, Inv, Done, Tuned, Main, Tick;
    if n > 0 {
      DoneStays(m, events, i, z, n - 1);
      var u := Run(m, events, n - 1);
      match events[n - 1]
      case Second =>
        StepKeepsInv(u, Second, z);
        TickLowers(u, i);
      case Call =>
        StepKeepsInv(u, Call, z);
        CallKeeps(u, i);
      case MainStep(j) =>
        StepLowers(u, i, j, z);
    }
  }

  // ------------------------------------------------------------- the code

  /** The steps that may still follow. */
  function Rank(at: Place): nat {
    match at
    case Idle => 0
    case Begin => 20
    case Switch(_) => 1
    case Stop(left) => left + 1
    case Side(_, step) =>
      match step
      case Reset => 19
      case Water => 18
      case DelayTest => 17
      case DemandTest => 16
      case StartTest => 15
      case StartWork => 14
      case StartCycle => 13
      case StartPhase => 12
      case CycleTest => 11
      case WorkTest => 10
      case RestTest => 9
      case RestStop => 8
      case RestPhase => 7
      case StopTest => 6
      case NextTest => 5
      case NextWork => 4
      case NextCycle => 3
      case NextPhase => 2
      case NoneOff => 3
      case NonePhase => 2
  }

  lemma {:induction false} StepEnds(m: Machine, i: Inputs)
    requires !m.at.Idle?
    ensures Rank(Main(m, i).at) < Rank(m.at)
  {
  }

  /** The registers when the scan that is under way ends, with no timer in between. */
  function Finish(m: Machine, i: Inputs): State
    decreases Rank(m.at)
  {
    if m.at.Idle? then m.s
    else
      StepEnds(m, i);
      Finish(Main(m, i), i)
  }

  lemma {:induction false} FinishStep(s: State, cold: bool, step: Step, i: Inputs)
    ensures Finish(Machine(s, Side(cold, step)), i) == Finish(Move(s, cold, step, i), i)
  {
    assert Main(Machine(s, Side(cold, step)), i) == Move(s, cold, step, i);
  }

  lemma {:induction false} FinishSwitch(s: State, on: bool, i: Inputs)
    ensures Finish(Machine(s, Switch(on)), i) == Valve(s, on, i)
  {
    assert Main(Machine(s, Switch(on)), i) == Machine(Valve(s, on, i), Idle);
  }

  lemma {:induction false} FinishBegin(s: State, i: Inputs)
    ensures Finish(Machine(s, Begin), i)
            == if i.enabled then Finish(Machine(s, Side(ColdSide(i), Reset)), i) else Valve(s, false, i)
  {
    FinishSwitch(s, false, i);
  }

  lemma {:induction false} FinishIdle(s: State, i: Inputs)
    ensures Finish(Machine(s, Idle), i) == s
  {
  }

  // ------------------------------------------------------------- what a scan does

  lemma {:induction false} FromRest(s: State, c: bool, i: Inputs)
    requires s.work == 0 && 1 <= Phase(s, c) <= 2
    ensures var rest := if Phase(s, c) == 1 then Minus16(i.zqs, i.gzs) else s.stop;
            var u := WithPhase(s.(stop := rest), c, 2);
            Finish(Machine(s, Side(c, RestTest)), i) ==
              if rest > 0 then Valve(u, false, i)
              else WithPhase(u.(work := i.gzs, cycle := (s.cycle + 1) % 0x1_0000), c, 1)
  {
    hide Finish, Valve, Minus16;
    var rest := if Phase(s, c) == 1 then Minus16(i.zqs, i.gzs) else s.stop;
    var v := s.(stop := rest);
    var u := WithPhase(v, c, 2);
    FinishStep(s, c, RestTest, i);
    FinishStep(s, c, RestStop, i);
    FinishStep(v, c, RestPhase, i);
    FinishStep(u, c, StopTest, i);
    FinishSwitch(u, false, i);
    if rest == 0 {
      FromNext(u, c, i);
    }
  }

  lemma {:induction false} FromNext(u: State, c: bool, i: Inputs)
    requires Phase(u, c) == 2
    ensures Finish(Machine(u, Side(c, NextTest)), i)
            == WithPhase(u.(work := i.gzs, cycle := (u.cycle + 1) % 0x1_0000), c, 1)
  {
    hide Finish;
    var w := u.(work := i.gzs);
    var x := w.(cycle := (u.cycle + 1) % 0x1_0000);
    FinishStep(u, c, NextTest, i);
    FinishStep(u, c, NextWork, i);
    FinishStep(w, c, NextCycle, i);
    FinishStep(x, c, NextPhase, i);
    FinishIdle(WithPhase(x, c, 1), i);
  }

  lemma {:induction false} FromCycle(s: State, c: bool, i: Inputs)
    ensures Finish(Machine(s, Side(c, CycleTest)), i) ==
            if s.cycle >= i.zqc || s.work > 0 then Valve(s, true, i) else Finish(Machine(s, Side(c, RestTest)), i)
  {
    hide Finish, Valve;
    FinishStep(s, c, CycleTest, i);
    FinishStep(s, c, WorkTest, i);
    FinishSwitch(s, true, i);
  }

  /** The registers with which a scan goes to work: a first one begins the first cycle. */
  function Begun(s: State, c: bool, i: Inputs): State {
    if Phase(s, c) == 0 then WithPhase(s.(work := i.gzs, cycle := 0), c, 1) else s
  }

  lemma {:induction false} FromStart(s: State, c: bool, i: Inputs)
    ensures Finish(Machine(s, Side(c, StartTest)), i) == Finish(Machine(Begun(s, c, i), Side(c, CycleTest)), i)
  {
    hide Finish;
    FinishStep(s, c, StartTest, i);
    FinishStep(s, c, StartWork, i);
    FinishStep(s.(work := i.gzs), c, StartCycle, i);
    FinishStep(s.(work := i.gzs, cycle := 0), c, StartPhase, i);
  }

  /** The registers with the other side reset and the water chosen. */
  function Chosen(s: State, c: bool): State {
    WithPhase(s, !c, 0).(hotWater := !c)
  }

  lemma {:induction false} FromBegin(s: State, i: Inputs)
    requires i.enabled
    ensures var c := ColdSide(i);
            Finish(Machine(s, Begin), i) ==
              if s.delay > 0 then Chosen(s, c)
              else if Demand(c, i) then Finish(Machine(Chosen(s, c), Side(c, StartTest)), i)
              else WithPhase(Valve(Chosen(s, c), false, i), c, 0)
  {
    hide Finish, Valve;
    var c := ColdSide(i);
    var r, t := WithPhase(s, !c, 0), Chosen(s, c);
    FinishBegin(s, i);
    FinishStep(s, c, Reset, i);
    FinishStep(r, c, Water, i);
    FinishStep(t, c, DelayTest, i);
    FinishIdle(t, i);
    FinishStep(t, c, DemandTest, i);
    FinishStep(t, c, NoneOff, i);
    FinishStep(Valve(t, false, i), c, NonePhase, i);
    FinishIdle(WithPhase(Valve(t, false, i), c, 0), i);
  }

  /** A whole scan chooses the water and resets the other side; disabled it does neither. */
  lemma {:induction false} ScanChooses(s: State, i: Inputs)
    requires s.cold <= 2 && s.hot <= 2
    ensures var t, c := Finish(Machine(s, Begin), i), ColdSide(i);
            if i.enabled then t.hotWater == !c && Phase(t, !c) == 0
            else t.hotWater == s.hotWater && t.cold == s.cold && t.hot == s.hot
  {
    hide Finish, Minus16;
    var c := ColdSide(i);
    FinishBegin(s, i);
    if i.enabled {
      FromBegin(s, i);
      if s.delay == 0 && Demand(c, i) {
        FromStart(Chosen(s, c), c, i);
        var u := Begun(Chosen(s, c), c, i);
        FromCycle(u, c, i);
        if u.cycle < i.zqc && u.work == 0 {
          FromRest(u, c, i);
        }
      }
    }
  }

  predicate Free(i: Inputs) {
    !i.testing && !i.alarm && !i.fanStopped
  }

  /** Disabled, or without demand, a whole scan turns the valve off; while the delay runs it leaves it. */
  lemma {:induction false} ScanTurnsOff(s: State, i: Inputs)
    requires Free(i)
    ensures var t := Finish(Machine(s, Begin), i);
            && (!i.enabled || (s.delay == 0 && !Demand(ColdSide(i), i)) ==> !t.valve)
            && (i.enabled && s.delay > 0 ==> t.valve == s.valve)
  {
    hide Finish;
    FinishBegin(s, i);
    if i.enabled {
      FromBegin(s, i);
    }
  }

  /** With demand and without a delay, a whole scan turns the valve on if work time is left or the
      cycles are done; off if the rest is not over, and the rest begins when the work is; and it
      begins the next cycle, with the valve as it is, when the rest is over. */
  lemma {:induction false} ScanServes(s: State, i: Inputs)
    requires Sustained(i) && s.delay == 0 && s.cold <= 2 && s.hot <= 2 && i.zqc < 0x1_0000 && s.cycle < 0x1_0000
    ensures var t, c := Finish(Machine(s, Begin), i), ColdSide(i);
            var first := Phase(s, c) == 0;
            var work, cycle := if first then i.gzs else s.work, if first then 0 else s.cycle;
            var rest := if Phase(s, c) == 2 then s.stop else Minus16(i.zqs, i.gzs);
            && t.delay == 0
            && (cycle >= i.zqc || work > 0 ==>
                  && t.valve && t.work == work && t.cycle == cycle && t.stop == s.stop
                  && Phase(t, c) == if first then 1 else Phase(s, c))
            && (cycle < i.zqc && work == 0 && rest > 0 ==>
                  !t.valve && t.work == 0 && t.cycle == cycle && Phase(t, c) == 2 && t.stop == rest)
            && (cycle < i.zqc && work == 0 && rest == 0 ==>
                  t.valve == s.valve && t.work == i.gzs && t.cycle == cycle + 1 && Phase(t, c) == 1 && t.stop == 0)
  {
    hide Finish, Minus16;
    var c := ColdSide(i);
    FromBegin(s, i);
    FromStart(Chosen(s, c), c, i);
    var u := Begun(Chosen(s, c), c, i);
    FromCycle(u, c, i);
    if u.cycle < i.zqc && u.work == 0 {
      FromRest(u, c, i);
    }
  }

  /** From its day on the water is cooled and before it is heated: past the setting the valve is off,
      short of it the valve is on while work time is left and when the cycles are done. */
  lemma {:induction false} ScanRegulates(s: State, i: Inputs)
    requires Free(i) && i.enabled && s.delay == 0 && s.cold <= 2 && s.hot <= 2
    requires Registers16(i) && s.cycle < 0x1_0000
    ensures var t := Finish(Machine(s, Begin), i);
            var wanted := if i.day < i.coolDay then i.current < i.setting else i.current > i.setting;
            var own := if i.day < i.coolDay then s.hot else s.cold;
            && (t.hotWater <==> i.day < i.coolDay)
            && (!wanted ==> !t.valve && t.cold == 0 && t.hot == 0)
            && (wanted && (if own == 0 then i.gzs > 0 else s.work > 0 || s.cycle >= i.zqc) ==> t.valve)
            && (wanted && i.zqc == 0 ==> t.valve)
  {
    hide Finish, Minus16;
    ScanChooses(s, i);
    FromBegin(s, i);
    if Demand(ColdSide(i), i) {
      ScanServes(s, i);
    }
  }

  /** A halt ends both phases and starts the delay, whatever is read meanwhile. */
  lemma {:induction false} HaltResets(s: State, i: Inputs, j: Inputs, k: Inputs)
    ensures Main(Main(Main(Apply(Machine(s, Idle), Halt), i), j), k) ==
            Machine(s.(cold := 0, hot := 0, delay := 30), Idle)
  {
  }

  lemma {:induction false} DelayedScans(s: State, i: Inputs, k: nat)
    requires i.enabled && s.delay > 0
    ensures var t := Scans(s, i, k); t.valve == s.valve && t.delay == s.delay
  {
    hide Finish;
    if k > 0 {
      DelayedScans(s, i, k - 1);
      FromBegin(Scans(s, i, k - 1), i);
    }
  }

  /** For as many seconds as the delay says, no scan of an enabled channel touches the valve. */
  lemma {:induction false} DelayHolds(s: State, i: Inputs, ks: seq<nat>, n: nat)
    requires i.enabled && n <= s.delay && n <= |ks|
    ensures var t := Seconds(s, i, ks, n); t.valve == s.valve && t.delay == s.delay - n
  {
    hide Scans;
    if n > 0 {
      DelayHolds(s, i, ks, n - 1);
      DelayedScans(Seconds(s, i, ks, n - 1), i, ks[n - 1]);
    }
  }

  /** Work and rest together take the cycle time, or 65536 seconds longer when the work time exceeds it. */
  lemma {:induction false} CycleLasts(i: Inputs)
    requires Registers16(i)
    ensures i.gzs + Minus16(i.zqs, i.gzs) == if i.gzs <= i.zqs then i.zqs else i.zqs + 0x1_0000
  {
  }

  /** Without a work time no scan turns the valve on before the cycles are done. */
  lemma {:induction false} NoWorkTime(s: State, i: Inputs)
    requires Sustained(i) && s.delay == 0 && s.cold <= 2 && s.hot <= 2 && s.cycle < i.zqc
    requires i.gzs == 0 && s.work == 0
    ensures var t := Finish(Machine(s, Begin), i); (t.valve ==> s.valve) && t.work == 0 && t.cycle <= i.zqc
  {
    hide Finish, Minus16;
    ScanServes(s, i);
  }

  /** Seen from afterwards, in every state the runs reach: the valve is on while work time is left or
      when the cycles are done, unless the scan has just begun the cycle; off in a rest. */
  lemma {:induction false} ValveAfterScan(s: State, i: Inputs, z: nat)
    requires Inv(Machine(s, Idle), z) && z < 0x1_0000 && Sustained(i) && s.delay == 0
    ensures var t, c := Finish(Machine(s, Begin), i), ColdSide(i);
            var same := t.cycle == if Phase(s, c) == 0 then 0 else s.cycle;
            && (same && (t.cycle >= i.zqc || (Phase(t, c) == 1 && t.work > 0)) ==> t.valve)
            && (Phase(t, c) == 2 && t.stop > 0 && t.cycle < i.zqc ==> !t.valve)
  {
    hide Finish, Minus16;
    ScanServes(s, i);
  }

  lemma {:induction false} MoveReasons(s: State, c: bool, step: Step, i: Inputs)
    ensures var t := Move(s, c, step, i);
            && (t.at == Switch(true) ==>
                  (step.CycleTest? && s.cycle >= i.zqc) || (step.WorkTest? && s.work > 0))
            && (t.at == Switch(false) ==> step.StopTest? && s.stop > 0)
            && (!step.NoneOff? ==> t.s.valve == s.valve)
            && (step.NoneOff? && Free(i) ==> !t.s.valve)
            && (i.testing || i.alarm ==> t.s.valve == s.valve)
            && (i.fanStopped ==> (t.s.valve ==> s.valve))
  {
    hide Minus16;
  }

  /** Wherever the timer comes in between: only a step that finds work time left or the cycles done
      sends the scan to turn the valve on, and only one that finds the rest running, or the channel
      disabled, sends it to turn it off; no other step but the one without demand touches it.  In test
      mode or with the alarm it stays as it is, and with the fan stopped it is not turned on. */
  lemma {:induction false} ValveReasons(m: Machine, i: Inputs)
    ensures var t := Main(m, i);
            && (m.at.Side? && t.at == Switch(true) ==>
                  (m.at.step.CycleTest? && m.s.cycle >= i.zqc) || (m.at.step.WorkTest? && m.s.work > 0))
            && (m.at.Side? && t.at == Switch(false) ==> m.at.step.StopTest? && m.s.stop > 0)
            && (!m.at.Side? && t.at.Switch? ==> m.at.Begin? && !i.enabled && t.at == Switch(false))
            && (!m.at.Switch? && !(m.at.Side? && m.at.step.NoneOff?) ==> t.s.valve == m.s.valve)
            && (m.at.Switch? && Free(i) ==> t.s.valve == m.at.on)
            && (m.at.Side? && m.at.step.NoneOff? && Free(i) ==> !t.s.valve)
            && (i.testing || i.alarm ==> t.s.valve == m.s.valve)
            && (i.fanStopped ==> (t.s.valve ==> m.s.valve))
  {
    hide Move;
    if m.at.Side? {
      MoveReasons(m.s, m.at.cold, m.at.step, i);
    }
  }

  // ------------------------------------------------------------- what the cycles look like

  /** k scans in a row. */
  function Scans(s: State, i: Inputs, k: nat): State {
    if k == 0 then s else Finish(Machine(Scans(s, i, k - 1), Begin), i)
  }

  /** The n-th second has ks[n] scans, and a tick at its end. */
  function Seconds(s: State, i: Inputs, ks: seq<nat>, n: nat): State
    requires n <= |ks|
  {
    if n == 0 then s else Tick(Scans(Seconds(s, i, ks, n - 1), i, ks[n - 1]))
  }

  /** A further scan before the next tick changes nothing but the valve. */
  lemma {:induction false} AgainTheSame(t: State, i: Inputs)
    requires Sustained(i) && t.delay == 0 && t.hotWater == !ColdSide(i)
    requires Phase(t, !ColdSide(i)) == 0 && 1 <= Phase(t, ColdSide(i)) <= 2
    ensures t.cycle >= i.zqc || t.work > 0 ==> Finish(Machine(t, Begin), i) == t.(valve := true)
    ensures t.cycle < i.zqc && t.work == 0 && Phase(t, ColdSide(i)) == 2 && t.stop > 0 ==>
              Finish(Machine(t, Begin), i) == t.(valve := false)
  {
    hide Finish, Minus16;
    var c := ColdSide(i);
    FromBegin(t, i);
    assert Chosen(t, c) == t;
    FromStart(t, c, i);
    FromCycle(t, c, i);
    if t.cycle < i.zqc && t.work == 0 {
      FromRest(t, c, i);
    }
  }

  lemma {:induction false} MoreScans(s: State, i: Inputs, k: nat)
    requires Sustained(i) && k > 0 && var t, c := Scans(s, i, 1), ColdSide(i);
             && t.delay == 0 && t.hotWater == !c && Phase(t, !c) == 0 && 1 <= Phase(t, c) <= 2
             && (t.cycle >= i.zqc || t.work > 0 || (Phase(t, c) == 2 && t.stop > 0))
    ensures var t := Scans(s, i, 1);
            Scans(s, i, k) == if k == 1 then t else t.(valve := t.cycle >= i.zqc || t.work > 0)
    decreases k
  {
    hide Finish, Sustained;
    if k > 1 {
      MoreScans(s, i, k - 1);
      AgainTheSame(Scans(s, i, k - 1), i);
    }
  }

  /** The valve in second m of cycle q, counted from 1 and from 0, with k scans in it.  The scan that
      begins a later cycle leaves the valve as it is. */
  predicate ValveAt(i: Inputs, q: nat, m: nat, k: nat) {
    Minus16(i.zqs, i.gzs) == 0 || (m <= i.gzs && (m > 1 || q == 0 || k > 1))
  }

  /** The registers at the end of that second. */
  predicate Standing(t: State, i: Inputs, q: nat, m: nat, k: nat) {
    var c, rest := ColdSide(i), Minus16(i.zqs, i.gzs);
    && t.delay == 0 && t.hotWater == !c && Phase(t, !c) == 0 && t.cycle == q && t.valve == ValveAt(i, q, m, k)
    && if m <= i.gzs then Phase(t, c) == 1 && t.work == i.gzs - m
       else Phase(t, c) == 2 && t.work == 0 && t.stop == rest - (m - i.gzs)
  }

  /** A channel that has not begun. */
  predicate Unbegun(s: State, i: Inputs) {
    s.delay == 0 && Phase(s, ColdSide(i)) == 0 && s.cold <= 2 && s.hot <= 2 && s.cycle < 0x1_0000
  }

  lemma {:induction false} FirstSecond(s: State, i: Inputs, k: nat)
    requires Sustained(i) && Unbegun(s, i) && i.gzs > 0 && k > 0
    ensures Standing(Tick(Scans(s, i, k)), i, 0, 1, k)
  {
    hide Finish, Minus16;
    assert Scans(s, i, 1) == Finish(Machine(Scans(s, i, 0), Begin), i);
    ScanServes(s, i);
    ScanChooses(s, i);
    MoreScans(s, i, k);
  }

  lemma {:induction false} NextSecond(t: State, i: Inputs, q: nat, m: nat, j: nat, k: nat)
    requires Sustained(i) && i.gzs > 0 && k > 0 && q < i.zqc && 1 <= m <= i.gzs + Minus16(i.zqs, i.gzs)
    requires Standing(t, i, q, m, j)
    ensures var u := Tick(Scans(t, i, k));
            if m < i.gzs + Minus16(i.zqs, i.gzs) then Standing(u, i, q, m + 1, k) else Standing(u, i, q + 1, 1, k)
  {
    hide Finish, Minus16;
    assert Scans(t, i, 1) == Finish(Machine(Scans(t, i, 0), Begin), i);
    ScanServes(t, i);
    ScanChooses(t, i);
    MoreScans(t, i, k);
  }

  /** Under sustained demand, from a channel that has not begun, and with any number of scans in every
      second: cycle q takes the seconds from q times the work and rest time on, and in its second m the
      registers and the valve are as Standing says: on for the work time and off for the rest, but that
      a later cycle that begins in a second with just one scan is turned on a second late.  Without a
      rest the valve is always on. */
  lemma {:induction false} CycleTimes(s: State, i: Inputs, ks: seq<nat>, q: nat, m: nat)
    requires Sustained(i) && Unbegun(s, i) && i.gzs > 0 && forall n :: 0 <= n < |ks| ==> ks[n] > 0
    requires var period := i.gzs + Minus16(i.zqs, i.gzs);
             ((q < i.zqc && 1 <= m <= period) || (q == i.zqc && m == 1)) && q * period + m <= |ks|
    ensures var n := q * (i.gzs + Minus16(i.zqs, i.gzs)) + m;
            Standing(Seconds(s, i, ks, n), i, q, m, ks[n - 1])
    decreases q, m
  {
    hide Standing, Scans, Tick, Sustained, Minus16, Unbegun;
    var period := i.gzs + Minus16(i.zqs, i.gzs);
    var n := q * period + m;
    if q == 0 && m == 1 {
      FirstSecond(s, i, ks[0]);
      assert Seconds(s, i, ks, 1) == Tick(Scans(Seconds(s, i, ks, 0), i, ks[0]));
    } else if m > 1 {
      CycleTimes(s, i, ks, q, m - 1);
      NextSecond(Seconds(s, i, ks, n - 1), i, q, m - 1, ks[n - 2], ks[n - 1]);
    } else {
      assert q * period == (q - 1) * period + period;
      CycleTimes(s, i, ks, q - 1, period);
      NextSecond(Seconds(s, i, ks, n - 1), i, q - 1, period, ks[n - 2], ks[n - 1]);
    }
  }

  /** All cycles are done, and the valve is on. */
  predicate Through(t: State, i: Inputs) {
    && t.delay == 0 && t.cycle == i.zqc && t.hotWater == !ColdSide(i)
    && Phase(t, ColdSide(i)) == 1 && Phase(t, !ColdSide(i)) == 0 && t.valve
  }

  lemma {:induction false} DoneSecond(t: State, i: Inputs, k: nat)
    requires Sustained(i) && k > 0 && Through(t.(valve := true), i)
    ensures Through(Tick(Scans(t, i, k)), i)
  {
    hide Finish, Minus16;
    assert Scans(t, i, 1) == Finish(Machine(Scans(t, i, 0), Begin), i);
    AgainTheSame(t, i);
    MoreScans(t, i, k);
  }

  /** And from the second after the last cycle has begun, the valve is on for good. */
  lemma {:induction false} CyclesEnd(s: State, i: Inputs, ks: seq<nat>, n: nat)
    requires Sustained(i) && Unbegun(s, i) && i.gzs > 0 && forall n :: 0 <= n < |ks| ==> ks[n] > 0
    requires i.zqc * (i.gzs + Minus16(i.zqs, i.gzs)) + 1 < n <= |ks|
    ensures Through(Seconds(s, i, ks, n), i)
    decreases n
  {
    var last := i.zqc * (i.gzs + Minus16(i.zqs, i.gzs)) + 1;
    if n - 1 == last {
      CycleTimes(s, i, ks, i.zqc, 1);
    } else {
      CyclesEnd(s, i, ks, n - 1);
    }
    hide Scans, Tick, Sustained, Minus16, Unbegun;
    DoneSecond(Seconds(s, i, ks, n - 1), i, ks[n - 1]);
  }

  class Channel {
    var cold: nat
    var hot: nat
    var work: nat
    var stop: nat
    var cycle: nat
    var delay: nat
    var hotWater: bool
    var valve: bool

    ghost function Value(): State
      reads this
    {
      State(cold, hot, work, stop, cycle, delay, hotWater, valve)
    }

    constructor ()
      ensures Value() == START && Inv(Machine(START, Idle), 0)
    {
      cold, hot, work, stop, cycle, delay, hotWater, valve := 0, 0, 0, 0, 0, 0, false, false;
    }

    method ControlCool(on: bool, i: Inputs)
      modifies this
      ensures Value() == Valve(old(Value()), on, i)
    {
      if i.testing || i.alarm {
        return;
      }
      if i.fanStopped {
        valve := false;
        return;
      }
      valve := on;
    }

    method SetPhase(side: bool, phase: nat)
      modifies this
      ensures Value() == WithPhase(old(Value()), side, phase)
    {
      if side {
        cold := phase;
      } else {
        hot := phase;
      }
    }

    /** The first scan with demand starts the first cycle. */
    method Start(side: bool, i: Inputs)
      modifies this
      ensures Finish(Machine(Value(), Side(side, CycleTest)), i)
              == Finish(Machine(old(Value()), Side(side, StartWork)), i)
    {
      hide Finish;
      FinishStep(Value(), side, StartWork, i);
      work := i.gzs;
      FinishStep(Value(), side, StartCycle, i);
      cycle := 0;
      FinishStep(Value(), side, StartPhase, i);
      SetPhase(side, 1);
    }

    /** The work time is over. */
    method Rest(side: bool, i: Inputs)
      modifies this
      ensures Finish(Machine(Value(), Side(side, StopTest)), i)
              == Finish(Machine(old(Value()), Side(side, RestStop)), i)
    {
      hide Finish, Minus16;
      FinishStep(Value(), side, RestStop, i);
      stop := Minus16(i.zqs, i.gzs);
      FinishStep(Value(), side, RestPhase, i);
      SetPhase(side, 2);
    }

    /** The stop time is over. */
    method Renew(side: bool, i: Inputs)
      modifies this
      ensures Value() == Finish(Machine(old(Value()), Side(side, NextWork)), i)
    {
      hide Finish;
      FinishStep(Value(), side, NextWork, i);
      work := i.gzs;
      FinishStep(Value(), side, NextCycle, i);
      cycle := (cycle + 1) % 0x1_0000;
      FinishStep(Value(), side, NextPhase, i);
      SetPhase(side, 1);
      FinishIdle(Value(), i);
    }

    /** What either side does with demand and with cycles left. */
    method Work(side: bool, i: Inputs)
      modifies this
      ensures Value() == Finish(Machine(old(Value()), Side(side, WorkTest)), i)
    {
      hide Finish, Valve, Minus16;
      FinishStep(Value(), side, WorkTest, i);
      if work > 0 {
        FinishSwitch(Value(), true, i);
        ControlCool(true, i);
        return;
      }
      FinishStep(Value(), side, RestTest, i);
      if (if side then cold else hot) == 1 {
        Rest(side, i);
      }
      FinishStep(Value(), side, StopTest, i);
      if stop > 0 {
        FinishSwitch(Value(), false, i);
        ControlCool(false, i);
      } else {
        FinishStep(Value(), side, NextTest, i);
        FinishIdle(Value(), i);
        if (if side then cold else hot) == 2 {
          Renew(side, i);
        }
      }
    }

    /** What either side does when the delay is over. */
    method Serve(side: bool, i: Inputs)
      modifies this
      ensures Value() == Finish(Machine(old(Value()), Side(side, DemandTest)), i)
    {
      hide Finish, Valve, Minus16;
      FinishStep(Value(), side, DemandTest, i);
      if (if side then i.current > i.setting else i.current < i.setting) {
        FinishStep(Value(), side, StartTest, i);
        if (if side then cold else hot) == 0 {
          Start(side, i);
        }
        FinishStep(Value(), side, CycleTest, i);
        if cycle < i.zqc {
          Work(side, i);
        } else {
          FinishSwitch(Value(), true, i);
          ControlCool(true, i);
        }
      } else {
        FinishStep(Value(), side, NoneOff, i);
        ControlCool(false, i);
        FinishStep(Value(), side, NonePhase, i);
        SetPhase(side, 0);
        FinishIdle(Value(), i);
      }
    }

    /** normal_logic_process_retemp1_func; run alone, it makes the single steps to their end. */
    method ScanOnce(i: Inputs)
      modifies this
      ensures Value() == Finish(Machine(old(Value()), Begin), i)
    {
      hide Finish, Valve, Minus16;
      FinishBegin(Value(), i);
      if !i.enabled {
        ControlCool(false, i);
        return;
      }
      var side := i.day >= i.coolDay;
      FinishStep(Value(), side, Reset, i);
      SetPhase(!side, 0);
      FinishStep(Value(), side, Water, i);
      hotWater := !side;
      FinishStep(Value(), side, DelayTest, i);
      FinishIdle(Value(), i);
      if delay == 0 {
        Serve(side, i);
      }
    }

    /** The channel's part of the timer. */
    method CountDown()
      modifies this
      ensures Value() == Tick(old(Value()))
    {
      if work > 0 {
        work := work - 1;
      }
      if stop > 0 {
        stop := stop - 1;
      }
      if delay > 0 {
        delay := delay - 1;
      }
    }
  }
}
