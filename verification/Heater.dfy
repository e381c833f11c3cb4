/** The duty of the main heater. */
module Heater {
  import opened CMath
  import opened Wrappers

  /** The registers that the duty depends on: the limits OHI and OLO, the range HHI and HLO,
      the temperature, its target and the band P. */
  datatype Settings = Settings(ohi: int, olo: int, hhi: int, hlo: int,
                               temperature: int, target: int, p: int)

  /** The duty before the limits, from 0 at HLO to 1000 at HHI. */
  function Scaled(pid: int, hhi: int, hlo: int): int
    requires hhi != hlo
  {
    Div(100 * (Div(pid, 10) - hlo * 10), hhi - hlo)
  }

  /** The limits in the order in which they are applied. */
  function Capped(duty: int, lo: int, hi: int): (r: int)
    ensures lo <= hi ==> lo <= r <= hi
    ensures lo <= duty <= hi ==> r == duty
  {
    if duty >= hi then hi else if duty <= lo then lo else duty
  }

  function Duty(pid: int, s: Settings): int
    requires s.hhi != s.hlo
  {
    if s.temperature >= s.target then 0
    else if s.temperature < s.target - Div(s.p, 2) then 10 * s.ohi
    else Capped(Scaled(pid, s.hhi, s.hlo), 10 * s.olo, 10 * s.ohi)
  }

  /** main_heater; None where it divides by zero, which it does for an empty range whatever the
      temperature is. */
  method MainHeater(pid: int, s: Settings) returns (result: Option<int>)
    ensures result == None <==> s.hhi == s.hlo
    ensures s.hhi != s.hlo ==> result == Some(Duty(pid, s))
    ensures result.Some? && s.olo <= s.ohi ==> result.value == 0 || 10 * s.olo <= result.value <= 10 * s.ohi
  {
    var hi, lo := 10 * s.ohi, 10 * s.olo;
    if s.hhi - s.hlo == 0 {
      return None;
    }
    var duty := Div(100 * (Div(pid, 10) - s.hlo * 10), s.hhi - s.hlo);
    if duty >= hi {
      duty := hi;
    } else if duty <= lo {
      duty := lo;
    }
    if s.temperature >= s.target {
      return Some(0);
    } else if s.temperature < s.target - Div(s.p, 2) {
      return Some(hi);
    }
    result := Some(duty);
  }

  /** Off at the target, at its upper limit below the band. */
  lemma {:induction false} DutyOutsideBand(pid: int, s: Settings)
    requires s.hhi != s.hlo && s.p >= 0
    ensures s.temperature >= s.target ==> Duty(pid, s) == 0
    ensures 2 * (s.target - s.temperature) > s.p + 1 ==> Duty(pid, s) == 10 * s.ohi
  {
    hide Scaled;
  }

  /** In between the duty is on the line from 0 at an output of 100 HLO to 1000 at 100 HHI, rounded
      towards 0. */
  lemma {:induction false} ScaledIsLinear(pid: int, hhi: int, hlo: int)
    requires hlo < hhi
    ensures var exact, range, d := 100 * (Div(pid, 10) - 10 * hlo), hhi - hlo, Scaled(pid, hhi, hlo);
            Abs(d) * range <= Abs(exact) < (Abs(d) + 1) * range && (d > 0 ==> exact > 0) && (d < 0 ==> exact < 0)
    ensures Scaled(100 * hlo, hhi, hlo) == 0 && Scaled(100 * hhi, hhi, hlo) == 1000
  {
    hide Div, Abs;
    DivRounds(100 * (Div(pid, 10) - hlo * 10), hhi - hlo);
    DivExact(10 * hlo, 10);
    DivExact(10 * hhi, 10);
    DivExact(0, hhi - hlo);
    DivExact(1000, hhi - hlo);
    assert 100 * (10 * hhi - hlo * 10) == 1000 * (hhi - hlo);
    assert 100 * (10 * hlo - hlo * 10) == 0 * (hhi - hlo);
  }

  lemma {:induction false} DutyInBand(pid: int, s: Settings)
    requires s.hhi != s.hlo && s.temperature < s.target && 2 * (s.target - s.temperature) <= s.p
    ensures var d := Scaled(pid, s.hhi, s.hlo);
            Duty(pid, s) == if d >= 10 * s.ohi then 10 * s.ohi else if d <= 10 * s.olo then 10 * s.olo else d
  {
    hide Scaled;
  }

  /** More control output never means less heat. */
  lemma {:induction false} DutyGrows(pid: int, more: int, s: Settings)
    requires pid <= more && s.hlo < s.hhi && s.olo <= s.ohi
    ensures Duty(pid, s) <= Duty(more, s)
  {
    hide Div;
    DivGrows(pid, more, 10);
    DivGrows(100 * (Div(pid, 10) - s.hlo * 10), 100 * (Div(more, 10) - s.hlo * 10), s.hhi - s.hlo);
  }

  /** A temperature that falls, with the output unchanged, never means less heat either: below
      the band the heater is at its limit, and at the target it is off. */
  lemma {:induction false} DutyFallsWithTemperature(pid: int, s: Settings, warmer: int)
    requires s.hhi != s.hlo && 0 <= s.olo <= s.ohi && s.p >= 0 && s.temperature <= warmer
    ensures Duty(pid, s.(temperature := warmer)) <= Duty(pid, s)
  {
    hide Scaled;
  }
}
