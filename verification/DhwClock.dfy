/** What the hot-water schedule and its energy forecast both read (src/dhw_policy.py):
    the local clock, the per-date decisions, and the per-slot phase and target.
    Instants are minutes on a local clock with a fixed offset. */
module DhwClock {
  import opened Common

  const DAY_M: int := 1440
  const SLOT_M: int := 30

  datatype Mode = Normal | Guests | Vacation

  datatype Span = Span(start: int, end: int)

  /** The dynamic-window decision of a date. `extra` is the energy it budgets for the
      lift, when it recorded one. */
  datatype Decision = Decision(boostArm: bool, setbackHour: int, target: real, extra: Option<real>)

  /** The settings, and the per-date values as the readers return them: warmup hour and
      decision (persisted or static), raw early-setback key, stand-off window. */
  datatype Policy = Policy(
    warmupHour: int -> int, decision: int -> Decision, early: int -> Option<int>, standoff: int -> Option<Span>,
    normal: real, setback: real, boost: real, maxTemp: real, leadHours: real,
    tankPrecool: bool, precoolTarget: int, showerIn: Span -> bool)

  function DateOf(t: int): int { t / DAY_M }

  function HourOf(t: int): int { (t % DAY_M) / 60 }

  function At(d: int, hour: int): int { d * DAY_M + hour * 60 }

  /** Hours are wall-clock hours and a stand-off window stays within its date. */
  ghost predicate Sane(p: Policy) {
    (forall d :: 0 <= p.warmupHour(d) < 24 && 0 <= p.decision(d).setbackHour < 24)
    && forall d :: p.standoff(d).Some? ==> At(d, 0) <= p.standoff(d).value.start < p.standoff(d).value.end <= At(d + 1, 0)
  }

  function WarmupAt(p: Policy, d: int): int { At(d, p.warmupHour(d)) }

  function SetbackAt(p: Policy, d: int): int { At(d, p.decision(d).setbackHour) }

  /** The early-setback key of a date, ignored unless strictly inside the warmup. */
  function EarlySetback(p: Policy, d: int): Option<int> {
    match p.early(d)
    case Some(ts) => if WarmupAt(p, d) < ts < SetbackAt(p, d) then Some(ts) else None
    case None => None
  }

  predicate EarlyActive(p: Policy, mode: Mode, t: int) {
    mode.Normal? && EarlySetback(p, DateOf(t)).Some? && t >= EarlySetback(p, DateOf(t)).value
  }

  predicate InStandoff(p: Policy, t: int) {
    var w := p.standoff(DateOf(t));
    w.Some? && w.value.start <= t < w.value.end
  }

  predicate InWarmupHours(p: Policy, t: int) {
    p.warmupHour(DateOf(t)) <= HourOf(t) < p.decision(DateOf(t)).setbackHour
  }

  // ------------------------------------------------------------- classification

  const EVENING_SHOWER_START_H: int := 20
  const EVENING_SHOWER_END_H: int := 22
  const GUESTS_SHOWER_START_H: int := 7
  const GUESTS_SHOWER_END_H: int := 9
  const STANDOFF_C: real := 60.0

  datatype Phase = Away | Transition | Shower | Maintenance | SetbackPhase

  predicate ShowerHour(mode: Mode, h: int) {
    EVENING_SHOWER_START_H <= h < EVENING_SHOWER_END_H
    || (mode.Guests? && GUESTS_SHOWER_START_H <= h < GUESTS_SHOWER_END_H)
  }

  /** _phase_for_slot */
  function PhaseOf(p: Policy, mode: Mode, t: int): Phase {
    if mode.Vacation? then Away
    else if EarlyActive(p, mode, t) then SetbackPhase
    else if ShowerHour(mode, HourOf(t)) then Shower
    else if mode.Guests? then Maintenance
    else if InStandoff(p, t) then SetbackPhase
    else if InWarmupHours(p, t) then if HourOf(t) == p.warmupHour(DateOf(t)) then Transition else Maintenance
    else SetbackPhase
  }

  /** The tank target of the slot starting at `t`, before boosts. */
  function TargetOf(p: Policy, mode: Mode, t: int): real {
    if mode.Vacation? then p.setback
    else if mode.Guests? then p.normal
    else if EarlyActive(p, mode, t) then p.setback
    else if InStandoff(p, t) then STANDOFF_C
    else if InWarmupHours(p, t) then p.decision(DateOf(t)).target
    else p.setback
  }

  /** Once an early setback has fired, the rest of its day is setback, showers and the
      stand-off included; otherwise the stand-off is at its own temperature, and only
      showers draw more than setback in it. */
  lemma EarlyThenStandoff(p: Policy, t: int)
    ensures var fired := EarlySetback(p, DateOf(t));
            if fired.Some? && fired.value <= t
            then PhaseOf(p, Normal, t) == SetbackPhase && TargetOf(p, Normal, t) == p.setback
            else InStandoff(p, t) ==>
                   TargetOf(p, Normal, t) == 60.0
                   && PhaseOf(p, Normal, t) == if 20 <= HourOf(t) <= 21 then Shower else SetbackPhase
  {}

  /** Guests: never colder than the usual temperature, with morning and evening showers. */
  lemma GuestsStayWarm(p: Policy, t: int)
    ensures TargetOf(p, Guests, t) >= p.normal
    ensures !EarlyActive(p, Guests, t)
    ensures PhaseOf(p, Guests, t) == if HourOf(t) in {7, 8, 20, 21} then Shower else Maintenance
  {}

  /** An early key counts only strictly inside the warmup of its date. */
  lemma EarlyOnlyShortens(p: Policy, d: int)
    ensures var e := EarlySetback(p, d);
            (e.Some? ==> e == p.early(d) && WarmupAt(p, d) < e.value < SetbackAt(p, d))
            && (e.None? <==> forall ts :: p.early(d) == Some(ts) ==> ts <= WarmupAt(p, d) || ts >= SetbackAt(p, d))
  {
    if p.early(d).Some? { assert p.early(d) == Some(p.early(d).value); }
  }

  // ------------------------------------------------------------------- calendar

  /** An instant of date `d` is before an hour mark of that date iff its hour is. */
  lemma HourMarks(t: int, d: int, hour: int)
    requires At(d, 0) <= t < At(d + 1, 0) && 0 <= hour < 24
    ensures DateOf(t) == d && (t < At(d, hour) <==> HourOf(t) < hour)
  {
    assert t / DAY_M == d;
    assert t == d * DAY_M + t % DAY_M;
  }

  /** Rounding to the nearest integer, ties to even. */
  function Round(x: real): int {
    var f := x.Floor;
    if x - f as real < 0.5 || (x - f as real == 0.5 && f % 2 == 0) then f else f + 1
  }

  /** No whole number is nearer, and of two as near it is the even one. */
  lemma RoundIsNearest(x: real, k: int)
    ensures AbsR(x - Round(x) as real) <= AbsR(x - k as real)
    ensures AbsR(x - Round(x) as real) == AbsR(x - k as real) && k != Round(x) ==> Round(x) % 2 == 0
  {
    var f := x.Floor;
    if k <= f { assert k as real <= f as real; } else { assert k as real >= f as real + 1.0; }
  }
}
