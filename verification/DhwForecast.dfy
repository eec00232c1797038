/** The pinned hot-water forecast (src/dhw_policy.py): all passes in order, and the proof
    that its loads always fit the heater. */
module DhwForecast {
  import opened Common
  import opened DhwClock
  import opened DhwPasses
  import opened DhwBoost
  import opened DhwRamp

  const TRANSITION_KWH: real := 0.45
  const MAINTENANCE_KWH: real := 0.06
  const SHOWER_KWH: real := 0.12
  const SETBACK_KWH: real := 0.03
  const COP: real := 3.0
  const JOULES_PER_KWH: real := 3600000.0

  /** Everything a forecast reads. `scale` is the trailing auto-scale, `factors` the shape
      table in force, `liftModel` the tank model's energy to reach a target. The
      stand-off is the schedule's own window, `policy.standoff`. */
  datatype Inputs = Inputs(
    policy: Policy, mode: Mode, scale: real, factors: map<int, real>, heaterKw: real, litres: real, cp: real,
    initial: Option<real>, price: Option<seq<real>>, liftModel: real -> real,
    legionellaKwh: real, legionellaOn: bool)

  // ---------------------------------------------------------------- the passes

  function Cap(inp: Inputs): real { MaxR(0.05, inp.heaterKw * 0.5) }

  function PhaseKwh(phase: Phase): real {
    match phase
    case Away => 0.0
    case Transition => TRANSITION_KWH
    case Shower => SHOWER_KWH
    case Maintenance => MAINTENANCE_KWH
    case SetbackPhase => SETBACK_KWH
  }

  function Phases(inp: Inputs, slots: seq<int>): (r: seq<Phase>)
    ensures |r| == |slots|
  {
    seq(|slots|, i requires 0 <= i < |slots| => PhaseOf(inp.policy, inp.mode, slots[i]))
  }

  function Factor(inp: Inputs, t: int): real {
    if HourOf(t) / 2 in inp.factors then inp.factors[HourOf(t) / 2] else 1.0
  }

  function ScaledKwh(inp: Inputs, t: int): real { PhaseKwh(PhaseOf(inp.policy, inp.mode, t)) * inp.scale }

  function ShapedKwh(inp: Inputs, t: int): real { ScaledKwh(inp, t) * Factor(inp, t) }

  /** Phase load, scaled, shaped, and clamped to the heater. */
  function CappedLoad(inp: Inputs, t: int): real { MinR(ShapedKwh(inp, t), Cap(inp)) }

  function CappedLoads(inp: Inputs, slots: seq<int>): (r: seq<real>)
    ensures |r| == |slots|
  {
    seq(|slots|, i requires 0 <= i < |slots| => CappedLoad(inp, slots[i]))
  }

  function Dates(slots: seq<int>): seq<int> {
    if |slots| == 0 then []
    else
      var rest, d := Dates(slots[..|slots| - 1]), DateOf(slots[|slots| - 1]);
      if d in rest then rest else rest + [d]
  }

  /** The energy a date's boost decision adds to its warmup hours. */
  function LiftKwh(inp: Inputs, d: int): real {
    var dec := inp.policy.decision(d);
    if !inp.mode.Normal? || !dec.boostArm || dec.target <= inp.policy.normal then 0.0
    else dec.extra.GetOr(inp.liftModel(dec.target))
  }

  function OpenSlots(inp: Inputs, slots: seq<int>, d: int): (r: seq<bool>)
    ensures |r| == |slots|
  {
    seq(|slots|, i requires 0 <= i < |slots| => DateOf(slots[i]) == d && InWarmupHours(inp.policy, slots[i]))
  }

  lemma {:induction false} FillKeepsLength(e: seq<real>, open: seq<bool>, cap: real, extra: real, i: nat)
    requires |open| == |e| && i <= |e|
    ensures |Fill(e, open, cap, extra, i).0| == |e|
    decreases |e| - i
  {
    if i < |e| {
      if !open[i] || cap - e[i] <= 0.0 {
        FillKeepsLength(e, open, cap, extra, i + 1);
      } else {
        var add := MinR(cap - e[i], extra);
        if extra - add > FIT_EPS { FillKeepsLength(e[i := e[i] + add], open, cap, extra - add, i + 1); }
      }
    }
  }

  lemma {:induction false} CreditKeepsLength(e: seq<real>, credit: real, i: nat)
    requires i <= |e|
    ensures |Credit(e, credit, i).0| == |e|
    decreases |e| - i
  {
    if i < |e| && credit > 0.0 {
      if e[i] <= 0.0 { CreditKeepsLength(e, credit, i + 1); }
      else { CreditKeepsLength(e[i := e[i] - MinR(e[i], credit)], credit - MinR(e[i], credit), i + 1); }
    }
  }

  function LiftedOn(inp: Inputs, slots: seq<int>, e: seq<real>, d: int): (r: seq<real>)
    requires |e| == |slots|
    ensures |r| == |e|
  {
    FillKeepsLength(e, OpenSlots(inp, slots, d), Cap(inp), LiftKwh(inp, d), 0);
    if LiftKwh(inp, d) > 0.0 then Fill(e, OpenSlots(inp, slots, d), Cap(inp), LiftKwh(inp, d), 0).0 else e
  }

  function Lifted(inp: Inputs, slots: seq<int>, e: seq<real>, dates: seq<int>): (r: seq<real>)
    requires |e| == |slots|
    ensures |r| == |e|
  {
    if |dates| == 0 then e else LiftedOn(inp, slots, Lifted(inp, slots, e, dates[..|dates| - 1]), dates[|dates| - 1])
  }

  /** Stored heat above the schedule, as electric energy. */
  function WarmKwh(inp: Inputs): real {
    if inp.initial.Some? && inp.initial.value > inp.policy.normal + 0.5
    then (inp.initial.value - inp.policy.normal) * inp.litres * inp.cp / JOULES_PER_KWH / COP else 0.0
  }

  function Credited(inp: Inputs, e: seq<real>): (r: seq<real>)
    ensures |r| == |e|
  {
    CreditKeepsLength(e, WarmKwh(inp), 0);
    Credit(e, WarmKwh(inp), 0).0
  }

  /** Targets per boundary, the last one repeated. */
  function Targets(inp: Inputs, slots: seq<int>): (r: seq<real>)
    requires |slots| > 0
    ensures |r| == |slots| + 1
  {
    seq(|slots| + 1, i requires 0 <= i <= |slots| =>
      TargetOf(inp.policy, inp.mode, slots[if i < |slots| then i else |slots| - 1]))
  }

  /** The line of targets has the slots' targets, and ends where the last slot's is. */
  lemma TargetsFollow(inp: Inputs, slots: seq<int>, i: nat)
    requires |slots| > 0 && i < |slots|
    ensures Targets(inp, slots)[i] == TargetOf(inp.policy, inp.mode, slots[i])
    ensures Targets(inp, slots)[|slots|] == Targets(inp, slots)[|slots| - 1]
  {}

  function ElecPerDegree(inp: Inputs): real { inp.litres * inp.cp / JOULES_PER_KWH / COP }

  function HeaterOf(inp: Inputs): Heater {
    Heater(Cap(inp), ElecPerDegree(inp), inp.policy.setback, MinR(inp.policy.boost, inp.policy.maxTemp),
           (MaxR(0.0, inp.policy.leadHours) * 2.0).Floor, SETBACK_KWH * inp.scale, MAINTENANCE_KWH * inp.scale)
  }

  predicate Pays(inp: Inputs, n: nat) { inp.price.Some? && |inp.price.value| == n && !inp.mode.Vacation? }

  /** The firmware's weekly cycle: at least its share of the budget, at most the cap. */
  function Budgeted(inp: Inputs, slots: seq<int>, e: seq<real>): (r: seq<real>)
    requires |e| == |slots|
    ensures |r| == |e|
  {
    var k := Standoffs(inp, slots);
    seq(|e|, i requires 0 <= i < |e| =>
      if BudgetOn(inp) && k > 0 && InStandoff(inp.policy, slots[i])
      then MinR(Cap(inp), MaxR(e[i], MinR(Cap(inp), inp.legionellaKwh / k as real))) else e[i])
  }

  predicate BudgetOn(inp: Inputs) { inp.legionellaOn && inp.legionellaKwh > 0.0 }

  function Standoffs(inp: Inputs, slots: seq<int>): nat {
    if |slots| == 0 then 0 else Standoffs(inp, slots[..|slots| - 1]) + if InStandoff(inp.policy, slots[|slots| - 1]) then 1 else 0
  }

  /** Loads and targets before the paid windows. */
  function Unpaid(inp: Inputs, slots: seq<int>): (r: Plan)
    requires |slots| > 0
    ensures |r.e| == |slots| && |r.temps| == |slots| + 1
  {
    Plan(Credited(inp, Lifted(inp, slots, CappedLoads(inp, slots), Dates(slots))), Targets(inp, slots))
  }

  /** The paid windows of a line, and the plan after them. */
  ghost predicate Paid(inp: Inputs, slots: seq<int>, ws: seq<Run>, plan: Plan)
    requires |slots| > 0
  {
    if Pays(inp, |slots|)
    then Scanned(inp.price.value, ws, |slots|) && DhwBoost.Inside(ws, |slots|)
         && plan == PassWindows(HeaterOf(inp), Phases(inp, slots), Unpaid(inp, slots), ws)
    else plan == Unpaid(inp, slots)
  }

  // ------------------------------------------------------------------- in place

  method ForecastLoads(inp: Inputs, slots: seq<int>)
    returns (e: seq<real>, temps: seq<real>, ghost ws: seq<Run>, ghost plan: Plan)
    ensures |slots| == 0 ==> e == [] && temps == []
    ensures |slots| > 0 ==> Paid(inp, slots, ws, plan) && |plan.e| == |e| == |slots| && |temps| == |slots| + 1
    ensures |slots| > 0 ==> e == Budgeted(inp, slots, plan.e) && temps == plan.temps
    ensures |slots| > 0 && Plausible(inp) && HoldFits(inp) ==> Within(e, Cap(inp))
  {
    hide CappedLoads, Lifted, Targets, HeaterOf, PassWindows, Budgeted, WarmKwh, Scanned, Phases;
    ws, plan := [], Plan([], []);
    if |slots| == 0 { return [], [], ws, plan; }
    var load := BaseLoads(inp, slots);
    AddLifts(inp, slots, load);
    SpendWarmth(inp, load);
    var target := TargetLine(inp, slots);
    if Pays(inp, |slots|) {
      var runs := NegativeRuns(inp.price.value);
      ws := runs;
      RunsInside(inp.price.value, runs);
      PrecoolAndBoost(HeaterOf(inp), Phases(inp, slots), load, target, runs);
    }
    plan := Plan(load[..], target[..]);
    AddLegionella(inp, slots, load);
    e, temps := load[..], target[..];
    if Plausible(inp) && HoldFits(inp) { ForecastFits(inp, slots, ws, plan); }
  }

  lemma RunsInside(price: seq<real>, ws: seq<Run>)
    requires Scanned(price, ws, |price|)
    ensures DhwBoost.Inside(ws, |price|)
  {}

  method SpendWarmth(inp: Inputs, load: array<real>)
    modifies load
    ensures load[..] == Credited(inp, old(load[..]))
  {
    if inp.initial.Some? && inp.initial.value > inp.policy.normal + 0.5 {
      var _ := WarmCredit(load, WarmKwh(inp));
    }
  }

  method BaseLoads(inp: Inputs, slots: seq<int>) returns (load: array<real>)
    ensures fresh(load) && load[..] == CappedLoads(inp, slots)
  {
    hide ShapedKwh;
    load := new real[|slots|];
    var i := 0;
    while i < |slots|
      invariant 0 <= i <= |slots| && load[..i] == CappedLoads(inp, slots)[..i]
    {
      load[i] := MinR(ShapedKwh(inp, slots[i]), Cap(inp));
      i := i + 1;
    }
  }

  method TargetLine(inp: Inputs, slots: seq<int>) returns (target: array<real>)
    requires |slots| > 0
    ensures fresh(target) && target[..] == Targets(inp, slots)
  {
    target := new real[|slots| + 1];
    var i := 0;
    while i < |slots|
      invariant 0 <= i <= |slots| && target[..i] == Targets(inp, slots)[..i]
    {
      target[i] := TargetOf(inp.policy, inp.mode, slots[i]);
      i := i + 1;
    }
    assert target[i - 1] == target[..i][i - 1] == Targets(inp, slots)[i];
    target[i] := target[i - 1];
    assert target[..] == target[..i] + [target[i]] && Targets(inp, slots) == Targets(inp, slots)[..i] + [Targets(inp, slots)[i]];
  }

  method AddLifts(inp: Inputs, slots: seq<int>, load: array<real>)
    requires load.Length == |slots|
    modifies load
    ensures load[..] == Lifted(inp, slots, old(load[..]), Dates(slots))
  {
    var dates, i := Dates(slots), 0;
    while i < |dates|
      invariant 0 <= i <= |dates| && load[..] == Lifted(inp, slots, old(load[..]), dates[..i])
    {
      assert dates[..i + 1][..i] == dates[..i];
      var extra := LiftKwh(inp, dates[i]);
      if extra > 0.0 { var _ := LiftFill(load, OpenSlots(inp, slots, dates[i]), Cap(inp), extra); }
      i := i + 1;
    }
    assert dates[..i] == dates;
  }

  method AddLegionella(inp: Inputs, slots: seq<int>, load: array<real>)
    requires load.Length == |slots|
    modifies load
    ensures load[..] == Budgeted(inp, slots, old(load[..]))
  {
    ghost var done := Budgeted(inp, slots, load[..]);
    var k := Standoffs(inp, slots);
    if BudgetOn(inp) && k > 0 {
      var perSlot := MinR(Cap(inp), inp.legionellaKwh / k as real);
      var i := 0;
      while i < |slots|
        invariant 0 <= i <= |slots|
        invariant forall j :: 0 <= j < |slots| ==> load[j] == if j < i then done[j] else old(load[j])
      {
        if InStandoff(inp.policy, slots[i]) { load[i] := MinR(Cap(inp), MaxR(load[i], perSlot)); }
        i := i + 1;
      }
    }
    assert load[..] == done;
  }

  // ---------------------------------------------------------------- feasibility

  /** Non-negative settings. */
  ghost predicate Plausible(inp: Inputs) {
    inp.scale >= 0.0 && inp.litres >= 0.0 && inp.cp >= 0.0 && forall b :: b in inp.factors ==> inp.factors[b] >= 0.0
  }

  /** Holding a boosted tank must not need more than the heater has. */
  predicate HoldFits(inp: Inputs) { MAINTENANCE_KWH * inp.scale <= Cap(inp) }

  lemma CappedWithin(inp: Inputs, slots: seq<int>)
    requires Plausible(inp)
    ensures Within(CappedLoads(inp, slots), Cap(inp))
  {
    forall i | 0 <= i < |slots| ensures 0.0 <= CappedLoad(inp, slots[i]) <= Cap(inp) {
      ProductNonNegative(PhaseKwh(PhaseOf(inp.policy, inp.mode, slots[i])), inp.scale);
      ProductNonNegative(ScaledKwh(inp, slots[i]), Factor(inp, slots[i]));
    }
  }

  lemma {:induction false} LiftedWithin(inp: Inputs, slots: seq<int>, e: seq<real>, dates: seq<int>)
    requires |e| == |slots| && Within(e, Cap(inp))
    ensures Within(Lifted(inp, slots, e, dates), Cap(inp))
  {
    if |dates| > 0 {
      var n, d := |dates| - 1, dates[|dates| - 1];
      LiftedWithin(inp, slots, e, dates[..n]);
      var before := Lifted(inp, slots, e, dates[..n]);
      if LiftKwh(inp, d) > 0.0 {
        forall k | 0 <= k < |e| ensures 0.0 <= LiftedOn(inp, slots, before, d)[k] <= Cap(inp) {
          FillIsGreedy(before, OpenSlots(inp, slots, d), Cap(inp), LiftKwh(inp, d), 0, k);
        }
      }
    }
  }

  lemma CreditedWithin(inp: Inputs, e: seq<real>)
    requires Plausible(inp) && Within(e, Cap(inp))
    ensures Within(Credited(inp, e), Cap(inp))
  {
    WarmNonNegative(inp);
    forall k | 0 <= k < |e| ensures 0.0 <= Credited(inp, e)[k] <= Cap(inp) { CreditIsGreedy(e, WarmKwh(inp), 0, k); }
  }

  lemma WarmNonNegative(inp: Inputs)
    requires Plausible(inp)
    ensures WarmKwh(inp) >= 0.0 && ElecPerDegree(inp) >= 0.0
  {
    ProductNonNegative(inp.litres, inp.cp);
    if WarmKwh(inp) != 0.0 {
      ProductNonNegative(inp.initial.value - inp.policy.normal, inp.litres);
      ProductNonNegative((inp.initial.value - inp.policy.normal) * inp.litres, inp.cp);
    }
  }

  lemma HeaterPhysical(inp: Inputs)
    requires Plausible(inp)
    ensures Physical(HeaterOf(inp)) && (HeaterOf(inp).holdKwh <= HeaterOf(inp).cap <==> HoldFits(inp))
  {
    WarmNonNegative(inp);
  }

  lemma UnpaidWithin(inp: Inputs, slots: seq<int>)
    requires Plausible(inp) && |slots| > 0
    ensures Within(Unpaid(inp, slots).e, Cap(inp))
  {
    CappedWithin(inp, slots);
    LiftedWithin(inp, slots, CappedLoads(inp, slots), Dates(slots));
    CreditedWithin(inp, Lifted(inp, slots, CappedLoads(inp, slots), Dates(slots)));
  }

  lemma BudgetedWithin(inp: Inputs, slots: seq<int>, e: seq<real>)
    requires |e| == |slots| && Within(e, Cap(inp))
    ensures Within(Budgeted(inp, slots, e), Cap(inp))
  {}

  /** The pinned loads are always feasible: whatever the horizon, prices, tank start,
      decisions and shape table, every slot's load is between zero and the heater's cap,
      as long as holding the boosted tank fits the cap. */
  lemma ForecastFits(inp: Inputs, slots: seq<int>, ws: seq<Run>, plan: Plan)
    requires Plausible(inp) && HoldFits(inp) && |slots| > 0 && Paid(inp, slots, ws, plan)
    ensures |plan.e| == |slots| && |plan.temps| == |slots| + 1
    ensures Within(Budgeted(inp, slots, plan.e), Cap(inp))
  {
    UnpaidWithin(inp, slots);
    if Pays(inp, |slots|) {
      HeaterPhysical(inp);
      WindowsWithin(HeaterOf(inp), Phases(inp, slots), Unpaid(inp, slots), ws);
    }
    BudgetedWithin(inp, slots, plan.e);
  }

  /** Except on holiday, with a price for every slot, the plan runs through all paid
      windows: a slot is in one exactly when its price is negative. */
  lemma EveryPaidSlotIsRun(inp: Inputs, slots: seq<int>, ws: seq<Run>, plan: Plan, i: nat)
    requires inp.mode != Vacation && inp.price.Some? && |inp.price.value| == |slots| && i < |slots|
    requires Paid(inp, slots, ws, plan)
    ensures inp.price.value[i] < 0.0 <==> InSome(ws, i)
    ensures DhwBoost.Inside(ws, |slots|) && plan == PassWindows(HeaterOf(inp), Phases(inp, slots), Unpaid(inp, slots), ws)
  {}

  // ---------------------------------------------------------- the firmware's cycle

  /** Load of the stand-off slots. */
  function StandoffLoad(inp: Inputs, slots: seq<int>, e: seq<real>): real
    requires |e| == |slots|
  {
    if |slots| == 0 then 0.0
    else
      var n := |slots| - 1;
      StandoffLoad(inp, slots[..n], e[..n]) + if InStandoff(inp.policy, slots[n]) then e[n] else 0.0
  }

  function Times(k: nat, x: real): real { k as real * x }

  lemma {:induction false} StandoffLoadAtLeast(inp: Inputs, slots: seq<int>, e: seq<real>, share: real)
    requires |e| == |slots| && forall i :: 0 <= i < |slots| && InStandoff(inp.policy, slots[i]) ==> e[i] >= share
    ensures StandoffLoad(inp, slots, e) >= Times(Standoffs(inp, slots), share)
  {
    if |slots| > 0 {
      var n := |slots| - 1;
      StandoffLoadAtLeast(inp, slots[..n], e[..n], share);
      assert Times(Standoffs(inp, slots[..n]) + 1, share) == Times(Standoffs(inp, slots[..n]), share) + share;
    }
  }

  /** The weekly cycle is budgeted in full: the stand-off slots together carry at least
      the budget, or all the heater can draw in them if that is less. */
  lemma CycleIsBudgeted(inp: Inputs, slots: seq<int>, e: seq<real>)
    requires |e| == |slots| && inp.legionellaOn && inp.legionellaKwh > 0.0 && Standoffs(inp, slots) > 0
    ensures StandoffLoad(inp, slots, Budgeted(inp, slots, e))
            >= MinR(inp.legionellaKwh, Times(Standoffs(inp, slots), Cap(inp)))
  {
    var k := Standoffs(inp, slots);
    var perSlot := inp.legionellaKwh / k as real;
    assert Times(k, perSlot) == inp.legionellaKwh;
    StandoffLoadAtLeast(inp, slots, Budgeted(inp, slots, e), MinR(Cap(inp), perSlot));
    hide Times, Cap, Budgeted;
  }

  /** Only stand-off slots are raised, never past the heater, and a slot that is raised
      carries its share of the budget, or all the heater can draw. */
  lemma CycleRaisesItsShare(inp: Inputs, slots: seq<int>, e: seq<real>, i: nat)
    requires |e| == |slots| && i < |e| && 0.0 <= e[i] <= Cap(inp)
    ensures var k, after := Standoffs(inp, slots), Budgeted(inp, slots, e)[i];
            e[i] <= after <= Cap(inp)
            && (after != e[i] ==>
                  InStandoff(inp.policy, slots[i]) && inp.legionellaOn && inp.legionellaKwh > 0.0 && k > 0
                  && Times(k, after) == MinR(inp.legionellaKwh, Times(k, Cap(inp))))
  {
    var k := Standoffs(inp, slots);
    if k > 0 {
      assert Times(k, inp.legionellaKwh / k as real) == inp.legionellaKwh;
      TimesOrder(k, inp.legionellaKwh / k as real, Cap(inp));
    }
    hide Times, Cap, Standoffs;
  }

  lemma TimesOrder(k: nat, a: real, b: real)
    requires k > 0
    ensures a <= b <==> Times(k, a) <= Times(k, b)
  {
    if a <= b { ProductNonNegative(k as real, b - a); }
    else { assert k as real * (a - b) > 0.0; }
  }
}
