/** What the paid-window passes guarantee (src/dhw_policy.py): the ramp's closed form,
    energy that covers the planned rise, loads within the heater's cap, and the slots
    before a window that stay cool. */
module DhwRamp {
  import opened Common
  import opened DhwClock
  import opened DhwPasses
  import opened DhwBoost

  /** Constants a configuration can have: a positive cap and non-negative energies. */
  predicate Physical(h: Heater) { h.cap > 0.0 && h.elec >= 0.0 && h.coolKwh >= 0.0 && h.holdKwh >= 0.0 }

  lemma LiftNonNegative(h: Heater)
    requires Physical(h)
    ensures Lift(h) >= 0.0 && (h.elec > 0.0 ==> Lift(h) > 0.0 && Lift(h) * h.elec == h.cap)
  {
    if h.elec > 0.0 { assert h.cap / h.elec * h.elec == h.cap; }
  }

  // ---------------------------------------------------------------- closed form

  /** How far the heater lifts the tank in `j` slots. */
  function Climb(h: Heater, j: nat): real { j as real * Lift(h) }

  lemma ClimbStep(h: Heater, j: nat)
    requires Physical(h)
    ensures Climb(h, 0) == 0.0 && Climb(h, j + 1) == Climb(h, j) + Lift(h) && Climb(h, j) >= 0.0
  {
    LiftNonNegative(h);
    hide Lift;
  }

  /** Straight line up to the target. */
  function Line(h: Heater, entry: real, j: nat): real { MinR(h.target, entry + Climb(h, j)) }

  ghost predicate OnLine(h: Heater, entry: real, j: nat, cur: real) {
    cur == Line(h, entry, j) || (cur == h.target && entry + Climb(h, j) >= h.target - RAMP_EPS)
  }

  lemma {:induction false} RampOnLine(h: Heater, entry: real, j: nat)
    requires Physical(h) && entry <= h.target
    ensures OnLine(h, entry, j, Ramp(h, entry, j))
  {
    LiftNonNegative(h);
    ClimbStep(h, 0);
    hide Lift, Climb;
    if j > 0 {
      RampOnLine(h, entry, j - 1);
      ClimbStep(h, j - 1);
    }
  }

  /** The ramp is the straight line from the entry temperature, cut at the target, up to
      the rounding epsilon; it starts at the entry and never falls. */
  lemma RampClosedForm(h: Heater, entry: real, j: nat)
    requires Physical(h) && entry <= h.target
    ensures AbsR(Ramp(h, entry, j) - Line(h, entry, j)) <= RAMP_EPS
    ensures Ramp(h, entry, j) <= Ramp(h, entry, j + 1) <= h.target
  {
    RampOnLine(h, entry, j);
    LiftNonNegative(h);
    hide Lift, Climb;
  }

  // --------------------------------------------------------------------- energy

  lemma HeatMonotone(h: Heater, a: real, b: real)
    requires Physical(h) && a <= b
    ensures Heat(h, a) <= Heat(h, b) && Heat(h, 0.0) == 0.0
  {
    ProductMonotone(a, b, h.elec);
  }

  /** A slot that is not yet at the target asks for the energy of its rise, which one
      slot at full power covers. */
  lemma RiseFits(h: Heater, cur: real)
    requires Physical(h) && !AtTarget(h, cur)
    ensures 0.0 <= Heat(h, RampNext(h, cur) - cur) <= h.cap
  {
    LiftNonNegative(h);
    var rise := RampNext(h, cur) - cur;
    assert 0.0 <= rise <= Lift(h);
    HeatMonotone(h, 0.0, rise);
    HeatMonotone(h, rise, Lift(h));
    assert h.elec == 0.0 ==> Heat(h, Lift(h)) == 0.0;
  }

  /** Each boost slot budgets the energy of its planned rise, up to the epsilon. */
  lemma EnergyCoversRise(h: Heater, cur: real)
    requires Physical(h)
    ensures RampEnergy(h, cur) >= Heat(h, RampNext(h, cur) - cur) - Heat(h, RAMP_EPS)
  {
    HeatMonotone(h, 0.0, RAMP_EPS);
    if AtTarget(h, cur) { HeatMonotone(h, h.target - cur, RAMP_EPS); } else { RiseFits(h, cur); }
    hide Heat, Lift;
  }

  /** A boost slot's load is a load, and it fits the heater except in one branch: holding
      the target with a maintenance energy above the cap. */
  lemma RampEnergyFitsIff(h: Heater, cur: real)
    requires Physical(h)
    ensures RampEnergy(h, cur) >= 0.0
    ensures RampEnergy(h, cur) <= h.cap <==> !AtTarget(h, cur) || h.holdKwh <= h.cap
  {
    if !AtTarget(h, cur) { RiseFits(h, cur); }
    hide Heat, Lift;
  }

  lemma ReachesTarget(h: Heater, entry: real) returns (j: nat)
    requires Physical(h) && h.elec > 0.0
    ensures AtTarget(h, Ramp(h, entry, j))
  {
    LiftNonNegative(h);
    if entry >= h.target {
      j := 0;
    } else {
      var steps := (h.target - entry) / Lift(h);
      assert steps * Lift(h) == h.target - entry;
      j := steps.Floor + 1;
      ProductMonotone(steps, j as real, Lift(h));
      assert Climb(h, j) >= h.target - entry;
      RampOnLine(h, entry, j);
      hide Climb, Lift, Ramp;
    }
  }

  /** Exactly when boosting can never ask for more than the heater has: for a given
      configuration every ramp fits, whatever the entry and however long the window, if
      and only if the maintenance energy is within the cap. */
  lemma EveryRampFitsIff(h: Heater, entry: real)
    requires Physical(h) && h.elec > 0.0
    ensures (forall j: nat :: RampFits(h, entry, j)) <==> h.holdKwh <= h.cap
  {
    var j := ReachesTarget(h, entry);
    RampEnergyFitsIff(h, Ramp(h, entry, j));
    assert RampFits(h, entry, j) <==> h.holdKwh <= h.cap;
    forall k: nat | h.holdKwh <= h.cap ensures RampFits(h, entry, k) {
      RampEnergyFitsIff(h, Ramp(h, entry, k));
    }
  }

  /** When it is not within the cap, a long enough paid window does break the plan: from
      any tank temperature there is a window length whose last slot is over the cap. */
  lemma LongWindowBreaks(h: Heater, temp: real) returns (n: nat)
    requires Physical(h) && h.elec > 0.0 && h.holdKwh > h.cap
    ensures forall phases, plan :: Shaped(plan, n) && plan.temps[0] == temp ==> Breaks(h, phases, plan, n)
  {
    var j := ReachesTarget(h, Entry(h, temp));
    n := j + 1;
    RampEnergyFitsIff(h, Ramp(h, Entry(h, temp), j));
    forall phases, plan | Shaped(plan, n) && plan.temps[0] == temp ensures Breaks(h, phases, plan, n) {
      var ws := [Run(0, n - 1)];
      assert ws[..0] == [] && PassWindows(h, phases, plan, ws) == PassWindow(h, phases, plan, ws[0]);
    }
  }

  /** A plan of `n` slots, all of them paid, ends over the cap. */
  ghost predicate Breaks(h: Heater, phases: seq<Phase>, plan: Plan, n: nat) {
    n > 0 && Shaped(plan, n) && PassWindows(h, phases, plan, [Run(0, n - 1)]).e[n - 1] > h.cap
  }

  predicate RampFits(h: Heater, entry: real, j: nat) { RampEnergy(h, Ramp(h, entry, j)) <= h.cap }

  // --------------------------------------------------------------- all windows

  lemma WindowWithin(h: Heater, phases: seq<Phase>, plan: Plan, w: Run)
    requires Physical(h) && h.holdKwh <= h.cap && Within(plan.e, h.cap) && w.first < |plan.temps|
    ensures Within(PassWindow(h, phases, plan, w).e, h.cap)
  {
    var cooled := Precooled(h, phases, plan, w.first);
    var after := PassWindow(h, phases, plan, w);
    forall k | 0 <= k < |after.e| ensures 0.0 <= after.e[k] <= h.cap {
      assert 0.0 <= plan.e[k] <= h.cap;
      if InRun(w, k) { RampEnergyFitsIff(h, Ramp(h, Entry(h, cooled.temps[w.first]), k - w.first)); }
    }
  }

  /** All the windows together keep every load between zero and the cap. */
  lemma {:induction false} WindowsWithin(h: Heater, phases: seq<Phase>, plan: Plan, ws: seq<Run>)
    requires Physical(h) && h.holdKwh <= h.cap && Within(plan.e, h.cap)
    requires |plan.temps| == |plan.e| + 1 && DhwBoost.Inside(ws, |plan.e|)
    ensures Within(PassWindows(h, phases, plan, ws).e, h.cap)
  {
    if |ws| > 0 {
      var before := PassWindows(h, phases, plan, ws[..|ws| - 1]);
      WindowsWithin(h, phases, plan, ws[..|ws| - 1]);
      WindowWithin(h, phases, before, ws[|ws| - 1]);
    }
  }

  /** The plan inside window `w` is the ramp from its own first boundary. */
  ghost predicate Ramps(h: Heater, plan: Plan, w: Run) {
    |plan.temps| == |plan.e| + 1 && w.first <= w.last < |plan.e|
    && (forall k :: w.first <= k <= w.last + 1 ==> plan.temps[k] == Ramp(h, plan.temps[w.first], k - w.first))
    && (forall k :: w.first <= k <= w.last ==> plan.e[k] == RampEnergy(h, plan.temps[k]))
  }

  /** Later windows start more than the pre-cool span after this one. */
  ghost predicate ClearOfLater(h: Heater, ws: seq<Run>, a: nat) {
    a < |ws| && forall b :: a < b < |ws| ==> ws[b].first - h.precool > ws[a].last + 1
  }

  lemma LaterWindowSpares(h: Heater, phases: seq<Phase>, plan: Plan, w: Run, later: Run)
    requires Ramps(h, plan, w) && later.first <= later.last < |plan.e| && later.first - h.precool > w.last + 1
    ensures Ramps(h, PassWindow(h, phases, plan, later), w)
    ensures PassWindow(h, phases, plan, later).temps[w.first] == plan.temps[w.first]
  {
    var after := PassWindow(h, phases, plan, later);
    assert forall k :: w.first <= k <= w.last + 1 ==> after.temps[k] == plan.temps[k];
    assert forall k :: w.first <= k <= w.last ==> after.e[k] == plan.e[k];
    hide Ramp, RampEnergy, PassWindow;
  }

  lemma OwnPassRamps(h: Heater, phases: seq<Phase>, plan: Plan, w: Run)
    requires |plan.temps| == |plan.e| + 1 && w.first <= w.last < |plan.e|
    ensures Ramps(h, PassWindow(h, phases, plan, w), w)
    ensures h.precool > 0 ==> PassWindow(h, phases, plan, w).temps[w.first] <= h.setback
  {
    hide RampEnergy, RampNext;
    var after := PassWindow(h, phases, plan, w);
    var entry := Entry(h, Precooled(h, phases, plan, w.first).temps[w.first]);
    assert after.temps[w.first] == Ramp(h, entry, 0);
  }

  lemma {:induction false} RampsSurvive(h: Heater, phases: seq<Phase>, plan: Plan, ws: seq<Run>, a: nat)
    requires |plan.temps| == |plan.e| + 1 && DhwBoost.Inside(ws, |plan.e|) && ClearOfLater(h, ws, a)
    ensures Ramps(h, PassWindows(h, phases, plan, ws), ws[a])
    ensures h.precool > 0 ==> PassWindows(h, phases, plan, ws).temps[ws[a].first] <= h.setback
  {
    hide PassWindow, Ramps;
    var n := |ws| - 1;
    var before := PassWindows(h, phases, plan, ws[..n]);
    if a == n {
      OwnPassRamps(h, phases, before, ws[n]);
    } else {
      RampsSurvive(h, phases, plan, ws[..n], a);
      LaterWindowSpares(h, phases, before, ws[a], ws[n]);
    }
  }

  /** The boost ramp of the final plan, at each boundary of a window that later pre-cools
      cannot reach. From an entry at or below the target the boundary is on the straight
      line up to the target, up to the epsilon, the temperature never falls, and each slot
      budgets the energy of its rise; from an entry above it the plan is at the target
      from the next boundary on. A pre-cooled entry is at most the setback temperature. */
  lemma BoostRampHolds(h: Heater, phases: seq<Phase>, plan: Plan, ws: seq<Run>, a: nat, j: nat)
    requires Physical(h) && |plan.temps| == |plan.e| + 1 && DhwBoost.Inside(ws, |plan.e|) && ClearOfLater(h, ws, a)
    requires ws[a].first + j <= ws[a].last + 1
    ensures var final := PassWindows(h, phases, plan, ws);
            RampHoldsAt(h, final, ws[a], j) && (h.precool > 0 ==> final.temps[ws[a].first] <= h.setback)
  {
    RampsSurvive(h, phases, plan, ws, a);
    var final := PassWindows(h, phases, plan, ws);
    hide PassWindows;
    RampsHold(h, final, ws[a], j);
  }

  ghost predicate RampHoldsAt(h: Heater, plan: Plan, w: Run, j: nat)
    requires |plan.temps| == |plan.e| + 1 && w.first <= w.last < |plan.e| && w.first + j <= w.last + 1
  {
    var entry, k := plan.temps[w.first], w.first + j;
    if entry > h.target then j > 0 ==> plan.temps[k] == h.target
    else AbsR(plan.temps[k] - Line(h, entry, j)) <= RAMP_EPS
         && (k <= w.last ==>
               plan.temps[k] <= plan.temps[k + 1] <= h.target
               && plan.e[k] >= Heat(h, plan.temps[k + 1] - plan.temps[k]) - Heat(h, RAMP_EPS))
  }

  lemma {:induction false} RampFromAbove(h: Heater, entry: real, j: nat)
    requires entry > h.target && j > 0
    ensures Ramp(h, entry, j) == h.target
  {
    if j > 1 { RampFromAbove(h, entry, j - 1); }
  }

  lemma RampsHold(h: Heater, plan: Plan, w: Run, j: nat)
    requires Physical(h) && Ramps(h, plan, w) && w.first + j <= w.last + 1
    ensures RampHoldsAt(h, plan, w, j)
  {
    var entry := plan.temps[w.first];
    assert plan.temps[w.first + j] == Ramp(h, entry, j);
    if entry > h.target {
      if j > 0 { RampFromAbove(h, entry, j); }
    } else {
      RampClosedForm(h, entry, j);
      if w.first + j <= w.last {
        assert plan.temps[w.first + j + 1] == Ramp(h, entry, j + 1);
        EnergyCoversRise(h, Ramp(h, entry, j));
      }
    }
    hide Line, RampEnergy, RampNext, Heat;
  }

  // ------------------------------------------------------------- cool before it

  ghost predicate Cool(h: Heater, plan: Plan, k: nat) {
    k < |plan.e| && k < |plan.temps| && plan.e[k] <= h.coolKwh && plan.temps[k] <= h.setback
  }

  lemma LaterWindowKeepsCool(h: Heater, phases: seq<Phase>, plan: Plan, later: Run, k: nat)
    requires |plan.temps| == |plan.e| + 1 && Cool(h, plan, k) && k < later.first <= later.last < |plan.e|
    ensures Cool(h, PassWindow(h, phases, plan, later), k)
  {}

  /** A slot before a window and within its pre-cool span stays cool after all windows,
      unless it is a shower slot: no later window warms it again. */
  lemma {:induction false} PrecooledStaysCool(h: Heater, phases: seq<Phase>, plan: Plan, ws: seq<Run>, a: nat, k: nat)
    requires |plan.temps| == |plan.e| + 1 && DhwBoost.Inside(ws, |plan.e|) && Apart(ws) && a < |ws|
    requires |phases| == |plan.e| && PrecooledSlot(h, phases, ws[a].first, k)
    ensures Cool(h, PassWindows(h, phases, plan, ws), k)
  {
    var n := |ws| - 1;
    var before := PassWindows(h, phases, plan, ws[..n]);
    if a < n {
      PrecooledStaysCool(h, phases, plan, ws[..n], a, k);
      LaterWindowKeepsCool(h, phases, before, ws[n], k);
    }
  }

  /** Neither paid, nor cooled ahead of a window: outside every pre-cool span, or somebody
      showers. */
  ghost predicate LeftAlone(h: Heater, phases: seq<Phase>, ws: seq<Run>, k: nat)
    requires k < |phases|
  {
    !InSome(ws, k)
    && (phases[k] == Shower || forall i :: 0 <= i < |ws| ==> !(ws[i].first - h.precool <= k && k < ws[i].first))
  }

  /** Such a slot keeps the load it had, and the temperature unless it follows a window. */
  lemma {:induction false} LeftAloneStays(h: Heater, phases: seq<Phase>, plan: Plan, ws: seq<Run>, k: nat)
    requires |plan.temps| == |plan.e| + 1 && DhwBoost.Inside(ws, |plan.e|) && |phases| == |plan.e| && k < |phases|
    requires LeftAlone(h, phases, ws, k)
    ensures var after := PassWindows(h, phases, plan, ws);
            after.e[k] == plan.e[k]
            && ((forall i :: 0 <= i < |ws| ==> k != ws[i].last + 1) ==> after.temps[k] == plan.temps[k])
  {
    if |ws| > 0 {
      var n := |ws| - 1;
      var rest := ws[..n];
      assert ws == rest + [ws[n]];
      InSomeSnoc(rest, ws[n], k);
      LeftAloneStays(h, phases, plan, rest, k);
    }
  }

  /** A tank that holds no heat cannot be lifted: it stays where it came in, until it is at
      the target. */
  lemma {:induction false} NoTankNoLift(h: Heater, entry: real, j: nat)
    requires h.elec <= 0.0
    ensures Ramp(h, entry, j) == if AtTarget(h, entry) && j > 0 then h.target else entry
  {
    if j > 0 { NoTankNoLift(h, entry, j - 1); }
  }

  /** A slot that heats up budgets its rise and the standing loss, as far as the heater
      can draw it; one at the target the holding energy. */
  lemma EnergyIsRiseAndLoss(h: Heater, entry: real, j: nat)
    ensures var cur, next := Ramp(h, entry, j), Ramp(h, entry, j + 1);
            var kwh := RampEnergy(h, cur);
            if AtTarget(h, cur) then next == h.target && kwh == h.holdKwh
            else kwh <= h.cap && (kwh < h.cap ==> kwh - h.coolKwh == Heat(h, next - cur))
                 && (kwh == h.cap ==> Heat(h, next - cur) + h.coolKwh >= h.cap)
  {
    hide Heat;
  }
}
