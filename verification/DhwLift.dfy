/** What boost decisions and stored heat do to the forecast before the paid windows
    (src/dhw_policy.py:1827-1905): which slots are lifted, by how much in each date, and
    what a warm tank takes off again. */
module DhwLift {
  import opened Common
  import opened DhwClock
  import opened DhwPasses
  import opened DhwForecast

  /** The forecast before the warm credit. */
  function BeforeCredit(inp: Inputs, slots: seq<int>): (r: seq<real>)
    ensures |r| == |slots|
  {
    Lifted(inp, slots, CappedLoads(inp, slots), Dates(slots))
  }

  // ------------------------------------------------------------------ each date once

  lemma {:induction false} DatesOnce(slots: seq<int>)
    ensures forall i, j :: 0 <= i < j < |Dates(slots)| ==> Dates(slots)[i] != Dates(slots)[j]
    ensures forall k :: 0 <= k < |slots| ==> DateOf(slots[k]) in Dates(slots)
  {
    if |slots| > 0 { DatesOnce(slots[..|slots| - 1]); }
  }

  /** The fill reads and writes the open slots only. */
  lemma {:induction false} FillReadsOpen(a: seq<real>, b: seq<real>, open: seq<bool>, cap: real, extra: real, i: nat)
    requires |open| == |a| == |b| && i <= |a| && forall k :: 0 <= k < |a| && open[k] ==> a[k] == b[k]
    ensures var x, y := Fill(a, open, cap, extra, i).0, Fill(b, open, cap, extra, i).0;
            |x| == |y| == |a| && forall k :: 0 <= k < |a| && open[k] ==> x[k] == y[k]
    decreases |a| - i
  {
    if i < |a| {
      if !open[i] || cap - a[i] <= 0.0 {
        FillReadsOpen(a, b, open, cap, extra, i + 1);
      } else {
        var add := MinR(cap - a[i], extra);
        if extra - add > FIT_EPS {
          FillReadsOpen(a[i := a[i] + add], b[i := b[i] + add], open, cap, extra - add, i + 1);
        }
      }
    }
  }

  lemma FillSkipsClosed(e: seq<real>, open: seq<bool>, cap: real, extra: real, k: nat)
    requires |open| == |e| && extra > 0.0 && k < |e| && !open[k]
    ensures |Fill(e, open, cap, extra, 0).0| == |e| && Fill(e, open, cap, extra, 0).0[k] == e[k]
  {
    FillIsGreedy(e, open, cap, extra, 0, k);
  }

  lemma LiftSkips(inp: Inputs, slots: seq<int>, e: seq<real>, d: int, k: nat)
    requires |e| == |slots| && k < |e| && !OpenSlots(inp, slots, d)[k]
    ensures LiftedOn(inp, slots, e, d)[k] == e[k]
  {
    hide OpenSlots, LiftKwh, Fill;
    if LiftKwh(inp, d) > 0.0 { FillSkipsClosed(e, OpenSlots(inp, slots, d), Cap(inp), LiftKwh(inp, d), k); }
  }

  lemma LiftReadsDate(inp: Inputs, slots: seq<int>, a: seq<real>, b: seq<real>, d: int, k: nat)
    requires |a| == |b| == |slots| && k < |slots| && DateOf(slots[k]) == d
    requires forall j :: 0 <= j < |slots| && DateOf(slots[j]) == d ==> a[j] == b[j]
    ensures LiftedOn(inp, slots, a, d)[k] == LiftedOn(inp, slots, b, d)[k]
  {
    if LiftKwh(inp, d) > 0.0 {
      var open := OpenSlots(inp, slots, d);
      assert forall j :: 0 <= j < |slots| && open[j] ==> a[j] == b[j];
      FillReadsOpen(a, b, open, Cap(inp), LiftKwh(inp, d), 0);
      if !open[k] {
        LiftSkips(inp, slots, a, d, k);
        LiftSkips(inp, slots, b, d, k);
      }
    }
  }

  /** Lifting all dates in turn lifts each slot as its own date alone would. */
  lemma {:induction false} LiftsByDate(inp: Inputs, slots: seq<int>, e: seq<real>, dates: seq<int>)
    requires |e| == |slots| && forall i, j :: 0 <= i < j < |dates| ==> dates[i] != dates[j]
    ensures forall k :: 0 <= k < |slots| ==>
      Lifted(inp, slots, e, dates)[k]
      == if DateOf(slots[k]) in dates then LiftedOn(inp, slots, e, DateOf(slots[k]))[k] else e[k]
  {
    hide OpenSlots, LiftKwh, LiftedOn;
    if |dates| > 0 {
      var n := |dates| - 1;
      var d := dates[n];
      LiftsByDate(inp, slots, e, dates[..n]);
      var before := Lifted(inp, slots, e, dates[..n]);
      assert d !in dates[..n];
      forall k | 0 <= k < |slots|
        ensures Lifted(inp, slots, e, dates)[k]
                == if DateOf(slots[k]) in dates then LiftedOn(inp, slots, e, DateOf(slots[k]))[k] else e[k]
      {
        if DateOf(slots[k]) == d {
          LiftReadsDate(inp, slots, before, e, d, k);
        } else {
          NotOpen(inp, slots, d, k);
          LiftSkips(inp, slots, before, d, k);
          assert DateOf(slots[k]) in dates <==> DateOf(slots[k]) in dates[..n];
        }
      }
    }
  }

  lemma NotOpen(inp: Inputs, slots: seq<int>, d: int, k: nat)
    requires k < |slots| && DateOf(slots[k]) != d
    ensures !OpenSlots(inp, slots, d)[k]
  {}

  // -------------------------------------------------------------- which slots are lifted

  /** The date is in normal mode and its decision heats above the usual temperature. */
  predicate Boosts(inp: Inputs, d: int) {
    inp.mode == Normal && inp.policy.decision(d).boostArm && inp.policy.decision(d).target > inp.policy.normal
  }

  /** What the decision says that takes, or else what the tank model says. */
  function DecisionKwh(inp: Inputs, d: int): real {
    match inp.policy.decision(d).extra
    case Some(kwh) => kwh
    case None => inp.liftModel(inp.policy.decision(d).target)
  }

  /** From the warmup hour of the slot's date up to its setback hour. */
  predicate InWindow(inp: Inputs, t: int) {
    inp.policy.warmupHour(DateOf(t)) <= HourOf(t) && HourOf(t) < inp.policy.decision(DateOf(t)).setbackHour
  }

  predicate Poured(inp: Inputs, d: int) { Boosts(inp, d) && DecisionKwh(inp, d) > 0.0 }

  lemma PouredIff(inp: Inputs, d: int)
    ensures Poured(inp, d) <==> LiftKwh(inp, d) > 0.0
    ensures Poured(inp, d) ==> LiftKwh(inp, d) == DecisionKwh(inp, d)
  {}

  lemma OpenIff(inp: Inputs, slots: seq<int>, d: int, k: nat)
    requires k < |slots|
    ensures OpenSlots(inp, slots, d)[k] <==> DateOf(slots[k]) == d && InWindow(inp, slots[k])
  {}

  /** Before the warm credit a slot has its phase load, capped, or more; more only when
      its date boosts, from the warmup hour to the setback hour, never past the cap, and
      only once every earlier slot of that window is at the cap. */
  lemma LiftedSlot(inp: Inputs, slots: seq<int>, k: nat, j: nat)
    requires k < |slots| && j < |slots|
    ensures var base, e := CappedLoads(inp, slots), BeforeCredit(inp, slots);
            base[k] <= e[k] <= MaxR(base[k], Cap(inp))
            && (e[k] != base[k] ==> Poured(inp, DateOf(slots[k])) && InWindow(inp, slots[k]))
            && (e[k] != base[k] && j < k && DateOf(slots[j]) == DateOf(slots[k]) && InWindow(inp, slots[j])
                ==> e[j] >= Cap(inp))
  {
    var base, d := CappedLoads(inp, slots), DateOf(slots[k]);
    DatesOnce(slots);
    LiftsByDate(inp, slots, base, Dates(slots));
    PouredIff(inp, d);
    OpenIff(inp, slots, d, k);
    OpenIff(inp, slots, d, j);
    hide CappedLoads, OpenSlots, LiftKwh, Lifted, Dates, Cap, Fill, InWindow, Poured;
    if LiftKwh(inp, d) > 0.0 {
      FillIsGreedy(base, OpenSlots(inp, slots, d), Cap(inp), LiftKwh(inp, d), 0, k);
      FillIsGreedy(base, OpenSlots(inp, slots, d), Cap(inp), LiftKwh(inp, d), 0, j);
    }
  }

  // ------------------------------------------------------------------ how much a date gains

  /** Load of the slots of one date. */
  function DayLoad(slots: seq<int>, e: seq<real>, d: int): real
    requires |e| == |slots|
  {
    if |slots| == 0 then 0.0
    else
      var n := |slots| - 1;
      DayLoad(slots[..n], e[..n], d) + if DateOf(slots[n]) == d then e[n] else 0.0
  }

  /** What the heater could still draw in the window of one date, from slot `i` on. */
  function WindowRoom(inp: Inputs, slots: seq<int>, e: seq<real>, d: int, i: nat): real
    requires |e| == |slots| && i <= |slots|
    decreases |slots| - i
  {
    if i == |slots| then 0.0
    else (if DateOf(slots[i]) == d && InWindow(inp, slots[i]) then MaxR(0.0, Cap(inp) - e[i]) else 0.0)
         + WindowRoom(inp, slots, e, d, i + 1)
  }

  lemma {:induction false} RoomIsWindowRoom(inp: Inputs, slots: seq<int>, e: seq<real>, d: int, i: nat)
    requires |e| == |slots| && i <= |slots|
    ensures Room(e, OpenSlots(inp, slots, d), Cap(inp), i) == WindowRoom(inp, slots, e, d, i)
    decreases |slots| - i
  {
    if i < |slots| {
      RoomIsWindowRoom(inp, slots, e, d, i + 1);
      OpenIff(inp, slots, d, i);
      hide OpenSlots, InWindow;
    }
  }

  lemma {:induction false} DayLoadReadsDate(slots: seq<int>, a: seq<real>, b: seq<real>, d: int)
    requires |a| == |b| == |slots| && forall k :: 0 <= k < |slots| && DateOf(slots[k]) == d ==> a[k] == b[k]
    ensures DayLoad(slots, a, d) == DayLoad(slots, b, d)
  {
    if |slots| > 0 {
      var n := |slots| - 1;
      DayLoadReadsDate(slots[..n], a[..n], b[..n], d);
    }
  }

  /** Lines that differ on one date only differ in sum by what they do on it. */
  lemma {:induction false} SumByDate(slots: seq<int>, a: seq<real>, b: seq<real>, d: int)
    requires |a| == |b| == |slots| && forall k :: 0 <= k < |slots| && DateOf(slots[k]) != d ==> a[k] == b[k]
    ensures Sum(a) - Sum(b) == DayLoad(slots, a, d) - DayLoad(slots, b, d)
  {
    if |slots| > 0 {
      var n := |slots| - 1;
      SumByDate(slots[..n], a[..n], b[..n], d);
    }
  }

  /** The lift of a date over its phase loads, before the warm credit: the smaller of what
      its decision asks for and what its window still holds, up to the stopping epsilon;
      nothing when the date does not boost. */
  lemma DayGainsLift(inp: Inputs, slots: seq<int>, d: int)
    ensures var base := CappedLoads(inp, slots);
            var gain := DayLoad(slots, BeforeCredit(inp, slots), d) - DayLoad(slots, base, d);
            if Poured(inp, d)
            then var most := MinR(DecisionKwh(inp, d), WindowRoom(inp, slots, base, d, 0));
                 most - 0.000000001 <= gain <= most
            else gain == 0.0
  {
    var base, open := CappedLoads(inp, slots), OpenSlots(inp, slots, d);
    var one := LiftedOn(inp, slots, base, d);
    DatesOnce(slots);
    LiftsByDate(inp, slots, base, Dates(slots));
    PouredIff(inp, d);
    forall k | 0 <= k < |slots| && DateOf(slots[k]) != d ensures one[k] == base[k] {
      NotOpen(inp, slots, d, k);
      LiftSkips(inp, slots, base, d, k);
    }
    SumByDate(slots, one, base, d);
    DayLoadReadsDate(slots, BeforeCredit(inp, slots), one, d);
    hide CappedLoads, OpenSlots, LiftKwh, Lifted, Dates, Cap, Fill, Poured, DayLoad, DecisionKwh;
    if LiftKwh(inp, d) > 0.0 {
      FillIsExact(base, open, Cap(inp), LiftKwh(inp, d), 0);
      RoomIsWindowRoom(inp, slots, base, d, 0);
    }
  }

  // ------------------------------------------------------------------ the warm tank

  /** Heat above the usual temperature, as the energy the heat pump is spared. */
  function SparedKwh(inp: Inputs): real {
    match inp.initial
    case Some(c) =>
      if c > inp.policy.normal + 0.5 then (c - inp.policy.normal) * inp.litres * inp.cp / 3600000.0 / 3.0 else 0.0
    case None => 0.0
  }

  /** The credit is what the ramp into a paid window would budget for the same degrees. */
  lemma CreditMatchesRamp(inp: Inputs)
    requires inp.initial.Some?
    ensures SparedKwh(inp) == WarmKwh(inp)
    ensures SparedKwh(inp) == if inp.initial.value > inp.policy.normal + 0.5
                              then PerDegree(inp.initial.value - inp.policy.normal, HeaterOf(inp).elec) else 0.0
  {
    ScaleOut(inp.initial.value - inp.policy.normal, inp.litres, inp.cp);
  }

  lemma ScaleOut(rise: real, litres: real, cp: real)
    ensures PerDegree(rise, litres * cp / 3600000.0 / 3.0) == rise * litres * cp / 3600000.0 / 3.0
  {
    var heat := litres * cp;
    assert rise * litres * cp == rise * heat;
    var x := heat / 3600000.0 / 3.0;
    assert heat == 10800000.0 * x;
    Scaled(rise, 10800000.0, x);
  }

  lemma Scaled(a: real, k: real, b: real)
    ensures a * (k * b) == k * (a * b)
  {}

  function PerDegree(rise: real, elec: real): real { rise * elec }

  /** On holiday nothing is planned: no load in any slot before the firmware's cycle, and
      the setback temperature throughout. */
  lemma VacationIsIdle(inp: Inputs, slots: seq<int>, ws: seq<DhwBoost.Run>, plan: DhwBoost.Plan, k: nat)
    requires Plausible(inp) && inp.mode == Vacation && |slots| > 0 && Paid(inp, slots, ws, plan) && k <= |slots|
    ensures |plan.e| == |slots| && |plan.temps| == |slots| + 1
    ensures plan.temps[k] == inp.policy.setback && (k < |slots| ==> plan.e[k] == 0.0)
  {
    if k < |slots| {
      var before := BeforeCredit(inp, slots);
      LiftedSlot(inp, slots, k, k);
      NoLoad(inp, slots[k]);
      CappedWithin(inp, slots);
      LiftedWithin(inp, slots, CappedLoads(inp, slots), Dates(slots));
      WarmNonNegative(inp);
      CreditIsGreedy(before, WarmKwh(inp), 0, k);
      assert before[k] == 0.0;
      assert plan.e == Credited(inp, before);
    }
    assert plan.temps == Targets(inp, slots);
    assert TargetOf(inp.policy, inp.mode, slots[if k < |slots| then k else |slots| - 1]) == inp.policy.setback;
  }

  lemma NoLoad(inp: Inputs, t: int)
    requires inp.mode == Vacation
    ensures CappedLoad(inp, t) == 0.0
  {}

  /** A warm tank takes off the smaller of what it spares and the whole load, from the
      first slots that have any. */
  lemma WarmthIsSpent(inp: Inputs, slots: seq<int>, k: nat, j: nat)
    requires Plausible(inp) && k < |slots| && j < |slots|
    ensures var before, after := BeforeCredit(inp, slots), Unpaid(inp, slots).e;
            Sum(before) - Sum(after) == MinR(SparedKwh(inp), Sum(before))
            && 0.0 <= after[k] <= before[k] && (after[k] != before[k] && j < k ==> after[j] == 0.0)
  {
    var before := BeforeCredit(inp, slots);
    CappedWithin(inp, slots);
    LiftedWithin(inp, slots, CappedLoads(inp, slots), Dates(slots));
    WarmNonNegative(inp);
    CreditIsExact(before, WarmKwh(inp));
    CreditIsGreedy(before, WarmKwh(inp), 0, k);
    CreditIsGreedy(before, WarmKwh(inp), 0, j);
    hide BeforeCredit, Credit;
  }
}
