/** The fired schedule and the pinned forecast describe the same deferred warmup
    (src/dhw_policy.py). */
module DhwAgreement {
  import opened Common
  import opened DhwClock
  import S = DhwSchedule
  import opened DhwBoost
  import opened DhwRamp
  import opened DhwForecast

  /** Consecutive half hours from a slot start. */
  ghost predicate HalfHours(slots: seq<int>) {
    |slots| > 0 && S.OnSlot(slots[0]) && forall i :: 0 <= i < |slots| ==> slots[i] == slots[0] + i * SLOT_M
  }

  /** A horizon that covers the cycle of `d`, with the price line the schedule's rates
      give for it. */
  ghost predicate Horizon(inp: Inputs, slots: seq<int>, rates: seq<S.Rate>, d: int) {
    var from, to := WarmupAt(inp.policy, d), WarmupAt(inp.policy, d + 1);
    HalfHours(slots) && Pays(inp, |slots|) && slots[0] <= from && to <= slots[0] + |slots| * SLOT_M
    && forall i :: 0 <= i < |slots| && from <= slots[i] < to ==>
         (inp.price.value[i] < 0.0 <==> S.NegativeAt(rates, from, to, slots[i]))
  }

  lemma SlotIndex(slots: seq<int>, t: int) returns (m: nat)
    requires HalfHours(slots) && S.OnSlot(t) && slots[0] <= t < slots[0] + |slots| * SLOT_M
    ensures m < |slots| && slots[m] == t
  {
    m := (t - slots[0]) / SLOT_M;
    assert t - slots[0] == m * SLOT_M;
  }

  lemma SlotBefore(slots: seq<int>, m: nat)
    requires HalfHours(slots) && m < |slots| && slots[0] < slots[m]
    ensures m > 0 && slots[m - 1] == slots[m] - SLOT_M
  {}

  lemma SlotOnGrid(slots: seq<int>, i: nat)
    requires HalfHours(slots) && i < |slots|
    ensures S.OnSlot(slots[i])
  {
    assert slots[i] == slots[0] + i * SLOT_M;
  }

  /** The slot before a window's start is not negative. */
  lemma NothingBefore(ws: seq<Span>, a: nat, t: int)
    requires S.Maximal(ws) && a < |ws| && t == ws[a].start - SLOT_M
    ensures !S.Covered(ws, t)
  {
    forall j | 0 <= j < |ws| ensures !S.Inside(ws[j], t) {
      if j < a { S.GridGap(ws[j].end, ws[a].start); }
    }
  }

  /** Schedule and forecast agree on which slots of the cycle are paid. */
  lemma PaidIffCovered(inp: Inputs, slots: seq<int>, rates: seq<S.Rate>, d: int, i: nat)
    requires S.Feed(rates) && Horizon(inp, slots, rates, d) && i < |slots|
    ensures S.Maximal(S.CycleWindows(inp.policy, rates, d))
    ensures S.Covered(S.CycleWindows(inp.policy, rates, d), slots[i]) <==>
              WarmupAt(inp.policy, d) <= slots[i] < WarmupAt(inp.policy, d + 1) && inp.price.value[i] < 0.0
  {
    SlotOnGrid(slots, i);
    S.WindowsAreNegativeRuns(rates, WarmupAt(inp.policy, d), WarmupAt(inp.policy, d + 1), slots[i]);
  }

  lemma WarmupOnSlot(p: Policy, d: int)
    ensures S.OnSlot(WarmupAt(p, d))
  {
    assert WarmupAt(p, d) == SLOT_M * (d * 48 + p.warmupHour(d) * 2);
  }

  lemma SlotDistance(slots: seq<int>, i: nat, m: nat)
    requires HalfHours(slots) && i < |slots| && m < |slots|
    ensures (slots[m] - slots[i]) / SLOT_M == m - i
  {
    assert slots[m] - slots[i] == (m - i) * SLOT_M;
  }

  /** A window's start is a covered slot of the horizon, the slot before it is not. */
  lemma WindowInHorizon(inp: Inputs, slots: seq<int>, rates: seq<S.Rate>, d: int, a: nat)
    requires S.Feed(rates) && Horizon(inp, slots, rates, d)
    requires var ws := S.CycleWindows(inp.policy, rates, d); a < |ws| && WarmupAt(inp.policy, d) < ws[a].start
    ensures var ws := S.CycleWindows(inp.policy, rates, d);
            var s := ws[a].start;
            S.OnSlot(s) && slots[0] < s < slots[0] + |slots| * SLOT_M
            && WarmupAt(inp.policy, d) <= s - SLOT_M && s < WarmupAt(inp.policy, d + 1)
            && S.Covered(ws, s) && !S.Covered(ws, s - SLOT_M)
  {
    var from, to := WarmupAt(inp.policy, d), WarmupAt(inp.policy, d + 1);
    var ws := S.CycleWindows(inp.policy, rates, d);
    var s := ws[a].start;
    WarmupOnSlot(inp.policy, d);
    hide S.OnSlot;
    S.WindowsAreNegativeRuns(rates, from, to, from);
    assert S.OnSlot(s) && S.Inside(ws[a], s);
    S.WindowsAreNegativeRuns(rates, from, to, s);
    hide S.Group, S.NegativeStarts, S.CycleWindows;
    S.GridGap(from, s);
    NothingBefore(ws, a, s - SLOT_M);
    hide S.Maximal, HalfHours, WarmupAt;
  }

  /** A window of the schedule starts at a paid slot whose predecessor is not paid. */
  lemma WindowStart(inp: Inputs, slots: seq<int>, rates: seq<S.Rate>, d: int, a: nat) returns (m: nat)
    requires S.Feed(rates) && Horizon(inp, slots, rates, d)
    requires var ws := S.CycleWindows(inp.policy, rates, d); a < |ws| && WarmupAt(inp.policy, d) < ws[a].start
    ensures 0 < m < |slots| && slots[m] == S.CycleWindows(inp.policy, rates, d)[a].start
    ensures inp.price.value[m] < 0.0 && inp.price.value[m - 1] >= 0.0
  {
    var from, to := WarmupAt(inp.policy, d), WarmupAt(inp.policy, d + 1);
    var ws := S.CycleWindows(inp.policy, rates, d);
    var s := ws[a].start;
    assert HalfHours(slots);
    hide S.Group, S.NegativeStarts;
    WindowInHorizon(inp, slots, rates, d, a);
    hide S.CycleWindows, S.Maximal;
    m := SlotIndex(slots, s);
    SlotBefore(slots, m);
    hide S.OnSlot, HalfHours, S.NegativeAt, S.Covered, Horizon;
    PaidIffCovered(inp, slots, rates, d, m);
    PaidIffCovered(inp, slots, rates, d, m - 1);
  }

  /** The forecast's run that starts where a window of the schedule starts. */
  lemma RunOfWindow(inp: Inputs, slots: seq<int>, rates: seq<S.Rate>, d: int, runs: seq<Run>, a: nat) returns (b: nat)
    requires S.Feed(rates) && Horizon(inp, slots, rates, d) && Scanned(inp.price.value, runs, |slots|)
    requires var ws := S.CycleWindows(inp.policy, rates, d); a < |ws| && WarmupAt(inp.policy, d) < ws[a].start
    ensures b < |runs| && runs[b].first < |slots| && slots[runs[b].first] == S.CycleWindows(inp.policy, rates, d)[a].start
  {
    var m := WindowStart(inp, slots, rates, d, a);
    hide S.CycleWindows;
    var k :| 0 <= k < |runs| && InRun(runs[k], m);
    b := k;
    assert IsRun(inp.price.value, runs[b]);
    assert runs[b].first == m;
  }

  /** What the forecast returns for a slot that stays cool: setback temperature, and
      maintenance energy unless the firmware's own cycle draws its share in it. */
  ghost predicate ReturnedCool(inp: Inputs, slots: seq<int>, plan: Plan, i: nat)
    requires |plan.e| == |slots|
  {
    var e := Budgeted(inp, slots, plan.e);
    i < |slots| && i < |plan.temps| && plan.temps[i] <= inp.policy.setback
    && (e[i] <= HeaterOf(inp).coolKwh || (BudgetOn(inp) && InStandoff(inp.policy, slots[i])))
  }

  lemma CoolIsReturned(inp: Inputs, slots: seq<int>, plan: Plan, i: nat)
    requires |plan.e| == |slots| && Cool(HeaterOf(inp), plan, i)
    ensures ReturnedCool(inp, slots, plan, i)
  {
    assert HeaterOf(inp).setback == inp.policy.setback;
    hide HeaterOf;
  }

  /** The warmup is never deferred over energy the forecast still budgets: every slot of
      the deferred span is paid for, or a shower slot, or cool in what the forecast
      returns, with the pre-cool span truncated to whole slots and the lead not. */
  lemma DeferredSpanIsForecastCool(
    inp: Inputs, slots: seq<int>, rates: seq<S.Rate>, d: int, runs: seq<Run>, plan: Plan, i: nat)
    requires S.Feed(rates) && Horizon(inp, slots, rates, d) && Paid(inp, slots, runs, plan) && i < |slots|
    requires WarmupAt(inp.policy, d) <= slots[i]
             < S.DeferredStart(inp.policy, S.CycleWindows(inp.policy, rates, d), WarmupAt(inp.policy, d))
    ensures |plan.e| == |slots|
    ensures inp.price.value[i] < 0.0 || Phases(inp, slots)[i].Shower? || ReturnedCool(inp, slots, plan, i)
  {
    var from, to, t := WarmupAt(inp.policy, d), WarmupAt(inp.policy, d + 1), slots[i];
    var ws := S.CycleWindows(inp.policy, rates, d);
    SlotOnGrid(slots, i);
    S.WindowsAreNegativeRuns(rates, from, to, t);
    S.DeferredSpanIsCool(inp.policy, ws, from, t);
    if !S.Covered(ws, t) {
      var a :| 0 <= a < |ws| && t < ws[a].start && (ws[a].start - t) / SLOT_M <= S.PrecoolSlots(inp.policy);
      var b := RunOfWindow(inp, slots, rates, d, runs, a);
      hide S.OnSlot, S.Maximal, S.CycleWindows, S.DeferredStart, S.Covered, Cool, ReturnedCool;
      BeforeRunIsCool(inp, slots, runs, plan, b, i);
      if Cool(HeaterOf(inp), plan, i) { CoolIsReturned(inp, slots, plan, i); }
    }
  }

  /** A slot within the pre-cool span of a run, told by the clock. */
  lemma BeforeRunIsCool(inp: Inputs, slots: seq<int>, runs: seq<Run>, plan: Plan, b: nat, i: nat)
    requires HalfHours(slots) && Pays(inp, |slots|) && Paid(inp, slots, runs, plan) && b < |runs| && i < |slots|
    requires runs[b].first < |slots| && slots[i] < slots[runs[b].first]
    requires (slots[runs[b].first] - slots[i]) / SLOT_M <= S.PrecoolSlots(inp.policy)
    ensures Phases(inp, slots)[i].Shower? || Cool(HeaterOf(inp), plan, i)
  {
    var m := runs[b].first;
    SlotDistance(slots, i, m);
    assert i < m by { assert slots[m] - slots[i] == (m - i) * SLOT_M; }
    hide HalfHours, Cool;
    assert m - i <= S.PrecoolSlots(inp.policy) == HeaterOf(inp).precool;
    if !Phases(inp, slots)[i].Shower? {
      PrecooledStaysCool(HeaterOf(inp), Phases(inp, slots), Unpaid(inp, slots), runs, b, i);
    }
  }
}
