/** Paid-price windows in the hot-water forecast (src/dhw_policy.py): the windows of the
    price line, the pre-cool before each, and the boost ramp inside it. */
module DhwBoost {
  import opened Common
  import opened DhwClock
  import opened DhwPasses

  /** A run of slots, first and last included. */
  datatype Run = Run(first: nat, last: nat)

  // ---------------------------------------------------------- negative-price runs

  ghost predicate IsRun(price: seq<real>, r: Run) {
    r.first <= r.last < |price| && (forall k :: r.first <= k <= r.last ==> price[k] < 0.0)
    && (r.first > 0 ==> price[r.first - 1] >= 0.0) && (r.last + 1 < |price| ==> price[r.last + 1] >= 0.0)
  }

  predicate InRun(r: Run, k: int) { r.first <= k <= r.last }

  ghost predicate InSome(ws: seq<Run>, k: int) { exists i :: 0 <= i < |ws| && InRun(ws[i], k) }

  ghost predicate Apart(ws: seq<Run>) { forall i, j :: 0 <= i < j < |ws| ==> ws[i].last + 1 < ws[j].first }

  /** The runs of the first `i` prices, none of them cut off at `i`. */
  ghost predicate Scanned(price: seq<real>, ws: seq<Run>, i: nat) {
    i <= |price| && Apart(ws) && (forall k :: 0 <= k < |ws| ==> IsRun(price, ws[k]) && ws[k].last < i)
    && (forall k :: 0 <= k < i ==> (price[k] < 0.0 <==> InSome(ws, k)))
    && (0 < i < |price| && price[i - 1] < 0.0 ==> price[i] >= 0.0)
  }

  /** The maximal runs of negative prices, in order. */
  method NegativeRuns(price: seq<real>) returns (ws: seq<Run>)
    ensures Scanned(price, ws, |price|)
  {
    ws := [];
    var i := 0;
    while i < |price|
      invariant 0 <= i && Scanned(price, ws, i)
    {
      if price[i] < 0.0 {
        var j := LastNegative(price, i);
        RunsSnoc(price, ws, Run(i, j));
        ws := ws + [Run(i, j)];
        i := j + 1;
      } else {
        NoRunAt(price, ws, i);
        i := i + 1;
      }
    }
  }

  lemma NoRunAt(price: seq<real>, ws: seq<Run>, i: nat)
    requires i < |price| && price[i] >= 0.0 && Scanned(price, ws, i)
    ensures Scanned(price, ws, i + 1)
  {
    assert !InSome(ws, i);
  }

  method LastNegative(price: seq<real>, i: nat) returns (j: nat)
    requires i < |price| && price[i] < 0.0
    ensures i <= j < |price| && (forall k :: i <= k <= j ==> price[k] < 0.0)
    ensures j + 1 < |price| ==> price[j + 1] >= 0.0
  {
    j := i;
    while j + 1 < |price| && price[j + 1] < 0.0
      invariant i <= j < |price| && forall k :: i <= k <= j ==> price[k] < 0.0
    {
      j := j + 1;
    }
  }

  lemma InSomeSnoc(ws: seq<Run>, r: Run, k: int)
    ensures InSome(ws + [r], k) <==> InSome(ws, k) || InRun(r, k)
  {
    var all := ws + [r];
    if i :| 0 <= i < |ws| && InRun(ws[i], k) { assert InRun(all[i], k); }
    if InRun(r, k) { assert InRun(all[|ws|], k); }
  }

  lemma RunsSnoc(price: seq<real>, ws: seq<Run>, r: Run)
    requires Scanned(price, ws, r.first) && r.first <= r.last < |price|
    requires (forall k :: r.first <= k <= r.last ==> price[k] < 0.0) && (r.last + 1 < |price| ==> price[r.last + 1] >= 0.0)
    ensures Scanned(price, ws + [r], r.last + 1)
  {
    assert price[r.first] < 0.0 && price[r.last] < 0.0 && IsRun(price, r);
    RunsApartSnoc(price, ws, r);
    forall k | 0 <= k <= r.last ensures price[k] < 0.0 <==> InSome(ws + [r], k) {
      InSomeSnoc(ws, r, k);
      RunsBefore(price, ws, r.first, k);
    }
    hide InSome, Apart, IsRun;
  }

  lemma RunsApartSnoc(price: seq<real>, ws: seq<Run>, r: Run)
    requires Scanned(price, ws, r.first) && IsRun(price, r)
    ensures Apart(ws + [r])
  {
    assert price[r.first] < 0.0;
    hide InSome;
    forall i | 0 <= i < |ws| ensures ws[i].last + 1 < r.first { assert price[ws[i].last] < 0.0; }
  }

  lemma RunsBefore(price: seq<real>, ws: seq<Run>, i: nat, k: int)
    requires Scanned(price, ws, i)
    ensures InSome(ws, k) ==> 0 <= k < i
  {
    if j :| 0 <= j < |ws| && InRun(ws[j], k) { assert ws[j].last < i; }
  }

  // -------------------------------------------------------------------- the plan

  /** Heater and tank constants of one forecast: per-slot cap, energy per degree, the
      setback and boost temperatures, pre-cool span, and the two scaled maintenance
      energies. */
  datatype Heater = Heater(
    cap: real, elec: real, setback: real, target: real, precool: nat, coolKwh: real, holdKwh: real)

  /** Loads per slot and temperatures per boundary. */
  datatype Plan = Plan(e: seq<real>, temps: seq<real>)

  predicate Shaped(plan: Plan, n: nat) { |plan.e| == n && |plan.temps| == n + 1 }

  function Lift(h: Heater): real { if h.elec > 0.0 then h.cap / h.elec else 0.0 }

  predicate AtTarget(h: Heater, cur: real) { cur >= h.target - RAMP_EPS }

  function RampNext(h: Heater, cur: real): real {
    if AtTarget(h, cur) then h.target else MinR(h.target, cur + Lift(h))
  }

  /** Electric energy that lifts the tank by so many degrees. */
  function Heat(h: Heater, degrees: real): real { degrees * h.elec }

  /** A slot's load: the rise, on top of the standing loss. */
  function RiseKwh(h: Heater, cur: real, next: real): real { Heat(h, next - cur) + h.coolKwh }

  function RampEnergy(h: Heater, cur: real): real {
    if AtTarget(h, cur) then h.holdKwh else MinR(h.cap, RiseKwh(h, cur, RampNext(h, cur)))
  }

  /** Temperature after `j` slots of boosting from `entry`. */
  function Ramp(h: Heater, entry: real, j: nat): real {
    if j == 0 then entry else RampNext(h, Ramp(h, entry, j - 1))
  }

  predicate PrecooledSlot(h: Heater, phases: seq<Phase>, first: nat, k: int) {
    0 <= k < |phases| && first - h.precool <= k < first && !phases[k].Shower?
  }

  /** Before the window: no re-warming, except while somebody showers. */
  function Precooled(h: Heater, phases: seq<Phase>, plan: Plan, first: nat): (r: Plan)
    ensures |r.e| == |plan.e| && |r.temps| == |plan.temps|
  {
    Plan(seq(|plan.e|, k requires 0 <= k < |plan.e| =>
           if PrecooledSlot(h, phases, first, k) then MinR(plan.e[k], h.coolKwh) else plan.e[k]),
         seq(|plan.temps|, k requires 0 <= k < |plan.temps| =>
           if PrecooledSlot(h, phases, first, k) then MinR(plan.temps[k], h.setback) else plan.temps[k]))
  }

  function Entry(h: Heater, temp: real): real { if h.precool > 0 then MinR(temp, h.setback) else temp }

  /** Inside the window: ramp from the entry temperature. */
  function Boosted(h: Heater, plan: Plan, w: Run): (r: Plan)
    requires w.first < |plan.temps|
    ensures |r.e| == |plan.e| && |r.temps| == |plan.temps|
  {
    var entry := Entry(h, plan.temps[w.first]);
    Plan(seq(|plan.e|, k requires 0 <= k < |plan.e| =>
           if InRun(w, k) then RampEnergy(h, Ramp(h, entry, k - w.first)) else plan.e[k]),
         seq(|plan.temps|, k requires 0 <= k < |plan.temps| =>
           if w.first <= k <= w.last + 1 then Ramp(h, entry, k - w.first) else plan.temps[k]))
  }

  function PassWindow(h: Heater, phases: seq<Phase>, plan: Plan, w: Run): (r: Plan)
    requires w.first < |plan.temps|
    ensures |r.e| == |plan.e| && |r.temps| == |plan.temps|
  {
    Boosted(h, Precooled(h, phases, plan, w.first), w)
  }

  ghost predicate Inside(ws: seq<Run>, n: nat) { forall i :: 0 <= i < |ws| ==> ws[i].first <= ws[i].last < n }

  function PassWindows(h: Heater, phases: seq<Phase>, plan: Plan, ws: seq<Run>): (r: Plan)
    requires |plan.temps| == |plan.e| + 1 && forall i :: 0 <= i < |ws| ==> ws[i].first <= ws[i].last < |plan.e|
    ensures |r.e| == |plan.e| && |r.temps| == |plan.temps|
  {
    if |ws| == 0 then plan
    else PassWindow(h, phases, PassWindows(h, phases, plan, ws[..|ws| - 1]), ws[|ws| - 1])
  }

  // ------------------------------------------------------------------- in place

  method Precool(h: Heater, phases: seq<Phase>, e: array<real>, temps: array<real>, first: nat)
    requires |phases| == e.Length && temps.Length == e.Length + 1 && first <= e.Length && e != temps
    modifies e, temps
    ensures Plan(e[..], temps[..]) == Precooled(h, phases, old(Plan(e[..], temps[..])), first)
  {
    var k := MaxI(0, first - h.precool);
    ghost var done := Precooled(h, phases, Plan(e[..], temps[..]), first);
    while k < first
      invariant MaxI(0, first - h.precool) <= k <= first || k == MaxI(0, first - h.precool)
      invariant forall j :: 0 <= j < e.Length ==> e[j] == if j < k then done.e[j] else old(e[j])
      invariant forall j :: 0 <= j < temps.Length ==> temps[j] == if j < k then done.temps[j] else old(temps[j])
    {
      if !phases[k].Shower? {
        temps[k] := MinR(temps[k], h.setback);
        if e[k] > h.coolKwh { e[k] := h.coolKwh; }
      }
      k := k + 1;
    }
    assert e[..] == done.e && temps[..] == done.temps;
  }

  method BoostRamp(h: Heater, e: array<real>, temps: array<real>, w: Run)
    requires temps.Length == e.Length + 1 && w.first <= w.last < e.Length && e != temps
    modifies e, temps
    ensures Plan(e[..], temps[..]) == Boosted(h, old(Plan(e[..], temps[..])), w)
  {
    hide Lift, Heat;
    ghost var done := Boosted(h, Plan(e[..], temps[..]), w);
    var entry := temps[w.first];
    if h.precool > 0 {
      entry := MinR(entry, h.setback);
      temps[w.first] := entry;
    }
    var cur, k := entry, w.first;
    while k <= w.last
      invariant w.first <= k <= w.last + 1 && cur == Ramp(h, entry, k - w.first)
      invariant forall j :: 0 <= j < e.Length ==> e[j] == if j < k then done.e[j] else old(e[j])
      invariant forall j :: 0 <= j < temps.Length ==> temps[j] == if j <= k then done.temps[j] else old(temps[j])
    {
      if AtTarget(h, cur) {
        e[k] := h.holdKwh;
        temps[k + 1] := h.target;
        cur := h.target;
      } else {
        var next := MinR(h.target, cur + Lift(h));
        e[k] := MinR(h.cap, RiseKwh(h, cur, next));
        cur := next;
        temps[k + 1] := cur;
      }
      k := k + 1;
    }
    assert e[..] == done.e && temps[..] == done.temps;
  }

  method PrecoolAndBoost(h: Heater, phases: seq<Phase>, e: array<real>, temps: array<real>, ws: seq<Run>)
    requires |phases| == e.Length && temps.Length == e.Length + 1 && e != temps && Inside(ws, e.Length)
    modifies e, temps
    ensures Plan(e[..], temps[..]) == PassWindows(h, phases, old(Plan(e[..], temps[..])), ws)
  {
    var i := 0;
    while i < |ws|
      invariant 0 <= i <= |ws|
      invariant Plan(e[..], temps[..]) == PassWindows(h, phases, old(Plan(e[..], temps[..])), ws[..i])
    {
      assert ws[..i + 1][..i] == ws[..i];
      Precool(h, phases, e, temps, ws[i].first);
      BoostRamp(h, e, temps, ws[i]);
      i := i + 1;
    }
    assert ws[..i] == ws;
  }
}
