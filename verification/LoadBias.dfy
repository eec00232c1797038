/** The base-load learner (src/load_bias.py): a damped, clamped feedback loop. */
module LoadBias {
  import opened Common
  import opened Accumulators

  datatype LogRow = LogRow(
    hour: int, day: int, age: real, forecast: Option<real>, actual: Option<real>, baseForecast: Option<real>)

  datatype Config = Config(
    minKwh: real, maxHeatPump: real, maxKwh: real, damping: real, minDays: nat, weight: real -> real)

  // ------------------------------------------------------------------- measuring

  /** A slot with next to no heat pump in it, so its error is the base load's. */
  predicate Usable(cfg: Config, r: LogRow) {
    r.forecast.Some? && r.actual.Some? && r.forecast.value >= cfg.minKwh && r.actual.value >= cfg.minKwh
    && r.baseForecast.Some? && r.forecast.value - r.baseForecast.value <= cfg.maxHeatPump
  }

  function ItemOf(cfg: Config, r: LogRow): Item
    requires Usable(cfg, r)
  {
    var w := cfg.weight(MaxR(0.0, r.age));
    Item(r.hour, w * (r.actual.value - r.forecast.value), w, r.day)
  }

  function Items(cfg: Config, rows: seq<LogRow>): seq<Item> {
    if |rows| == 0 then []
    else
      var rest, r := Items(cfg, rows[..|rows| - 1]), rows[|rows| - 1];
      if Usable(cfg, r) then rest + [ItemOf(cfg, r)] else rest
  }

  method LocalHourBias(cfg: Config, rows: seq<LogRow>) returns (acc: map<int, Acc>)
    ensures acc == AccOf(Items(cfg, rows))
  {
    acc := map[];
    var i := 0;
    while i < |rows|
      invariant 0 <= i <= |rows| && acc == AccOf(Items(cfg, rows[..i]))
    {
      assert rows[..i + 1][..i] == rows[..i];
      if Usable(cfg, rows[i]) {
        var items := Items(cfg, rows[..i]);
        assert (items + [ItemOf(cfg, rows[i])])[..|items|] == items;
        acc := Add(acc, ItemOf(cfg, rows[i]));
      }
      i := i + 1;
    }
    assert rows[..i] == rows;
  }

  function Clamped(cfg: Config, x: real): real { Clamp(-cfg.maxKwh, cfg.maxKwh, x) }

  function RawBias(cfg: Config, acc: map<int, Acc>): map<int, real> {
    map h | h in acc && acc[h].den > 0.0 && |acc[h].days| >= cfg.minDays :: Clamped(cfg, acc[h].num / acc[h].den)
  }

  /** The error of every usable row of an hour is between two bounds. */
  ghost predicate ErrorsWithin(cfg: Config, rows: seq<LogRow>, hour: int, lo: real, hi: real) {
    forall i :: 0 <= i < |rows| && rows[i].hour == hour && Usable(cfg, rows[i]) ==>
      lo <= rows[i].actual.value - rows[i].forecast.value <= hi
  }

  lemma {:induction false} ItemsWithin(cfg: Config, rows: seq<LogRow>, hour: int, lo: real, hi: real)
    requires ErrorsWithin(cfg, rows, hour, lo, hi) && forall age :: cfg.weight(age) > 0.0
    ensures RatiosWithin(Items(cfg, rows), hour, lo, hi)
  {
    if |rows| > 0 {
      var n := |rows| - 1;
      ItemsWithin(cfg, rows[..n], hour, lo, hi);
      if Usable(cfg, rows[n]) && rows[n].hour == hour {
        var w, error := cfg.weight(MaxR(0.0, rows[n].age)), rows[n].actual.value - rows[n].forecast.value;
        ProductMonotone(lo, error, w);
        ProductMonotone(error, hi, w);
        assert RatioWithin(w * error, w, lo, hi);
      }
      hide RatioWithin;
    }
  }

  /** The bias measured for an hour is the clamp of a value between its smallest and its
      largest error, whatever the recency weights. */
  lemma RawBiasIsBetween(cfg: Config, rows: seq<LogRow>, hour: int, lo: real, hi: real)
    requires ErrorsWithin(cfg, rows, hour, lo, hi) && forall age :: cfg.weight(age) > 0.0
    requires hour in RawBias(cfg, AccOf(Items(cfg, rows)))
    ensures Clamped(cfg, lo) <= RawBias(cfg, AccOf(Items(cfg, rows)))[hour] <= Clamped(cfg, hi)
  {
    var items := Items(cfg, rows);
    ItemsWithin(cfg, rows, hour, lo, hi);
    RatioIsBetween(items, hour, lo, hi);
    DividedRatio(AccOf(items)[hour].num, AccOf(items)[hour].den, lo, hi);
  }

  /** Both energies are large enough, and what was forecast beyond the base load, the heat
      pump's share, is small enough. */
  predicate MostlyBase(cfg: Config, r: LogRow) {
    match (r.forecast, r.actual, r.baseForecast)
    case (Some(f), Some(a), Some(base)) => MinR(f, a) >= cfg.minKwh && f <= base + cfg.maxHeatPump
    case _ => false
  }

  function MeasuredDays(cfg: Config, rows: seq<LogRow>, hour: int): set<int> {
    set i | 0 <= i < |rows| && rows[i].hour == hour && MostlyBase(cfg, rows[i]) :: rows[i].day
  }

  lemma {:induction false} ItemDays(cfg: Config, rows: seq<LogRow>, hour: int)
    requires forall age :: cfg.weight(age) > 0.0
    ensures DaysIn(Items(cfg, rows), hour) == MeasuredDays(cfg, rows, hour)
    ensures var acc := AccOf(Items(cfg, rows)); hour in acc ==> acc[hour].den > 0.0
  {
    if |rows| > 0 {
      var n := |rows| - 1;
      ItemDays(cfg, rows[..n], hour);
      assert Usable(cfg, rows[n]) <==> MostlyBase(cfg, rows[n]);
      var items := Items(cfg, rows[..n]);
      if Usable(cfg, rows[n]) { assert (items + [ItemOf(cfg, rows[n])])[..|items|] == items; }
      assert MeasuredDays(cfg, rows, hour) == MeasuredDays(cfg, rows[..n], hour)
             + if rows[n].hour == hour && MostlyBase(cfg, rows[n]) then {rows[n].day} else {};
    } else {
      assert MeasuredDays(cfg, rows, hour) == {};
    }
  }

  /** An hour is measured exactly when slots that are mostly base load fall on enough
      distinct days. */
  lemma MeasuredIff(cfg: Config, rows: seq<LogRow>, hour: int)
    requires forall age :: cfg.weight(age) > 0.0
    ensures hour in RawBias(cfg, AccOf(Items(cfg, rows)))
            <==> MeasuredDays(cfg, rows, hour) != {} && |MeasuredDays(cfg, rows, hour)| >= cfg.minDays
  {
    ItemDays(cfg, rows, hour);
    DaysAre(Items(cfg, rows), hour);
    hide Items, AccOf, MeasuredDays, DaysIn;
  }

  // --------------------------------------------------------------------- feedback

  function Damp(cfg: Config, x: real): real { cfg.damping * x }

  /** One refresh of an hour's correction. */
  function Nudged(cfg: Config, prev: Option<real>, raw: real): real {
    Clamped(cfg, if prev.Some? then prev.value + Damp(cfg, raw) else raw)
  }

  function Lookup(table: map<int, real>, h: int): Option<real> { if h in table then Some(table[h]) else None }

  /** Measured hours are nudged, the others kept. */
  function Overwritten(cfg: Config, table: map<int, real>, raw: map<int, real>): map<int, real> {
    map h | h in table.Keys + raw.Keys :: if h in raw then Nudged(cfg, Lookup(table, h), raw[h]) else table[h]
  }

  /** The stored table, read as the previous correction and overwritten. */
  class BiasTable {
    var table: map<int, real>

    method Refresh(cfg: Config, rows: seq<LogRow>)
      modifies this
      ensures table == Overwritten(cfg, old(table), RawBias(cfg, AccOf(Items(cfg, rows))))
    {
      var acc := LocalHourBias(cfg, rows);
      var raw := RawBias(cfg, acc);
      NudgeAll(cfg, raw);
    }

    method NudgeAll(cfg: Config, raw: map<int, real>)
      modifies this
      ensures table == Overwritten(cfg, old(table), raw)
    {
      hide Nudged;
      ghost var before := table;
      var hours: set<int> := raw.Keys;
      while hours != {}
        invariant hours <= raw.Keys && NudgedBut(cfg, before, raw, hours, table)
        decreases |hours|
      {
        SomeHour(hours);
        var h :| h in hours;
        assert Lookup(table, h) == Lookup(before, h);
        table := table[h := Nudged(cfg, Lookup(table, h), raw[h])];
        hours := hours - {h};
      }
      AllNudged(cfg, before, raw, table);
    }
  }

  /** `now` is `before` with the measured hours nudged, except those still to do. */
  ghost predicate NudgedBut(cfg: Config, before: map<int, real>, raw: map<int, real>, hours: set<int>, now: map<int, real>) {
    now.Keys == before.Keys + (raw.Keys - hours)
    && (forall h :: h in raw && h !in hours ==> now[h] == Nudged(cfg, Lookup(before, h), raw[h]))
    && (forall h :: h in before && (h !in raw || h in hours) ==> now[h] == before[h])
  }

  lemma SomeHour(hours: set<int>)
    requires hours != {}
    ensures exists h :: h in hours
  {
    assert (forall h :: h !in hours) ==> hours == {};
  }

  lemma AllNudged(cfg: Config, before: map<int, real>, raw: map<int, real>, now: map<int, real>)
    requires NudgedBut(cfg, before, raw, {}, now)
    ensures now == Overwritten(cfg, before, raw)
  {
    hide Nudged;
    var done := Overwritten(cfg, before, raw);
    assert now.Keys == before.Keys + raw.Keys;
    assert done.Keys == before.Keys + raw.Keys;
    forall h | h in now ensures now[h] == done[h] {}
  }

  ghost predicate Damped(cfg: Config) { 0.0 < cfg.damping <= 1.0 && cfg.maxKwh >= 0.0 }

  predicate InClamp(cfg: Config, x: real) { -cfg.maxKwh <= x <= cfg.maxKwh }

  /** The correction never leaves its clamp, whatever is measured. */
  lemma StaysInClamp(cfg: Config, prev: Option<real>, raw: real)
    requires cfg.maxKwh >= 0.0
    ensures InClamp(cfg, Nudged(cfg, prev, raw))
  {}

  /** What is left of an error after one refresh, at worst. */
  function Fade(cfg: Config, error: real): real { (1.0 - cfg.damping / 2.0) * error }

  lemma FadeMonotone(cfg: Config, a: real, b: real)
    requires Damped(cfg) && a <= b
    ensures Fade(cfg, a) <= Fade(cfg, b) && Fade(cfg, 0.0) == 0.0
  {
    ProductMonotone(a, b, 1.0 - cfg.damping / 2.0);
  }

  /** The error and its bound are on the same side of zero, the error nearer. */
  predicate NearerZero(now: real, bound: real) {
    (bound >= 0.0 ==> 0.0 <= now <= bound) && (bound <= 0.0 ==> bound <= now <= 0.0)
  }

  /** A clamped measurement is between half the error and the error, so a damped step
      along it is between half a damped error and the error. */
  lemma StepSize(cfg: Config, raw: real, error: real)
    requires Damped(cfg)
    requires (error >= 0.0 ==> error / 2.0 <= raw <= error) && (error <= 0.0 ==> error <= raw <= error / 2.0)
    ensures error >= 0.0 ==> 0.0 <= Damp(cfg, error / 2.0) <= Damp(cfg, raw) <= raw
    ensures error <= 0.0 ==> raw <= Damp(cfg, raw) <= Damp(cfg, error / 2.0) <= 0.0
  {
    if error >= 0.0 {
      DampShrinks(cfg, error / 2.0);
      DampShrinks(cfg, raw);
      DampMonotone(cfg, error / 2.0, raw);
    } else {
      DampShrinks(cfg, error / 2.0);
      DampShrinks(cfg, raw);
      DampMonotone(cfg, raw, error / 2.0);
    }
    hide Damp;
  }

  lemma DampMonotone(cfg: Config, a: real, b: real)
    requires Damped(cfg) && a <= b
    ensures Damp(cfg, a) <= Damp(cfg, b)
  {
    ProductNonNegative(cfg.damping, b - a);
    assert Damp(cfg, b) - Damp(cfg, a) == cfg.damping * (b - a);
  }

  lemma DampShrinks(cfg: Config, x: real)
    requires Damped(cfg)
    ensures (x >= 0.0 ==> 0.0 <= Damp(cfg, x) <= x) && (x <= 0.0 ==> x <= Damp(cfg, x) <= 0.0)
  {
    assert x - Damp(cfg, x) == (1.0 - cfg.damping) * x;
    if x >= 0.0 {
      ProductNonNegative(cfg.damping, x);
      ProductNonNegative(1.0 - cfg.damping, x);
    } else {
      assert Damp(cfg, x) == -(cfg.damping * -x) && (1.0 - cfg.damping) * x == -((1.0 - cfg.damping) * -x);
      ProductNonNegative(cfg.damping, -x);
      ProductNonNegative(1.0 - cfg.damping, -x);
    }
  }

  /** With nothing stored yet the first measurement is taken in full: it lands on a true
      bias within the clamp. */
  lemma FirstRefreshLands(cfg: Config, truth: real)
    requires cfg.maxKwh >= 0.0 && InClamp(cfg, truth)
    ensures Nudged(cfg, None, Clamped(cfg, truth)) == truth
  {}

  /** One refresh when the residual seen is the true bias less the old correction, both
      in the clamp: the error never changes sign, shrinks by at least half the damping,
      and by exactly the damping when the measurement is not clamped. */
  lemma ErrorShrinks(cfg: Config, truth: real, prev: real)
    requires Damped(cfg) && InClamp(cfg, truth) && InClamp(cfg, prev)
    ensures var error := truth - prev;
            var left := truth - Nudged(cfg, Some(prev), Clamped(cfg, error));
            NearerZero(left, Fade(cfg, error))
            && (InClamp(cfg, error) ==> left == error - Damp(cfg, error))
  {
    var error := truth - prev;
    ClampedIsHalf(cfg, error);
    DampedStep(cfg, truth, prev);
    FadeIs(cfg, error);
    hide Fade, Clamped, Damp;
  }

  lemma ClampedIsHalf(cfg: Config, error: real)
    requires -2.0 * cfg.maxKwh <= error <= 2.0 * cfg.maxKwh
    ensures error >= 0.0 ==> error / 2.0 <= Clamped(cfg, error) <= error
    ensures error <= 0.0 ==> error <= Clamped(cfg, error) <= error / 2.0
    ensures InClamp(cfg, error) ==> Clamped(cfg, error) == error
  {}

  lemma FadeIs(cfg: Config, error: real)
    requires Damped(cfg)
    ensures Fade(cfg, error) == error - Damp(cfg, error / 2.0)
    ensures (error >= 0.0 ==> Fade(cfg, error) >= 0.0) && (error <= 0.0 ==> Fade(cfg, error) <= 0.0)
  {
    FadeMonotone(cfg, 0.0, if error >= 0.0 then error else 0.0);
    FadeMonotone(cfg, if error >= 0.0 then 0.0 else error, 0.0);
  }

  /** The damped step is taken in full: it stays inside the clamp. */
  lemma DampedStep(cfg: Config, truth: real, prev: real)
    requires Damped(cfg) && InClamp(cfg, truth) && InClamp(cfg, prev)
    ensures var error := truth - prev;
            var step := Damp(cfg, Clamped(cfg, error));
            Nudged(cfg, Some(prev), Clamped(cfg, error)) == prev + step
            && (error >= 0.0 ==> Damp(cfg, error / 2.0) <= step <= error)
            && (error <= 0.0 ==> error <= step <= Damp(cfg, error / 2.0))
  {
    var error := truth - prev;
    ClampedIsHalf(cfg, error);
    StepSize(cfg, Clamped(cfg, error), error);
    hide Clamped, Damp;
    StepInClamp(cfg, truth, prev, Damp(cfg, Clamped(cfg, error)));
  }

  lemma StepInClamp(cfg: Config, truth: real, prev: real, step: real)
    requires InClamp(cfg, truth) && InClamp(cfg, prev) && cfg.maxKwh >= 0.0
    requires (truth >= prev ==> 0.0 <= step <= truth - prev) && (truth <= prev ==> truth - prev <= step <= 0.0)
    ensures Clamped(cfg, prev + step) == prev + step
  {}

  /** The correction after `n` refreshes against a steady true bias. */
  function Settled(cfg: Config, truth: real, prev: real, n: nat): real {
    if n == 0 then prev
    else
      var x := Settled(cfg, truth, prev, n - 1);
      Nudged(cfg, Some(x), Clamped(cfg, truth - x))
  }

  /** The start error, faded `n` times: a geometric sequence. */
  function Faded(cfg: Config, error: real, n: nat): real {
    if n == 0 then error else Fade(cfg, Faded(cfg, error, n - 1))
  }

  /** The loop converges: over any number of refreshes the correction stays in its clamp,
      the error never changes sign, and it is at most a geometric fraction of the start. */
  lemma {:induction false} ErrorConverges(cfg: Config, truth: real, prev: real, n: nat)
    requires Damped(cfg) && InClamp(cfg, truth) && InClamp(cfg, prev)
    ensures InClamp(cfg, Settled(cfg, truth, prev, n))
    ensures NearerZero(truth - Settled(cfg, truth, prev, n), Faded(cfg, truth - prev, n))
  {
    if n > 0 {
      ErrorConverges(cfg, truth, prev, n - 1);
      var x := Settled(cfg, truth, prev, n - 1);
      ErrorShrinks(cfg, truth, x);
      StaysInClamp(cfg, Some(x), Clamped(cfg, truth - x));
      hide Fade, Nudged, Clamped;
      FadeNearer(cfg, truth - x, Faded(cfg, truth - prev, n - 1));
    }
  }

  lemma FadeNearer(cfg: Config, now: real, bound: real)
    requires Damped(cfg) && NearerZero(now, bound)
    ensures NearerZero(Fade(cfg, now), Fade(cfg, bound))
  {
    FadeMonotone(cfg, 0.0, if bound >= 0.0 then now else 0.0);
    FadeMonotone(cfg, if bound >= 0.0 then now else bound, if bound >= 0.0 then bound else now);
    FadeMonotone(cfg, if bound >= 0.0 then 0.0 else now, 0.0);
    hide Fade;
  }
}
