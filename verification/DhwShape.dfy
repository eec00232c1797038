/** The nominal day (src/dhw_policy.py) and the shape correction normalised by it
    (src/dhw_bias.py): correcting the shape leaves the daily total alone. */
module DhwShape {
  import opened Common
  import opened DhwClock
  import opened DhwForecast

  const SLOTS: nat := 48
  const BUCKETS: nat := 12

  // ------------------------------------------------------------- the nominal day

  /** Load of the nominal day's half slot `k`, for these warmup and setback hours. */
  function NominalKwh(mode: Mode, warmup: int, setback: int, k: nat): real {
    var h := k / 2;
    if ShowerHour(mode, h) then SHOWER_KWH
    else if mode.Guests? then MAINTENANCE_KWH
    else if warmup <= h < setback then if h == warmup then TRANSITION_KWH else MAINTENANCE_KWH
    else SETBACK_KWH
  }

  function NominalDay(mode: Mode, warmup: int, setback: int): (r: seq<real>)
    ensures |r| == SLOTS
  {
    seq(SLOTS, k requires 0 <= k < SLOTS => NominalKwh(mode, warmup, setback, k))
  }

  method NominalDailyTotal(mode: Mode, warmup: int, setback: int) returns (total: real)
    ensures total == if mode.Vacation? then 0.0 else Sum(NominalDay(mode, warmup, setback))
  {
    if mode.Vacation? { return 0.0; }
    var day := NominalDay(mode, warmup, setback);
    total := 0.0;
    var k := 0;
    while k < SLOTS
      invariant 0 <= k <= SLOTS && total == Sum(day[..k])
    {
      SumPrefixStep(day, k);
      var h := k / 2;
      if ShowerHour(mode, h) { total := total + SHOWER_KWH; }
      else if mode.Guests? { total := total + MAINTENANCE_KWH; }
      else if warmup <= h < setback { total := total + if h == warmup then TRANSITION_KWH else MAINTENANCE_KWH; }
      else { total := total + SETBACK_KWH; }
      k := k + 1;
    }
    assert day[..k] == day;
  }

  /** What falls in two-hour bucket `b` among the first `n` slots. */
  function BucketSum(kwh: seq<real>, b: int, n: nat): real
    requires n <= |kwh|
  {
    if n == 0 then 0.0 else BucketSum(kwh, b, n - 1) + if (n - 1) / 4 == b then kwh[n - 1] else 0.0
  }

  function Buckets(kwh: seq<real>, n: nat): (r: seq<real>)
    requires n <= |kwh|
    ensures |r| == BUCKETS
  {
    seq(BUCKETS, b => BucketSum(kwh, b, n))
  }

  function Shares(mode: Mode, warmup: int, setback: int): (r: seq<real>)
    ensures |r| == BUCKETS
  {
    var day := NominalDay(mode, warmup, setback);
    seq(BUCKETS, b requires 0 <= b < BUCKETS => Fraction(Buckets(day, SLOTS)[b], Sum(day)))
  }

  function Fraction(a: real, total: real): real { if total > 0.0 then a / total else 0.0 }

  method NominalBucketShares(mode: Mode, warmup: int, setback: int) returns (shares: seq<real>)
    requires !mode.Vacation?
    ensures shares == Shares(mode, warmup, setback)
  {
    hide NominalKwh;
    var day := NominalDay(mode, warmup, setback);
    var perBucket := new real[BUCKETS](_ => 0.0);
    var total, k := 0.0, 0;
    while k < SLOTS
      invariant 0 <= k <= SLOTS && total == Sum(day[..k]) && perBucket[..] == Buckets(day, k)
    {
      SumPrefixStep(day, k);
      var kwh := NominalKwh(mode, warmup, setback, k);
      perBucket[k / 4] := perBucket[k / 4] + kwh;
      total := total + kwh;
      k := k + 1;
    }
    assert day[..k] == day;
    shares := seq(BUCKETS, b requires 0 <= b < BUCKETS reads perBucket => Fraction(perBucket[b], total));
  }

  /** The nominal walk and the forecast's per-slot classifier, written separately,
      describe the same day: with the date's own hours, no early setback and no
      stand-off, every slot gets the same load. */
  lemma NominalMatchesPhases(p: Policy, mode: Mode, d: int, k: nat)
    requires k < SLOTS && !mode.Vacation? && EarlySetback(p, d).None? && p.standoff(d).None?
    ensures PhaseKwh(PhaseOf(p, mode, At(d, 0) + k * SLOT_M))
            == NominalKwh(mode, p.warmupHour(d), p.decision(d).setbackHour, k)
  {
    SlotClock(d, k);
  }

  /** The forecast of such a day is the nominal day, scaled, times the factor of its
      two-hour bucket, as far as the heater can draw it in half an hour. */
  lemma ForecastIsNominal(inp: Inputs, d: int, k: nat)
    requires k < SLOTS && !inp.mode.Vacation?
    requires EarlySetback(inp.policy, d).None? && inp.policy.standoff(d).None?
    ensures var nominal := NominalKwh(inp.mode, inp.policy.warmupHour(d), inp.policy.decision(d).setbackHour, k);
            CappedLoad(inp, At(d, 0) + k * SLOT_M)
            == MinR(nominal * inp.scale * Get(inp.factors, k / 4), if inp.heaterKw < 0.1 then 0.05 else inp.heaterKw / 2.0)
  {
    NominalMatchesPhases(inp.policy, inp.mode, d, k);
    SlotClock(d, k);
  }

  /** Around paid windows the forecast uses the classifier's own energies: a cooled slot
      draws what a setback slot does, a held one what maintenance does. */
  lemma HeaterMatchesPhases(inp: Inputs, t: int)
    ensures PhaseOf(inp.policy, inp.mode, t) == SetbackPhase ==> HeaterOf(inp).coolKwh == ScaledKwh(inp, t)
    ensures PhaseOf(inp.policy, inp.mode, t) == Maintenance ==> HeaterOf(inp).holdKwh == ScaledKwh(inp, t)
  {}

  lemma SlotClock(d: int, k: nat)
    requires k < SLOTS
    ensures DateOf(At(d, 0) + k * SLOT_M) == d && HourOf(At(d, 0) + k * SLOT_M) == k / 2
  {
    var t := At(d, 0) + k * SLOT_M;
    assert t == d * DAY_M + k * SLOT_M && 0 <= k * SLOT_M < DAY_M;
    assert t % DAY_M == k * SLOT_M;
  }

  // --------------------------------------------------------------- normalisation

  function Get(f: map<int, real>, b: int): real { if b in f then f[b] else 1.0 }

  /** Sum of share times factor; a bucket nobody learned counts as one. */
  function Norm(shares: seq<real>, f: map<int, real>, n: nat): real
    requires n <= |shares|
  {
    if n == 0 then 0.0 else Norm(shares, f, n - 1) + Mul(shares[n - 1], Get(f, n - 1))
  }

  /** normalized_factors: a complete table, divided by the share-weighted mean. */
  function Normalized(f: map<int, real>, shares: seq<real>): map<int, real> {
    if f == map[] then map[]
    else
      var norm := Norm(shares, f, |shares|);
      if norm <= 0.0 then map[] else map b: int | 0 <= b < BUCKETS :: Get(f, b) / norm
  }

  /** Slot loads weighted by their bucket's factor. */
  function Weighted(kwh: seq<real>, f: map<int, real>, n: nat): real
    requires n <= |kwh|
  {
    if n == 0 then 0.0 else Weighted(kwh, f, n - 1) + Mul(kwh[n - 1], Get(f, (n - 1) / 4))
  }

  /** A product as one symbol, so that sums of products stay linear. */
  function Mul(a: real, b: real): real { a * b }

  lemma {:induction false} NormUpdate(g: seq<real>, f: map<int, real>, n: nat, b: nat, x: real)
    requires n <= |g| && b < |g|
    ensures Norm(g[b := g[b] + x], f, n) == Norm(g, f, n) + if b < n then Mul(x, Get(f, b)) else 0.0
  {
    if n > 0 {
      NormUpdate(g, f, n - 1, b, x);
      Distribute(g[b], x, Get(f, b));
      hide Mul;
    }
  }

  lemma {:induction false} NormOfZeros(g: seq<real>, f: map<int, real>, n: nat)
    requires n <= |g| && forall b :: 0 <= b < |g| ==> g[b] == 0.0
    ensures Norm(g, f, n) == 0.0
  {
    if n > 0 { NormOfZeros(g, f, n - 1); }
  }

  /** Adding up by slots or by buckets is the same. */
  lemma {:induction false} BySlotsOrBuckets(kwh: seq<real>, f: map<int, real>, n: nat)
    requires n <= |kwh| && n <= SLOTS
    ensures Weighted(kwh, f, n) == Norm(Buckets(kwh, n), f, BUCKETS)
  {
    if n == 0 {
      NormOfZeros(Buckets(kwh, 0), f, BUCKETS);
    } else {
      BySlotsOrBuckets(kwh, f, n - 1);
      var g, b := Buckets(kwh, n - 1), (n - 1) / 4;
      assert Buckets(kwh, n) == g[b := g[b] + kwh[n - 1]];
      NormUpdate(g, f, BUCKETS, b, kwh[n - 1]);
    }
  }

  lemma {:induction false} NormOfFractions(g: seq<real>, shares: seq<real>, f: map<int, real>, total: real, n: nat)
    requires total > 0.0 && n <= |g| == |shares| && forall b :: 0 <= b < |g| ==> shares[b] == g[b] / total
    ensures Mul(Norm(shares, f, n), total) == Norm(g, f, n)
  {
    if n > 0 {
      NormOfFractions(g, shares, f, total, n - 1);
      var s, w := shares[n - 1], Get(f, n - 1);
      assert Mul(s, total) == g[n - 1];
      Regroup(s, w, total);
      Distribute(Norm(shares, f, n - 1), Mul(s, w), total);
    }
  }

  lemma Regroup(s: real, w: real, total: real)
    ensures Mul(Mul(s, w), total) == Mul(Mul(s, total), w)
  {}

  lemma Distribute(a: real, b: real, c: real)
    ensures Mul(a + b, c) == Mul(a, c) + Mul(b, c)
  {}

  /** Factors divided by the norm, loads multiplied by the scale. */
  lemma {:induction false} WeightedScaled(
    kwh: seq<real>, scaled: seq<real>, f: map<int, real>, g: map<int, real>, scale: real, norm: real, n: nat)
    requires n <= |kwh| == |scaled| && n <= SLOTS
    requires forall k :: 0 <= k < |kwh| ==> scaled[k] == Mul(kwh[k], scale)
    requires forall b :: 0 <= b < BUCKETS ==> Mul(Get(g, b), norm) == Get(f, b)
    ensures Mul(Weighted(scaled, g, n), norm) == Mul(Weighted(kwh, f, n), scale)
  {
    if n > 0 {
      WeightedScaled(kwh, scaled, f, g, scale, norm, n - 1);
      var x, v := kwh[n - 1], Get(g, (n - 1) / 4);
      SlotScaled(x, scale, v, norm);
      Distribute(Weighted(scaled, g, n - 1), Mul(Mul(x, scale), v), norm);
      Distribute(Weighted(kwh, f, n - 1), Mul(x, Mul(v, norm)), scale);
      hide Mul, Get;
    }
  }

  lemma SlotScaled(x: real, scale: real, v: real, norm: real)
    ensures Mul(Mul(Mul(x, scale), v), norm) == Mul(Mul(x, Mul(v, norm)), scale)
  {
    assert x * scale * v * norm == x * (v * norm) * scale;
  }

  lemma {:induction false} WeightedByOne(kwh: seq<real>, n: nat)
    requires n <= |kwh|
    ensures Weighted(kwh, map[], n) == Sum(kwh[..n])
  {
    if n > 0 {
      WeightedByOne(kwh, n - 1);
      SumPrefixStep(kwh, n - 1);
    }
  }

  lemma {:induction false} SumPositive(kwh: seq<real>)
    requires |kwh| > 0 && forall k :: 0 <= k < |kwh| ==> kwh[k] > 0.0
    ensures Sum(kwh) > 0.0
  {
    if |kwh| > 1 { SumPositive(kwh[..|kwh| - 1]); } else { assert kwh[..0] == []; }
  }

  lemma {:induction false} WeightedPositive(kwh: seq<real>, f: map<int, real>, n: nat)
    requires 0 < n <= |kwh| && (forall k :: 0 <= k < |kwh| ==> kwh[k] > 0.0) && forall b :: b in f ==> f[b] > 0.0
    ensures Weighted(kwh, f, n) > 0.0
  {
    assert Mul(kwh[n - 1], Get(f, (n - 1) / 4)) > 0.0;
    if n > 1 { WeightedPositive(kwh, f, n - 1); }
  }

  /** The norm times the nominal total is the nominal day weighted by the raw factors. */
  lemma NormMeaning(mode: Mode, warmup: int, setback: int, f: map<int, real>)
    requires forall b :: b in f ==> f[b] > 0.0
    ensures var day := NominalDay(mode, warmup, setback);
            var norm := Norm(Shares(mode, warmup, setback), f, BUCKETS);
            Sum(day) > 0.0 && norm > 0.0 && Mul(norm, Sum(day)) == Weighted(day, f, SLOTS)
  {
    var day, shares := NominalDay(mode, warmup, setback), Shares(mode, warmup, setback);
    SumPositive(day);
    BySlotsOrBuckets(day, f, SLOTS);
    NormOfFractions(Buckets(day, SLOTS), shares, f, Sum(day), BUCKETS);
    WeightedPositive(day, f, SLOTS);
    PositiveFactor(Norm(shares, f, BUCKETS), Sum(day));
  }

  lemma PositiveFactor(a: real, b: real)
    requires b > 0.0 && Mul(a, b) > 0.0
    ensures a > 0.0
  {}

  // ---------------------------------------------------------------- conservation

  /** The forecast's scaled, and scaled and shaped, loads of the first `n` slots of a date. */
  function DayScaled(inp: Inputs, d: int, n: nat): real {
    if n == 0 then 0.0 else DayScaled(inp, d, n - 1) + ScaledKwh(inp, At(d, 0) + (n - 1) * SLOT_M)
  }

  function DayShaped(inp: Inputs, d: int, n: nat): real {
    if n == 0 then 0.0 else DayShaped(inp, d, n - 1) + ShapedKwh(inp, At(d, 0) + (n - 1) * SLOT_M)
  }

  function ScaledDay(inp: Inputs, d: int): (r: seq<real>)
    ensures |r| == SLOTS
  {
    seq(SLOTS, k requires 0 <= k < SLOTS => ScaledKwh(inp, At(d, 0) + k * SLOT_M))
  }

  lemma SlotShaped(inp: Inputs, d: int, k: nat)
    requires k < SLOTS
    ensures ShapedKwh(inp, At(d, 0) + k * SLOT_M) == Mul(ScaledDay(inp, d)[k], Get(inp.factors, k / 4))
  {
    hide ScaledKwh;
    SlotClock(d, k);
    assert HourOf(At(d, 0) + k * SLOT_M) / 2 == k / 4;
  }

  lemma {:induction false} DayAsWeighted(inp: Inputs, d: int, n: nat)
    requires n <= SLOTS
    ensures DayShaped(inp, d, n) == Weighted(ScaledDay(inp, d), inp.factors, n)
  {
    hide ScaledKwh, ShapedKwh, Mul, Get;
    if n > 0 {
      DayAsWeighted(inp, d, n - 1);
      SlotShaped(inp, d, n - 1);
    }
  }

  lemma {:induction false} DayAsSum(inp: Inputs, d: int, n: nat)
    requires n <= SLOTS
    ensures DayScaled(inp, d, n) == Sum(ScaledDay(inp, d)[..n])
  {
    hide ScaledKwh;
    if n > 0 {
      DayAsSum(inp, d, n - 1);
      SumPrefixStep(ScaledDay(inp, d), n - 1);
    }
  }

  /** Shape correction conserves energy: on a plain day, for every partial table of
      positive factors, shaping every slot by its normalised bucket factor leaves the
      day's total exactly as it was. */
  lemma ShapeKeepsDailyTotal(inp: Inputs, d: int, f: map<int, real>)
    requires !inp.mode.Vacation? && EarlySetback(inp.policy, d).None? && inp.policy.standoff(d).None?
    requires forall b :: b in f ==> f[b] > 0.0
    requires inp.factors == Normalized(f, Shares(inp.mode, inp.policy.warmupHour(d), inp.policy.decision(d).setbackHour))
    ensures DayShaped(inp, d, SLOTS) == DayScaled(inp, d, SLOTS)
  {
    var warmup, setback := inp.policy.warmupHour(d), inp.policy.decision(d).setbackHour;
    var day, scaled := NominalDay(inp.mode, warmup, setback), ScaledDay(inp, d);
    DayAsWeighted(inp, d, SLOTS);
    DayAsSum(inp, d, SLOTS);
    assert scaled[..SLOTS] == scaled && day[..SLOTS] == day;
    ScaledDayIsNominal(inp, d);
    WeightedByOne(scaled, SLOTS);
    WeightedByOne(day, SLOTS);
    assert forall b :: 0 <= b < BUCKETS ==> Mul(Get(map[], b), 1.0) == Get(map[], b);
    WeightedScaled(day, scaled, map[], map[], inp.scale, 1.0, SLOTS);
    if f != map[] {
      var norm := Norm(Shares(inp.mode, warmup, setback), f, BUCKETS);
      NormMeaning(inp.mode, warmup, setback, f);
      NormalizedGet(f, Shares(inp.mode, warmup, setback));
      WeightedScaled(day, scaled, f, inp.factors, inp.scale, norm, SLOTS);
      Cancel(Weighted(scaled, inp.factors, SLOTS), norm, inp.scale, Sum(day));
    }
  }

  lemma ScaledDayIsNominal(inp: Inputs, d: int)
    requires !inp.mode.Vacation? && EarlySetback(inp.policy, d).None? && inp.policy.standoff(d).None?
    ensures var day := NominalDay(inp.mode, inp.policy.warmupHour(d), inp.policy.decision(d).setbackHour);
            forall k :: 0 <= k < SLOTS ==> ScaledDay(inp, d)[k] == Mul(day[k], inp.scale)
  {
    forall k | 0 <= k < SLOTS
      ensures ScaledDay(inp, d)[k]
              == Mul(NominalKwh(inp.mode, inp.policy.warmupHour(d), inp.policy.decision(d).setbackHour, k), inp.scale)
    {
      NominalMatchesPhases(inp.policy, inp.mode, d, k);
    }
  }

  lemma NormalizedGet(f: map<int, real>, shares: seq<real>)
    requires f != map[] && Norm(shares, f, |shares|) > 0.0
    ensures forall b :: 0 <= b < BUCKETS ==> Mul(Get(Normalized(f, shares), b), Norm(shares, f, |shares|)) == Get(f, b)
  {
    var norm := Norm(shares, f, |shares|);
    forall b | 0 <= b < BUCKETS ensures Mul(Get(Normalized(f, shares), b), norm) == Get(f, b) {
      assert Get(Normalized(f, shares), b) == Get(f, b) / norm;
      assert Get(f, b) / norm * norm == Get(f, b);
    }
  }

  lemma Cancel(x: real, norm: real, scale: real, total: real)
    requires norm > 0.0 && Mul(x, norm) == Mul(Mul(norm, total), scale)
    ensures x == Mul(total, scale)
  {
    assert (x - total * scale) * norm == 0.0;
  }
}
