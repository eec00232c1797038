/** The hot-water shape learner (src/dhw_bias.py): an open loop on the raw forecast. */
module DhwBias {
  import opened Common
  import opened Accumulators

  /** One row of the error log. `applied` is the factor in force when the forecast was
      committed. */
  datatype LogRow = LogRow(
    day: int, bucket: int, forecast: Option<real>, actual: Option<real>, applied: Option<real>, normalMode: bool)

  /** `weight` is the recency weight of an age in days; `contaminated` the (day, bucket)
      pairs a boost, an override or the firmware's cycle touched. */
  datatype Config = Config(
    minForecast: real, lo: real, hi: real, minDays: nat, weight: nat -> real, contaminated: set<(int, int)>)

  ghost predicate Sane(cfg: Config) {
    cfg.minForecast > 0.0 && cfg.lo <= cfg.hi && forall age :: cfg.weight(age) > 0.0
  }

  /** A missing or zero factor reads as one. */
  function AppliedFactor(r: LogRow): real {
    if r.applied.Some? && r.applied.value != 0.0 then r.applied.value else 1.0
  }

  function Raw(r: LogRow): real
    requires r.forecast.Some?
  {
    if AppliedFactor(r) > 0.0 then r.forecast.value / AppliedFactor(r) else r.forecast.value
  }

  predicate Usable(cfg: Config, r: LogRow) {
    r.forecast.Some? && r.actual.Some? && r.normalMode && (r.day, r.bucket) !in cfg.contaminated
    && Raw(r) >= cfg.minForecast
  }

  function ItemOf(cfg: Config, today: int, r: LogRow): Item
    requires Usable(cfg, r)
  {
    var w := cfg.weight(MaxI(0, today - r.day));
    Item(r.bucket, w * r.actual.value, w * Raw(r), r.day)
  }

  function Items(cfg: Config, today: int, rows: seq<LogRow>): seq<Item> {
    if |rows| == 0 then []
    else
      var rest, r := Items(cfg, today, rows[..|rows| - 1]), rows[|rows| - 1];
      if Usable(cfg, r) then rest + [ItemOf(cfg, today, r)] else rest
  }

  method UsableRows(cfg: Config, today: int, rows: seq<LogRow>) returns (items: seq<Item>)
    ensures items == Items(cfg, today, rows)
  {
    items := [];
    var i := 0;
    while i < |rows|
      invariant 0 <= i <= |rows| && items == Items(cfg, today, rows[..i])
    {
      assert rows[..i + 1][..i] == rows[..i];
      if Usable(cfg, rows[i]) { items := items + [ItemOf(cfg, today, rows[i])]; }
      i := i + 1;
    }
    assert rows[..i] == rows;
  }

  /** Clamp and the minimum number of distinct days. */
  function FactorsFrom(cfg: Config, acc: map<int, Acc>): map<int, real> {
    map b | b in acc && acc[b].den > 0.0 && |acc[b].days| >= cfg.minDays :: Clamp(cfg.lo, cfg.hi, acc[b].num / acc[b].den)
  }

  function Factors(cfg: Config, today: int, rows: seq<LogRow>): map<int, real> {
    FactorsFrom(cfg, AccOf(Items(cfg, today, rows)))
  }

  method ComputeBucketBias(cfg: Config, today: int, rows: seq<LogRow>) returns (factors: map<int, real>)
    ensures factors == Factors(cfg, today, rows)
  {
    var items := UsableRows(cfg, today, rows);
    var acc := Accumulate(items);
    factors := FactorsFrom(cfg, acc);
  }

  // -------------------------------------------------------------------- open loop

  /** The same day forecast with another factor in force: the raw forecast is the same,
      the committed one is multiplied by the factor. */
  function Recommitted(r: LogRow, factor: real): LogRow {
    if r.forecast.None? then r.(applied := Some(factor))
    else r.(forecast := Some(Raw(r) * factor), applied := Some(factor))
  }

  function History(rows: seq<LogRow>, factors: seq<real>): (h: seq<LogRow>)
    requires |rows| == |factors|
    ensures |h| == |rows|
  {
    seq(|rows|, i requires 0 <= i < |rows| => Recommitted(rows[i], factors[i]))
  }

  lemma SameItem(cfg: Config, today: int, r: LogRow, factor: real)
    requires factor > 0.0
    ensures Usable(cfg, Recommitted(r, factor)) == Usable(cfg, r)
    ensures Usable(cfg, r) ==> ItemOf(cfg, today, Recommitted(r, factor)) == ItemOf(cfg, today, r)
  {
    if r.forecast.Some? {
      assert Raw(r) * factor / factor == Raw(r);
      assert Raw(Recommitted(r, factor)) == Raw(r);
      hide Raw;
    }
  }

  lemma {:induction false} SameItems(cfg: Config, today: int, rows: seq<LogRow>, factors: seq<real>)
    requires |rows| == |factors| && forall i :: 0 <= i < |factors| ==> factors[i] > 0.0
    ensures Items(cfg, today, History(rows, factors)) == Items(cfg, today, rows)
  {
    if |rows| > 0 {
      var n := |rows| - 1;
      SameItems(cfg, today, rows[..n], factors[..n]);
      assert History(rows, factors)[..n] == History(rows[..n], factors[..n]);
      SameItem(cfg, today, rows[n], factors[n]);
      hide Usable, ItemOf, Recommitted;
    }
  }

  /** Open loop: whatever positive factors were in force on each day, and so whatever
      earlier refreshes wrote, the same days teach the same factors. Refreshing again
      never compounds. */
  lemma LearnsOnlyFromRaw(cfg: Config, today: int, rows: seq<LogRow>, a: seq<real>, b: seq<real>)
    requires |a| == |b| == |rows|
    requires forall i :: 0 <= i < |rows| ==> a[i] > 0.0 && b[i] > 0.0
    ensures Factors(cfg, today, History(rows, a)) == Factors(cfg, today, History(rows, b))
    ensures Factors(cfg, today, History(rows, a)) == Factors(cfg, today, rows)
  {
    SameItems(cfg, today, rows, a);
    SameItems(cfg, today, rows, b);
  }

  // ---------------------------------------------------------------------- mediant

  /** Measured over raw forecast is between two bounds on every usable row of a bucket. */
  ghost predicate RowRatiosWithin(cfg: Config, rows: seq<LogRow>, bucket: int, lo: real, hi: real) {
    forall i :: 0 <= i < |rows| && rows[i].bucket == bucket && Usable(cfg, rows[i]) ==>
      RatioWithin(rows[i].actual.value, Raw(rows[i]), lo, hi)
  }

  lemma WeightedRatio(w: real, num: real, den: real, lo: real, hi: real)
    requires w > 0.0 && den > 0.0 && RatioWithin(num, den, lo, hi)
    ensures w * den > 0.0 && RatioWithin(w * num, w * den, lo, hi)
  {
    assert w * (num - lo * den) >= 0.0 && w * (hi * den - num) >= 0.0;
    assert w * (num - lo * den) == w * num - lo * (w * den);
    assert w * (hi * den - num) == hi * (w * den) - w * num;
  }

  lemma {:induction false} ItemsWithin(cfg: Config, today: int, rows: seq<LogRow>, bucket: int, lo: real, hi: real)
    requires Sane(cfg) && RowRatiosWithin(cfg, rows, bucket, lo, hi)
    ensures RatiosWithin(Items(cfg, today, rows), bucket, lo, hi)
  {
    if |rows| > 0 {
      var n := |rows| - 1;
      ItemsWithin(cfg, today, rows[..n], bucket, lo, hi);
      if Usable(cfg, rows[n]) && rows[n].bucket == bucket {
        WeightedRatio(cfg.weight(MaxI(0, today - rows[n].day)), rows[n].actual.value, Raw(rows[n]), lo, hi);
      }
      hide RatioWithin;
    }
  }

  /** Whatever the recency weights, a bucket's factor is the clamp of a value between the
      smallest and the largest measured-to-raw ratio of its rows, and is in the clamp. */
  lemma FactorIsBetween(cfg: Config, today: int, rows: seq<LogRow>, bucket: int, lo: real, hi: real)
    requires Sane(cfg) && RowRatiosWithin(cfg, rows, bucket, lo, hi) && bucket in Factors(cfg, today, rows)
    ensures cfg.lo <= Factors(cfg, today, rows)[bucket] <= cfg.hi
    ensures Clamp(cfg.lo, cfg.hi, lo) <= Factors(cfg, today, rows)[bucket] <= Clamp(cfg.lo, cfg.hi, hi)
  {
    var items := Items(cfg, today, rows);
    ItemsWithin(cfg, today, rows, bucket, lo, hi);
    RatioIsBetween(items, bucket, lo, hi);
    DividedRatio(AccOf(items)[bucket].num, AccOf(items)[bucket].den, lo, hi);
  }

  // ------------------------------------------------------------- what is learnt at all

  /** A row with both energies, of a normal day that nothing else touched, whose forecast
      before the factor in force was large enough. */
  predicate Clean(cfg: Config, r: LogRow) {
    r.forecast.Some? && r.actual.Some? && r.normalMode && !((r.day, r.bucket) in cfg.contaminated)
    && match r.applied
       case Some(f) => r.forecast.value >= (if f > 0.0 then f * cfg.minForecast else cfg.minForecast)
       case None => r.forecast.value >= cfg.minForecast
  }

  lemma CleanIsUsable(cfg: Config, r: LogRow)
    ensures Clean(cfg, r) <==> Usable(cfg, r)
  {
    if r.forecast.Some? && r.applied.Some? && r.applied.value > 0.0 {
      DivideAtLeast(r.forecast.value, r.applied.value, cfg.minForecast);
    }
  }

  lemma DivideAtLeast(x: real, f: real, m: real)
    requires f > 0.0
    ensures x / f >= m <==> x >= f * m
  {
    var q := x / f;
    assert q * f == x;
    if q >= m {
      ProductMonotone(m, q, f);
      assert m * f <= x;
    } else {
      StrictProduct(q, m, f);
      assert x < m * f;
    }
    assert m * f == f * m;
  }

  lemma StrictProduct(a: real, b: real, c: real)
    requires a < b && c > 0.0
    ensures a * c < b * c
  {
    var gap := b - a;
    assert gap * c > 0.0;
    assert b * c == a * c + gap * c;
  }

  function CleanDays(cfg: Config, rows: seq<LogRow>, bucket: int): set<int> {
    set i | 0 <= i < |rows| && rows[i].bucket == bucket && Clean(cfg, rows[i]) :: rows[i].day
  }

  lemma {:induction false} ItemDays(cfg: Config, today: int, rows: seq<LogRow>, bucket: int)
    ensures DaysIn(Items(cfg, today, rows), bucket) == CleanDays(cfg, rows, bucket)
  {
    if |rows| > 0 {
      var n := |rows| - 1;
      ItemDays(cfg, today, rows[..n], bucket);
      CleanIsUsable(cfg, rows[n]);
      hide Clean, Usable;
      var items := Items(cfg, today, rows[..n]);
      if Usable(cfg, rows[n]) { assert (items + [ItemOf(cfg, today, rows[n])])[..|items|] == items; }
      assert CleanDays(cfg, rows, bucket) == CleanDays(cfg, rows[..n], bucket)
             + if rows[n].bucket == bucket && Clean(cfg, rows[n]) then {rows[n].day} else {};
    } else {
      assert CleanDays(cfg, rows, bucket) == {};
    }
  }

  lemma {:induction false} PositiveDen(cfg: Config, today: int, rows: seq<LogRow>, bucket: int)
    requires Sane(cfg)
    ensures var acc := AccOf(Items(cfg, today, rows)); bucket in acc ==> acc[bucket].den > 0.0
  {
    if |rows| > 0 {
      var n := |rows| - 1;
      PositiveDen(cfg, today, rows[..n], bucket);
      var items := Items(cfg, today, rows[..n]);
      if Usable(cfg, rows[n]) {
        assert (items + [ItemOf(cfg, today, rows[n])])[..|items|] == items;
        assert cfg.weight(MaxI(0, today - rows[n].day)) * Raw(rows[n]) > 0.0;
      }
    }
  }

  /** A bucket has a factor exactly when clean rows of it fall on enough distinct days. */
  lemma LearntIff(cfg: Config, today: int, rows: seq<LogRow>, bucket: int)
    requires Sane(cfg)
    ensures bucket in Factors(cfg, today, rows)
            <==> CleanDays(cfg, rows, bucket) != {} && |CleanDays(cfg, rows, bucket)| >= cfg.minDays
  {
    ItemDays(cfg, today, rows, bucket);
    DaysAre(Items(cfg, today, rows), bucket);
    PositiveDen(cfg, today, rows, bucket);
    hide Items, AccOf, CleanDays, DaysIn;
  }
}
