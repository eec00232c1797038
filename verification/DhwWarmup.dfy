/** The price-aware warmup hour and the early setback (src/dhw_policy.py): chosen once
    per date, persisted once, and read back unchanged until swept. */
module DhwWarmup {
  import opened Common
  import opened DhwClock

  const PICK_EPS: real := 0.000000001
  const TTL_DAYS: int := 7

  /** Feature switch, static hour, and the search window of hours. */
  datatype Config = Config(enabled: bool, static_: int, lo: int, hi: int)

  /** A price row; a prior is a forecast price of the horizon extender. */
  datatype Quote = Quote(start: int, pence: real, prior: bool)

  datatype Key = HourKey(d: int) | ShadowKey(d: int) | EarlyKey(d: int) | WindowKey(d: int)

  datatype Stored = Hour(h: int) | Shadow(pick: int) | Instant(t: int) | Other

  type Kv = map<Key, Stored>

  // ------------------------------------------------------------------- the prices

  function Prices(quotes: seq<Quote>): map<int, real> {
    if |quotes| == 0 then map[]
    else
      var q := quotes[|quotes| - 1];
      Prices(quotes[..|quotes| - 1])[q.start := q.pence]
  }

  function RealSlots(quotes: seq<Quote>): set<int> {
    if |quotes| == 0 then {}
    else
      var rest, q := RealSlots(quotes[..|quotes| - 1]), quotes[|quotes| - 1];
      if q.prior then rest else rest + {q.start}
  }

  method PriceAndRealMaps(quotes: seq<Quote>) returns (prices: map<int, real>, reals: set<int>)
    ensures prices == Prices(quotes) && reals == RealSlots(quotes)
  {
    prices, reals := map[], {};
    var i := 0;
    while i < |quotes|
      invariant 0 <= i <= |quotes| && prices == Prices(quotes[..i]) && reals == RealSlots(quotes[..i])
    {
      assert quotes[..i + 1][..i] == quotes[..i];
      prices := prices[quotes[i].start := quotes[i].pence];
      if !quotes[i].prior { reals := reals + {quotes[i].start}; }
      i := i + 1;
    }
    assert quotes[..i] == quotes;
  }

  lemma {:induction false} RealIsPriced(quotes: seq<Quote>, t: int)
    ensures t in RealSlots(quotes) ==> t in Prices(quotes)
  {
    if |quotes| > 0 { RealIsPriced(quotes[..|quotes| - 1], t); }
  }

  /** A slot is real when some row that is no prior starts with it. */
  lemma {:induction false} RealMeans(quotes: seq<Quote>, t: int)
    ensures t in RealSlots(quotes) <==> exists i :: 0 <= i < |quotes| && quotes[i].start == t && !quotes[i].prior
  {
    if |quotes| > 0 {
      var n := |quotes| - 1;
      RealMeans(quotes[..n], t);
      if t in RealSlots(quotes[..n]) {
        var i :| 0 <= i < n && quotes[..n][i].start == t && !quotes[..n][i].prior;
        assert quotes[i].start == t && !quotes[i].prior;
      }
      if i :| 0 <= i < n && quotes[i].start == t && !quotes[i].prior {
        assert quotes[..n][i].start == t;
      }
    }
  }

  /** Its price is that of the last row that starts with it. */
  lemma {:induction false} LastPriceWins(quotes: seq<Quote>, i: nat)
    requires i < |quotes| && forall j :: i < j < |quotes| ==> quotes[j].start != quotes[i].start
    ensures quotes[i].start in Prices(quotes) && Prices(quotes)[quotes[i].start] == quotes[i].pence
  {
    if i < |quotes| - 1 { LastPriceWins(quotes[..|quotes| - 1], i); }
  }

  ghost predicate FullyReal(d: int, reals: set<int>, lo: int, hi: int) {
    lo < hi && forall h :: lo <= h < hi ==> BothReal(d, reals, h)
  }

  predicate BothReal(d: int, reals: set<int>, h: int) { At(d, h) in reals && At(d, h) + SLOT_M in reals }

  method WindowFullyReal(d: int, reals: set<int>, lo: int, hi: int) returns (full: bool)
    ensures full == FullyReal(d, reals, lo, hi)
  {
    if hi <= lo { return false; }
    var h := lo;
    while h < hi
      invariant lo <= h <= hi && forall k :: lo <= k < h ==> BothReal(d, reals, k)
    {
      if !(At(d, h) in reals && At(d, h) + SLOT_M in reals) {
        assert !BothReal(d, reals, h);
        return false;
      }
      h := h + 1;
    }
    return true;
  }

  // --------------------------------------------------------------------- the pick

  /** Mean price of the hour's two half slots, of those that have one. */
  function Mean(d: int, prices: map<int, real>, h: int): Option<real> {
    var a, b := At(d, h), At(d, h) + SLOT_M;
    if a in prices && b in prices then Some((prices[a] + prices[b]) / 2.0)
    else if a in prices then Some(prices[a])
    else if b in prices then Some(prices[b])
    else None
  }

  /** Half way between the two, or the one there is. */
  lemma MeanIsMidway(d: int, prices: map<int, real>, h: int)
    ensures var a, b := At(d, h), At(d, h) + SLOT_M;
            (Mean(d, prices, h).Some? <==> a in prices || b in prices)
            && (a in prices && b in prices ==> Mean(d, prices, h).value - prices[a] == prices[b] - Mean(d, prices, h).value)
            && (a in prices && b !in prices ==> Mean(d, prices, h).value == prices[a])
            && (a !in prices && b in prices ==> Mean(d, prices, h).value == prices[b])
  {}

  predicate Priced(d: int, prices: map<int, real>, h: int) { Mean(d, prices, h).Some? }

  /** What the pick is: every earlier hour is strictly dearer, no hour is cheaper by more
      than the epsilon. */
  ghost predicate BestHour(d: int, prices: map<int, real>, lo: int, hi: int, c: int) {
    lo <= c < hi && Priced(d, prices, c)
    && forall h :: lo <= h < hi && Priced(d, prices, h) ==>
         Mean(d, prices, h).value >= Mean(d, prices, c).value - PICK_EPS
         && (h < c ==> Mean(d, prices, h).value > Mean(d, prices, c).value)
  }

  method PriceAwarePick(d: int, prices: map<int, real>, lo: int, hi: int) returns (best: Option<int>)
    ensures best == Pick(d, prices, lo, hi)
  {
    best := None;
    var h := lo;
    while h < hi
      invariant lo <= h && (h <= hi || h == lo) && (best.Some? ==> Priced(d, prices, best.value))
      invariant Pick(d, prices, lo, hi) == PickFrom(d, prices, best, h, hi)
    {
      var m := Mean(d, prices, h);
      if m.Some? && (best.None? || m.value < Mean(d, prices, best.value).value - PICK_EPS) { best := Some(h); }
      h := h + 1;
    }
  }

  function Pick(d: int, prices: map<int, real>, lo: int, hi: int): Option<int> { PickFrom(d, prices, None, lo, hi) }

  function PickFrom(d: int, prices: map<int, real>, best: Option<int>, h: int, hi: int): Option<int>
    requires best.Some? ==> Priced(d, prices, best.value)
    decreases hi - h
  {
    if h >= hi then best
    else
      var m := Mean(d, prices, h);
      PickFrom(d, prices,
               if m.Some? && (best.None? || m.value < Mean(d, prices, best.value).value - PICK_EPS) then Some(h) else best,
               h + 1, hi)
  }

  lemma {:induction false} PickFromIsBest(d: int, prices: map<int, real>, lo: int, best: Option<int>, h: int, hi: int)
    requires lo <= h <= hi
    requires best.Some? ==> BestHour(d, prices, lo, h, best.value)
    requires best.None? ==> forall k :: lo <= k < h ==> !Priced(d, prices, k)
    ensures var c := PickFrom(d, prices, best, h, hi);
            (c.Some? ==> BestHour(d, prices, lo, hi, c.value))
            && (c.None? ==> forall k :: lo <= k < hi ==> !Priced(d, prices, k))
    decreases hi - h
  {
    if h < hi {
      var m := Mean(d, prices, h);
      var next := if m.Some? && (best.None? || m.value < Mean(d, prices, best.value).value - PICK_EPS) then Some(h) else best;
      PickFromIsBest(d, prices, lo, next, h + 1, hi);
    }
  }

  /** The pick is a best hour; there is none only when no hour has a price. */
  lemma PickIsBest(d: int, prices: map<int, real>, lo: int, hi: int)
    requires lo <= hi
    ensures match Pick(d, prices, lo, hi)
            case Some(c) => BestHour(d, prices, lo, hi, c)
            case None => forall h :: lo <= h < hi ==> !Priced(d, prices, h)
  {
    PickFromIsBest(d, prices, lo, None, lo, hi);
  }

  /** No two hours' means are different but within the epsilon, as with prices in
      thousandths of a penny. */
  ghost predicate WellSpread(d: int, prices: map<int, real>, lo: int, hi: int) {
    forall a, b :: lo <= a < hi && lo <= b < hi && Priced(d, prices, a) && Priced(d, prices, b) ==>
      Mean(d, prices, a) == Mean(d, prices, b)
      || AbsR(Mean(d, prices, a).value - Mean(d, prices, b).value) > PICK_EPS
  }

  /** On such prices the pick is exactly the earliest cheapest hour. */
  lemma PickIsEarliestCheapest(d: int, prices: map<int, real>, lo: int, hi: int, h: int)
    requires WellSpread(d, prices, lo, hi) && lo <= h < hi && Priced(d, prices, h)
    ensures var c := Pick(d, prices, lo, hi);
            c.Some? && Priced(d, prices, c.value)
            && Mean(d, prices, c.value).value <= Mean(d, prices, h).value
            && (Mean(d, prices, h) == Mean(d, prices, c.value) ==> c.value <= h)
  {
    PickIsBest(d, prices, lo, hi);
  }

  /** The first of the hours with the lowest mean. */
  ghost predicate EarliestCheapest(d: int, prices: map<int, real>, lo: int, hi: int, e: int) {
    lo <= e < hi && Priced(d, prices, e)
    && forall h :: lo <= h < hi && Priced(d, prices, h) ==>
         Mean(d, prices, h).value >= Mean(d, prices, e).value
         && (h < e ==> Mean(d, prices, h).value > Mean(d, prices, e).value)
  }

  lemma {:induction false} PickFromSplit(d: int, prices: map<int, real>, best: Option<int>, h: int, mid: int, hi: int)
    requires h <= mid <= hi && (best.Some? ==> Priced(d, prices, best.value))
    ensures var c := PickFrom(d, prices, best, h, mid);
            (c.Some? ==> Priced(d, prices, c.value) && (c == best || h <= c.value < mid))
            && PickFrom(d, prices, best, h, hi) == PickFrom(d, prices, c, mid, hi)
    decreases mid - h
  {
    if h < mid {
      var m := Mean(d, prices, h);
      var next := if m.Some? && (best.None? || m.value < Mean(d, prices, best.value).value - PICK_EPS) then Some(h) else best;
      PickFromSplit(d, prices, next, h + 1, mid, hi);
    }
  }

  lemma {:induction false} CheapestStays(d: int, prices: map<int, real>, e: int, h: int, hi: int)
    requires h <= hi && Priced(d, prices, e)
    requires forall k :: h <= k < hi && Priced(d, prices, k) ==> Mean(d, prices, k).value >= Mean(d, prices, e).value
    ensures PickFrom(d, prices, Some(e), h, hi) == Some(e)
    decreases hi - h
  {
    if h < hi { CheapestStays(d, prices, e, h + 1, hi); }
  }

  /** On any prices, the pick is the earliest cheapest hour exactly when the hour picked
      among those before it is dearer by more than the epsilon. */
  lemma PickIsEarliestCheapestIff(d: int, prices: map<int, real>, lo: int, hi: int, e: int)
    requires EarliestCheapest(d, prices, lo, hi, e)
    ensures Pick(d, prices, lo, hi) == Some(e)
            <==> match Pick(d, prices, lo, e)
                 case None => true
                 case Some(c) => Mean(d, prices, c).GetOr(0.0) > Mean(d, prices, e).value + PICK_EPS
  {
    var c := Pick(d, prices, lo, e);
    PickFromSplit(d, prices, None, lo, e, hi);
    if c.None? || Mean(d, prices, c.value).value - PICK_EPS > Mean(d, prices, e).value {
      CheapestStays(d, prices, e, e + 1, hi);
    } else {
      PickFromSplit(d, prices, c, e + 1, hi, hi);
    }
  }

  /** So it is whenever every earlier hour is dearer by more than the epsilon, whatever
      the later ones cost. */
  lemma ClearlyCheapestIsPicked(d: int, prices: map<int, real>, lo: int, hi: int, e: int)
    requires EarliestCheapest(d, prices, lo, hi, e)
    requires forall h :: lo <= h < e && Priced(d, prices, h) ==> Mean(d, prices, h).value > Mean(d, prices, e).value + PICK_EPS
    ensures Pick(d, prices, lo, hi) == Some(e)
  {
    PickIsEarliestCheapestIff(d, prices, lo, hi, e);
    PickFromSplit(d, prices, None, lo, e, hi);
  }

  /** The rule does fail: of two hours half the epsilon apart the dearer one is picked. */
  lemma PickCanMissCheapest()
    ensures var prices := map[At(0, 11) := 5.0, At(0, 12) := 4.9999999995];
            EarliestCheapest(0, prices, 11, 13, 12) && Pick(0, prices, 11, 13) == Some(11)
  {
    var prices := map[At(0, 11) := 5.0, At(0, 12) := 4.9999999995];
    assert Mean(0, prices, 11) == Some(5.0) && Mean(0, prices, 12) == Some(4.9999999995);
    assert PickFrom(0, prices, Some(11), 13, 13) == Some(11);
    assert PickFrom(0, prices, Some(11), 12, 13) == Some(11);
  }

  /** Nor is the pick the earliest hour within the epsilon of the cheapest: three means
      closer than that can make it pass over the second for the third. */
  lemma PickCanSkipNearTie()
    ensures var prices := map[At(0, 11) := 5.0000000015, At(0, 12) := 5.00000000075, At(0, 13) := 5.0000000004];
            EarliestCheapest(0, prices, 11, 14, 13) && Pick(0, prices, 11, 14) == Some(13)
            && Mean(0, prices, 12).value <= Mean(0, prices, 13).value + PICK_EPS
  {
    var prices := map[At(0, 11) := 5.0000000015, At(0, 12) := 5.00000000075, At(0, 13) := 5.0000000004];
    assert Mean(0, prices, 11) == Some(5.0000000015) && Mean(0, prices, 12) == Some(5.00000000075)
           && Mean(0, prices, 13) == Some(5.0000000004);
    assert PickFrom(0, prices, Some(13), 14, 14) == Some(13);
    assert PickFrom(0, prices, Some(11), 13, 14) == Some(13);
    assert PickFrom(0, prices, Some(11), 12, 14) == Some(13);
  }

  // ------------------------------------------------------------------- the store

  function PersistedHour(kv: Kv, d: int): Option<int> {
    if HourKey(d) in kv && kv[HourKey(d)].Hour? then Some(kv[HourKey(d)].h) else None
  }

  /** read_warmup_hour: persisted or static; with the feature off always static. */
  function ReadHour(cfg: Config, kv: Kv, d: int): int {
    if cfg.enabled then PersistedHour(kv, d).GetOr(cfg.static_) else cfg.static_
  }

  function ReadEarly(kv: Kv, d: int): Option<int> {
    if EarlyKey(d) in kv && kv[EarlyKey(d)].Instant? then Some(kv[EarlyKey(d)].t) else None
  }

  function Swept(kv: Kv, today: int): Kv { map k | k in kv && k.d >= today - TTL_DAYS :: kv[k] }

  ghost function Resolve(cfg: Config, kv: Kv, d: int, quotes: seq<Quote>): (Kv, int) {
    var pick := Pick(d, Prices(quotes), cfg.lo, cfg.hi);
    if cfg.enabled && PersistedHour(kv, d).Some? then (kv, PersistedHour(kv, d).value)
    else if !FullyReal(d, RealSlots(quotes), cfg.lo, cfg.hi) || pick.None? then (kv, cfg.static_)
    else
      var shown := kv[ShadowKey(d) := Shadow(pick.value)];
      if cfg.enabled then (Swept(shown[HourKey(d) := Hour(pick.value)], d), pick.value) else (shown, cfg.static_)
  }

  class KvStore {
    var kv: Kv

    method SweepStaleKeys(today: int)
      modifies this
      ensures kv == Swept(old(kv), today)
    {
      var keys := kv.Keys;
      while keys != {}
        invariant keys <= old(kv).Keys && keys <= kv.Keys
        invariant kv == map k | k in old(kv) && (k in keys || k.d >= today - TTL_DAYS) :: old(kv)[k]
        decreases |keys|
      {
        var k :| k in keys;
        if k.d < today - TTL_DAYS { kv := kv - {k}; }
        keys := keys - {k};
      }
    }

    method ResolveWarmupHour(cfg: Config, d: int, quotes: seq<Quote>) returns (hour: int)
      modifies this
      ensures (kv, hour) == Resolve(cfg, old(kv), d, quotes)
    {
      if cfg.enabled {
        var persisted := PersistedHour(kv, d);
        if persisted.Some? { return persisted.value; }
      }
      var prices, reals := PriceAndRealMaps(quotes);
      var full := WindowFullyReal(d, reals, cfg.lo, cfg.hi);
      if !full { return cfg.static_; }
      var pick := PriceAwarePick(d, prices, cfg.lo, cfg.hi);
      if pick.None? { return cfg.static_; }
      kv := kv[ShadowKey(d) := Shadow(pick.value)];
      if !cfg.enabled { return cfg.static_; }
      kv := kv[HourKey(d) := Hour(pick.value)];
      SweepStaleKeys(d);
      return pick.value;
    }

    method PersistEarlySetback(d: int, fired: int) returns (claimed: bool)
      modifies this
      ensures claimed == ReadEarly(old(kv), d).None?
      ensures kv == Claim(old(kv), d, fired)
    {
      if ReadEarly(kv, d).Some? { return false; }
      kv := kv[EarlyKey(d) := Instant(fired)];
      return true;
    }
  }

  function Claim(kv: Kv, d: int, fired: int): Kv {
    if ReadEarly(kv, d).Some? then kv else kv[EarlyKey(d) := Instant(fired)]
  }

  /** A sweep drops what is more than a week old and nothing else. */
  lemma SweptIff(kv: Kv, today: int, k: Key)
    ensures k in Swept(kv, today) <==> k in kv && today - k.d <= 7
    ensures k in Swept(kv, today) ==> Swept(kv, today)[k] == kv[k]
  {}

  // ------------------------------------------------------------------ whole runs

  datatype Event = Resolves(d: int, quotes: seq<Quote>) | Claims(d: int, fired: int) | DecidesWindow(d: int)

  ghost function Step(cfg: Config, kv: Kv, e: Event): Kv {
    match e
    case Resolves(d, quotes) => Resolve(cfg, kv, d, quotes).0
    case Claims(d, fired) => Claim(kv, d, fired)
    case DecidesWindow(d) => Swept(kv[WindowKey(d) := Other], d)
  }

  ghost function After(cfg: Config, kv: Kv, es: seq<Event>): Kv {
    if |es| == 0 then kv else Step(cfg, After(cfg, kv, es[..|es| - 1]), es[|es| - 1])
  }

  ghost function AfterFirst(cfg: Config, kv: Kv, es: seq<Event>, n: nat): Kv
    requires n <= |es|
  {
    After(cfg, kv, es[..n])
  }

  /** Nothing is resolved or decided for a date more than the time to live after `d`. */
  ghost predicate Unswept(es: seq<Event>, d: int) {
    forall i :: 0 <= i < |es| && !es[i].Claims? ==> es[i].d <= d + TTL_DAYS
  }

  lemma {:induction false} PersistedStays(cfg: Config, kv: Kv, es: seq<Event>, d: int)
    requires cfg.enabled && Unswept(es, d)
    ensures PersistedHour(kv, d).Some? ==> PersistedHour(After(cfg, kv, es), d) == PersistedHour(kv, d)
    ensures ReadEarly(kv, d).Some? ==> ReadEarly(After(cfg, kv, es), d) == ReadEarly(kv, d)
  {
    if |es| > 0 {
      var n := |es| - 1;
      PersistedStays(cfg, kv, es[..n], d);
      StepKeeps(cfg, After(cfg, kv, es[..n]), es[n], d);
    }
  }

  lemma StepKeeps(cfg: Config, kv: Kv, e: Event, d: int)
    requires cfg.enabled && (!e.Claims? ==> e.d <= d + TTL_DAYS)
    ensures PersistedHour(kv, d).Some? ==> PersistedHour(Step(cfg, kv, e), d) == PersistedHour(kv, d)
    ensures ReadEarly(kv, d).Some? ==> ReadEarly(Step(cfg, kv, e), d) == ReadEarly(kv, d)
  {}

  lemma {:induction false} AfterConcat(cfg: Config, kv: Kv, a: seq<Event>, b: seq<Event>)
    ensures After(cfg, kv, a + b) == After(cfg, After(cfg, kv, a), b)
  {
    if |b| == 0 {
      assert a + b == a;
    } else {
      AfterConcat(cfg, kv, a, b[..|b| - 1]);
      assert (a + b)[..|a + b| - 1] == a + b[..|b| - 1];
    }
  }

  /** Persist-once: over any run of resolves, claims and window decisions, whatever the
      price feeds, the warmup hour read for a date changes at most once, and the early
      setback read for it at most once, until a write for a date more than a week later
      sweeps it. */
  lemma ReadsChangeAtMostOnce(cfg: Config, kv: Kv, es: seq<Event>, d: int, i: nat, j: nat, k: nat)
    requires cfg.enabled && Unswept(es, d) && i <= j <= k <= |es|
    ensures ReadHour(cfg, AfterFirst(cfg, kv, es, i), d) == ReadHour(cfg, AfterFirst(cfg, kv, es, j), d)
            || ReadHour(cfg, AfterFirst(cfg, kv, es, j), d) == ReadHour(cfg, AfterFirst(cfg, kv, es, k), d)
    ensures ReadEarly(AfterFirst(cfg, kv, es, i), d) == ReadEarly(AfterFirst(cfg, kv, es, j), d)
            || ReadEarly(AfterFirst(cfg, kv, es, j), d) == ReadEarly(AfterFirst(cfg, kv, es, k), d)
  {
    Later(cfg, kv, es, d, i, j);
    Later(cfg, kv, es, d, j, k);
  }

  lemma Later(cfg: Config, kv: Kv, es: seq<Event>, d: int, i: nat, j: nat)
    requires cfg.enabled && Unswept(es, d) && i <= j <= |es|
    ensures PersistedHour(After(cfg, kv, es[..i]), d).Some?
            ==> PersistedHour(After(cfg, kv, es[..j]), d) == PersistedHour(After(cfg, kv, es[..i]), d)
    ensures ReadEarly(After(cfg, kv, es[..i]), d).Some?
            ==> ReadEarly(After(cfg, kv, es[..j]), d) == ReadEarly(After(cfg, kv, es[..i]), d)
  {
    assert es[..j] == es[..i] + es[i..j];
    AfterConcat(cfg, kv, es[..i], es[i..j]);
    PersistedStays(cfg, After(cfg, kv, es[..i]), es[i..j], d);
  }

  /** The feed a persisted hour was drawn from. */
  ghost predicate DrawnFrom(cfg: Config, quotes: seq<Quote>, d: int, h: int) {
    FullyReal(d, RealSlots(quotes), cfg.lo, cfg.hi) && BestHour(d, Prices(quotes), cfg.lo, cfg.hi, h)
    && forall k :: cfg.lo <= k < cfg.hi ==> Priced(d, Prices(quotes), k)
  }

  ghost predicate DrawnDuring(cfg: Config, es: seq<Event>, d: int, h: int) {
    exists i :: 0 <= i < |es| && es[i].Resolves? && es[i].d == d && DrawnFrom(cfg, es[i].quotes, d, h)
  }

  /** A persisted hour is never a guess: it was there at the start, or some resolve of
      that very date drew it, inside the search window, from a feed whose whole window
      was real, and as the best hour of that feed. */
  lemma {:induction false} PersistedHourIsDrawn(cfg: Config, kv: Kv, es: seq<Event>, d: int)
    ensures var h := PersistedHour(After(cfg, kv, es), d);
            h.Some? ==> h == PersistedHour(kv, d) || DrawnDuring(cfg, es, d, h.value)
  {
    if |es| > 0 {
      var n := |es| - 1;
      PersistedHourIsDrawn(cfg, kv, es[..n], d);
      var before := After(cfg, kv, es[..n]);
      var h := PersistedHour(Step(cfg, before, es[n]), d);
      StepDraws(cfg, before, es[n], d);
      if h.Some? {
        if h == PersistedHour(before, d) {
          if DrawnDuring(cfg, es[..n], d, h.value) {
            var i :| 0 <= i < n && es[..n][i].Resolves? && es[..n][i].d == d && DrawnFrom(cfg, es[..n][i].quotes, d, h.value);
            assert es[i].Resolves? && es[i].d == d && DrawnFrom(cfg, es[i].quotes, d, h.value);
          }
        } else {
          assert es[n].Resolves? && es[n].d == d && DrawnFrom(cfg, es[n].quotes, d, h.value);
        }
      }
    }
  }

  /** What a resolve answers is what every reader of the date sees from then on; a date
      that has its hour is answered alike, and left alone, whatever later feeds say; and
      with the feature on, a date without one gets one exactly when the whole window of
      the feed is real. The would-be pick is shown either way; a feed that is not real
      changes nothing. */
  lemma ResolveIsRead(cfg: Config, kv: Kv, d: int, quotes: seq<Quote>, later: seq<Quote>)
    ensures var (kv', hour) := Resolve(cfg, kv, d, quotes);
            hour == ReadHour(cfg, kv', d)
            && (cfg.enabled && PersistedHour(kv', d).Some? ==> Resolve(cfg, kv', d, later) == (kv', hour))
            && (cfg.enabled && PersistedHour(kv, d).None? ==>
                  (PersistedHour(kv', d).Some? <==> FullyReal(d, RealSlots(quotes), cfg.lo, cfg.hi)))
            && (FullyReal(d, RealSlots(quotes), cfg.lo, cfg.hi) && (!cfg.enabled || PersistedHour(kv, d).None?) ==>
                  ShadowKey(d) in kv' && kv'[ShadowKey(d)].Shadow?
                  && Some(kv'[ShadowKey(d)].pick) == Pick(d, Prices(quotes), cfg.lo, cfg.hi)
                  && (cfg.enabled ==> PersistedHour(kv', d) == Some(kv'[ShadowKey(d)].pick)))
            && (!FullyReal(d, RealSlots(quotes), cfg.lo, cfg.hi) ==> kv' == kv)
  {
    hide FullyReal, Pick, Prices, RealSlots;
    if FullyReal(d, RealSlots(quotes), cfg.lo, cfg.hi) { RealWindowIsPicked(cfg, d, quotes); }
  }

  /** A window that is all real has a best hour. */
  lemma RealWindowIsPicked(cfg: Config, d: int, quotes: seq<Quote>)
    requires FullyReal(d, RealSlots(quotes), cfg.lo, cfg.hi)
    ensures Pick(d, Prices(quotes), cfg.lo, cfg.hi).Some?
  {
    PickIsBest(d, Prices(quotes), cfg.lo, cfg.hi);
    assert BothReal(d, RealSlots(quotes), cfg.lo);
    RealIsPriced(quotes, At(d, cfg.lo));
    assert Priced(d, Prices(quotes), cfg.lo);
  }

  lemma StepDraws(cfg: Config, kv: Kv, e: Event, d: int)
    ensures var h := PersistedHour(Step(cfg, kv, e), d);
            h.Some? && h != PersistedHour(kv, d) ==> e.Resolves? && e.d == d && DrawnFrom(cfg, e.quotes, d, h.value)
  {
    if e.Resolves? && FullyReal(e.d, RealSlots(e.quotes), cfg.lo, cfg.hi) {
      PickIsBest(e.d, Prices(e.quotes), cfg.lo, cfg.hi);
      forall k | cfg.lo <= k < cfg.hi ensures Priced(e.d, Prices(e.quotes), k) {
        assert BothReal(e.d, RealSlots(e.quotes), k);
        RealIsPriced(e.quotes, At(e.d, k));
      }
    }
  }
}
