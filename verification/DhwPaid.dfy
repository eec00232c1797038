/** The tank schedule on days with paid windows (src/dhw_policy.py:1131-1151, 1195-1293):
    which boost rows are in force, which are left when a cycle is recovered, and what the
    other rows command around them. */
module DhwPaid {
  import opened Common
  import opened DhwClock
  import opened DhwSchedule
  import F = DhwForecast
  import A = DhwAgreement

  // ------------------------------------------------------------------ boost rows

  /** The row that boosts through `w`. */
  predicate Boosts(r: Action, w: Span, target: real) {
    r.kind == BoostRow && r.start == w.start && r.end == w.end && r.powerful && r.temp == Round(target)
  }

  predicate NotOver(w: Span, asOf: Option<int>) { asOf.None? || w.end > asOf.value }

  /** The smaller of the boost temperature and what the tank may reach. */
  function PaidTarget(p: Policy): real { if p.boost <= p.maxTemp then p.boost else p.maxTemp }

  /** Each boost row boosts through a window that is not over, each such window has its
      row, and the rows come in the windows' order. */
  ghost predicate BoostsExactly(rows: seq<Action>, ws: seq<Span>, asOf: Option<int>, target: real) {
    (forall i :: 0 <= i < |rows| ==> RowOf(rows[i], ws, asOf, target))
    && (forall k :: 0 <= k < |ws| && NotOver(ws[k], asOf) ==> WindowOf(ws[k], rows, target))
    && forall i, j :: 0 <= i < j < |rows| ==> rows[i].end < rows[j].start
  }

  ghost predicate RowOf(r: Action, ws: seq<Span>, asOf: Option<int>, target: real) {
    exists k :: 0 <= k < |ws| && NotOver(ws[k], asOf) && Boosts(r, ws[k], target)
  }

  ghost predicate WindowOf(w: Span, rows: seq<Action>, target: real) {
    exists i :: 0 <= i < |rows| && Boosts(rows[i], w, target)
  }

  lemma RowOfEarlier(r: Action, ws: seq<Span>, n: nat, asOf: Option<int>, target: real) returns (k: nat)
    requires n <= |ws| && RowOf(r, ws[..n], asOf, target)
    ensures k < n && Boosts(r, ws[k], target) && RowOf(r, ws, asOf, target)
  {
    k :| 0 <= k < n && NotOver(ws[..n][k], asOf) && Boosts(r, ws[..n][k], target);
    assert NotOver(ws[k], asOf) && Boosts(r, ws[k], target);
  }

  lemma WindowOfMore(w: Span, rows: seq<Action>, more: seq<Action>, target: real)
    requires WindowOf(w, rows, target)
    ensures WindowOf(w, rows + more, target)
  {
    var i :| 0 <= i < |rows| && Boosts(rows[i], w, target);
    assert Boosts((rows + more)[i], w, target);
  }

  /** The windows seen so far hold, and the next is over. */
  lemma OverIsSkipped(rows: seq<Action>, ws: seq<Span>, n: nat, asOf: Option<int>, target: real)
    requires n + 1 == |ws| && BoostsExactly(rows, ws[..n], asOf, target) && !NotOver(ws[n], asOf)
    ensures BoostsExactly(rows, ws, asOf, target)
  {
    hide RowOf, WindowOf;
    forall i | 0 <= i < |rows| ensures RowOf(rows[i], ws, asOf, target) {
      var k := RowOfEarlier(rows[i], ws, n, asOf, target);
    }
    forall k | 0 <= k < |ws| && NotOver(ws[k], asOf) ensures WindowOf(ws[k], rows, target) {
      assert WindowOf(ws[..n][k], rows, target);
    }
  }

  /** Otherwise its row is added. */
  lemma RowIsAdded(rows: seq<Action>, ws: seq<Span>, n: nat, asOf: Option<int>, target: real, r: Action)
    requires n + 1 == |ws| && BoostsExactly(rows, ws[..n], asOf, target) && Maximal(ws)
    requires NotOver(ws[n], asOf) && Boosts(r, ws[n], target)
    ensures BoostsExactly(rows + [r], ws, asOf, target)
  {
    assert RowOf(r, ws, asOf, target);
    assert WindowOf(ws[n], rows + [r], target) by { assert Boosts((rows + [r])[|rows|], ws[n], target); }
    hide RowOf, WindowOf, NotOver;
    forall i | 0 <= i < |rows| ensures RowOf(rows[i], ws, asOf, target) && rows[i].end < r.start {
      var k := RowOfEarlier(rows[i], ws, n, asOf, target);
      assert ws[k].end < ws[n].start;
    }
    forall k | 0 <= k < n && NotOver(ws[k], asOf) ensures WindowOf(ws[k], rows + [r], target) {
      assert WindowOf(ws[..n][k], rows, target);
      WindowOfMore(ws[k], rows, [r], target);
    }
  }

  lemma {:induction false} BoostRowsAre(p: Policy, ws: seq<Span>, asOf: Option<int>)
    requires Maximal(ws)
    ensures BoostsExactly(BoostRowsFrom(p, ws, asOf), ws, asOf, PaidTarget(p))
  {
    if |ws| > 0 {
      var n := |ws| - 1;
      BoostRowsAre(p, ws[..n], asOf);
      hide BoostsExactly, Maximal, Round;
      if NotOver(ws[n], asOf) {
        RowIsAdded(BoostRowsFrom(p, ws[..n], asOf), ws, n, asOf, PaidTarget(p),
                   Action(BoostRow, ws[n].start, ws[n].end, BoostTemp(p), true));
      } else {
        OverIsSkipped(BoostRowsFrom(p, ws[..n], asOf), ws, n, asOf, PaidTarget(p));
      }
    }
  }

  /** The one boost row in force at `t`. */
  ghost predicate OnlyBoostAt(rows: seq<Action>, t: int, r: Action) {
    r in rows && r.kind.BoostRow? && Inside(Span(r.start, r.end), t)
    && forall x :: x in rows && x.kind.BoostRow? && Inside(Span(x.start, x.end), t) ==> x == r
  }

  ghost predicate NoBoostAt(rows: seq<Action>, t: int) {
    forall x :: x in rows && x.kind.BoostRow? ==> !Inside(Span(x.start, x.end), t)
  }

  ghost predicate BoostedAt(rows: seq<Action>, t: int, ws: seq<Span>, target: real) {
    exists r, k :: OnlyBoostAt(rows, t, r) && 0 <= k < |ws| && Inside(ws[k], t) && Boosts(r, ws[k], target)
  }

  /** Boost rows cover what the windows that are not over cover, once. */
  lemma BoostedIffCovered(rows: seq<Action>, ws: seq<Span>, asOf: Option<int>, target: real, t: int)
    requires BoostsExactly(rows, ws, asOf, target) && (asOf.Some? ==> asOf.value <= t)
    ensures if Covered(ws, t) then BoostedAt(rows, t, ws, target) else NoBoostAt(rows, t)
  {
    if Covered(ws, t) {
      var k :| 0 <= k < |ws| && Inside(ws[k], t);
      assert WindowOf(ws[k], rows, target);
      var i :| 0 <= i < |rows| && Boosts(rows[i], ws[k], target);
      forall x | x in rows && x.kind.BoostRow? && Inside(Span(x.start, x.end), t) ensures x == rows[i] {
        var j :| 0 <= j < |rows| && rows[j] == x;
      }
      assert OnlyBoostAt(rows, t, rows[i]);
    } else {
      forall x | x in rows && x.kind.BoostRow? ensures !Inside(Span(x.start, x.end), t) {
        var j :| 0 <= j < |rows| && rows[j] == x;
        assert RowOf(rows[j], ws, asOf, target);
        var k :| 0 <= k < |ws| && NotOver(ws[k], asOf) && Boosts(rows[j], ws[k], target);
        assert Inside(ws[k], t) <==> Inside(Span(x.start, x.end), t);
      }
    }
  }

  lemma StructuralNeverBoosts(p: Policy, mode: Mode, ws: seq<Span>, d: int)
    ensures forall r :: r in StructuralRows(p, mode, ws, d) ==> !r.kind.BoostRow?
  {}

  lemma BoostsAfterStructural(a: seq<Action>, b: seq<Action>, ws: seq<Span>, target: real, t: int)
    requires (forall r :: r in a ==> !r.kind.BoostRow?)
    ensures BoostedAt(b, t, ws, target) ==> BoostedAt(a + b, t, ws, target)
    ensures NoBoostAt(b, t) ==> NoBoostAt(a + b, t)
  {
    if BoostedAt(b, t, ws, target) {
      var r, k :| OnlyBoostAt(b, t, r) && 0 <= k < |ws| && Inside(ws[k], t) && Boosts(r, ws[k], target);
      assert OnlyBoostAt(a + b, t, r);
    }
  }

  predicate Shown(d: int, today: int, allowPast: bool) { allowPast || d >= today }

  /** A holiday has no rows, a past day has none unless asked for, and one asked for is
      the day it was. */
  lemma SilentDays(p: Policy, mode: Mode, rates: seq<Rate>, d: int, today: int, allowPast: bool, asOf: Option<int>)
    ensures mode.Vacation? ==> Rows(p, mode, rates, d, today, allowPast, asOf) == []
    ensures asOf.None? && !Shown(d, today, allowPast) ==> Rows(p, mode, rates, d, today, allowPast, asOf) == []
    ensures Shown(d, today, allowPast) ==>
              Rows(p, mode, rates, d, today, allowPast, asOf) == Rows(p, mode, rates, d, d, false, asOf)
  {}

  /** Without a lead, or with no paid window, the warmup is not deferred. */
  lemma NotDeferred(p: Policy, ws: seq<Span>, start: int)
    requires p.leadHours <= 0.0 || ws == []
    ensures DeferredStart(p, ws, start) == start
  {}

  /** Whatever the rest of the day looks like, with or without guests: a slot of the cycle
      whose price is negative has exactly one boost row in force, powerful, over just its
      paid window, at the highest temperature allowed; any other slot has none. */
  lemma PaidSlotsAreBoosted(
    p: Policy, mode: Mode, rates: seq<Rate>, d: int, today: int, allowPast: bool, t: int)
    requires Feed(rates) && !mode.Vacation? && Shown(d, today, allowPast) && OnSlot(t)
    ensures var rows := Rows(p, mode, rates, d, today, allowPast, None);
            if NegativeAt(rates, WarmupAt(p, d), WarmupAt(p, d + 1), t)
            then BoostedAt(rows, t, CycleWindows(p, rates, d), PaidTarget(p)) else NoBoostAt(rows, t)
  {
    var ws := CycleWindows(p, rates, d);
    WindowsAreNegativeRuns(rates, WarmupAt(p, d), WarmupAt(p, d + 1), t);
    BoostRowsAre(p, ws, None);
    BoostedIffCovered(BoostRowsFrom(p, ws, None), ws, None, PaidTarget(p), t);
    StructuralNeverBoosts(p, mode, ws, d);
    BoostsAfterStructural(StructuralRows(p, mode, ws, d), BoostRowsFrom(p, ws, None), ws, PaidTarget(p), t);
    hide StructuralRows, BoostRowsFrom, Maximal, CycleWindows, NegativeAt;
  }

  /** Recovering a running cycle yields exactly the boost rows of the windows that are not
      over, whole and in order, and nothing else; from the instant of the recovery on, a
      slot is boosted exactly when its price is negative. */
  lemma RecoveryBoosts(
    p: Policy, mode: Mode, rates: seq<Rate>, d: int, today: int, allowPast: bool, now: int, t: int)
    requires Feed(rates) && !mode.Vacation? && OnSlot(t) && now <= t
    ensures var rows, ws := Rows(p, mode, rates, d, today, allowPast, Some(now)), CycleWindows(p, rates, d);
            BoostsExactly(rows, ws, Some(now), PaidTarget(p))
            && if NegativeAt(rates, WarmupAt(p, d), WarmupAt(p, d + 1), t)
               then BoostedAt(rows, t, ws, PaidTarget(p)) else NoBoostAt(rows, t)
  {
    var ws := CycleWindows(p, rates, d);
    WindowsAreNegativeRuns(rates, WarmupAt(p, d), WarmupAt(p, d + 1), t);
    BoostRowsAre(p, ws, Some(now));
    BoostedIffCovered(BoostRowsFrom(p, ws, Some(now)), ws, Some(now), PaidTarget(p), t);
    hide BoostRowsFrom, Maximal, CycleWindows, NegativeAt, BoostsExactly;
  }

  /** Fired and forecast agree on the paid slots: a slot of the cycle is boosted exactly
      when the forecast is paid for it, and the row commands the target the forecast heats
      towards. */
  lemma BoostsMatchForecast(
    inp: F.Inputs, slots: seq<int>, rates: seq<Rate>, d: int, today: int, allowPast: bool, i: nat)
    requires Feed(rates) && A.Horizon(inp, slots, rates, d) && Shown(d, today, allowPast) && i < |slots|
    requires WarmupAt(inp.policy, d) <= slots[i] < WarmupAt(inp.policy, d + 1)
    ensures var rows := Rows(inp.policy, inp.mode, rates, d, today, allowPast, None);
            if inp.price.value[i] < 0.0
            then BoostedAt(rows, slots[i], CycleWindows(inp.policy, rates, d), F.HeaterOf(inp).target)
            else NoBoostAt(rows, slots[i])
  {
    A.SlotOnGrid(slots, i);
    PaidSlotsAreBoosted(inp.policy, inp.mode, rates, d, today, allowPast, slots[i]);
    assert F.HeaterOf(inp).target == PaidTarget(inp.policy);
    hide Rows, NegativeAt, CycleWindows, BoostedAt, NoBoostAt, F.HeaterOf;
  }

  // ------------------------------------------------------- the other rows, any prices

  /** With a paid window ahead and no shower before it, the setback may be cooler. */
  predicate CoolsAhead(p: Policy, ws: seq<Span>, boundary: int) {
    p.tankPrecool && |ws| > 0 && boundary <= ws[0].start && !p.showerIn(Span(boundary, ws[0].start))
  }

  /** Apart from boosts the row `r` alone is in force at `t`. */
  ghost predicate Alone(rows: seq<Action>, t: int, temp: int, powerful: bool) {
    exists r :: OnlyRowAt(rows, t, r) && r.temp == temp && r.powerful == powerful
  }

  ghost predicate NoneAt(rows: seq<Action>, t: int) {
    forall r :: r in rows && !r.kind.BoostRow? ==> !Inside(Span(r.start, r.end), t)
  }

  lemma BesideBoosts(a: seq<Action>, b: seq<Action>, t: int, temp: int, powerful: bool)
    requires forall r :: r in b ==> r.kind.BoostRow?
    ensures Alone(a, t, temp, powerful) ==> Alone(a + b, t, temp, powerful)
    ensures NoneAt(a, t) ==> NoneAt(a + b, t)
  {
    if Alone(a, t, temp, powerful) {
      var r :| OnlyRowAt(a, t, r) && r.temp == temp && r.powerful == powerful;
      assert OnlyRowAt(a + b, t, r);
    }
  }

  lemma {:induction false} BoostRowsBoost(p: Policy, ws: seq<Span>, asOf: Option<int>)
    ensures forall r :: r in BoostRowsFrom(p, ws, asOf) ==> r.kind.BoostRow?
  {
    if |ws| > 0 { BoostRowsBoost(p, ws[..|ws| - 1], asOf); }
  }

  /** Between two warmups: nothing before the deferred start, then the warmup row up to
      the boundary, then the setback row. */
  lemma StructuralAt(p: Policy, ws: seq<Span>, d: int, t: int)
    requires Sane(p) && WarmupAt(p, d) <= t < WarmupAt(p, d + 1)
    ensures var rows, boundary := StructuralRows(p, Normal, ws, d), Boundary(p, Normal, d);
            if t >= boundary then Alone(rows, t, SetbackTemp(p, Normal, ws, d), false)
            else if t < EffectiveStart(p, ws, d) then NoneAt(rows, t)
            else Alone(rows, t, Round(p.decision(d).target), false)
  {
    var rows, boundary := StructuralRows(p, Normal, ws, d), Boundary(p, Normal, d);
    hide Round, EffectiveStart, SetbackTemp, Boundary;
    if t >= boundary {
      assert OnlyRowAt(rows, t, rows[|rows| - 1]);
    } else if t >= EffectiveStart(p, ws, d) {
      assert OnlyRowAt(rows, t, rows[0]);
    }
  }

  /** On a day with any prices: until the deferred start nothing but boosts is in force;
      after it exactly one other row is, at the forecast's rounded target, except that the
      setback ahead of a paid window may be lowered to the pre-cool target. */
  lemma AnyDayMatchesForecast(p: Policy, rates: seq<Rate>, d: int, today: int, t: int)
    requires Sane(p) && d >= today && WarmupAt(p, d) <= t < WarmupAt(p, d + 1) && !InStandoff(p, t)
    ensures var rows, ws := Rows(p, Normal, rates, d, today, false, None), CycleWindows(p, rates, d);
            var boundary, forecast := Boundary(p, Normal, d), Round(TargetOf(p, Normal, t));
            if t < boundary && t < EffectiveStart(p, ws, d) then NoneAt(rows, t)
            else if t >= boundary && CoolsAhead(p, ws, boundary)
            then Alone(rows, t, MinI(forecast, p.precoolTarget), false) else Alone(rows, t, forecast, false)
  {
    var ws := CycleWindows(p, rates, d);
    var rows := StructuralRows(p, Normal, ws, d);
    TargetByBoundary(p, d, t);
    StructuralAt(p, ws, d, t);
    BoostRowsBoost(p, ws, None);
    hide Round, CycleWindows, EffectiveStart, Boundary, StructuralRows, TargetOf, Alone, NoneAt, BoostRowsFrom, Sane;
    BesideBoosts(rows, BoostRowsFrom(p, ws, None), t, SetbackTemp(p, Normal, ws, d), false);
    BesideBoosts(rows, BoostRowsFrom(p, ws, None), t, Round(p.decision(d).target), false);
  }

  /** With guests: nothing but boosts until the deferred start, then one powerful row. */
  lemma AnyGuestDay(p: Policy, rates: seq<Rate>, d: int, today: int, t: int)
    requires d >= today && WarmupAt(p, d) <= t < WarmupAt(p, d + 1)
    ensures var rows := Rows(p, Guests, rates, d, today, false, None);
            if t < EffectiveStart(p, CycleWindows(p, rates, d), d) then NoneAt(rows, t)
            else Alone(rows, t, Round(TargetOf(p, Guests, t)), true)
  {
    var ws := CycleWindows(p, rates, d);
    var rows := StructuralRows(p, Guests, ws, d);
    BoostRowsBoost(p, ws, None);
    hide Round, CycleWindows, EffectiveStart;
    if t >= EffectiveStart(p, ws, d) { assert OnlyRowAt(rows, t, rows[0]); }
    BesideBoosts(rows, BoostRowsFrom(p, ws, None), t, Round(p.normal), true);
  }
}
