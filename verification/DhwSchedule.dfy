/** The tank schedule of one cycle (src/dhw_policy.py): negative-price windows, the
    deferred warmup, and the rows sent to the heat pump. */
module DhwSchedule {
  import opened Common
  import opened DhwClock

  // ----------------------------------------------------- negative-price windows

  datatype Rate = Rate(start: int, pence: real)

  /** Starts of the negative slots of the horizon, in the order given. */
  function NegativeStarts(rates: seq<Rate>, from: int, to: int): seq<int> {
    if |rates| == 0 then []
    else
      var rest, r := NegativeStarts(rates[..|rates| - 1], from, to), rates[|rates| - 1];
      if r.pence < 0.0 && from <= r.start < to then rest + [r.start] else rest
  }

  /** One more slot start: it continues the last window or opens a new one. */
  function Extend(g: seq<Span>, t: int): seq<Span> {
    if |g| > 0 && t == g[|g| - 1].end then g[..|g| - 1] + [Span(g[|g| - 1].start, t + SLOT_M)]
    else g + [Span(t, t + SLOT_M)]
  }

  /** Group ascending slot starts into contiguous windows. */
  function Group(starts: seq<int>): seq<Span> {
    if |starts| == 0 then [] else Extend(Group(starts[..|starts| - 1]), starts[|starts| - 1])
  }

  method DetectNegativeWindows(rates: seq<Rate>, from: int, to: int) returns (windows: seq<Span>)
    ensures windows == Group(Sort(NegativeStarts(rates, from, to)))
  {
    var starts, i := [], 0;
    while i < |rates|
      invariant 0 <= i <= |rates| && starts == NegativeStarts(rates[..i], from, to)
    {
      assert rates[..i + 1][..i] == rates[..i];
      if rates[i].pence < 0.0 && from <= rates[i].start < to { starts := starts + [rates[i].start]; }
      i := i + 1;
    }
    assert rates[..i] == rates;
    starts := Sort(starts);
    windows := GroupContiguous(starts);
  }

  method GroupContiguous(starts: seq<int>) returns (windows: seq<Span>)
    ensures windows == Group(starts)
  {
    if |starts| == 0 { return []; }
    windows := [];
    var curStart, curEnd, k := starts[0], starts[0] + SLOT_M, 1;
    assert starts[..1][..0] == [] && Group(starts[..1]) == [Span(curStart, curEnd)];
    while k < |starts|
      invariant 1 <= k <= |starts| && windows + [Span(curStart, curEnd)] == Group(starts[..k])
    {
      assert starts[..k + 1][..k] == starts[..k];
      assert (windows + [Span(curStart, curEnd)])[..|windows|] == windows;
      if starts[k] == curEnd {
        curEnd := starts[k] + SLOT_M;
      } else {
        windows := windows + [Span(curStart, curEnd)];
        curStart, curEnd := starts[k], starts[k] + SLOT_M;
      }
      k := k + 1;
    }
    assert starts[..k] == starts;
    windows := windows + [Span(curStart, curEnd)];
  }

  predicate OnSlot(t: int) { t % SLOT_M == 0 }

  ghost predicate OnGrid(starts: seq<int>) { forall i :: 0 <= i < |starts| ==> OnSlot(starts[i]) }

  ghost predicate Increasing(starts: seq<int>) { forall i, j :: 0 <= i < j < |starts| ==> starts[i] < starts[j] }

  /** Windows in order with a gap of at least one slot between neighbours. */
  ghost predicate Maximal(ws: seq<Span>) {
    (forall i :: 0 <= i < |ws| ==> ws[i].start < ws[i].end && OnSlot(ws[i].start) && OnSlot(ws[i].end))
    && forall i, j :: 0 <= i < j < |ws| ==> ws[i].end < ws[j].start
  }

  predicate Inside(w: Span, t: int) { w.start <= t < w.end }

  ghost predicate Covered(ws: seq<Span>, t: int) { exists i :: 0 <= i < |ws| && Inside(ws[i], t) }

  lemma CoveredSnoc(ws: seq<Span>, w: Span, t: int)
    ensures Covered(ws + [w], t) <==> Covered(ws, t) || Inside(w, t)
  {
    var all := ws + [w];
    if Inside(w, t) { assert Inside(all[|ws|], t); }
    if i :| 0 <= i < |ws| && Inside(ws[i], t) { assert Inside(all[i], t); }
  }

  ghost predicate EndsAt(ws: seq<Span>, end: int) { |ws| > 0 && ws[|ws| - 1].end == end }

  lemma ExtendMaximal(g: seq<Span>, t: int)
    requires Maximal(g) && OnSlot(t) && (|g| > 0 ==> g[|g| - 1].end <= t)
    ensures Maximal(Extend(g, t)) && EndsAt(Extend(g, t), t + SLOT_M)
  {
    assert OnSlot(t + SLOT_M);
    hide OnSlot;
    if |g| > 0 && t == g[|g| - 1].end {
      var init, w := g[..|g| - 1], g[|g| - 1];
      assert forall i :: 0 <= i < |init| ==> init[i] == g[i];
      MaximalSnoc(init, Span(w.start, t + SLOT_M));
    } else {
      assert |g| > 0 ==> forall i :: 0 <= i < |g| ==> g[i].end <= g[|g| - 1].end;
      MaximalSnoc(g, Span(t, t + SLOT_M));
    }
  }

  lemma MaximalSnoc(ws: seq<Span>, w: Span)
    requires Maximal(ws) && w.start < w.end && OnSlot(w.start) && OnSlot(w.end)
    requires forall i :: 0 <= i < |ws| ==> ws[i].end < w.start
    ensures Maximal(ws + [w])
  {
    hide OnSlot;
  }

  lemma {:induction false} GroupIsMaximal(starts: seq<int>)
    requires Increasing(starts) && OnGrid(starts)
    ensures Maximal(Group(starts))
    ensures |starts| > 0 ==> EndsAt(Group(starts), starts[|starts| - 1] + SLOT_M)
  {
    if |starts| > 0 {
      var n := |starts| - 1;
      GroupIsMaximal(starts[..n]);
      if n > 0 { GridGap(starts[n - 1], starts[n]); }
      hide OnSlot, Maximal;
      ExtendMaximal(Group(starts[..n]), starts[n]);
    }
  }

  lemma GridGap(a: int, b: int)
    requires OnSlot(a) && OnSlot(b) && a < b
    ensures a + SLOT_M <= b
  {}

  lemma SlotInside(last: int, t: int)
    requires OnSlot(last) && OnSlot(t)
    ensures Inside(Span(last, last + SLOT_M), t) <==> t == last
  {
    if last < t { GridGap(last, t); }
  }

  lemma ExtendCovers(g: seq<Span>, last: int, t: int)
    requires Maximal(g) && OnSlot(last) && OnSlot(t)
    ensures Covered(Extend(g, last), t) <==> Covered(g, t) || t == last
  {
    SlotInside(last, t);
    if |g| > 0 && last == g[|g| - 1].end {
      var init, w := g[..|g| - 1], g[|g| - 1];
      CoveredSnoc(init, w, t);
      assert init + [w] == g;
      CoveredSnoc(init, Span(w.start, last + SLOT_M), t);
    } else {
      CoveredSnoc(g, Span(last, last + SLOT_M), t);
    }
  }

  lemma {:induction false} GroupCovers(starts: seq<int>, t: int)
    requires Increasing(starts) && OnGrid(starts) && OnSlot(t)
    ensures t in starts <==> Covered(Group(starts), t)
  {
    hide OnSlot, Maximal, Covered;
    if |starts| > 0 {
      var n := |starts| - 1;
      GroupCovers(starts[..n], t);
      GroupIsMaximal(starts[..n]);
      ExtendCovers(Group(starts[..n]), starts[n], t);
      assert starts == starts[..n] + [starts[n]];
    } else {
      NotCovered(t);
    }
  }

  lemma NotCovered(t: int)
    ensures !Covered([], t)
  {}

  ghost predicate NegativeAt(rates: seq<Rate>, from: int, to: int, t: int) {
    exists i :: 0 <= i < |rates| && rates[i] == Rate(t, rates[i].pence) && rates[i].pence < 0.0 && from <= t < to
  }

  lemma {:induction false} NegativeStartsAre(rates: seq<Rate>, from: int, to: int, t: int)
    ensures t in NegativeStarts(rates, from, to) <==> NegativeAt(rates, from, to, t)
  {
    if |rates| > 0 {
      var n := |rates| - 1;
      var rest := rates[..n];
      NegativeStartsAre(rest, from, to, t);
      if NegativeAt(rest, from, to, t) {
        var i :| 0 <= i < n && rest[i] == Rate(t, rest[i].pence) && rest[i].pence < 0.0;
        assert rates[i] == Rate(t, rates[i].pence);
      }
      if rates[n].start == t { assert rates[n] == Rate(t, rates[n].pence); }
      if NegativeAt(rates, from, to, t) && !NegativeAt(rest, from, to, t) {
        var i :| 0 <= i <= n && rates[i] == Rate(t, rates[i].pence) && rates[i].pence < 0.0;
        assert i < n ==> rest[i] == Rate(t, rest[i].pence);
      }
    }
  }

  /** Rows of a real price feed: one per half hour, on the grid. */
  ghost predicate Feed(rates: seq<Rate>) {
    (forall i :: 0 <= i < |rates| ==> OnSlot(rates[i].start))
    && forall i, j :: 0 <= i < j < |rates| ==> rates[i].start != rates[j].start
  }

  lemma {:induction false} NegativeStartsDistinct(rates: seq<Rate>, from: int, to: int)
    requires Feed(rates)
    ensures var s := NegativeStarts(rates, from, to);
            (forall i, j :: 0 <= i < j < |s| ==> s[i] != s[j]) && OnGrid(s)
  {
    if |rates| > 0 {
      var n := |rates| - 1;
      NegativeStartsDistinct(rates[..n], from, to);
      NegativeStartsAre(rates[..n], from, to, rates[n].start);
      var s := NegativeStarts(rates[..n], from, to);
      forall i | 0 <= i < |s| ensures s[i] != rates[n].start { assert s[i] in s; }
    }
  }

  lemma {:induction false} DistinctIsMultisetOne(s: seq<int>, x: int)
    requires forall i, j :: 0 <= i < j < |s| ==> s[i] != s[j]
    ensures multiset(s)[x] <= 1
  {
    if |s| > 0 {
      assert s == [s[0]] + s[1..];
      DistinctIsMultisetOne(s[1..], x);
    }
  }

  lemma SortedDistinctIncreases(s: seq<int>, r: seq<int>)
    requires forall i, j :: 0 <= i < j < |s| ==> s[i] != s[j]
    requires multiset(r) == multiset(s) && Ascending(r)
    ensures Increasing(r)
  {
    forall i, j | 0 <= i < j < |r| ensures r[i] < r[j] {
      DistinctIsMultisetOne(s, r[i]);
      assert r == r[..j] + r[j..] && r[i] in r[..j] && r[j] in r[j..];
      assert multiset(r)[r[i]] == multiset(r[..j])[r[i]] + multiset(r[j..])[r[i]];
    }
  }

  /** The windows are the maximal runs of negative slots, whatever order the feed is in:
      ordered, never touching, and a grid slot of the horizon is inside one exactly when
      its price is negative. */
  lemma WindowsAreNegativeRuns(rates: seq<Rate>, from: int, to: int, t: int)
    requires Feed(rates) && OnSlot(t)
    ensures var ws := Group(Sort(NegativeStarts(rates, from, to)));
            Maximal(ws) && (Covered(ws, t) <==> NegativeAt(rates, from, to, t))
  {
    var s := NegativeStarts(rates, from, to);
    var r := Sort(s);
    NegativeStartsDistinct(rates, from, to);
    SortedDistinctIncreases(s, r);
    SameMembers(s, r);
    forall i | 0 <= i < |r| ensures OnSlot(r[i]) { assert r[i] in s; }
    GroupIsMaximal(r);
    GroupCovers(r, t);
    NegativeStartsAre(rates, from, to, t);
  }

  // ---------------------------------------------------------- deferred warmup

  /** Push the start past each window that opens within the lead of it. */
  function DeferPast(ws: seq<Span>, start: int, lead: real): int {
    if |ws| > 0 && ws[0].start as real <= start as real + lead
    then DeferPast(ws[1..], MaxI(start, ws[0].end), lead) else start
  }

  function LeadMinutes(p: Policy): real { MaxR(0.0, p.leadHours) * 60.0 }

  function DeferredStart(p: Policy, ws: seq<Span>, start: int): int {
    if LeadMinutes(p) > 0.0 then DeferPast(ws, start, LeadMinutes(p)) else start
  }

  method DeferWarmup(p: Policy, ws: seq<Span>, start: int) returns (effective: int)
    ensures effective == DeferredStart(p, ws, start)
  {
    effective := start;
    var lead := MaxR(0.0, p.leadHours) * 60.0;
    if lead > 0.0 {
      var i := 0;
      while i < |ws|
        invariant 0 <= i <= |ws| && DeferPast(ws, start, lead) == DeferPast(ws[i..], effective, lead)
      {
        assert ws[i..][1..] == ws[i + 1..];
        if ws[i].start as real > effective as real + lead { return; }
        effective := MaxI(effective, ws[i].end);
        i := i + 1;
      }
    }
  }

  /** No window that is still to end at `t` opens within the lead of `t`. */
  ghost predicate Clear(ws: seq<Span>, t: int, lead: real) {
    forall i :: 0 <= i < |ws| && ws[i].end > t ==> ws[i].start as real > t as real + lead
  }

  /** The defer chain finds the first clear instant: the least start at or after the
      nominal one with no paid window open or about to open. */
  lemma {:induction false} DeferIsLeast(ws: seq<Span>, start: int, lead: real)
    requires Maximal(ws) && lead > 0.0
    ensures var eff := DeferPast(ws, start, lead);
            start <= eff && Clear(ws, eff, lead) && forall t :: start <= t < eff ==> !Clear(ws, t, lead)
  {
    if |ws| > 0 {
      if ws[0].start as real <= start as real + lead {
        var next := MaxI(start, ws[0].end);
        DeferIsLeast(ws[1..], next, lead);
        var eff := DeferPast(ws[1..], next, lead);
        assert Clear(ws, eff, lead) by { ClearCons(ws, eff, lead); }
        forall t | start <= t < eff ensures !Clear(ws, t, lead) {
          ClearCons(ws, t, lead);
          if t < next { assert ws[0].end > t && ws[0].start as real <= t as real + lead; }
        }
      }
    }
  }

  lemma ClearCons(ws: seq<Span>, t: int, lead: real)
    requires |ws| > 0
    ensures Clear(ws, t, lead) <==> (ws[0].end > t ==> ws[0].start as real > t as real + lead) && Clear(ws[1..], t, lead)
  {
    assert forall i :: 0 < i < |ws| ==> ws[i] == ws[1..][i - 1];
  }

  /** How many whole slots before a window the forecast keeps the tank cool. */
  function PrecoolSlots(p: Policy): nat { (MaxR(0.0, p.leadHours) * 2.0).Floor }

  /** Every slot the warmup is deferred over is paid for or kept cool: it is inside a
      negative window or among the pre-cool slots before one, even for a fractional
      lead. */
  lemma DeferredSpanIsCool(p: Policy, ws: seq<Span>, start: int, t: int)
    requires Maximal(ws) && OnSlot(t) && start <= t < DeferredStart(p, ws, start)
    ensures Covered(ws, t)
            || exists i :: 0 <= i < |ws| && t < ws[i].start && (ws[i].start - t) / SLOT_M <= PrecoolSlots(p)
  {
    var lead := LeadMinutes(p);
    DeferIsLeast(ws, start, lead);
    hide DeferredStart, DeferPast, LeadMinutes, PrecoolSlots;
    assert !Clear(ws, t, lead);
    var i :| 0 <= i < |ws| && ws[i].end > t && ws[i].start as real <= t as real + lead;
    if ws[i].start <= t {
      assert Inside(ws[i], t);
    } else {
      WithinPrecool(p, t, ws[i].start);
    }
  }

  lemma WithinPrecool(p: Policy, t: int, opens: int)
    requires OnSlot(t) && OnSlot(opens) && t < opens && opens as real <= t as real + LeadMinutes(p)
    ensures (opens - t) / SLOT_M <= PrecoolSlots(p)
  {
    var k := (opens - t) / SLOT_M;
    assert opens - t == k * SLOT_M;
    assert k as real * 30.0 <= MaxR(0.0, p.leadHours) * 60.0;
    assert k as real <= MaxR(0.0, p.leadHours) * 2.0;
  }

  /** Stand-off step: a start inside the firmware's own cycle moves to its end. */
  function PastStandoff(p: Policy, d: int, start: int): int {
    var w := p.standoff(d);
    if w.Some? && w.value.start <= start < w.value.end then w.value.end else start
  }

  /** Every window that opens within the lead of the stand-off's end, and did not within
      the lead of the deferred start, is over by then. */
  ghost predicate OverBy(ws: seq<Span>, deferred: int, end: int, lead: real) {
    forall i :: 0 <= i < |ws| && deferred as real + lead < ws[i].start as real <= end as real + lead ==> ws[i].end <= end
  }

  /** The stand-off step does not look at the price again. It leaves the start clear of
      the paid windows exactly when the deferred start is outside the stand-off, or every
      window that comes within the lead by moving to its end is over by then. */
  lemma StandoffStaysClearIff(p: Policy, ws: seq<Span>, d: int)
    requires Maximal(ws) && LeadMinutes(p) > 0.0
    ensures var s, w := DeferredStart(p, ws, WarmupAt(p, d)), p.standoff(d);
            Clear(ws, EffectiveStart(p, ws, d), LeadMinutes(p))
            <==> (w.None? || !(w.value.start <= s < w.value.end) || OverBy(ws, s, w.value.end, LeadMinutes(p)))
  {
    var lead, s, w := LeadMinutes(p), DeferredStart(p, ws, WarmupAt(p, d)), p.standoff(d);
    DeferIsLeast(ws, WarmupAt(p, d), lead);
    if w.Some? && w.value.start <= s < w.value.end {
      hide DeferredStart, LeadMinutes, WarmupAt;
      MovedIsClearIff(ws, s, w.value.end, lead);
    }
  }

  lemma MovedIsClearIff(ws: seq<Span>, s: int, end: int, lead: real)
    requires Clear(ws, s, lead) && s <= end
    ensures Clear(ws, end, lead) <==> OverBy(ws, s, end, lead)
  {}

  /** It does happen: a start out of the stand-off lands within the lead of a paid window. */
  lemma StandoffDoesNotRechain()
    ensures var ws := [Span(16 * 60 + 30, 17 * 60)];
            var p := Policy(d => 13, d => Decision(false, 22, 45.0, None), d => None, d => Some(Span(12 * 60, 14 * 60)),
                            45.0, 37.0, 60.0, 60.0, 3.0, false, 30, w => false);
            var deferred := DeferredStart(p, ws, 13 * 60);
            Clear(ws, deferred, LeadMinutes(p)) && !Clear(ws, PastStandoff(p, 0, deferred), LeadMinutes(p))
  {
    var ws := [Span(16 * 60 + 30, 17 * 60)];
    assert ws[0].end > 14 * 60 && ws[0].start as real <= 14.0 * 60.0 + 180.0;
  }

  // ---------------------------------------------------------------------- rows

  datatype Kind = WarmupRow | SetbackRow | BoostRow

  datatype Action = Action(kind: Kind, start: int, end: int, temp: int, powerful: bool)

  /** Where the warmup gives way to the setback. */
  function Boundary(p: Policy, mode: Mode, d: int): int {
    if !mode.Guests? && EarlySetback(p, d).Some? then EarlySetback(p, d).value else SetbackAt(p, d)
  }

  function EffectiveStart(p: Policy, ws: seq<Span>, d: int): int {
    PastStandoff(p, d, DeferredStart(p, ws, WarmupAt(p, d)))
  }

  /** Target of the setback row: cooler still when a paid window follows with no shower
      in between. */
  function SetbackTemp(p: Policy, mode: Mode, ws: seq<Span>, d: int): int {
    var boundary := Boundary(p, mode, d);
    if p.tankPrecool && !mode.Guests? && |ws| > 0 && boundary <= ws[0].start && !p.showerIn(Span(boundary, ws[0].start))
    then MinI(Round(p.setback), p.precoolTarget) else Round(p.setback)
  }

  function StructuralRows(p: Policy, mode: Mode, ws: seq<Span>, d: int): seq<Action> {
    var start, next := EffectiveStart(p, ws, d), WarmupAt(p, d + 1);
    if mode.Guests? then
      if start < next then [Action(WarmupRow, start, next, Round(p.normal), true)] else []
    else
      var boundary := Boundary(p, mode, d);
      var setback := Action(SetbackRow, boundary, next, SetbackTemp(p, mode, ws, d), false);
      if start < boundary
      then [Action(WarmupRow, start, boundary, Round(p.decision(d).target), false), setback] else [setback]
  }

  function BoostTemp(p: Policy): int { Round(MinR(p.boost, p.maxTemp)) }

  function BoostRowsFrom(p: Policy, ws: seq<Span>, asOf: Option<int>): seq<Action> {
    if |ws| == 0 then []
    else
      var rest, w := BoostRowsFrom(p, ws[..|ws| - 1], asOf), ws[|ws| - 1];
      if asOf.Some? && w.end <= asOf.value then rest else rest + [Action(BoostRow, w.start, w.end, BoostTemp(p), true)]
  }

  /** The rows of the cycle that starts at the warmup of `d`; `asOf` asks for the boost
      rows of a running cycle only. */
  function Rows(p: Policy, mode: Mode, rates: seq<Rate>, d: int, today: int, allowPast: bool, asOf: Option<int>): seq<Action> {
    var ws := CycleWindows(p, rates, d);
    if mode.Vacation? || (asOf.None? && !allowPast && d < today) then []
    else if asOf.Some? then BoostRowsFrom(p, ws, asOf)
    else StructuralRows(p, mode, ws, d) + BoostRowsFrom(p, ws, None)
  }

  function CycleWindows(p: Policy, rates: seq<Rate>, d: int): seq<Span> {
    Group(Sort(NegativeStarts(rates, WarmupAt(p, d), WarmupAt(p, d + 1))))
  }

  method BoostRows(p: Policy, ws: seq<Span>, asOf: Option<int>) returns (rows: seq<Action>)
    ensures rows == BoostRowsFrom(p, ws, asOf)
  {
    rows := [];
    var i := 0;
    while i < |ws|
      invariant 0 <= i <= |ws| && rows == BoostRowsFrom(p, ws[..i], asOf)
    {
      assert ws[..i + 1][..i] == ws[..i];
      if !(asOf.Some? && ws[i].end <= asOf.value) {
        rows := rows + [Action(BoostRow, ws[i].start, ws[i].end, BoostTemp(p), true)];
      }
      i := i + 1;
    }
    assert ws[..i] == ws;
  }

  method GenerateDailyTankSchedule(
    p: Policy, mode: Mode, rates: seq<Rate>, d: int, today: int, allowPast: bool, asOf: Option<int>)
    returns (rows: seq<Action>)
    ensures rows == Rows(p, mode, rates, d, today, allowPast, asOf)
  {
    hide Group, NegativeStarts, BoostRowsFrom, StructuralRows;
    rows := [];
    if mode.Vacation? { return; }
    if asOf.None? && !allowPast && d < today { return; }
    var windows := DetectNegativeWindows(rates, WarmupAt(p, d), WarmupAt(p, d + 1));
    if asOf.Some? {
      rows := BoostRows(p, windows, asOf);
      return;
    }
    rows := GenerateStructural(p, mode, windows, d);
    var boosts := BoostRows(p, windows, None);
    rows := rows + boosts;
  }

  method GenerateStructural(p: Policy, mode: Mode, windows: seq<Span>, d: int) returns (rows: seq<Action>)
    ensures rows == StructuralRows(p, mode, windows, d)
  {
    hide SetbackTemp, Round, DeferredStart;
    var warmupStart, nextWarmup, boundary := WarmupAt(p, d), WarmupAt(p, d + 1), SetbackAt(p, d);
    if !mode.Guests? {
      var early := p.early(d);
      if early.Some? && warmupStart < early.value < boundary { boundary := early.value; }
    }
    var start := DeferWarmup(p, windows, warmupStart);
    var standoff := p.standoff(d);
    if standoff.Some? && standoff.value.start <= start < standoff.value.end { start := standoff.value.end; }
    rows := [];
    if mode.Guests? {
      if start < nextWarmup { rows := rows + [Action(WarmupRow, start, nextWarmup, Round(p.normal), true)]; }
    } else {
      if start < boundary { rows := rows + [Action(WarmupRow, start, boundary, Round(p.decision(d).target), false)]; }
      rows := rows + [Action(SetbackRow, boundary, nextWarmup, SetbackTemp(p, mode, windows, d), false)];
    }
  }

  // ------------------------------------------------- schedule and forecast agree

  /** The one structural row that contains `t`. */
  ghost predicate OnlyRowAt(rows: seq<Action>, t: int, row: Action) {
    row in rows && Inside(Span(row.start, row.end), t)
    && forall r :: r in rows && !r.kind.BoostRow? && Inside(Span(r.start, r.end), t) ==> r == row
  }

  /** Two separately written readings of a day agree: on a day without paid windows, at
      every slot start between one warmup and the next and outside the stand-off,
      exactly one row is in force and it commands the forecast's rounded target. This
      holds with an early setback, with a bogus early key, and with a warmup that the
      stand-off defers. */
  lemma ScheduleMatchesForecast(p: Policy, rates: seq<Rate>, d: int, today: int, t: int)
    requires Sane(p) && d >= today && WarmupAt(p, d) <= t < WarmupAt(p, d + 1) && !InStandoff(p, t)
    requires forall i :: 0 <= i < |rates| ==> rates[i].pence >= 0.0
    ensures exists row :: OnlyRowAt(Rows(p, Normal, rates, d, today, false, None), t, row)
                          && row.temp == Round(TargetOf(p, Normal, t))
  {
    NoWindows(p, rates, d);
    var rows := Rows(p, Normal, rates, d, today, false, None);
    assert rows == StructuralRows(p, Normal, [], d);
    EffectiveIsNominalOrStandoff(p, d);
    TargetByBoundary(p, d, t);
    var boundary := Boundary(p, Normal, d);
    if t < boundary {
      assert OnlyRowAt(rows, t, rows[0]);
    } else {
      assert OnlyRowAt(rows, t, rows[|rows| - 1]);
    }
  }

  /** Likewise with guests, where no key moves the boundary and there is no setback. */
  lemma GuestsMatchForecast(p: Policy, rates: seq<Rate>, d: int, today: int, t: int)
    requires Sane(p) && d >= today && WarmupAt(p, d) <= t < WarmupAt(p, d + 1) && !InStandoff(p, t)
    requires forall i :: 0 <= i < |rates| ==> rates[i].pence >= 0.0
    ensures exists row :: OnlyRowAt(Rows(p, Guests, rates, d, today, false, None), t, row)
                          && row.temp == Round(TargetOf(p, Guests, t)) && row.powerful
  {
    NoWindows(p, rates, d);
    var rows := Rows(p, Guests, rates, d, today, false, None);
    assert rows == StructuralRows(p, Guests, [], d);
    EffectiveIsNominalOrStandoff(p, d);
    if t < At(d + 1, 0) { HourMarks(t, d, p.warmupHour(d)); }
    assert OnlyRowAt(rows, t, rows[0]);
  }

  lemma {:induction false} NoNegativeStarts(rates: seq<Rate>, from: int, to: int)
    requires forall i :: 0 <= i < |rates| ==> rates[i].pence >= 0.0
    ensures NegativeStarts(rates, from, to) == []
  {
    if |rates| > 0 { NoNegativeStarts(rates[..|rates| - 1], from, to); }
  }

  lemma NoWindows(p: Policy, rates: seq<Rate>, d: int)
    requires forall i :: 0 <= i < |rates| ==> rates[i].pence >= 0.0
    ensures CycleWindows(p, rates, d) == []
  {
    NoNegativeStarts(rates, WarmupAt(p, d), WarmupAt(p, d + 1));
  }

  lemma EffectiveIsNominalOrStandoff(p: Policy, d: int)
    ensures var w := p.standoff(d);
            EffectiveStart(p, [], d)
            == if w.Some? && w.value.start <= WarmupAt(p, d) < w.value.end then w.value.end else WarmupAt(p, d)
  {}

  /** The forecast's target, read off the boundary the schedule uses. */
  lemma TargetByBoundary(p: Policy, d: int, t: int)
    requires Sane(p) && WarmupAt(p, d) <= t < WarmupAt(p, d + 1) && !InStandoff(p, t)
    ensures TargetOf(p, Normal, t) == if t < Boundary(p, Normal, d) then p.decision(d).target else p.setback
    ensures t < Boundary(p, Normal, d) ==> DateOf(t) == d
  {
    if t < At(d + 1, 0) {
      HourMarks(t, d, p.warmupHour(d));
      HourMarks(t, d, p.decision(d).setbackHour);
    } else {
      HourMarks(t, d + 1, p.warmupHour(d + 1));
      assert SetbackAt(p, d) < At(d + 1, 0);
    }
  }

  /** Structural rows stay inside their own cycle. */
  lemma RowsStayInCycle(p: Policy, d: int, row: Action)
    requires Sane(p) && p.warmupHour(d) < p.decision(d).setbackHour && row in StructuralRows(p, Normal, [], d)
    ensures WarmupAt(p, d) <= row.start && row.end <= WarmupAt(p, d + 1)
  {
    EffectiveIsNominalOrStandoff(p, d);
  }

  lemma CyclesInOrder(p: Policy, d: int, e: int)
    requires Sane(p) && d < e
    ensures WarmupAt(p, d + 1) <= WarmupAt(p, e)
  {}

  predicate InCycle(p: Policy, d: int, t: int) { WarmupAt(p, d) <= t < WarmupAt(p, d + 1) }

  lemma {:induction false} CycleOf(p: Policy, from: int, to: int, t: int)
    requires from <= to && WarmupAt(p, from) <= t < WarmupAt(p, to + 1)
    ensures exists d :: from <= d <= to && InCycle(p, d, t)
    decreases (to - from)
  {
    if t < WarmupAt(p, from + 1) {
      assert InCycle(p, from, t);
    } else {
      assert from < to;
      CycleOf(p, from + 1, to, t);
    }
  }

  ghost predicate SilentAt(rows: seq<Action>, t: int) { forall r :: r in rows ==> !Inside(Span(r.start, r.end), t) }

  ghost predicate CommandedBy(p: Policy, rates: seq<Rate>, d: int, today: int, t: int) {
    exists row :: OnlyRowAt(Rows(p, Normal, rates, d, today, false, None), t, row) && row.temp == Round(TargetOf(p, Normal, t))
  }

  lemma SilentOutside(p: Policy, rates: seq<Rate>, e: int, today: int, t: int)
    requires Sane(p) && p.warmupHour(e) < p.decision(e).setbackHour && today <= e
    requires t < WarmupAt(p, e) || WarmupAt(p, e + 1) <= t
    requires forall i :: 0 <= i < |rates| ==> rates[i].pence >= 0.0
    ensures SilentAt(Rows(p, Normal, rates, e, today, false, None), t)
  {
    NoWindows(p, rates, e);
    var rows := Rows(p, Normal, rates, e, today, false, None);
    assert rows == StructuralRows(p, Normal, [], e);
    hide StructuralRows, Rows;
    forall r | r in rows ensures !Inside(Span(r.start, r.end), t) { RowsStayInCycle(p, e, r); }
  }

  /** Over any run of days the cycles tile: each slot start outside the stand-off is
      commanded by exactly one row of exactly one day's schedule, at the forecast's
      rounded target. */
  lemma DaysTile(p: Policy, rates: seq<Rate>, from: int, to: int, today: int, t: int) returns (d: int)
    requires Sane(p) && today <= from <= to && (forall e :: p.warmupHour(e) < p.decision(e).setbackHour)
    requires WarmupAt(p, from) <= t < WarmupAt(p, to + 1) && !InStandoff(p, t)
    requires forall i :: 0 <= i < |rates| ==> rates[i].pence >= 0.0
    ensures from <= d <= to && CommandedBy(p, rates, d, today, t)
    ensures forall e :: from <= e <= to && e != d ==> SilentAt(Rows(p, Normal, rates, e, today, false, None), t)
  {
    CycleOf(p, from, to, t);
    d :| from <= d <= to && InCycle(p, d, t);
    ScheduleMatchesForecast(p, rates, d, today, t);
    hide Rows, TargetOf;
    forall e | from <= e <= to && e != d ensures SilentAt(Rows(p, Normal, rates, e, today, false, None), t) {
      if d < e { CyclesInOrder(p, d, e); } else { CyclesInOrder(p, e, d); }
      SilentOutside(p, rates, e, today, t);
    }
  }
}
