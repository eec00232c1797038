/** The judge's reading of comfort feedback and prediction errors
    (src/auto_tune_judge.py): deduplicated reports, bursts and two bad days in a row.
    Instants are seconds, days are day numbers. */
module Feedback {
  import opened Common

  const GAP: int := 3600
  const WINDOW: int := 3 * 86400
  const TRIP_COUNT: nat := 2

  // ------------------------------------------------------------------- dedupe

  /** Keep a report iff it is at least the gap after the last kept one. */
  function Greedy(ts: seq<int>): seq<int> {
    if |ts| == 0 then []
    else
      var g, t := Greedy(ts[..|ts| - 1]), ts[|ts| - 1];
      if |g| == 0 || t - g[|g| - 1] >= GAP then g + [t] else g
  }

  method Dedupe(times: seq<int>) returns (out: seq<int>)
    ensures out == Greedy(Sort(times))
  {
    out := [];
    var sorted := Sort(times);
    var i := 0;
    while i < |sorted|
      invariant 0 <= i <= |sorted| && out == Greedy(sorted[..i])
    {
      assert sorted[..i + 1][..i] == sorted[..i];
      if |out| == 0 || sorted[i] - out[|out| - 1] >= GAP { out := out + [sorted[i]]; }
      i := i + 1;
    }
    assert sorted[..i] == sorted;
  }

  /** A selection whose members are at least the gap apart, in order. */
  ghost predicate Separated(sel: seq<int>) {
    forall i, j :: 0 <= i < j < |sel| ==> sel[j] - sel[i] >= GAP
  }

  lemma Apart(sel: seq<int>, i: nat, j: nat)
    requires Separated(sel) && i < |sel| && j < |sel|
    ensures i < j ==> sel[j] - sel[i] >= GAP
  {
  }

  predicate CoveredBy(t: int, out: seq<int>) {
    exists k :: 0 <= k < |out| && 0 <= t - out[k] < GAP
  }

  lemma {:induction false} GreedyIsSelection(ts: seq<int>)
    requires Ascending(ts)
    ensures Separated(Greedy(ts)) && (forall o :: o in Greedy(ts) ==> o in ts)
    ensures |ts| > 0 ==> |Greedy(ts)| > 0 && Greedy(ts)[|Greedy(ts)| - 1] <= ts[|ts| - 1]
  {
    if |ts| > 0 { GreedyIsSelection(ts[..|ts| - 1]); }
  }

  lemma {:induction false} GreedyCovers(ts: seq<int>, i: nat)
    requires Ascending(ts) && i < |ts|
    ensures CoveredBy(ts[i], Greedy(ts))
  {
    var rest := ts[..|ts| - 1];
    var g := Greedy(ts);
    if i < |ts| - 1 {
      GreedyCovers(rest, i);
      var k :| 0 <= k < |Greedy(rest)| && 0 <= ts[i] - Greedy(rest)[k] < GAP;
      assert g[k] == Greedy(rest)[k];
    } else {
      GreedyIsSelection(ts);
      assert 0 <= ts[i] - g[|g| - 1] < GAP;
    }
  }

  /** Any covering separated sequence stays ahead of every other separated selection. */
  lemma {:induction false} StaysAhead(ts: seq<int>, sel: seq<int>, i: nat)
    requires Ascending(ts) && Separated(sel) && (forall t :: t in sel ==> t in ts) && i < |sel|
    ensures i < |Greedy(ts)| && Greedy(ts)[i] <= sel[i]
  {
    var g := Greedy(ts);
    GreedyIsSelection(ts);
    assert sel[i] in sel;
    var j :| 0 <= j < |ts| && ts[j] == sel[i];
    GreedyCovers(ts, j);
    var k :| 0 <= k < |g| && 0 <= sel[i] - g[k] < GAP;
    if i > 0 {
      StaysAhead(ts, sel, i - 1);
      Apart(sel, i - 1, i);
      Apart(g, k, i - 1);
    }
    if i < |g| { Apart(g, i, k); }
  }

  /** The dedupe is optimal: its result is a separated selection of the reports, covers
      every report within the gap, and no separated selection has more members. */
  lemma DedupeIsOptimal(times: seq<int>, sel: seq<int>)
    ensures var out := Greedy(Sort(times));
            Separated(out) && (forall o :: o in out ==> o in times)
            && (forall t :: t in times ==> CoveredBy(t, out))
            && (Separated(sel) && (forall t :: t in sel ==> t in times) ==> |sel| <= |out|)
  {
    var ts := Sort(times);
    GreedyIsSelection(ts);
    SameMembers(times, ts);
    forall t | t in times ensures CoveredBy(t, Greedy(ts)) {
      var i :| 0 <= i < |ts| && ts[i] == t;
      GreedyCovers(ts, i);
    }
    if Separated(sel) && (forall t :: t in sel ==> t in times) && |sel| > 0 { StaysAhead(ts, sel, |sel| - 1); }
  }

  // -------------------------------------------------------------------- burst

  function WithinWindow(times: seq<int>, t0: int): seq<int> {
    if |times| == 0 then []
    else (if times[0] - t0 <= WINDOW then [times[0]] else []) + WithinWindow(times[1..], t0)
  }

  /** The first window that holds the trip count, else nothing. */
  function BurstOf(times: seq<int>): seq<int> {
    if |times| == 0 then []
    else if |WithinWindow(times, times[0])| >= TRIP_COUNT then WithinWindow(times, times[0])
    else BurstOf(times[1..])
  }

  method Burst(times: seq<int>) returns (win: seq<int>)
    ensures win == BurstOf(times)
  {
    var i := 0;
    while i < |times|
      invariant 0 <= i <= |times| && BurstOf(times) == BurstOf(times[i..])
    {
      win := WithinWindow(times[i..], times[i]);
      if |win| >= TRIP_COUNT { return; }
      assert times[i..][1..] == times[i + 1..];
      i := i + 1;
    }
    return [];
  }

  lemma {:induction false} WithinWindowMembers(times: seq<int>, t0: int)
    ensures forall t :: t in WithinWindow(times, t0) <==> t in times && t - t0 <= WINDOW
  {
    if |times| > 0 { WithinWindowMembers(times[1..], t0); }
  }

  lemma {:induction false} WithinWindowCount(times: seq<int>, t0: int, i: nat)
    requires i < |times|
    ensures times[i] - t0 <= WINDOW ==> |WithinWindow(times, t0)| >= 1
  {
    if i > 0 { WithinWindowCount(times[1..], t0, i - 1); }
  }

  /** Two of the reports are within the window. */
  ghost predicate Close(times: seq<int>, i: int, j: int) {
    0 <= i < j < |times| && times[j] - times[i] <= WINDOW
  }

  /** The first report's window trips exactly when a later one is close to it. */
  lemma FirstTripsIff(times: seq<int>)
    requires |times| > 0
    ensures |WithinWindow(times, times[0])| >= TRIP_COUNT <==> exists j :: Close(times, 0, j)
  {
    var rest := times[1..];
    var w := WithinWindow(rest, times[0]);
    if |w| > 0 {
      WithinWindowMembers(rest, times[0]);
      assert w[0] in w;
      var j :| 0 <= j < |rest| && rest[j] == w[0];
      assert Close(times, 0, j + 1);
    }
    if j :| Close(times, 0, j) { WithinWindowCount(rest, times[0], j - 1); }
  }

  /** On separated reports the burst fires exactly when two of them share a window. */
  lemma {:induction false} BurstIff(times: seq<int>)
    requires Separated(times)
    ensures BurstOf(times) != [] <==> exists i, j :: Close(times, i, j)
  {
    if |times| > 0 {
      var rest := times[1..];
      FirstTripsIff(times);
      BurstIff(rest);
      hide WithinWindow;
      if i, j :| Close(rest, i, j) { assert Close(times, i + 1, j + 1); }
      if i, j :| Close(times, i, j) && i > 0 { assert Close(rest, i - 1, j - 1); }
    }
  }

  /** What the burst says about the raw reports. If it fires, two of them at least the gap
      apart lie within the window; and it fires as soon as two such lie within the window
      less the gap, which is as far as a report can be from the one it was merged into. */
  lemma BurstOnRawReports(times: seq<int>, a: int, b: int)
    ensures BurstOf(Greedy(Sort(times))) != [] ==>
              exists x, y :: x in times && y in times && GAP <= y - x <= WINDOW
    ensures a in times && b in times && GAP <= b - a <= WINDOW - GAP ==> BurstOf(Greedy(Sort(times))) != []
  {
    var out := Greedy(Sort(times));
    DedupeIsOptimal(times, []);
    BurstIff(out);
    hide BurstOf, Greedy, Sort;
    if i, j :| Close(out, i, j) {
      assert out[i] in times && out[j] in times;
    }
    if a in times && b in times && GAP <= b - a <= WINDOW - GAP { CoveredPair(out, a, b); }
  }

  lemma CoveredPair(out: seq<int>, a: int, b: int)
    requires Separated(out) && CoveredBy(a, out) && CoveredBy(b, out) && GAP <= b - a <= WINDOW - GAP
    ensures exists i, j :: Close(out, i, j)
  {
    var i :| 0 <= i < |out| && 0 <= a - out[i] < GAP;
    var j :| 0 <= j < |out| && 0 <= b - out[j] < GAP;
    Apart(out, j, i);
    assert Close(out, i, j);
  }

  /** Report `i` opens a window with another report in it, and no earlier one does. */
  ghost predicate FirstBurst(times: seq<int>, i: int) {
    (exists j :: Close(times, i, j)) && forall k, j :: k < i ==> !Close(times, k, j)
  }

  /** What a burst names: the reports of the first window that holds two. */
  lemma {:induction false} BurstNames(times: seq<int>, i: nat)
    requires Separated(times) && FirstBurst(times, i)
    ensures forall t :: t in BurstOf(times) <==> t in times[i..] && t - times[i] <= 3 * 86400
  {
    FirstTripsIff(times);
    if i == 0 {
      WithinWindowMembers(times, times[0]);
      assert times[0..] == times;
    } else {
      var rest := times[1..];
      assert FirstBurst(rest, i - 1) by {
        var j :| Close(times, i, j);
        assert Close(rest, i - 1, j - 1);
        forall k, l | k < i - 1 ensures !Close(rest, k, l) { assert !Close(times, k + 1, l + 1); }
      }
      BurstNames(rest, i - 1);
      assert rest[i - 1..] == times[i..];
    }
  }

  // ------------------------------------------------------- two bad days in a row

  datatype DayError = DayError(day: int, error: real)

  ghost predicate ByDay(errs: seq<DayError>) {
    forall i, j :: 0 <= i < j < |errs| ==> errs[i].day < errs[j].day
  }

  ghost predicate BadPair(errs: seq<DayError>, limit: real, i: int, j: int) {
    0 <= i < j < |errs| && errs[j].day == errs[i].day + 1 && errs[i].error > limit && errs[j].error > limit
  }

  lemma DaysApart(errs: seq<DayError>, i: int, j: int)
    requires ByDay(errs)
    ensures 0 <= i < j - 1 && j < |errs| ==> errs[j].day >= errs[i].day + 2
  {
    assert 0 <= i < j - 1 && j < |errs| ==> errs[i].day < errs[j - 1].day && errs[j - 1].day < errs[j].day;
  }

  /** The learned-parameter tripwire: fires exactly on two consecutive calendar days above
      the limit, whatever days are missing in between other entries. */
  method PredictionStreak(errs: seq<DayError>, limit: real) returns (hit: Option<(int, int)>)
    requires ByDay(errs)
    ensures hit.Some? <==> exists i, j :: BadPair(errs, limit, i, j)
    ensures hit.Some? ==> hit.value.1 == hit.value.0 + 1
                          && exists i, j :: BadPair(errs, limit, i, j) && errs[i].day == hit.value.0
  {
    var badPrev: Option<int> := None;
    var k := 0;
    while k < |errs|
      invariant 0 <= k <= |errs|
      invariant badPrev.Some? <==> k > 0 && errs[k - 1].error > limit
      invariant badPrev.Some? ==> badPrev.value == errs[k - 1].day
      invariant forall i, j :: j < k ==> !BadPair(errs, limit, i, j)
    {
      if errs[k].error > limit {
        if badPrev.Some? && errs[k].day - badPrev.value == 1 {
          assert BadPair(errs, limit, k - 1, k);
          return Some((badPrev.value, errs[k].day));
        }
        badPrev := Some(errs[k].day);
      } else {
        badPrev := None;
      }
      forall i ensures !BadPair(errs, limit, i, k) { DaysApart(errs, i, k); }
      k := k + 1;
    }
    return None;
  }
}
