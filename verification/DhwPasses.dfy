/** The in-place passes of the hot-water energy forecast (src/dhw_policy.py), each as a
    function on the whole line, as the loop that performs it, and what it guarantees. */
module DhwPasses {
  import opened Common
  import opened DhwClock

  const FIT_EPS: real := 0.000000001
  const RAMP_EPS: real := 0.000001

  ghost predicate Within(e: seq<real>, cap: real) { forall i :: 0 <= i < |e| ==> 0.0 <= e[i] <= cap }

  lemma {:induction false} SumUpdate(s: seq<real>, i: nat, x: real)
    requires i < |s|
    ensures Sum(s[i := x]) == Sum(s) - s[i] + x
  {
    var n := |s| - 1;
    if i < n {
      SumUpdate(s[..n], i, x);
      assert s[i := x][..n] == s[..n][i := x];
    } else {
      assert s[i := x][..n] == s[..n];
    }
  }

  // ------------------------------------------------------------------ lift fill

  /** Pour `extra` into the open slots from `i` on, each up to the cap; stop when next to
      nothing is left. */
  function Fill(e: seq<real>, open: seq<bool>, cap: real, extra: real, i: nat): (seq<real>, real)
    requires |open| == |e| && i <= |e|
    decreases |e| - i
  {
    if i == |e| then (e, extra)
    else if !open[i] || cap - e[i] <= 0.0 then Fill(e, open, cap, extra, i + 1)
    else
      var add := MinR(cap - e[i], extra);
      if extra - add <= FIT_EPS then (e[i := e[i] + add], extra - add)
      else Fill(e[i := e[i] + add], open, cap, extra - add, i + 1)
  }

  method LiftFill(e: array<real>, open: seq<bool>, cap: real, extra: real) returns (left: real)
    requires |open| == e.Length
    modifies e
    ensures (e[..], left) == Fill(old(e[..]), open, cap, extra, 0)
  {
    left := extra;
    var i := 0;
    while i < e.Length
      invariant 0 <= i <= e.Length
      invariant Fill(old(e[..]), open, cap, extra, 0) == Fill(e[..], open, cap, left, i)
    {
      var room := cap - e[i];
      if open[i] && room > 0.0 {
        var add := MinR(room, left);
        ghost var before := e[..];
        e[i] := e[i] + add;
        assert e[..] == before[i := before[i] + add];
        left := left - add;
        if left <= FIT_EPS { return; }
      }
      i := i + 1;
    }
  }

  /** Room left in the open slots from `i` on. */
  function Room(e: seq<real>, open: seq<bool>, cap: real, i: nat): real
    requires |open| == |e| && i <= |e|
    decreases |e| - i
  {
    if i == |e| then 0.0 else (if open[i] then MaxR(0.0, cap - e[i]) else 0.0) + Room(e, open, cap, i + 1)
  }

  lemma {:induction false} RoomIgnoresEarlier(a: seq<real>, b: seq<real>, open: seq<bool>, cap: real, i: nat)
    requires |open| == |a| == |b| && i <= |a| && forall k :: i <= k < |a| ==> a[k] == b[k]
    ensures Room(a, open, cap, i) == Room(b, open, cap, i)
    decreases |a| - i
  {
    if i < |a| { RoomIgnoresEarlier(a, b, open, cap, i + 1); }
  }

  lemma {:induction false} RoomNonNegative(e: seq<real>, open: seq<bool>, cap: real, i: nat)
    requires |open| == |e| && i <= |e|
    ensures Room(e, open, cap, i) >= 0.0
    decreases |e| - i
  {
    if i < |e| { RoomNonNegative(e, open, cap, i + 1); }
  }

  /** The fill adds the smaller of the budget and the room, up to the stopping epsilon;
      something is left over only when every open slot is full. */
  lemma {:induction false} FillIsExact(e: seq<real>, open: seq<bool>, cap: real, extra: real, i: nat)
    requires |open| == |e| && i <= |e| && extra > 0.0
    ensures var (after, left) := Fill(e, open, cap, extra, i);
            var room := Room(e, open, cap, i);
            |after| == |e| && 0.0 <= left <= extra
            && Sum(after) - Sum(e) == extra - left
            && extra - left <= room
            && (left > FIT_EPS ==> extra - left == room)
    decreases |e| - i
  {
    RoomNonNegative(e, open, cap, i);
    if i < |e| {
      if !open[i] || cap - e[i] <= 0.0 {
        FillIsExact(e, open, cap, extra, i + 1);
      } else {
        var add := MinR(cap - e[i], extra);
        var next := e[i := e[i] + add];
        SumUpdate(e, i, e[i] + add);
        RoomNonNegative(e, open, cap, i + 1);
        if extra - add > FIT_EPS {
          RoomIgnoresEarlier(e, next, open, cap, i + 1);
          FillIsExact(next, open, cap, extra - add, i + 1);
        }
      }
    }
  }

  /** Only open slots change, never above the cap, and a slot gets something only when
      every earlier open slot is full; a leftover means all of them are. */
  lemma {:induction false} FillIsGreedy(e: seq<real>, open: seq<bool>, cap: real, extra: real, i: nat, k: nat)
    requires |open| == |e| && i <= |e| && extra > 0.0 && k < |e|
    ensures var (after, left) := Fill(e, open, cap, extra, i);
            |after| == |e|
            && (k < i || !open[k] || e[k] >= cap ==> after[k] == e[k])
            && e[k] <= after[k] <= MaxR(e[k], cap)
            && (left > FIT_EPS && k >= i && open[k] ==> after[k] >= cap)
            && forall j :: 0 <= j < |e| && after[j] != e[j] && i <= k < j && open[k] ==> after[k] >= cap
    decreases |e| - i
  {
    if i < |e| {
      if !open[i] || cap - e[i] <= 0.0 {
        FillIsGreedy(e, open, cap, extra, i + 1, k);
      } else {
        var add := MinR(cap - e[i], extra);
        if extra - add > FIT_EPS {
          FillIsGreedy(e[i := e[i] + add], open, cap, extra - add, i + 1, k);
        }
      }
    }
  }

  // ---------------------------------------------------------------- warm credit

  /** Spend stored heat on the first slots that have a load. */
  function Credit(e: seq<real>, credit: real, i: nat): (seq<real>, real)
    requires i <= |e|
    decreases |e| - i
  {
    if i == |e| || credit <= 0.0 then (e, credit)
    else if e[i] <= 0.0 then Credit(e, credit, i + 1)
    else
      var cut := MinR(e[i], credit);
      Credit(e[i := e[i] - cut], credit - cut, i + 1)
  }

  method WarmCredit(e: array<real>, credit: real) returns (left: real)
    modifies e
    ensures (e[..], left) == Credit(old(e[..]), credit, 0)
  {
    left := credit;
    var i := 0;
    while i < e.Length
      invariant 0 <= i <= e.Length
      invariant Credit(old(e[..]), credit, 0) == Credit(e[..], left, i)
    {
      if left <= 0.0 { return; }
      if e[i] > 0.0 {
        var cut := MinR(e[i], left);
        ghost var before := e[..];
        e[i] := e[i] - cut;
        assert e[..] == before[i := before[i] - cut];
        left := left - cut;
      }
      i := i + 1;
    }
  }

  lemma {:induction false} SumNonNegative(s: seq<real>)
    requires forall i :: 0 <= i < |s| ==> s[i] >= 0.0
    ensures Sum(s) >= 0.0
  {
    if |s| > 0 { SumNonNegative(s[..|s| - 1]); }
  }

  lemma {:induction false} SumOfZeros(s: seq<real>)
    requires forall i :: 0 <= i < |s| ==> s[i] == 0.0
    ensures Sum(s) == 0.0
  {
    if |s| > 0 { SumOfZeros(s[..|s| - 1]); }
  }

  /** Slot by slot: loads only shrink, never below zero; a slot is touched only when all
      earlier ones are spent; a leftover means there is no load left at all. */
  lemma {:induction false} CreditIsGreedy(e: seq<real>, credit: real, i: nat, k: nat)
    requires i <= |e| && credit >= 0.0 && k < |e| && (forall j :: 0 <= j < |e| ==> e[j] >= 0.0)
    ensures var (after, left) := Credit(e, credit, i);
            |after| == |e| && 0.0 <= left <= credit && 0.0 <= after[k] <= e[k]
            && (k < i ==> after[k] == e[k])
            && (left > 0.0 && k >= i ==> after[k] == 0.0)
            && (forall j :: 0 <= j < |e| && after[j] != e[j] && i <= k < j ==> after[k] == 0.0)
            && Sum(e) - Sum(after) == credit - left
    decreases |e| - i
  {
    if i < |e| && credit > 0.0 {
      if e[i] <= 0.0 {
        CreditIsGreedy(e, credit, i + 1, k);
      } else {
        var cut := MinR(e[i], credit);
        SumUpdate(e, i, e[i] - cut);
        CreditIsGreedy(e[i := e[i] - cut], credit - cut, i + 1, k);
      }
    }
  }

  /** The credit removes exactly the smaller of itself and the whole load. */
  lemma CreditIsExact(e: seq<real>, credit: real)
    requires credit >= 0.0 && forall j :: 0 <= j < |e| ==> e[j] >= 0.0
    ensures var (after, left) := Credit(e, credit, 0);
            |after| == |e| && Sum(e) - Sum(after) == MinR(credit, Sum(e))
  {
    var (after, left) := Credit(e, credit, 0);
    SumNonNegative(e);
    if |e| > 0 {
      CreditIsGreedy(e, credit, 0, 0);
      forall k | 0 <= k < |e| ensures after[k] >= 0.0 && (left > 0.0 ==> after[k] == 0.0) { CreditIsGreedy(e, credit, 0, k); }
      SumNonNegative(after);
      if left > 0.0 { SumOfZeros(after); }
    }
  }
}
