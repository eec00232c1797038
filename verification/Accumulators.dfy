/** Weighted sums per key, as both bias learners keep them (src/dhw_bias.py,
    src/load_bias.py). */
module Accumulators {
  import opened Common

  /** One observation: its key, its two weighted terms and the day it fell on. */
  datatype Item = Item(key: int, num: real, den: real, day: int)

  datatype Acc = Acc(num: real, den: real, n: nat, days: set<int>)

  const EMPTY := Acc(0.0, 0.0, 0, {})

  function Add(acc: map<int, Acc>, x: Item): map<int, Acc> {
    var a := if x.key in acc then acc[x.key] else EMPTY;
    acc[x.key := Acc(a.num + x.num, a.den + x.den, a.n + 1, a.days + {x.day})]
  }

  function AccOf(xs: seq<Item>): map<int, Acc> {
    if |xs| == 0 then map[] else Add(AccOf(xs[..|xs| - 1]), xs[|xs| - 1])
  }

  method Accumulate(xs: seq<Item>) returns (acc: map<int, Acc>)
    ensures acc == AccOf(xs)
  {
    acc := map[];
    var i := 0;
    while i < |xs|
      invariant 0 <= i <= |xs| && acc == AccOf(xs[..i])
    {
      assert xs[..i + 1][..i] == xs[..i];
      acc := Add(acc, xs[i]);
      i := i + 1;
    }
    assert xs[..i] == xs;
  }

  /** The ratio of every observation of the key lies between two bounds. */
  ghost predicate RatiosWithin(xs: seq<Item>, key: int, lo: real, hi: real) {
    forall i :: 0 <= i < |xs| && xs[i].key == key ==> xs[i].den > 0.0 && RatioWithin(xs[i].num, xs[i].den, lo, hi)
  }

  predicate RatioWithin(num: real, den: real, lo: real, hi: real) { lo * den <= num <= hi * den }

  lemma RatiosAdd(a: real, b: real, c: real, d: real, lo: real, hi: real)
    requires RatioWithin(a, b, lo, hi) && RatioWithin(c, d, lo, hi)
    ensures RatioWithin(a + c, b + d, lo, hi)
  {
    assert lo * (b + d) == lo * b + lo * d && hi * (b + d) == hi * b + hi * d;
  }

  /** A key is there iff something was observed, and its ratio of sums is a weighted
      mean: it lies between the smallest and the largest observed ratio. */
  lemma {:induction false} RatioIsBetween(xs: seq<Item>, key: int, lo: real, hi: real)
    requires RatiosWithin(xs, key, lo, hi)
    ensures key in AccOf(xs) <==> exists i :: 0 <= i < |xs| && xs[i].key == key
    ensures key in AccOf(xs) ==> AccOf(xs)[key].den > 0.0 && RatioWithin(AccOf(xs)[key].num, AccOf(xs)[key].den, lo, hi)
  {
    if |xs| > 0 {
      var n := |xs| - 1;
      RatioIsBetween(xs[..n], key, lo, hi);
      hide RatioWithin;
      if xs[n].key == key && key in AccOf(xs[..n]) {
        var a := AccOf(xs[..n])[key];
        RatiosAdd(a.num, a.den, xs[n].num, xs[n].den, lo, hi);
      }
    }
  }

  /** The days on which something was observed for the key. */
  function DaysIn(xs: seq<Item>, key: int): set<int> {
    if |xs| == 0 then {}
    else DaysIn(xs[..|xs| - 1], key) + if xs[|xs| - 1].key == key then {xs[|xs| - 1].day} else {}
  }

  /** An accumulator is there iff the key was observed, and it knows on which days. */
  lemma {:induction false} DaysAre(xs: seq<Item>, key: int)
    ensures key in AccOf(xs) <==> DaysIn(xs, key) != {}
    ensures key in AccOf(xs) ==> AccOf(xs)[key].days == DaysIn(xs, key)
  {
    if |xs| > 0 {
      var n := |xs| - 1;
      DaysAre(xs[..n], key);
      if xs[n].key == key { assert xs[n].day in DaysIn(xs, key); }
    }
  }

  lemma DividedRatio(num: real, den: real, lo: real, hi: real)
    requires den > 0.0 && RatioWithin(num, den, lo, hi)
    ensures lo <= num / den <= hi
  {
    assert num / den * den == num;
    CancelFactor(lo, num / den, den);
    CancelFactor(num / den, hi, den);
  }

  lemma CancelFactor(a: real, b: real, c: real)
    requires c > 0.0 && a * c <= b * c
    ensures a <= b
  {
    assert (b - a) * c >= 0.0;
  }
}
