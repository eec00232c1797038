/** Small vocabulary shared by every module: an option type, real min/max and sums. */
module Common {

  datatype Option<+T> = None | Some(value: T) {
    function GetOr(default: T): T {
      match this
      case Some(v) => v
      case None => default
    }
  }

  function MinR(a: real, b: real): real { if a <= b then a else b }

  function MaxR(a: real, b: real): real { if a >= b then a else b }

  function AbsR(a: real): real { if a >= 0.0 then a else -a }

  function MinI(a: int, b: int): int { if a <= b then a else b }

  function MaxI(a: int, b: int): int { if a >= b then a else b }

  /** `max(lo, min(hi, x))`, the clamp every learner and step uses. */
  function Clamp(lo: real, hi: real, x: real): real { MaxR(lo, MinR(hi, x)) }

  lemma ProductNonNegative(a: real, b: real)
    requires a >= 0.0 && b >= 0.0
    ensures a * b >= 0.0
  {}

  lemma ProductMonotone(a: real, b: real, c: real)
    requires a <= b && c >= 0.0
    ensures a * c <= b * c
  {
    ProductNonNegative(b - a, c);
  }

  /** Sum of a sequence, by prefixes so that loops extend it on the right. */
  function Sum(s: seq<real>): real {
    if |s| == 0 then 0.0 else Sum(s[..|s| - 1]) + s[|s| - 1]
  }

  lemma SumPrefixStep(s: seq<real>, i: nat)
    requires i < |s|
    ensures Sum(s[..i + 1]) == Sum(s[..i]) + s[i]
  {
    assert s[..i + 1][..i] == s[..i];
  }

  // ------------------------------------------------------------ sorting integers

  ghost predicate Ascending(ts: seq<int>) {
    forall i, j :: 0 <= i < j < |ts| ==> ts[i] <= ts[j]
  }

  function Insert(t: int, ts: seq<int>): seq<int> {
    if |ts| == 0 || t <= ts[0] then [t] + ts else [ts[0]] + Insert(t, ts[1..])
  }

  lemma {:induction false} InsertMembers(t: int, ts: seq<int>)
    ensures multiset(Insert(t, ts)) == multiset(ts) + multiset{t}
  {
    if !(|ts| == 0 || t <= ts[0]) {
      InsertMembers(t, ts[1..]);
      assert ts == [ts[0]] + ts[1..];
    }
  }

  lemma AscendingCons(x: int, ts: seq<int>)
    requires Ascending(ts) && (forall t :: t in ts ==> x <= t)
    ensures Ascending([x] + ts)
  {
    var s := [x] + ts;
    forall i, j | 0 <= i < j < |s| ensures s[i] <= s[j] {
      assert s[j] == ts[j - 1] && ts[j - 1] in ts;
      if i > 0 { assert s[i] == ts[i - 1]; }
    }
  }

  lemma {:induction false} InsertAscends(t: int, ts: seq<int>)
    requires Ascending(ts)
    ensures Ascending(Insert(t, ts))
  {
    if !(|ts| == 0 || t <= ts[0]) {
      InsertAscends(t, ts[1..]);
      var rest := Insert(t, ts[1..]);
      InsertMembers(t, ts[1..]);
      forall x | x in rest ensures ts[0] <= x {
        assert x in multiset(rest);
        assert x == t || x in ts[1..];
      }
      AscendingCons(ts[0], rest);
    }
  }

  /** sorted(times) */
  function Sort(times: seq<int>): (r: seq<int>)
    ensures Ascending(r) && multiset(r) == multiset(times)
  {
    if |times| == 0 then []
    else
      var rest := Sort(times[1..]);
      assert times == [times[0]] + times[1..];
      InsertAscends(times[0], rest); InsertMembers(times[0], rest);
      Insert(times[0], rest)
  }

  lemma SameMembers(a: seq<int>, b: seq<int>)
    requires multiset(a) == multiset(b)
    ensures forall t :: t in a <==> t in b
  {
    assert forall t :: t in a <==> t in multiset(a);
    assert forall t :: t in b <==> t in multiset(b);
  }
}
