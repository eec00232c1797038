/** The 24-hour call quota and the Daikin write breaker (src/api_quota.py).

    The call log is pruned to 48 hours on every insert. What is proved here is that
    the pruned log answers the sliding-window count and the last-N breaker question
    exactly as the full, never-pruned history would, and that callers who ask first
    never exceed the budget in any 24-hour window of that full history. */
module Quota {
  import opened Common

  const DAY: real := 86400.0
  const RETENTION: real := 172800.0

  datatype Vendor = Daikin | Fox | Other(name: string)
  datatype Kind = Read | Write
  datatype Call = Call(vendor: Vendor, kind: Kind, ts: real, ok: bool)

  datatype Config = Config(
    daikinBudget: int, foxBudget: int,
    active: bool, soakBudget: int, soakDays: int,
    fails: int, windowMinutes: int, cooldownMinutes: int)
  {
    function WindowS(): real { (MaxI(60, windowMinutes * 60)) as real }
    function CooldownS(): real { (MaxI(60, cooldownMinutes * 60)) as real }
  }

  /** What the module persists: the call table and the soak marker. */
  datatype State = State(log: seq<Call>, soakStart: Option<real>)

  // ------------------------------------------------------------ log queries

  function Count(log: seq<Call>, v: Vendor, cutoff: real): nat {
    if |log| == 0 then 0
    else Count(log[..|log| - 1], v, cutoff)
         + if log[|log| - 1].vendor == v && log[|log| - 1].ts >= cutoff then 1 else 0
  }

  /** Calls of `v` in the closed window [a, b]. */
  function CountIn(log: seq<Call>, v: Vendor, a: real, b: real): nat {
    if |log| == 0 then 0
    else CountIn(log[..|log| - 1], v, a, b)
         + if log[|log| - 1].vendor == v && a <= log[|log| - 1].ts <= b then 1 else 0
  }

  function Prune(log: seq<Call>, cutoff: real): seq<Call> {
    if |log| == 0 then []
    else if log[|log| - 1].ts >= cutoff then Prune(log[..|log| - 1], cutoff) + [log[|log| - 1]]
    else Prune(log[..|log| - 1], cutoff)
  }

  predicate IsDaikinWrite(c: Call) { c.vendor == Daikin && c.kind == Write }

  /** The newest `n` Daikin writes, newest first. */
  function LastWrites(log: seq<Call>, n: nat): seq<Call> {
    if n == 0 || |log| == 0 then []
    else if IsDaikinWrite(log[|log| - 1]) then [log[|log| - 1]] + LastWrites(log[..|log| - 1], n - 1)
    else LastWrites(log[..|log| - 1], n)
  }

  // ---------------------------------------------------------------- policy

  /** Reduced budget of the active-mode soak, or None when it does not apply. */
  function SoakBudget(cfg: Config, soakStart: Option<real>, now: real): Option<int> {
    if !cfg.active || cfg.soakBudget <= 0 || cfg.soakDays <= 0 || soakStart.None? then None
    else if now - soakStart.value >= (cfg.soakDays * 86400) as real then None
    else Some(MinI(cfg.soakBudget, cfg.daikinBudget))
  }

  function Budget(cfg: Config, soakStart: Option<real>, v: Vendor, now: real): int {
    match v
    case Daikin => SoakBudget(cfg, soakStart, now).GetOr(cfg.daikinBudget)
    case Fox => cfg.foxBudget
    case Other(_) => 9999
  }

  function Remaining(cfg: Config, s: State, v: Vendor, now: real): int {
    MaxI(0, Budget(cfg, s.soakStart, v, now) - Count(s.log, v, now - DAY))
  }

  predicate BreakerOpen(cfg: Config, log: seq<Call>, now: real) {
    cfg.fails > 0 &&
    var rows := LastWrites(log, cfg.fails);
    |rows| >= cfg.fails
    && (forall i :: 0 <= i < |rows| ==> !rows[i].ok)
    && rows[0].ts - rows[|rows| - 1].ts <= cfg.WindowS()
    && now - rows[0].ts < cfg.CooldownS()
  }

  predicate ShouldBlock(cfg: Config, s: State, v: Vendor, now: real) {
    Remaining(cfg, s, v, now) <= 0 || (v == Daikin && BreakerOpen(cfg, s.log, now))
  }

  function Record(cfg: Config, s: State, c: Call): State {
    State(Prune(s.log + [c], c.ts - RETENTION), SoakAfter(cfg, s.soakStart, c))
  }

  /** The soak marker: planted by the first active write, cleared by a passive one. */
  function SoakAfter(cfg: Config, soakStart: Option<real>, c: Call): Option<real> {
    if !IsDaikinWrite(c) then soakStart
    else if !cfg.active then None
    else if soakStart.None? then Some(c.ts) else soakStart
  }

  // ------------------------------------------------------ pruning is invisible

  ghost predicate Sorted(h: seq<Call>) {
    forall i, j :: 0 <= i < j < |h| ==> h[i].ts <= h[j].ts
  }

  /** `log` is `h` without what 48-hour pruning at the newest entry drops. */
  ghost predicate PrunedView(log: seq<Call>, h: seq<Call>) {
    Sorted(h) && log == if |h| == 0 then [] else Prune(h, h[|h| - 1].ts - RETENTION)
  }

  ghost predicate NotBefore(h: seq<Call>, now: real) {
    |h| == 0 || h[|h| - 1].ts <= now
  }

  lemma {:induction false} PruneKeepsCount(h: seq<Call>, cut: real, v: Vendor, cutoff: real)
    requires cut <= cutoff
    ensures Count(Prune(h, cut), v, cutoff) == Count(h, v, cutoff)
  {
    if |h| > 0 {
      var p := Prune(h[..|h| - 1], cut);
      PruneKeepsCount(h[..|h| - 1], cut, v, cutoff);
      if h[|h| - 1].ts >= cut { assert (p + [h[|h| - 1]])[..|p|] == p; }
    }
  }

  lemma {:induction false} PrunePrune(h: seq<Call>, c: Call, cut: real, cut': real)
    requires cut <= cut'
    ensures Prune(Prune(h, cut) + [c], cut') == Prune(h + [c], cut')
    decreases |h|
  {
    var p := Prune(h, cut);
    assert (p + [c])[..|p|] == p && (h + [c])[..|h|] == h;
    PruneTwice(h, cut, cut');
  }

  lemma {:induction false} PruneTwice(h: seq<Call>, cut: real, cut': real)
    requires cut <= cut'
    ensures Prune(Prune(h, cut), cut') == Prune(h, cut')
  {
    if |h| > 0 {
      var p := Prune(h[..|h| - 1], cut);
      PruneTwice(h[..|h| - 1], cut, cut');
      if h[|h| - 1].ts >= cut { assert (p + [h[|h| - 1]])[..|p|] == p; }
    }
  }

  /** Recording on the pruned log and on the full history stay in step. */
  lemma RecordKeepsView(cfg: Config, s: State, h: seq<Call>, c: Call)
    requires PrunedView(s.log, h) && NotBefore(h, c.ts)
    ensures PrunedView(Record(cfg, s, c).log, h + [c])
  {
    if |h| > 0 { PrunePrune(h, c, h[|h| - 1].ts - RETENTION, c.ts - RETENTION); }
  }

  /** The 24-hour count never notices the pruning. */
  lemma CountIgnoresPruning(log: seq<Call>, h: seq<Call>, v: Vendor, now: real)
    requires PrunedView(log, h) && NotBefore(h, now)
    ensures Count(log, v, now - DAY) == Count(h, v, now - DAY)
  {
    if |h| > 0 { PruneKeepsCount(h, h[|h| - 1].ts - RETENTION, v, now - DAY); }
  }

  /** Pruning a sorted log leaves its newest writes, cut off where it drops one. */
  lemma {:induction false} LastWritesOfPruned(h: seq<Call>, cut: real, n: nat)
    requires Sorted(h)
    ensures var full, kept := LastWrites(h, n), LastWrites(Prune(h, cut), n);
            kept <= full && (|kept| < |full| ==> full[|full| - 1].ts < cut)
    decreases |h|
  {
    if n > 0 && |h| > 0 {
      var last, rest := h[|h| - 1], h[..|h| - 1];
      if last.ts >= cut {
        LastWritesOfPruned(rest, cut, if IsDaikinWrite(last) then n - 1 else n);
        assert (Prune(rest, cut) + [last])[..|Prune(rest, cut)|] == Prune(rest, cut);
      } else {
        PruneAllOld(h, cut);
        LastWritesMembers(h, n);
        var full := LastWrites(h, n);
        assert |full| > 0 ==> full[|full| - 1] in full;
      }
    }
  }

  lemma {:induction false} PruneAllOld(h: seq<Call>, cut: real)
    requires forall i :: 0 <= i < |h| ==> h[i].ts < cut
    ensures Prune(h, cut) == []
  {
    if |h| > 0 { PruneAllOld(h[..|h| - 1], cut); }
  }

  /** The configurations whose breaker never looks back further than the log is kept. With
      one failure required the window does not matter. */
  predicate RetentionCovers(cfg: Config) {
    cfg.fails <= 0
    || (if cfg.fails == 1 then cfg.CooldownS() <= RETENTION else cfg.WindowS() + cfg.CooldownS() <= RETENTION)
  }

  /** The breaker on the pruned log refines the breaker on the full history. */
  lemma BreakerIgnoresPruning(cfg: Config, log: seq<Call>, h: seq<Call>, now: real)
    requires PrunedView(log, h) && NotBefore(h, now)
    requires RetentionCovers(cfg)
    ensures BreakerOpen(cfg, log, now) == BreakerOpen(cfg, h, now)
  {
    if cfg.fails > 0 && |h| > 0 {
      LastWritesOfPruned(h, h[|h| - 1].ts - RETENTION, cfg.fails);
      LastWritesBounded(h, cfg.fails);
    }
  }

  function Repeat(c: Call, n: nat): seq<Call> { seq(n, _ => c) }

  lemma {:induction false} LastWritesOfRepeat(pre: seq<Call>, c: Call, n: nat, m: nat)
    requires IsDaikinWrite(c)
    ensures LastWrites(pre + Repeat(c, n), n + m) == Repeat(c, n) + LastWrites(pre, m)
    decreases n
  {
    if n == 0 {
      assert pre + Repeat(c, n) == pre;
    } else {
      var log := pre + Repeat(c, n);
      assert log[..|log| - 1] == pre + Repeat(c, n - 1);
      LastWritesOfRepeat(pre, c, n - 1, m);
      assert Repeat(c, n) == [c] + Repeat(c, n - 1);
    }
  }

  /** Where the kept log is too short there is a history on which the answers differ. */
  lemma BreakerDivergesBeyondRetention(cfg: Config) returns (h: seq<Call>, now: real)
    requires !RetentionCovers(cfg)
    ensures Sorted(h) && NotBefore(h, now) && |h| > 0
    ensures BreakerOpen(cfg, h, now)
    ensures !BreakerOpen(cfg, Prune(h, h[|h| - 1].ts - RETENTION), now)
  {
    var r: real;
    now, r := DivergingTimes(cfg);
    var oldest, recent := Call(Daikin, Write, 0.0, false), Call(Daikin, Write, r, false);
    h := BurstHistory(oldest, recent, cfg.fails - 1, now);
    BurstWrites(oldest, recent, cfg.fails - 1, now);
    BurstDiverges(cfg, h, oldest, recent, now);
  }

  /** An instant at which the oldest write is no longer kept, and when the others were. */
  lemma DivergingTimes(cfg: Config) returns (now: real, recent: real)
    requires !RetentionCovers(cfg)
    ensures RETENTION < now && 0.0 <= recent <= now && recent <= cfg.WindowS() && now - recent < cfg.CooldownS()
    ensures cfg.fails == 1 ==> recent == 0.0
  {
    if cfg.fails == 1 {
      now, recent := (RETENTION + cfg.CooldownS()) / 2.0, 0.0;
    } else {
      now, recent := BurstTimes(cfg.WindowS(), cfg.CooldownS());
    }
  }

  /** Exactly when pruning is invisible to the breaker, on every history and at every
      instant. */
  lemma BreakerAgreesIff(cfg: Config)
    ensures RetentionCovers(cfg) <==> forall h: seq<Call>, now: real :: Sorted(h) && NotBefore(h, now) ==> AgreesOn(cfg, h, now)
  {
    if RetentionCovers(cfg) {
      forall h: seq<Call>, now: real | Sorted(h) && NotBefore(h, now) ensures AgreesOn(cfg, h, now) {
        if |h| > 0 { BreakerIgnoresPruning(cfg, Prune(h, h[|h| - 1].ts - RETENTION), h, now); }
      }
    } else {
      var h, now := BreakerDivergesBeyondRetention(cfg);
      assert !AgreesOn(cfg, h, now);
    }
  }

  predicate AgreesOn(cfg: Config, h: seq<Call>, now: real) {
    BreakerOpen(cfg, if |h| == 0 then [] else Prune(h, h[|h| - 1].ts - RETENTION), now) == BreakerOpen(cfg, h, now)
  }

  lemma BurstDiverges(cfg: Config, h: seq<Call>, oldest: Call, recent: Call, now: real)
    requires cfg.fails >= 1 && LastWrites(h, cfg.fails) == Repeat(recent, cfg.fails - 1) + [oldest]
    requires Sorted(h) && !oldest.ok && !recent.ok && oldest.ts < now - RETENTION
    requires 0.0 <= recent.ts - oldest.ts <= cfg.WindowS() && now - recent.ts < cfg.CooldownS()
    requires cfg.fails == 1 ==> recent.ts == oldest.ts
    ensures BreakerOpen(cfg, h, now) && !BreakerOpen(cfg, Prune(h, now - RETENTION), now)
  {
    BurstOpens(cfg, h, oldest, recent, now);
    LastWritesOfPruned(h, now - RETENTION, cfg.fails);
    PrunedBurstIsShort(h, oldest, recent, now, cfg.fails);
  }

  lemma BurstTimes(w: real, c: real) returns (now: real, recent: real)
    requires w >= 60.0 && c >= 60.0 && w + c > RETENTION
    ensures RETENTION < now < w + c && 0.0 <= recent <= now && recent <= w && now - recent < c
  {
    now := (RETENTION + w + c) / 2.0;
    recent := if w <= now then w else now;
  }

  lemma BurstOpens(cfg: Config, h: seq<Call>, oldest: Call, recent: Call, now: real)
    requires cfg.fails >= 1 && LastWrites(h, cfg.fails) == Repeat(recent, cfg.fails - 1) + [oldest]
    requires !oldest.ok && !recent.ok
    requires 0.0 <= recent.ts - oldest.ts <= cfg.WindowS() && now - recent.ts < cfg.CooldownS()
    requires cfg.fails == 1 ==> recent.ts == oldest.ts
    ensures BreakerOpen(cfg, h, now)
  {
    var rows := LastWrites(h, cfg.fails);
    assert rows[0].ts == recent.ts && rows[|rows| - 1] == oldest;
  }

  /** One old failure, a burst of recent ones, then a read at `now`. */
  function BurstHistory(oldest: Call, recent: Call, n: nat, now: real): seq<Call> {
    [oldest] + Repeat(recent, n) + [Call(Fox, Read, now, true)]
  }

  lemma BurstWrites(oldest: Call, recent: Call, n: nat, now: real)
    requires IsDaikinWrite(oldest) && IsDaikinWrite(recent)
    requires oldest.ts <= recent.ts <= now
    ensures var h := BurstHistory(oldest, recent, n, now);
            LastWrites(h, n + 1) == Repeat(recent, n) + [oldest]
            && Sorted(h) && h[|h| - 1].ts == now
  {
    var h := BurstHistory(oldest, recent, n, now);
    assert h[..|h| - 1] == [oldest] + Repeat(recent, n);
    LastWritesOfRepeat([oldest], recent, n, 1);
    assert LastWrites([oldest], 1) == [oldest];
  }

  lemma PrunedBurstIsShort(h: seq<Call>, oldest: Call, recent: Call, now: real, n: nat)
    requires n >= 1 && oldest.ts < now - RETENTION
    requires LastWrites(h, n) == Repeat(recent, n - 1) + [oldest]
    requires LastWrites(Prune(h, now - RETENTION), n) <= LastWrites(h, n)
    ensures |LastWrites(Prune(h, now - RETENTION), n)| < n
  {
    var full, kept := LastWrites(h, n), LastWrites(Prune(h, now - RETENTION), n);
    LastWritesMembers(Prune(h, now - RETENTION), n);
    PruneDropsOld(h, now - RETENTION);
    assert full[n - 1] == oldest && oldest !in kept;
  }

  lemma {:induction false} LastWritesBounded(h: seq<Call>, n: nat)
    ensures |LastWrites(h, n)| <= n
    decreases |h|
  {
    if n > 0 && |h| > 0 {
      LastWritesBounded(h[..|h| - 1], n - 1);
      LastWritesBounded(h[..|h| - 1], n);
    }
  }

  lemma {:induction false} LastWritesMembers(h: seq<Call>, n: nat)
    ensures forall c :: c in LastWrites(h, n) ==> c in h && IsDaikinWrite(c)
    decreases |h|
  {
    if n > 0 && |h| > 0 {
      LastWritesMembers(h[..|h| - 1], if IsDaikinWrite(h[|h| - 1]) then n - 1 else n);
    }
  }

  lemma {:induction false} PruneDropsOld(h: seq<Call>, cut: real)
    ensures forall c :: c in Prune(h, cut) ==> c in h && c.ts >= cut
  {
    if |h| > 0 { PruneDropsOld(h[..|h| - 1], cut); }
  }

  // ------------------------------------------------------- breaker lifecycle

  /** Left alone, a breaker that is closed stays closed, and every breaker is
      closed once the cooldown after its newest failure has passed. */
  lemma BreakerClosesByItself(cfg: Config, log: seq<Call>, now: real, later: real)
    requires now <= later
    ensures !BreakerOpen(cfg, log, now) ==> !BreakerOpen(cfg, log, later)
    ensures BreakerOpen(cfg, log, now) ==>
              !BreakerOpen(cfg, log, LastWrites(log, cfg.fails)[0].ts + cfg.CooldownS())
  {}

  /** One recorded successful write closes the breaker at once. */
  lemma SuccessClosesBreaker(cfg: Config, s: State, ts: real, now: real)
    ensures !BreakerOpen(cfg, Record(cfg, s, Call(Daikin, Write, ts, true)).log, now)
  {
    var c := Call(Daikin, Write, ts, true);
    var log := s.log + [c];
    assert log[..|s.log|] == s.log;
    var after := Prune(log, ts - RETENTION);
    assert after[|after| - 1] == c;
  }

  /** Daikin writes from position `a` on. */
  function WritesFrom(log: seq<Call>, a: nat): nat {
    if |log| <= a then 0
    else WritesFrom(log[..|log| - 1], a) + if IsDaikinWrite(log[|log| - 1]) then 1 else 0
  }

  ghost predicate NewestWrite(log: seq<Call>, b: nat) {
    b < |log| && IsDaikinWrite(log[b]) && forall i :: b < i < |log| ==> !IsDaikinWrite(log[i])
  }

  ghost predicate NoneSucceeded(log: seq<Call>, a: nat) {
    forall i :: a <= i < |log| && IsDaikinWrite(log[i]) ==> !log[i].ok
  }

  /** The last `fails` writes, from `a` to `b`, all failed, within the window, and the
      newest is not over the cooldown yet. */
  ghost predicate FailedLately(cfg: Config, log: seq<Call>, a: nat, b: nat, now: real) {
    a <= b && NewestWrite(log, b) && IsDaikinWrite(log[a]) && WritesFrom(log, a) == cfg.fails && NoneSucceeded(log, a)
    && log[b].ts - log[a].ts <= Minutes(cfg.windowMinutes) && now - log[b].ts < Minutes(cfg.cooldownMinutes)
  }

  /** That many minutes in seconds, at least one. */
  function Minutes(n: int): real { if n < 1 then 60.0 else n as real * 60.0 }

  lemma {:induction false} LastWritesAt(log: seq<Call>, n: nat, a: nat, b: nat)
    requires a <= b && NewestWrite(log, b) && IsDaikinWrite(log[a]) && WritesFrom(log, a) == n
    ensures var rows := LastWrites(log, n);
            |rows| == n > 0 && rows[0] == log[b] && rows[n - 1] == log[a]
            && ((forall i :: 0 <= i < n ==> !rows[i].ok) <==> NoneSucceeded(log, a))
    decreases |log|
  {
    var k := |log| - 1;
    var rest := log[..k];
    if !IsDaikinWrite(log[k]) {
      LastWritesAt(rest, n, a, b);
    } else if a == k {
      assert WritesFrom(rest, a) == 0;
      assert LastWrites(log, 1) == [log[k]];
    } else {
      var p := NewestBefore(rest, a);
      LastWritesAt(rest, n - 1, a, p);
      var rows, tail := LastWrites(log, n), LastWrites(rest, n - 1);
      assert forall i :: 0 <= i < |tail| ==> tail[i] == rows[1..][i];
    }
  }

  lemma {:induction false} NewestBefore(log: seq<Call>, a: nat) returns (b: nat)
    requires a < |log| && IsDaikinWrite(log[a])
    ensures a <= b && NewestWrite(log, b)
  {
    if IsDaikinWrite(log[|log| - 1]) { b := |log| - 1; } else { b := NewestBefore(log[..|log| - 1], a); }
  }

  lemma {:induction false} LastWritesStart(log: seq<Call>, n: nat) returns (a: nat)
    requires n > 0 && |LastWrites(log, n)| == n
    ensures a < |log| && IsDaikinWrite(log[a]) && WritesFrom(log, a) == n
    decreases |log|
  {
    var k := |log| - 1;
    if IsDaikinWrite(log[k]) && n == 1 {
      a := k;
      assert WritesFrom(log[..k], a) == 0;
    } else {
      a := LastWritesStart(log[..k], if IsDaikinWrite(log[k]) then n - 1 else n);
    }
  }

  /** The breaker is open exactly when the last writes it asks about all failed, close
      together and lately: one success among them keeps it closed. */
  lemma BreakerIff(cfg: Config, log: seq<Call>, now: real)
    ensures BreakerOpen(cfg, log, now) <==> cfg.fails > 0 && exists a, b :: FailedLately(cfg, log, a, b, now)
  {
    if cfg.fails > 0 {
      LastWritesBounded(log, cfg.fails);
      if |LastWrites(log, cfg.fails)| == cfg.fails {
        var a := LastWritesStart(log, cfg.fails);
        var b := NewestBefore(log, a);
        LastWritesAt(log, cfg.fails, a, b);
        if BreakerOpen(cfg, log, now) { assert FailedLately(cfg, log, a, b, now); }
      }
      if a, b :| FailedLately(cfg, log, a, b, now) { LastWritesAt(log, cfg.fails, a, b); }
    }
  }

  /** A call is blocked exactly when the calls of the last 24 hours of the whole history
      have used up the budget in force, or it is for the heat pump and its breaker is open. */
  lemma BlocksIff(cfg: Config, s: State, h: seq<Call>, v: Vendor, now: real)
    requires PrunedView(s.log, h) && NotBefore(h, now)
    ensures ShouldBlock(cfg, s, v, now)
            <==> Count(h, v, now - DAY) >= Budget(cfg, s.soakStart, v, now)
                 || (v == Daikin && cfg.fails > 0 && exists a, b :: FailedLately(cfg, s.log, a, b, now))
  {
    CountIgnoresPruning(s.log, h, v, now);
    BreakerIff(cfg, s.log, now);
    hide BreakerOpen, FailedLately, Budget, PrunedView, NotBefore;
  }

  /** The soak only ever lowers the heat pump's budget, and exactly while it lasts: with
      active control, a smaller soak budget, and less than the soak's days since its
      marker. */
  lemma SoakLowersIff(cfg: Config, soakStart: Option<real>, now: real)
    ensures var b := Budget(cfg, soakStart, Daikin, now);
            b <= cfg.daikinBudget
            && (b < cfg.daikinBudget <==>
                cfg.active && 0 < cfg.soakBudget < cfg.daikinBudget && cfg.soakDays > 0 && soakStart.Some?
                && now < soakStart.value + cfg.soakDays as real * DAY)
            && (b < cfg.daikinBudget ==> b == cfg.soakBudget)
  {
    assert (cfg.soakDays * 86400) as real == cfg.soakDays as real * DAY;
  }

  // -------------------------------------------------------- quota over runs

  /** One outgoing call: asked at `checkedAt`, recorded at `call.ts`, under the
      configuration in force then. */
  datatype Attempt = Attempt(cfg: Config, checkedAt: real, call: Call)

  function HistoryOf(run: seq<Attempt>): seq<Call> {
    seq(|run|, i requires 0 <= i < |run| => run[i].call)
  }

  function After(run: seq<Attempt>): State {
    if |run| == 0 then State([], None)
    else Record(run[|run| - 1].cfg, After(run[..|run| - 1]), run[|run| - 1].call)
  }

  ghost predicate MonotoneClock(run: seq<Attempt>) {
    forall i :: 0 <= i < |run| ==>
      run[i].checkedAt <= run[i].call.ts && (i > 0 ==> run[i - 1].call.ts <= run[i].checkedAt)
  }

  /** Every call of `v` was made only after `should_block` said no, while at most
      `bound` calls a day were allowed. Calls of other vendors are unconstrained. */
  ghost predicate Asks(run: seq<Attempt>, v: Vendor, bound: nat) {
    forall i :: 0 <= i < |run| && run[i].call.vendor == v ==>
      var s := After(run[..i]);
      !ShouldBlock(run[i].cfg, s, v, run[i].checkedAt)
      && Budget(run[i].cfg, s.soakStart, v, run[i].checkedAt) <= bound
  }

  lemma {:induction false} RunKeepsView(run: seq<Attempt>)
    requires MonotoneClock(run)
    ensures PrunedView(After(run).log, HistoryOf(run))
  {
    if |run| > 0 {
      var pre, a := run[..|run| - 1], run[|run| - 1];
      RunKeepsView(pre);
      assert HistoryOf(run) == HistoryOf(pre) + [a.call];
      RecordKeepsView(a.cfg, After(pre), HistoryOf(pre), a.call);
    }
  }

  lemma {:induction false} WindowWithinCount(h: seq<Call>, v: Vendor, a: real, b: real, cutoff: real)
    requires cutoff <= a
    ensures CountIn(h, v, a, b) <= Count(h, v, cutoff)
  {
    if |h| > 0 { WindowWithinCount(h[..|h| - 1], v, a, b, cutoff); }
  }

  /** What the hypotheses say about the run without its last call, and about that call. */
  lemma LastAsked(run: seq<Attempt>, v: Vendor, bound: nat)
    requires |run| > 0 && MonotoneClock(run) && Asks(run, v, bound)
    ensures var pre, last := run[..|run| - 1], run[|run| - 1];
            MonotoneClock(pre) && Asks(pre, v, bound) && HistoryOf(run) == HistoryOf(pre) + [last.call]
            && last.checkedAt <= last.call.ts && NotBefore(HistoryOf(pre), last.checkedAt)
            && (last.call.vendor == v ==>
                  !ShouldBlock(last.cfg, After(pre), v, last.checkedAt)
                  && Budget(last.cfg, After(pre).soakStart, v, last.checkedAt) <= bound)
  {
    var pre := run[..|run| - 1];
    hide ShouldBlock, Budget, After;
    assert forall i :: 0 <= i < |pre| ==> pre[i] == run[i] && pre[..i] == run[..i];
  }

  /** Quota safety: no 24-hour window anywhere in the full, unpruned history holds
      more calls of `v` than the largest budget that was in force. */
  lemma {:induction false} QuotaIsSafe(run: seq<Attempt>, v: Vendor, bound: nat, a: real)
    requires MonotoneClock(run) && Asks(run, v, bound)
    ensures CountIn(HistoryOf(run), v, a, a + DAY) <= bound
  {
    if |run| > 0 {
      var pre, last := run[..|run| - 1], run[|run| - 1];
      LastAsked(run, v, bound);
      hide Asks, MonotoneClock, After, HistoryOf, CountIn, PrunedView, ShouldBlock;
      QuotaIsSafe(pre, v, bound, a);
      RunKeepsView(pre);
      CallStaysInBudget(After(pre), HistoryOf(pre), last, v, bound, a);
    } else {
      assert HistoryOf(run) == [];
    }
  }

  lemma CallStaysInBudget(s: State, h: seq<Call>, at: Attempt, v: Vendor, bound: nat, a: real)
    requires PrunedView(s.log, h) && NotBefore(h, at.checkedAt) && at.checkedAt <= at.call.ts
    requires at.call.vendor == v ==> !ShouldBlock(at.cfg, s, v, at.checkedAt)
                                     && Budget(at.cfg, s.soakStart, v, at.checkedAt) <= bound
    requires CountIn(h, v, a, a + DAY) <= bound
    ensures CountIn(h + [at.call], v, a, a + DAY) <= bound
  {
    assert (h + [at.call])[..|h|] == h;
    if at.call.vendor == v && a <= at.call.ts <= a + DAY {
      CountIgnoresPruning(s.log, h, v, at.checkedAt);
      WindowWithinCount(h, v, a, a + DAY, at.checkedAt - DAY);
    }
  }

  // -------------------------------------------------------------- soak marker

  /** The marker is planted by a real active write, nothing passive came after it,
      and no active write precedes it since the last passive one. */
  lemma {:induction false} SoakMarkerMeaning(run: seq<Attempt>)
    ensures After(run).soakStart.Some? <==>
            exists i :: 0 <= i < |run| && ActiveWrite(run[i]) && NoPassiveFrom(run, i)
    ensures After(run).soakStart.Some? ==>
            exists i :: 0 <= i < |run| && ActiveWrite(run[i]) && NoPassiveFrom(run, i)
              && run[i].call.ts == After(run).soakStart.value
              && forall j :: 0 <= j < i && ActiveWrite(run[j]) ==> !NoPassiveFrom(run, j)
  {
    if |run| > 0 {
      var n := |run| - 1;
      var pre, last := run[..n], run[n];
      SoakMarkerMeaning(pre);
      assert forall i :: 0 <= i < n ==> pre[i] == run[i];
      assert forall i :: 0 <= i < n ==> (NoPassiveFrom(run, i) <==> NoPassiveFrom(pre, i) && !PassiveWrite(last));
      if ActiveWrite(last) {
        assert NoPassiveFrom(run, n);
        if After(pre).soakStart.None? {
          assert forall j :: 0 <= j < n && ActiveWrite(run[j]) ==> !NoPassiveFrom(pre, j);
        }
      }
    }
  }

  predicate ActiveWrite(a: Attempt) { IsDaikinWrite(a.call) && a.cfg.active }
  predicate PassiveWrite(a: Attempt) { IsDaikinWrite(a.call) && !a.cfg.active }

  ghost predicate NoPassiveFrom(run: seq<Attempt>, i: int) {
    forall j :: 0 <= i <= j < |run| ==> !PassiveWrite(run[j])
  }

  // ------------------------------------------------------------ the call table

  lemma SoakIgnoresOutcome(cfg: Config, soakStart: Option<real>, c: Call)
    ensures SoakAfter(cfg, soakStart, c.(ok := true)) == SoakAfter(cfg, soakStart, c)
  {}

  class CallLog {
    var log: seq<Call>
    var soakStart: Option<real>
    ghost var history: seq<Call>  // every call ever recorded, never pruned

    ghost predicate Valid()
      reads this
    {
      PrunedView(log, history)
    }

    function Value(): State
      reads this
    {
      State(log, soakStart)
    }

    constructor ()
      ensures Valid() && history == [] && Value() == State([], None)
    {
      log, soakStart, history := [], None, [];
    }

    method RecordCall(cfg: Config, v: Vendor, kind: Kind, ok: bool, now: real)
      requires Valid() && NotBefore(history, now)
      modifies this
      ensures Valid()
      ensures history == old(history) + [Call(v, kind, now, ok)]
      ensures Value() == Record(cfg, old(Value()), Call(v, kind, now, ok))
    {
      hide PrunedView, Prune, SoakAfter, NotBefore;
      var c := Call(v, kind, now, ok);
      ghost var before, h := Value(), history;
      RecordKeepsView(cfg, before, h, c);
      SoakIgnoresOutcome(cfg, before.soakStart, c);
      log := log + [c];
      history := history + [c];
      DeleteOlderThan(now - RETENTION);
      assert PrunedView(log, h + [c]);
      MaintainSoakMarker(cfg, v, kind, now);
    }

    method MaintainSoakMarker(cfg: Config, v: Vendor, kind: Kind, now: real)
      modifies this`soakStart
      ensures soakStart == SoakAfter(cfg, old(soakStart), Call(v, kind, now, true))
    {
      if v == Daikin && kind == Write {
        if cfg.active {
          if soakStart.None? { soakStart := Some(now); }
        } else {
          if soakStart.Some? { soakStart := None; }
        }
      }
    }

    method DeleteOlderThan(cutoff: real)
      modifies this`log
      ensures log == Prune(old(log), cutoff)
    {
      var kept := [];
      var i := 0;
      while i < |log|
        invariant 0 <= i <= |log| && log == old(log)
        invariant kept == Prune(log[..i], cutoff)
      {
        assert log[..i + 1][..i] == log[..i];
        if log[i].ts >= cutoff { kept := kept + [log[i]]; }
        i := i + 1;
      }
      assert log[..i] == log;
      log := kept;
    }

    /** The stored rows are pruned; the answer is about the whole history. */
    method CountCalls24h(v: Vendor, now: real) returns (n: nat)
      requires Valid() && NotBefore(history, now)
      ensures n == Count(history, v, now - DAY) == Count(log, v, now - DAY)
    {
      n := 0;
      var i := 0;
      while i < |log|
        invariant 0 <= i <= |log|
        invariant n == Count(log[..i], v, now - DAY)
      {
        assert log[..i + 1][..i] == log[..i];
        if log[i].vendor == v && log[i].ts >= now - DAY { n := n + 1; }
        i := i + 1;
      }
      assert log[..i] == log;
      CountIgnoresPruning(log, history, v, now);
    }

    method NewestWrites(n: nat) returns (rows: seq<Call>)
      ensures rows == LastWrites(log, n)
    {
      rows := [];
      var i := |log|;
      assert log[..i] == log;
      while i > 0 && |rows| < n
        invariant 0 <= i <= |log| && |rows| <= n
        invariant LastWrites(log, n) == rows + LastWrites(log[..i], n - |rows|)
      {
        assert log[..i][..i - 1] == log[..i - 1];
        if IsDaikinWrite(log[i - 1]) { rows := rows + [log[i - 1]]; }
        i := i - 1;
      }
    }

    method DaikinCircuitOpen(cfg: Config, now: real) returns (open: bool)
      requires Valid() && NotBefore(history, now)
      ensures open == BreakerOpen(cfg, log, now)
      ensures RetentionCovers(cfg) ==> open == BreakerOpen(cfg, history, now)
    {
      if RetentionCovers(cfg) {
        BreakerIgnoresPruning(cfg, log, history, now);
      }
      if cfg.fails <= 0 { return false; }
      var rows := NewestWrites(cfg.fails);
      if |rows| < cfg.fails { return false; }
      var i := 0;
      while i < |rows|
        invariant 0 <= i <= |rows|
        invariant forall j :: 0 <= j < i ==> !rows[j].ok
      {
        if rows[i].ok { return false; }
        i := i + 1;
      }
      if rows[0].ts - rows[|rows| - 1].ts > cfg.WindowS() { return false; }
      return now - rows[0].ts < cfg.CooldownS();
    }

    method BlocksCalls(cfg: Config, v: Vendor, now: real) returns (blocked: bool)
      requires Valid() && NotBefore(history, now)
      ensures blocked == ShouldBlock(cfg, Value(), v, now)
    {
      var used := CountCalls24h(v, now);
      if MaxI(0, Budget(cfg, soakStart, v, now) - used) <= 0 { return true; }
      if v == Daikin {
        var open := DaikinCircuitOpen(cfg, now);
        return open;
      }
      return false;
    }
  }
}
