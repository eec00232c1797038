/** What the owner's hook does under the lock (src/auto_tune.py:495-530): alone it is the
    sequential write or delete, and on every trace it closes what was running on the key. */
module LockHook {
  import opened Common
  import opened Ledger
  import opened AutoTune
  import AutoTuneRuns
  import opened AutoTuneBase
  import opened AutoTuneSingle
  import opened LockProtocol

  // ------------------------------------------ alone, the owner is the sequential verb

  /** `n` steps of the owner with nobody else moving. */
  function OwnerSolo(c: Setup, w: World, n: nat): World
    decreases n
  {
    if n == 0 then w else OwnerSolo(c, AdvanceOwner(c, w), n - 1)
  }

  /** The owner's action as one sequential call. */
  function OwnerCall(c: Setup, env: Env, s: State, now: int): State {
    if c.deletes then AutoTuneRuns.Clear(c.reg, env, s, c.key, c.value, "owner", now)
    else AutoTuneRuns.Write(c.reg, env, s, c.key, c.value, Owner("owner"), now)
  }

  /** What the hook reads from the environment agrees with the owner's action. */
  predicate Hooked(c: Setup, env: Env, s: State) {
    env.manualFreezeDays == c.days && (c.key in env.allow || Newest(s.rows, OfKey(c.key)).Some?)
  }

  lemma {:induction false} OwnerSoloStops(c: Setup, w: World, n: nat)
    requires AdvanceOwner(c, w) == w
    ensures OwnerSolo(c, w, n) == w
    decreases n
  {
    if n > 0 { OwnerSoloStops(c, w, n - 1); }
  }

  lemma {:induction false} OwnerSoloOn(c: Setup, w: World, m: nat, n: nat)
    ensures OwnerSolo(c, w, m + n) == OwnerSolo(c, OwnerSolo(c, w, m), n)
    decreases m
  {
    if m > 0 { OwnerSoloOn(c, AdvanceOwner(c, w), m - 1, n); }
  }

  lemma OwnerSoloTwo(c: Setup, w: World)
    ensures OwnerSolo(c, w, 2) == AdvanceOwner(c, AdvanceOwner(c, w))
  {
    hide AdvanceOwner;
    assert OwnerSolo(c, AdvanceOwner(c, w), 1) == OwnerSolo(c, AdvanceOwner(c, AdvanceOwner(c, w)), 0);
  }

  /** The hook takes the lock and puts the owner's value back if it was overtaken. */
  lemma SoloRestore(c: Setup, w: World, prev: Value, after: Value)
    requires c.key in c.reg.schema && c.key in w.s.settings && w.lock == Nobody && w.owner == WroteValue(prev, after)
    requires !Same(c.reg.schema[c.key], prev, after)
    ensures var done := OwnerSolo(c, w, 2);
            done.owner.HookRestored? && done.owner.prev == prev && done.owner.after == after && done.lock == OwnerHolds
            && done.s == RestoreOwner(c.reg, w.s, c.key, after) && done.threads == w.threads && done.clock == w.clock
  {
    hide Accepts, Validate, Same, SupersedeNewest;
    OwnerSoloTwo(c, w);
  }

  /** Then it records the value, closes what was running, and frees the lock. */
  lemma SoloRecord(c: Setup, env: Env, w: World)
    requires c.days > 0 && env.manualFreezeDays == c.days && w.owner.HookRestored?
    ensures var done := OwnerSolo(c, w, 2);
            done.owner.HookDone? && done.lock == Nobody && done.threads == w.threads && done.clock == w.clock
            && done.s == RecordManual(c.reg, env, w.s, c.key, w.owner.prev, w.owner.after, "owner", w.clock)
  {
    hide Accepts, Validate, Same, SupersedeNewest;
    OwnerSoloTwo(c, w);
  }

  /** From the write on, whatever value is in force by then: the hook enters, puts the
      owner's value back if it was overtaken, records it and closes what was running,
      unless the owner's value was no change. */
  lemma SoloHook(c: Setup, env: Env, w: World, prev: Value, after: Value, n: nat)
    requires GoodSetup(c) && w.lock == Nobody && w.owner == WroteValue(prev, after) && n >= 4
    requires c.key in w.s.settings && Hooked(c, env, w.s)
    ensures var done := OwnerSolo(c, w, n);
            done.lock == Nobody && done.threads == w.threads && done.clock == w.clock
            && done.s == Hook(c.reg, env, w.s, c.key, prev, after, Owner("owner"), w.clock)
            && (if Same(c.reg.schema[c.key], prev, after) then done.owner.HookSkipped? else done.owner.HookDone?)
  {
    hide Same, Newest, RestoreOwner, RecordManual, OwnerSolo, IsDefault;
    if Same(c.reg.schema[c.key], prev, after) {
      OwnerSoloOn(c, w, 1, n - 1);
      SoloSkips(c, w);
      OwnerSoloStops(c, OwnerSolo(c, w, 1), n - 1);
    } else {
      SoloRestore(c, w, prev, after);
      var w2 := OwnerSolo(c, w, 2);
      SoloRecord(c, env, w2);
      OwnerSoloOn(c, w, 2, 2);
      OwnerSoloOn(c, w, 4, n - 4);
      OwnerSoloStops(c, OwnerSolo(c, w, 4), n - 4);
    }
  }

  lemma SoloSkips(c: Setup, w: World)
    requires w.owner.WroteValue? && c.key in c.reg.schema && Same(c.reg.schema[c.key], w.owner.prev, w.owner.after)
    ensures OwnerSolo(c, w, 1) == w.(owner := HookSkipped)
  {
    hide Same;
    assert OwnerSolo(c, AdvanceOwner(c, w), 0) == AdvanceOwner(c, w);
  }

  /** The owner's steps with nobody else moving are set_setting, or delete_setting, with
      its hook: the same settings, the same rows, the lock free again. */
  lemma SoloOwnerIsHook(c: Setup, env: Env, w: World)
    requires GoodSetup(c) && w.lock == Nobody && w.owner == Idle && c.key in w.s.settings && Hooked(c, env, w.s)
    ensures var done := OwnerSolo(c, w, 7);
            done.lock == Nobody && done.threads == w.threads && done.clock == w.clock
            && done.s == OwnerCall(c, env, w.s, w.clock)
            && (done.owner.HookDone? <==> (c.deletes || Accepts(c.reg, w.s.settings, c.key, c.value))
                                          && !Same(c.reg.schema[c.key], w.s.settings[c.key], c.value))
  {
    hide CrossCheck, Hook, Same, Newest;
    var prev := w.s.settings[c.key];
    var w1 := AdvanceOwner(c, w);
    var w2 := AdvanceOwner(c, w1);
    assert OwnerSolo(c, w, 7) == OwnerSolo(c, w1, 6) == OwnerSolo(c, w2, 5);
    if c.deletes {
      var w3 := AdvanceOwner(c, w2);
      assert OwnerSolo(c, w2, 5) == OwnerSolo(c, w3, 4);
      SoloHook(c, env, w3, prev, c.value, 4);
    } else if Accepts(c.reg, w.s.settings, c.key, c.value) {
      SoloHook(c, env, w2, prev, c.value, 5);
    } else {
      OwnerSoloStops(c, w1, 6);
    }
  }

  /** A thread that keeps a change, with nobody else moving, is the sequential verb. */
  lemma SoloKeepIsKeep(c: Setup, w: World, tid: nat, env: Env, ev: Evidence, id: nat)
    requires tid !in w.threads && ById(w.s.rows, id).Some?
    ensures var w1 := Act(c, w, StartKeep(tid, id));
            if ById(w.s.rows, id).value.status == Evaluating
            then var done := Act(c, w1, Advance(tid, env, ev));
                 tid in done.threads && done.threads[tid].Finished? && done.lock == w.lock
                 && done.s == Keep(w.s, id, ev).0 && Keep(w.s, id, ev).1
            else w1 == w && !Keep(w.s, id, ev).1
  {
    AutoTuneRuns.ByIdFound(w.s.rows, id);
    hide ById, Relabel;
  }

  /** A proposal re-reads the value before it writes: nothing is written in that step, and
      if the value is another one by then the proposal is over and the lock free. */
  lemma OvertakenProposalStops(c: Setup, w: World, tid: nat, env: Env, ev: Evidence)
    requires tid in w.threads && w.threads[tid].Checked?
    ensures var pc, w' := w.threads[tid], Act(c, w, Advance(tid, env, ev));
            w'.s == w.s
            && (pc.p.key in c.reg.schema && pc.p.key in w.s.settings
                && Same(c.reg.schema[pc.p.key], w.s.settings[pc.p.key], pc.cur)
                <==> tid in w'.threads && w'.threads[tid] == Confirmed(pc.p, pc.t, pc.cur))
            && (w'.threads[tid] != Confirmed(pc.p, pc.t, pc.cur) ==> w'.threads[tid].Finished? && w'.lock == Nobody)
  {}

  /** A rollback that does not get as far as asking for the lock is one the sequential
      verb refuses; any other goes on with the ledger's row. */
  lemma RollbackStartsOrRefused(c: Setup, env: Env, w: World, tid: nat, id: nat, ev: Evidence, t: int)
    requires tid !in w.threads && t <= w.clock
    ensures var w1, row := Act(c, w, StartRollback(tid, id, t)), ById(w.s.rows, id);
            if row.Some? && row.value.status in {Evaluating, Kept} && row.value.oldValue.Some?
               && row.value.key in c.reg.schema
            then w1 == w.(threads := w.threads[tid := RollbackSeen(row.value, t)])
            else w1 == w && Rollback(c.reg, env, w.s, id, ev, t).0 == w.s
                 && !Rollback(c.reg, env, w.s, id, ev, t).1.Restored?
  {
    hide ById, Accepts, Validate, Same, Newest;
  }

  // --------------------------------------------------- on every trace, what it closes

  /** A row that was running on the key is closed in favour of the owner's row. */
  predicate ClosedBy(a: Row, b: Row, mid: nat) {
    b == a.(status := Superseded, evidence := b.evidence) && b.evidence.manualId == Some(mid)
  }

  predicate RunsOn(r: Row, key: Key) { r.key == key && r.status == Evaluating }

  /** `b` is `a` with every row running on the key closed and all others left alone. */
  ghost predicate ClosesAll(a: seq<Row>, b: seq<Row>, key: Key, mid: nat) {
    |a| == |b| && forall i :: 0 <= i < |a| ==> if RunsOn(a[i], key) then ClosedBy(a[i], b[i], mid) else b[i] == a[i]
  }

  ghost predicate NoneRuns(rows: seq<Row>, key: Key) {
    forall i :: 0 <= i < |rows| ==> !RunsOn(rows[i], key)
  }

  /** At most one row is evaluating, so none follows it. */
  lemma {:induction false} OneIsNewest(rows: seq<Row>, key: Key, i: nat, from: nat)
    requires EvaluatingCount(rows) <= 1 && i < from && i < |rows| && RunsOn(rows[i], key)
    ensures CountFrom(rows, EvaluatingOf(key), from) == 0
    decreases |rows| - from
  {
    if from < |rows| {
      OneIsNewest(rows, key, i, from + 1);
      AtMostOne(rows, i, from);
    }
  }

  lemma {:induction false} AtMostOne(rows: seq<Row>, i: nat, j: nat)
    requires EvaluatingCount(rows) <= 1 && i < j < |rows| && rows[i].status == Evaluating
    ensures rows[j].status != Evaluating
  {
    var rest := rows[..|rows| - 1];
    if j < |rows| - 1 { AtMostOne(rest, i, j); } else { SomeEvaluating(rest, i); }
  }

  lemma {:induction false} SomeEvaluating(rows: seq<Row>, i: nat)
    requires i < |rows| && rows[i].status == Evaluating
    ensures EvaluatingCount(rows) >= 1
  {
    if i < |rows| - 1 { SomeEvaluating(rows[..|rows| - 1], i); }
  }

  lemma SupersedeClosesAll(rows: seq<Row>, key: Key, mid: nat)
    requires EvaluatingCount(rows) <= 1
    ensures ClosesAll(rows, SupersedeNewest(rows, key, SUPERSEDE_LIMIT, mid), key, mid)
  {
    var after := SupersedeNewest(rows, key, SUPERSEDE_LIMIT, mid);
    forall i | 0 <= i < |rows|
      ensures if RunsOn(rows[i], key) then ClosedBy(rows[i], after[i], mid) else after[i] == rows[i]
    {
      if RunsOn(rows[i], key) { OneIsNewest(rows, key, i, i + 1); }
    }
  }

  /** The owner's freeze is in force and nothing runs on the key. */
  ghost predicate QuietKey(c: Setup, w: World) {
    w.owner.HookDone? && w.clock < w.owner.until ==> NoneRuns(w.s.rows, c.key)
  }

  /** No thread starts a row running on a key it may not write. */
  lemma ThreadKeepsQuiet(c: Setup, w: World, tid: nat, env: Env, ev: Evidence)
    requires tid in w.threads && !MayWrite(w.threads[tid], c.key) && NoneRuns(w.s.rows, c.key)
    ensures NoneRuns(AdvanceThread(c, w, tid, w.threads[tid], env, ev).s.rows, c.key)
  {
    hide CheckKey, Accepts, Validate, Same, Canonical, Busy, Newest, ById;
    var pc := w.threads[tid];
    var w' := AdvanceThread(c, w, tid, pc, env, ev);
    forall i | 0 <= i < |w'.s.rows| ensures !RunsOn(w'.s.rows[i], c.key) {
      if i < |w.s.rows| { assert !RunsOn(w.s.rows[i], c.key); }
    }
  }

  lemma OwnerKeepsQuiet(c: Setup, w: World)
    requires Inv(c, w) && QuietKey(c, w)
    ensures QuietKey(c, AdvanceOwner(c, w))
  {
    if w.owner.HookInserted? { SupersedeClosesAll(w.s.rows, c.key, w.owner.mid); }
    hide Inv, EvaluatingCount, SupersedeNewest, Accepts, Validate, Same;
  }

  lemma ActKeepsQuiet(c: Setup, w: World, a: Action)
    requires Inv(c, w) && QuietKey(c, w)
    ensures QuietKey(c, Act(c, w, a))
  {
    OwnerOnlyByOwner(c, w, a);
    match a {
      case Advance(tid, env, ev) =>
        if tid in w.threads && w.owner.HookDone? && w.clock < w.owner.until {
          ClockByTick(c, w, a);
          assert !MayWrite(w.threads[tid], c.key);
          hide Inv, AdvanceThread, NoneRuns;
          ThreadKeepsQuiet(c, w, tid, env, ev);
        } else {
          ClockByTick(c, w, a);
        }
      case OwnerAdvances => OwnerKeepsQuiet(c, w);
      case _ =>
    }
  }

  lemma ClockByTick(c: Setup, w: World, a: Action)
    ensures !a.Tick? ==> Act(c, w, a).clock == w.clock
    ensures Act(c, w, a).clock >= w.clock
  {
    hide CheckKey, Accepts, Validate, Same, Canonical, Busy, Newest, ById, SupersedeNewest, Relabel;
  }

  lemma {:induction false} RunKeepsQuiet(c: Setup, s: State, clock: int, trace: seq<Action>)
    requires GoodStart(c, s)
    ensures QuietKey(c, Run(c, Begin(s, clock), trace))
  {
    if |trace| > 0 {
      var rest := trace[..|trace| - 1];
      RunKeepsInv(c, s, clock, rest);
      RunKeepsQuiet(c, s, clock, rest);
      ActKeepsQuiet(c, Run(c, Begin(s, clock), rest), trace[|trace| - 1]);
    }
  }

  /** On every trace: the step that completes the hook closes each row running on the key
      in favour of the owner's row, leaves all others and every setting alone, and frees
      the lock; from then on nothing runs on the key until the freeze runs out. */
  lemma HookLeavesNoneRunning(c: Setup, s: State, clock: int, trace: seq<Action>)
    requires GoodStart(c, s)
    ensures var w := Run(c, Begin(s, clock), trace);
            var w' := Act(c, w, OwnerAdvances);
            (w.owner.HookInserted? ==>
               w'.owner.HookDone? && w'.lock == Nobody && w'.s.settings == w.s.settings && w'.threads == w.threads
               && w'.s.nextId == w.s.nextId && ClosesAll(w.s.rows, w'.s.rows, c.key, w.owner.mid))
            && (w.owner.HookDone? && w.clock < w.owner.until ==> NoneRuns(w.s.rows, c.key))
  {
    RunKeepsInv(c, s, clock, trace);
    RunKeepsQuiet(c, s, clock, trace);
    var w := Run(c, Begin(s, clock), trace);
    if w.owner.HookInserted? { SupersedeClosesAll(w.s.rows, c.key, w.owner.mid); }
    hide Run, Inv, EvaluatingCount, SupersedeNewest, Accepts, Validate, Same;
  }

  /** The rows running on the key from index `from` on. */
  ghost function Newer(rows: seq<Row>, key: Key, from: nat): set<int> {
    set j | from <= j < |rows| && RunsOn(rows[j], key)
  }

  /** With any number of rows running, from any world: exactly the newest twenty of the
      key are closed. */
  lemma HookClosesNewestTwenty(c: Setup, w: World, i: nat)
    requires w.owner.HookInserted? && i < |w.s.rows|
    ensures var w' := Act(c, w, OwnerAdvances);
            |w'.s.rows| == |w.s.rows|
            && if RunsOn(w.s.rows[i], c.key) && |Newer(w.s.rows, c.key, i + 1)| < 20
               then ClosedBy(w.s.rows[i], w'.s.rows[i], w.owner.mid) else w'.s.rows[i] == w.s.rows[i]
  {
    CountsNewer(w.s.rows, c.key, i + 1);
    hide Newer, Accepts, Validate, Same;
  }

  lemma NewerStep(rows: seq<Row>, key: Key, from: nat)
    requires from < |rows|
    ensures Newer(rows, key, from) == (if RunsOn(rows[from], key) then {from} else {}) + Newer(rows, key, from + 1)
    ensures from !in Newer(rows, key, from + 1)
  {}

  lemma {:induction false} CountsNewer(rows: seq<Row>, key: Key, from: nat)
    ensures CountFrom(rows, EvaluatingOf(key), from) == |Newer(rows, key, from)|
    decreases |rows| - from
  {
    if from < |rows| {
      CountsNewer(rows, key, from + 1);
      NewerStep(rows, key, from);
      hide Newer;
    } else {
      assert Newer(rows, key, from) == {};
    }
  }
}
