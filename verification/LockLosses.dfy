/** Concrete interleavings: the comfort keys can lose the owner's value, and a skipped hook
    leaves a key open (src/auto_tune.py:415-478, 495-530, 571-607). */
module LockLosses {
  import opened Common
  import opened Ledger
  import opened AutoTune
  import AutoTuneRuns
  import opened AutoTuneBase
  import opened AutoTuneSingle
  import opened LockProtocol
  import opened LockOwner

  function Steps(c: Setup, w: World, a: Action, b: Action, d: Action): World { Act(c, Act(c, Act(c, w, a), b), d) }

  lemma RunThree(c: Setup, w: World, a: Action, b: Action, d: Action)
    ensures Run(c, w, [a, b, d]) == Steps(c, w, a, b, d)
  {
    assert [a, b, d][..2] == [a, b] && [a, b][..1] == [a] && [a][..0] == [];
    assert Run(c, w, [a]) == Act(c, w, a);
    assert Run(c, w, [a, b]) == Act(c, Run(c, w, [a]), b);
  }

  // ------------------------------------------------------- losing a comfort value

  /** A proposal that is past its re-read when the owner writes, and a kept change of the
      counterpart that is rolled back right after it lands. `start` is where the key was. */
  datatype Race = Race(c: Setup, env: Env, p: Proposal, row: Row, start: Value)

  function Settings(r: Race): map<Key, Value> { map[r.c.key := r.start, r.row.key := r.row.newValue] }

  function Far(r: Race): Value { Canonical(r.c, r.p) }

  /** The proposal is sound, the row can be rolled back, and each write is accepted where
      it comes; only the owner's value is refused once both have landed. */
  ghost predicate Collides(r: Race) {
    var reg, key, other := r.c.reg, r.c.key, r.row.key;
    GoodSetup(r.c) && !r.c.deletes && CheckStatic(reg, r.env, r.p).None? && r.p.key == key && key !in r.env.pinned && r.env.insertOk
    && other != key && other in reg.schema && r.row.status == Kept && r.row.oldValue.Some? && r.row.id == 0
    && Validate(reg.schema[key], r.start) == Some(r.start) && Far(r) != r.start
    && Validate(reg.schema[other], r.row.oldValue.value) == r.row.oldValue
    && CheckKey(reg, r.env, [r.row], key, r.start, Far(r), 0).None?
    && !Same(reg.schema[key], r.start, r.c.value) && !Same(reg.schema[key], Far(r), r.c.value)
    && Accepts(reg, Settings(r), key, r.c.value)
    && Accepts(reg, Settings(r)[key := r.c.value], key, Far(r))
    && Accepts(reg, Settings(r)[key := Far(r)], other, r.row.oldValue.value)
    && !Accepts(reg, Overtaken(r), key, r.c.value)
  }

  function Overtaken(r: Race): map<Key, Value>
    requires r.row.oldValue.Some?
  {
    Settings(r)[r.c.key := Far(r)][r.row.key := r.row.oldValue.value]
  }

  function Go0(r: Race): Action { Advance(0, r.env, NO_EVIDENCE) }
  function Go1(r: Race): Action { Advance(1, r.env, NO_EVIDENCE) }

  function Quiet(r: Race): World { Begin(State(Settings(r), [r.row], 1), 0) }

  function Landed(r: Race): State {
    State(Settings(r)[r.c.key := Far(r)], [r.row, NewRow(r.c.reg, 1, r.p, r.start, Far(r), 0)], 2)
  }

  /** Six steps in, the proposal has found the value unchanged since it read it. */
  lemma ReachConfirmed(r: Race)
    requires Collides(r)
    ensures Steps(r.c, Steps(r.c, Quiet(r), StartProposal(0, r.env, r.p, 0), Go0(r), Go0(r)), Go0(r), Go0(r), Go0(r))
            == Quiet(r).(lock := ThreadHolds(0), threads := map[0 := Confirmed(r.p, 0, r.start)])
  {
    var c, w := r.c, Quiet(r);
    hide CheckKey, Accepts, CheckStatic, Validate;
    var w1 := w.(threads := map[0 := Waiting(r.p, 0)]);
    assert Act(c, w, StartProposal(0, r.env, r.p, 0)) == w1;
    var w2 := w.(lock := ThreadHolds(0), threads := map[0 := Entered(r.p, 0)]);
    assert Act(c, w1, Go0(r)) == w2;
    var w3 := w2.(threads := map[0 := HasRead(r.p, 0, r.start)]);
    assert Act(c, w2, Go0(r)) == w3;
    NotBusyMeansNone([r.row]);
    var w4 := w2.(threads := map[0 := NotBusy(r.p, 0, r.start)]);
    assert Act(c, w3, Go0(r)) == w4;
    var w5 := w2.(threads := map[0 := Checked(r.p, 0, r.start)]);
    assert Act(c, w4, Go0(r)) == w5;
    assert Same(c.reg.schema[c.key], r.start, r.start);
  }

  /** The owner writes, then the proposal writes over it and records its change. */
  lemma ReachLanded(r: Race)
    requires Collides(r)
    ensures var w := Quiet(r).(lock := ThreadHolds(0), threads := map[0 := Confirmed(r.p, 0, r.start)]);
            Act(r.c, Steps(r.c, w, OwnerAdvances, OwnerAdvances, Go0(r)), Go0(r))
            == World(Landed(r), Nobody, 0, map[0 := Finished], WroteValue(r.start, r.c.value))
  {
    hide CheckKey, Accepts, CheckStatic, Validate, Canonical, NewRow;
    var c, w := r.c, Quiet(r).(lock := ThreadHolds(0), threads := map[0 := Confirmed(r.p, 0, r.start)]);
    var w2 := Act(c, Act(c, w, OwnerAdvances), OwnerAdvances);
    assert w2 == w.(s := State(Settings(r)[c.key := c.value], [r.row], 1), owner := WroteValue(r.start, r.c.value));
    var w3 := Act(c, w2, Go0(r));
    assert Settings(r)[c.key := c.value][c.key := Far(r)] == Settings(r)[c.key := Far(r)];
    assert w3.s == State(Settings(r)[c.key := Far(r)], [r.row], 1);
  }

  lemma FirstOfTwo(row: Row, other: Row)
    requires other.key != row.key && other.id != row.id
    ensures ById([row, other], row.id) == Some(row) && Newest([row, other], OfKey(row.key)) == Some(row)
  {
    assert [row] + [other] == [row, other] && [] + [row] == [row] && [row, other][..1] == [row];
    NewestOfSnoc([row], other, OfKey(row.key));
    NewestOfSnoc([], row, OfKey(row.key));
  }

  lemma LandedRows(r: Race)
    requires Collides(r)
    ensures ById(Landed(r).rows, 0) == Some(r.row) && Newest(Landed(r).rows, OfKey(r.row.key)) == Some(r.row)
  {
    hide CheckKey, Accepts, CheckStatic, Validate, Canonical, Same, ById, Newest, Overtaken, Settings;
    NewRowFields(r.c, 1, r.p, r.start, Far(r), 0);
    FirstOfTwo(r.row, NewRow(r.c.reg, 1, r.p, r.start, Far(r), 0));
  }

  /** The counterpart's kept change is rolled back before the hook gets the lock. */
  lemma ReachRolledBack(r: Race)
    requires Collides(r)
    ensures var w := World(Landed(r), Nobody, 0, map[0 := Finished], WroteValue(r.start, r.c.value));
            Act(r.c, Steps(r.c, w, StartRollback(1, 0, 0), Go1(r), Go1(r)), Go1(r))
            == w.(s := Landed(r).(settings := Overtaken(r)), threads := map[0 := Finished, 1 := RollbackUnlabelled(r.row, 0)])
  {
    hide CheckKey, Accepts, CheckStatic, Validate, Canonical;
    var c, w := r.c, World(Landed(r), Nobody, 0, map[0 := Finished], WroteValue(r.start, r.c.value));
    LandedRows(r);
    hide ById, Newest, NewRow;
    var w1 := w.(threads := map[0 := Finished, 1 := RollbackSeen(r.row, 0)]);
    assert Act(c, w, StartRollback(1, 0, 0)) == w1;
    var w2 := w.(lock := ThreadHolds(1), threads := map[0 := Finished, 1 := RollbackEntered(r.row, 0)]);
    assert Act(c, w1, Go1(r)) == w2;
    var w3 := w2.(threads := map[0 := Finished, 1 := RollbackChecked(r.row, 0)]);
    assert Act(c, w2, Go1(r)) == w3;
  }

  /** The hook cannot put the owner's value back; it records it all the same. */
  lemma ReachLost(r: Race, w: World)
    requires Collides(r) && w.lock == Nobody && w.owner == WroteValue(r.start, r.c.value) && w.s.settings == Overtaken(r)
    ensures var w' := Act(r.c, Steps(r.c, w, OwnerAdvances, OwnerAdvances, OwnerAdvances), OwnerAdvances);
            w'.owner == HookDone(r.c.value, w.s.nextId, true, w.clock + r.c.days * DAY_S)
            && w'.clock == w.clock && w'.s.settings == w.s.settings
  {
    hide CheckKey, Accepts, CheckStatic, Validate, Canonical, SupersedeNewest;
  }

  function LosingTrace(r: Race): seq<Action> {
    [StartProposal(0, r.env, r.p, 0), Go0(r), Go0(r)] + [Go0(r), Go0(r), Go0(r)]
    + [OwnerAdvances, OwnerAdvances, Go0(r)] + [Go0(r)]
    + [StartRollback(1, 0, 0), Go1(r), Go1(r)] + [Go1(r)]
    + [OwnerAdvances, OwnerAdvances, OwnerAdvances] + [OwnerAdvances]
  }

  lemma RunThen(c: Setup, w: World, done: seq<Action>, a: Action, b: Action, d: Action)
    ensures Run(c, w, done + [a, b, d]) == Steps(c, Run(c, w, done), a, b, d)
  {
    RunConcat(c, w, done, [a, b, d]);
    RunThree(c, Run(c, w, done), a, b, d);
  }

  lemma RunThenOne(c: Setup, w: World, done: seq<Action>, a: Action)
    ensures Run(c, w, done + [a]) == Act(c, Run(c, w, done), a)
  {
    RunConcat(c, w, done, [a]);
    RunOne(c, Run(c, w, done), a);
  }

  /** Under such a race the hook completes and freezes the key with the owner's value gone. */
  lemma RaceIsLost(r: Race)
    requires Collides(r)
    ensures var w := Run(r.c, Quiet(r), LosingTrace(r));
            w.owner == HookDone(r.c.value, 2, true, r.c.days * DAY_S) && w.clock == 0
            && r.c.key in w.s.settings && w.s.settings[r.c.key] == Far(r)
  {
    assert Overtaken(r)[r.c.key] == Far(r);
    hide Run, Act, Steps, Collides;
    var c, w := r.c, Quiet(r);
    var t1 := [StartProposal(0, r.env, r.p, 0), Go0(r), Go0(r)];
    var t2 := t1 + [Go0(r), Go0(r), Go0(r)];
    var t3 := t2 + [OwnerAdvances, OwnerAdvances, Go0(r)];
    var t4 := t3 + [Go0(r)];
    var t5 := t4 + [StartRollback(1, 0, 0), Go1(r), Go1(r)];
    var t6 := t5 + [Go1(r)];
    var t7 := t6 + [OwnerAdvances, OwnerAdvances, OwnerAdvances];
    RunThree(c, w, StartProposal(0, r.env, r.p, 0), Go0(r), Go0(r));
    RunThen(c, w, t1, Go0(r), Go0(r), Go0(r));
    ReachConfirmed(r);
    RunThen(c, w, t2, OwnerAdvances, OwnerAdvances, Go0(r));
    RunThenOne(c, w, t3, Go0(r));
    ReachLanded(r);
    RunThen(c, w, t4, StartRollback(1, 0, 0), Go1(r), Go1(r));
    RunThenOne(c, w, t5, Go1(r));
    ReachRolledBack(r);
    RunThen(c, w, t6, OwnerAdvances, OwnerAdvances, OwnerAdvances);
    RunThenOne(c, w, t7, OwnerAdvances);
    ReachLost(r, Run(c, w, t6));
    assert LosingTrace(r) == t7 + [OwnerAdvances];
  }

  // ------------------------------------------------------------ both comfort keys

  const COMFORT_SPEC := Spec(FloatKind, Some(10.0), Some(30.0), false)

  const COMFORT := Registry(
    map[CeilingC := COMFORT_SPEC, SetpointC := COMFORT_SPEC], {}, map[CeilingC := 0.5, SetpointC := 0.5],
    map[CeilingC := 1.5, SetpointC := 1.5], {}, {}, {}, {}, {}, 0.5)

  const COMFORT_ENV := Env(true, {CeilingC, SetpointC}, {}, false, Some(7), 14, 28, true)

  function KeptRow(key: Key, before: real, after: real): Row {
    Row(0, key, Some(Num(before)), Num(after), TuningReview, Kept, 0, None, None, NO_EVIDENCE, Some(Saving))
  }

  /** Ceiling 21.5 above setpoint 20.5. The owner sets the ceiling to 21.0; the proposal
      raises it to 22.0, and the setpoint goes back to 21.0. */
  const CEILING_RACE := Race(
    Setup(COMFORT, CeilingC, Num(21.0), 14, false), COMFORT_ENV, Proposal(CeilingC, Num(22.0), TuningReview, None, None),
    KeptRow(SetpointC, 21.0, 20.5), Num(21.5))

  /** The owner sets the setpoint to 21.0; the proposal lowers it to 20.0, and the ceiling
      goes back to 21.0. */
  const SETPOINT_RACE := Race(
    Setup(COMFORT, SetpointC, Num(21.0), 14, false), COMFORT_ENV, Proposal(SetpointC, Num(20.0), TuningReview, None, None),
    KeptRow(CeilingC, 21.0, 21.5), Num(20.5))

  lemma NothingRecorded(row: Row, key: Key)
    requires row.key != key
    ensures ManualValue([row], key).None?
  {
    assert [] + [row] == [row] && [row][1..] == [];
    NewestOfSnoc([], row, ManualOf(key));
    assert Oldest([row][1..], AutomatedOf(key)).None?;
  }

  lemma CeilingCollides()
    ensures Collides(CEILING_RACE)
  {
    NothingRecorded(CEILING_RACE.row, CeilingC);
  }

  lemma SetpointCollides()
    ensures Collides(SETPOINT_RACE)
  {
    NothingRecorded(SETPOINT_RACE.row, SetpointC);
  }

  function RaceOf(key: Key): Race { if key.CeilingC? then CEILING_RACE else SETPOINT_RACE }

  lemma RaceAllows(r: Race)
    ensures Allows(LosingTrace(r), r.env.allow)
  {
    var trace := LosingTrace(r);
    forall i | 0 <= i < |trace| && trace[i].StartProposal? ensures trace[i].env == r.env {}
  }

  lemma RaceCounts(r: Race)
    requires r.row.status == Kept
    ensures EvaluatingCount([r.row]) == 0
  {
    EvaluatingSnoc([], r.row);
    assert [] + [r.row] == [r.row];
  }

  lemma RaceStartsGood(r: Race)
    requires Collides(r) && AutoTuneRuns.Typed(r.c.reg, State(Settings(r), [r.row], 1))
    ensures GoodStart(r.c, Quiet(r).s) && Quiet(r) == Begin(Quiet(r).s, 0) && Allows(LosingTrace(r), r.env.allow)
  {
    hide Settings, Overtaken, Accepts, CheckKey, CheckStatic, Same, Validate, AutoTuneRuns.Typed, Allows, LosingTrace, EvaluatingCount;
    RaceAllows(r);
    RaceCounts(r);
  }

  /** Either comfort key can lose: from a sound start, with nothing but a proposal and a
      rollback in flight, the key ends frozen on another value than the owner's. */
  lemma ComfortKeyCanLose(key: Key) returns (c: Setup, s: State, allow: set<Key>, trace: seq<Action>)
    requires !ChecksAlone(key)
    ensures c.key == key && !c.deletes && GoodStart(c, s) && Allows(trace, allow)
    ensures var w := Run(c, Begin(s, 0), trace);
            w.owner.HookDone? && w.owner.lost && w.clock < w.owner.until && !ValueHeld(c, w)
    ensures !Guarded(c, s, allow)
  {
    var r := RaceOf(key);
    c, s, allow, trace := r.c, Quiet(r).s, r.env.allow, LosingTrace(r);
    if key.CeilingC? { CeilingCollides(); } else { SetpointCollides(); }
    RaceStartsGood(r);
    RaceIsLost(r);
    if Guarded(c, s, allow) {
      OwnerWins(c, s, allow, 0, trace);
      assert false;
    }
  }

  ghost predicate OwnerKeeps(c: Setup, s: State, clock: int, trace: seq<Action>) {
    var w := Run(c, Begin(s, clock), trace);
    w.owner.HookRestored? || w.owner.HookInserted? || (w.owner.HookDone? && w.clock < w.owner.until) ==> ValueHeld(c, w)
  }

  // ------------------------------------------------------- one key, one proposal

  /** A registry with the one setting `key`, which an action of the owner gives `value`. */
  function OneKey(key: Key, value: real, deletes: bool): Setup {
    Setup(Registry(map[key := Spec(FloatKind, Some(0.0), Some(50.0), false)], {}, map[key := 0.5], map[key := 1.5],
                   {}, {}, {}, {}, {}, 100.0),
          key, Num(value), 14, deletes)
  }

  function OneEnv(key: Key): Env { Env(true, {key}, {}, false, Some(7), 14, 28, true) }
  function Move(key: Key): Proposal { Proposal(key, Num(20.5), TuningReview, None, None) }

  function Moved(key: Key): Row {
    Row(0, key, Some(Num(20.0)), Num(20.5), TuningReview, Evaluating, 0, None, None, NO_EVIDENCE, Some(Saving))
  }

  function At(key: Key, x: real): State { State(map[key := Num(x)], [], 0) }
  function AfterMove(key: Key): State { State(map[key := Num(20.5)], [Moved(key)], 1) }
  function Onward(key: Key): Action { Advance(0, OneEnv(key), NO_EVIDENCE) }

  function Checked20(key: Key): World {
    World(At(key, 20.0), ThreadHolds(0), 0, map[0 := Checked(Move(key), 0, Num(20.0))], ReadPrev(Num(20.0)))
  }

  /** The owner reads 20.0; the proposal starts and gets as far as its re-read. */
  function Approach(key: Key): seq<Action> {
    [OwnerAdvances, StartProposal(0, OneEnv(key), Move(key), 0), Onward(key)] + [Onward(key), Onward(key), Onward(key)]
  }

  lemma ReachChecked(key: Key, value: real, deletes: bool)
    ensures Run(OneKey(key, value, deletes), Begin(At(key, 20.0), 0), Approach(key)) == Checked20(key)
  {
    var c, begin, go := OneKey(key, value, deletes), Begin(At(key, 20.0), 0), Onward(key);
    var start := StartProposal(0, OneEnv(key), Move(key), 0);
    RunThree(c, begin, OwnerAdvances, start, go);
    RunThen(c, begin, [OwnerAdvances, start, go], go, go, go);
    ApproachFirst(key, value, deletes);
    ApproachSecond(key, value, deletes);
  }

  function Entered20(key: Key): World { Checked20(key).(threads := map[0 := Entered(Move(key), 0)]) }

  lemma ApproachFirst(key: Key, value: real, deletes: bool)
    ensures Steps(OneKey(key, value, deletes), Begin(At(key, 20.0), 0), OwnerAdvances,
                  StartProposal(0, OneEnv(key), Move(key), 0), Onward(key)) == Entered20(key)
  {}

  lemma ApproachSecond(key: Key, value: real, deletes: bool)
    ensures Steps(OneKey(key, value, deletes), Entered20(key), Onward(key), Onward(key), Onward(key)) == Checked20(key)
  {
    var c, w := OneKey(key, value, deletes), Entered20(key);
    var w1 := w.(threads := map[0 := HasRead(Move(key), 0, Num(20.0))]);
    assert Act(c, w, Onward(key)) == w1;
    var w2 := w.(threads := map[0 := NotBusy(Move(key), 0, Num(20.0))]);
    assert Act(c, w1, Onward(key)) == w2;
    assert ManualValue([], key).None?;
  }

  // -------------------------------------------------------------- losing a default

  /** The proposal passes its re-read, the owner drops the stored 20.0, and the proposal
      writes before the delete has read what is in force. */
  function DeleteTrace(key: Key): seq<Action> {
    Approach(key) + [Onward(key), OwnerAdvances, Onward(key)] + [Onward(key), OwnerAdvances, OwnerAdvances]
    + [OwnerAdvances, OwnerAdvances, OwnerAdvances]
  }

  function Overtook(key: Key): World {
    World(State(map[key := Num(20.5)], [], 0), ThreadHolds(0), 0, map[0 := Written(Move(key), 0, Num(20.0))], Removed(Num(20.0)))
  }

  lemma DeleteFirst(key: Key)
    ensures Steps(OneKey(key, 18.0, true), Checked20(key), Onward(key), OwnerAdvances, Onward(key)) == Overtook(key)
  {
    var c, w := OneKey(key, 18.0, true), Checked20(key);
    var w1 := w.(threads := map[0 := Confirmed(Move(key), 0, Num(20.0))]);
    DeleteConfirms(key);
    var w2 := w1.(s := At(key, 18.0), owner := Removed(Num(20.0)));
    assert map[key := Num(20.0)][key := Num(18.0)] == map[key := Num(18.0)];
    assert Act(c, w1, OwnerAdvances) == w2;
    DeleteIsOverwritten(key);
    hide Act;
  }

  lemma DeleteConfirms(key: Key)
    ensures Act(OneKey(key, 18.0, true), Checked20(key), Onward(key))
            == Checked20(key).(threads := map[0 := Confirmed(Move(key), 0, Num(20.0))])
  {}

  lemma DeleteIsOverwritten(key: Key)
    ensures var w := World(At(key, 18.0), ThreadHolds(0), 0, map[0 := Confirmed(Move(key), 0, Num(20.0))], Removed(Num(20.0)));
            Act(OneKey(key, 18.0, true), w, Onward(key)) == Overtook(key)
  {
    assert map[key := Num(18.0)][key := Num(20.5)] == map[key := Num(20.5)];
  }

  lemma DeleteSecond(key: Key)
    ensures Steps(OneKey(key, 18.0, true), Overtook(key), Onward(key), OwnerAdvances, OwnerAdvances)
            == World(AfterMove(key), OwnerHolds, 0, map[0 := Finished], HookEntered(Num(20.0), Num(20.5)))
  {}

  lemma DeleteThird(key: Key)
    ensures var w := World(AfterMove(key), OwnerHolds, 0, map[0 := Finished], HookEntered(Num(20.0), Num(20.5)));
            var w' := Steps(OneKey(key, 18.0, true), w, OwnerAdvances, OwnerAdvances, OwnerAdvances);
            w'.owner == HookDone(Num(20.5), 1, false, 14 * DAY_S) && w'.clock == 0 && w'.s.settings == map[key := Num(20.5)]
  {
    hide SupersedeNewest;
  }

  /** A delete can lose on every key: the hook takes the proposal's value for the owner's,
      records it and freezes it. */
  lemma DeleteCanLose(key: Key) returns (c: Setup, s: State, allow: set<Key>, trace: seq<Action>)
    ensures c.key == key && c.deletes && GoodStart(c, s) && Allows(trace, allow)
    ensures var w := Run(c, Begin(s, 0), trace);
            w.owner.HookDone? && !w.owner.lost && w.owner.after != c.value && w.clock < w.owner.until && !ValueHeld(c, w)
    ensures !Guarded(c, s, allow)
  {
    c, s, allow, trace := OneKey(key, 18.0, true), At(key, 20.0), {key}, DeleteTrace(key);
    var begin, t := Begin(s, 0), Approach(key);
    hide Run, Steps, Act;
    ReachChecked(key, 18.0, true);
    RunThen(c, begin, t, Onward(key), OwnerAdvances, Onward(key));
    DeleteFirst(key);
    var t2 := t + [Onward(key), OwnerAdvances, Onward(key)];
    RunThen(c, begin, t2, Onward(key), OwnerAdvances, OwnerAdvances);
    DeleteSecond(key);
    RunThen(c, begin, t2 + [Onward(key), OwnerAdvances, OwnerAdvances], OwnerAdvances, OwnerAdvances, OwnerAdvances);
    DeleteThird(key);
    assert Proposable(c.reg, allow, key);
  }

  /** The race is won on every trace exactly for the actions that pass the guard and, of
      the writes, for those of a key that is checked alone. */
  lemma OwnerWinsIff(key: Key, deletes: bool, guarded: bool)
    ensures guarded || (ChecksAlone(key) && !deletes)
            <==> forall c: Setup, s: State, allow: set<Key>, clock: int, trace: seq<Action> ::
                   c.key == key && c.deletes == deletes && GoodStart(c, s) && Allows(trace, allow)
                   && Guarded(c, s, allow) == guarded
                   ==> OwnerKeeps(c, s, clock, trace)
  {
    if guarded || (ChecksAlone(key) && !deletes) {
      forall c: Setup, s: State, allow: set<Key>, clock: int, trace: seq<Action> |
        c.key == key && c.deletes == deletes && GoodStart(c, s) && Allows(trace, allow) && Guarded(c, s, allow) == guarded
        ensures OwnerKeeps(c, s, clock, trace)
      {
        OwnerWins(c, s, allow, clock, trace);
      }
    } else if deletes {
      var c, s, allow, trace := DeleteCanLose(key);
      assert !OwnerKeeps(c, s, 0, trace);
    } else {
      var c, s, allow, trace := ComfortKeyCanLose(key);
      assert !OwnerKeeps(c, s, 0, trace);
    }
  }

  // ------------------------------------------------------------- the skipped hook

  const NIGHT := Named("night floor")

  function Landed20(): World {
    World(AfterMove(NIGHT), Nobody, 0, map[0 := Finished], ReadPrev(Num(20.0)))
  }

  lemma ReachLandedAlone()
    ensures Steps(OneKey(NIGHT, 20.0, false), Checked20(NIGHT), Onward(NIGHT), Onward(NIGHT), Onward(NIGHT)) == Landed20()
  {}

  /** The read comes before the lock: if a whole proposal lands between it and the write,
      the owner does overwrite the proposal's value, yet the hook takes the write for a
      no-op. The change keeps evaluating and the key is not frozen. */
  lemma StaleReadSkipsHook()
    ensures var go := Onward(NIGHT);
            var w := Run(OneKey(NIGHT, 20.0, false), Begin(At(NIGHT, 20.0), 0),
                         Approach(NIGHT) + [go, go, go] + [OwnerAdvances] + [OwnerAdvances]);
            w.owner == HookSkipped && w.s.settings == map[NIGHT := Num(20.0)]
            && w.s.rows == [Moved(NIGHT)] && EvaluatingCount(w.s.rows) == 1 && !Frozen(w.s.rows, NIGHT, w.clock)
  {
    var c, w, go := OneKey(NIGHT, 20.0, false), Begin(At(NIGHT, 20.0), 0), Onward(NIGHT);
    ReachChecked(NIGHT, 20.0, false);
    ReachLandedAlone();
    hide Run;
    RunThen(c, w, Approach(NIGHT), go, go, go);
    RunThenOne(c, w, Approach(NIGHT) + [go, go, go], OwnerAdvances);
    RunThenOne(c, w, Approach(NIGHT) + [go, go, go] + [OwnerAdvances], OwnerAdvances);
    EvaluatingSnoc([], Moved(NIGHT));
    assert [] + [Moved(NIGHT)] == [Moved(NIGHT)];
  }

  /** Nor does the owner's value survive a skip: a proposal past its re-read writes over
      it after the hook has returned, and nothing is frozen or recorded. */
  lemma SkippedValueIsOverwritten()
    ensures var go := Onward(NIGHT);
            var w := Run(OneKey(NIGHT, 20.0, false), Begin(At(NIGHT, 20.0), 0),
                         Approach(NIGHT) + [go, OwnerAdvances, OwnerAdvances] + [go] + [go]);
            w.owner == HookSkipped && w.s.settings == map[NIGHT := Num(20.5)]
            && w.s.rows == [Moved(NIGHT)] && !Frozen(w.s.rows, NIGHT, w.clock)
  {
    var c, w, go := OneKey(NIGHT, 20.0, false), Begin(At(NIGHT, 20.0), 0), Onward(NIGHT);
    ReachChecked(NIGHT, 20.0, false);
    hide Run;
    RunThen(c, w, Approach(NIGHT), go, OwnerAdvances, OwnerAdvances);
    var w1 := Checked20(NIGHT).(threads := map[0 := Confirmed(Move(NIGHT), 0, Num(20.0))], owner := HookSkipped);
    assert At(NIGHT, 20.0).settings[NIGHT := Num(20.0)] == At(NIGHT, 20.0).settings;
    assert Steps(c, Checked20(NIGHT), go, OwnerAdvances, OwnerAdvances) == w1;
    RunThenOne(c, w, Approach(NIGHT) + [go, OwnerAdvances, OwnerAdvances], go);
    RunThenOne(c, w, Approach(NIGHT) + [go, OwnerAdvances, OwnerAdvances] + [go], go);
  }
}
