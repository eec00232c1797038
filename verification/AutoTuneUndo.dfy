/** What the undo of a failed batch gives back, and exactly when it gives back more than
    it took (src/auto_tune.py:533-549, called from src/api/main.py:5046-5057). */
module AutoTuneUndo {
  import opened Common
  import opened Ledger
  import opened AutoTune
  import opened AutoTuneRuns
  import opened AutoTuneBase
  import opened AutoTuneDrift
  import opened AutoTuneSingle

  // ---------------------------------------------------- deleting the newest row

  lemma {:induction false} DeleteLast(rows: seq<Row>, r: Row)
    requires forall i :: 0 <= i < |rows| ==> rows[i].id != r.id
    ensures DeleteId(rows + [r], r.id) == rows
  {
    assert (rows + [r])[..|rows|] == rows;
    DeleteAbsent(rows, r.id);
  }

  lemma {:induction false} DeleteAbsent(rows: seq<Row>, id: nat)
    requires forall i :: 0 <= i < |rows| ==> rows[i].id != id
    ensures DeleteId(rows, id) == rows
  {
    if |rows| > 0 { DeleteAbsent(rows[..|rows| - 1], id); }
  }

  lemma {:induction false} CountFromNone(rows: seq<Row>, q: Query, i: nat)
    requires forall j :: i <= j < |rows| ==> !Matches(q, rows[j])
    ensures CountFrom(rows, q, i) == 0
    decreases |rows| - i
  {
    if i < |rows| { CountFromNone(rows, q, i + 1); }
  }

  // ------------------------------------------------------------ the round trip

  /** Evaluating rows of `key` lose their evidence; every other row is untouched. */
  function Forgotten(rows: seq<Row>, key: Key): (out: seq<Row>)
    ensures |out| == |rows|
  {
    seq(|rows|, i requires 0 <= i < |rows| =>
      if Matches(EvaluatingOf(key), rows[i]) then rows[i].(evidence := NO_EVIDENCE) else rows[i])
  }

  lemma SupersedeReopen(rows: seq<Row>, key: Key, m: Row)
    requires m.key == key && m.status == Manual && Tidy(rows)
    requires forall i :: 0 <= i < |rows| ==> rows[i].id < m.id && MidBounded(rows[i], m.id)
    ensures DeleteId(ReopenNewest(SupersedeNewest(rows + [m], key, SUPERSEDE_LIMIT, m.id), key, SUPERSEDE_LIMIT, m.id), m.id)
            == Forgotten(rows, key)
  {
    var a := rows + [m];
    var b := SupersedeNewest(a, key, SUPERSEDE_LIMIT, m.id);
    var c := ReopenNewest(b, key, SUPERSEDE_LIMIT, m.id);
    assert c[|rows|] == m;
    forall i | 0 <= i < |rows| ensures c[i] == Forgotten(rows, key)[i] { SupersedeReopenAt(rows, key, m, i); }
    forall i | 0 <= i < |rows| ensures Forgotten(rows, key)[i].id != m.id {}
    hide ReopenNewest, SupersedeNewest, Forgotten;
    assert c == Forgotten(rows, key) + [m];
    DeleteLast(Forgotten(rows, key), m);
  }

  /** One row through the close and the re-open. A closed change is the newest closed one:
      what follows it was and is the owner's. */
  lemma SupersedeReopenAt(rows: seq<Row>, key: Key, m: Row, i: nat)
    requires m.key == key && m.status == Manual && i < |rows| && Tidy(rows) && MidBounded(rows[i], m.id)
    ensures ReopenNewest(SupersedeNewest(rows + [m], key, SUPERSEDE_LIMIT, m.id), key, SUPERSEDE_LIMIT, m.id)[i]
            == Forgotten(rows, key)[i]
  {
    var a := rows + [m];
    var b := SupersedeNewest(a, key, SUPERSEDE_LIMIT, m.id);
    if Matches(EvaluatingOf(key), a[i]) {
      forall j | i + 1 <= j < |a| ensures a[j].status == Manual && b[j] == a[j] {}
      CountFromNone(a, EvaluatingOf(key), i + 1);
      CountFromNone(b, SupersededOf(key), i + 1);
    }
  }

  /** What the undo of a recorded batch write gives back: every setting and every row,
      except that the re-opened change has lost its evidence (its deferral count and
      expected comfort cost). */
  predicate GivenBack(s: State, s2: State, key: Key) {
    s2.settings == s.settings && s2.rows == Forgotten(s.rows, key)
  }

  lemma UndoRestores(reg: Registry, env: Env, s: State, key: Key, v: Value, batch: string, now: int, later: int)
    requires Ordered(s) && Tidy(s.rows) && MidsBounded(s) && Typed(reg, s) && key in s.settings
    requires Accepts(reg, s.settings, key, v) && Recorded(reg, env, s, key, Validate(reg.schema[key], v).value)
    requires Accepts(reg, s.settings, key, s.settings[key])
    ensures var s1 := Write(reg, env, s, key, v, Owner(batch), now);
            GivenBack(s, Write(reg, env, s1, key, s.settings[key], BatchUndo(batch), later), key)
  {
    var canonical := Validate(reg.schema[key], v).value;
    OwnerWriteEffect(reg, env, s, key, v, batch, now);
    AcceptsIgnoresItself(reg, s.settings, key, canonical, s.settings[key]);
    var s1 := Write(reg, env, s, key, v, Owner(batch), now);
    var m := ManualRow(env, s, key, canonical, batch, now);
    NewestOfSnoc(s.rows, m, OfKey(key));
    NewestSameTrails(s.rows + [m], s1.rows, key);
    NewestManualByFinds(s1.rows, key, batch, UNDO_LIMIT);
    SupersedeReopen(s.rows, key, m);
    hide Write, ReopenNewest, SupersedeNewest, DeleteId, Forgotten, Accepts;
    UndoWriteEffect(reg, env, s1, key, s.settings[key], batch, later);
    assert s.settings[key := canonical][key := s.settings[key]] == s.settings;
  }

  /** No check reads the key it is about. */
  lemma AcceptsIgnoresItself(reg: Registry, settings: map<Key, Value>, key: Key, v: Value, w: Value)
    ensures Accepts(reg, settings[key := v], key, w) <==> Accepts(reg, settings, key, w)
  {}

  /** Where the value that was there is not accepted, the undo is refused and the batch's
      value and row stay. */
  lemma UndoIsRefused(reg: Registry, env: Env, s: State, key: Key, v: Value, batch: string, now: int, later: int)
    requires Typed(reg, s) && key in s.settings && Accepts(reg, s.settings, key, v)
    requires Recorded(reg, env, s, key, Validate(reg.schema[key], v).value) && !Accepts(reg, s.settings, key, s.settings[key])
    ensures var s1 := Write(reg, env, s, key, v, Owner(batch), now);
            Write(reg, env, s1, key, s.settings[key], BatchUndo(batch), later) == s1 && s1.settings != s.settings
  {
    var canonical := Validate(reg.schema[key], v).value;
    OwnerWriteEffect(reg, env, s, key, v, batch, now);
    AcceptsIgnoresItself(reg, s.settings, key, canonical, s.settings[key]);
    CoerceIdempotent(reg.schema[key].kind, v);
    SameTypedMeansEqual(reg, s, key, canonical);
  }

  /** The two events: everything is given back exactly when the value that was there is
      one the store would have accepted, and otherwise nothing is. */
  lemma UndoEventRestores(
    reg: Registry, m: Machine, env: Env, key: Key, v: Value, batch: string, now: int, later: int)
    requires Ordered(m.s) && Tidy(m.s.rows) && MidsBounded(m.s) && Typed(reg, m.s)
    requires key in m.s.settings && Accepts(reg, m.s.settings, key, v)
    requires Recorded(reg, env, m.s, key, Validate(reg.schema[key], v).value)
    ensures var m1 := Step(reg, m, BatchWrites(env, key, v, batch, now));
            var m2 := Step(reg, m1, BatchUndoes(env, key, later));
            m2.open == m.open - {key}
            && (if Accepts(reg, m.s.settings, key, m.s.settings[key]) then GivenBack(m.s, m2.s, key)
                else m2.s == m1.s && m2.s.settings != m.s.settings)
  {
    if Accepts(reg, m.s.settings, key, m.s.settings[key]) {
      UndoRestores(reg, env, m.s, key, v, batch, now, later);
    } else {
      UndoIsRefused(reg, env, m.s, key, v, batch, now, later);
    }
    hide Tidy, Accepts, Recorded, Write, GivenBack, Ordered, MidsBounded;
  }

  /** In every state that a run with one change at a time reaches, deletes included and
      however many changes of the key were ever closed. */
  lemma UndoRestoresOnRuns(
    reg: Registry, settings: map<Key, Value>, es: seq<Event>,
    env: Env, key: Key, v: Value, batch: string, now: int, later: int)
    requires Typed(reg, State(settings, [], 0)) && SingleRun(reg, Start(settings), es)
    requires var s := Run(reg, Start(settings), es).s;
             key in s.settings && Accepts(reg, s.settings, key, v)
             && Recorded(reg, env, s, key, Validate(reg.schema[key], v).value)
    ensures var m := Run(reg, Start(settings), es);
            var m1 := Step(reg, m, BatchWrites(env, key, v, batch, now));
            var m2 := Step(reg, m1, BatchUndoes(env, key, later));
            m2.open == m.open - {key}
            && (if Accepts(reg, m.s.settings, key, m.s.settings[key]) then GivenBack(m.s, m2.s, key)
                else m2.s == m1.s && m2.s.settings != m.s.settings)
  {
    var m := Run(reg, Start(settings), es);
    hide Run, SingleRun, Accepts, Write, Recorded, Step, GivenBack, Tidy, MidsBounded;
    RunKeeps(reg, settings, es);
    SingleEvaluating(reg, settings, es);
    UndoEventRestores(reg, m, env, key, v, batch, now, later);
  }

  // ---------------------------------------------------------- the no-op write

  /** A batch entry that does not change its value records nothing, yet its undo still
      deletes the newest manual row an earlier batch left. It is harmless exactly when
      none of the newest five manual rows of the key came from that batch. */
  lemma NoOpUndoIsHarmlessIff(reg: Registry, env: Env, s: State, key: Key, batch: string, now: int, later: int)
    requires Ordered(s) && Typed(reg, s) && key in s.settings && Accepts(reg, s.settings, key, s.settings[key])
    ensures var s1 := Write(reg, env, s, key, s.settings[key], Owner(batch), now);
            var s2 := Write(reg, env, s1, key, s.settings[key], BatchUndo(batch), later);
            s1 == s && (s2 == s <==> NewestManualBy(s.rows, key, batch, UNDO_LIMIT).None?)
  {
    var cur := s.settings[key];
    assert s.settings[key := cur] == s.settings;
    ValidateIdempotent(reg.schema[key], cur);
    if NewestManualBy(s.rows, key, batch, UNDO_LIMIT).Some? {
      var m := NewestManualBy(s.rows, key, batch, UNDO_LIMIT).value;
      NewestManualByMember(s.rows, key, batch, UNDO_LIMIT);
      var r := ReopenNewest(s.rows, key, SUPERSEDE_LIMIT, m.id);
      ReopenKeepsTrails(s.rows, key, SUPERSEDE_LIMIT, m.id);
      DeleteShortens(r, m.id);
    }
  }

  lemma {:induction false} DeleteShortens(rows: seq<Row>, id: nat)
    ensures |DeleteId(rows, id)| <= |rows|
    ensures (exists i :: 0 <= i < |rows| && rows[i].id == id) ==> |DeleteId(rows, id)| < |rows|
  {
    if |rows| > 0 { DeleteShortens(rows[..|rows| - 1], id); }
  }

  // ----------------------------------------------------------- concrete witnesses

  const K := Named("night floor")
  const L := Named("setpoint")

  function TwoKeys(denied: set<Key>): Registry {
    var spec := Spec(FloatKind, Some(0.0), Some(50.0), false);
    Registry(map[K := spec, L := spec], denied, map[K := 0.5, L := 0.5], map[K := 1.5, L := 1.5], {}, {}, {}, {}, {}, 0.5)
  }

  const OPEN_ENV := Env(true, {K, L}, {}, false, Some(7), 14, 28, true)

  const API_ROW := Row(
    0, K, Some(Num(20.0)), Num(25.0), ManualSource, Manual, 0, Some(14 * DAY_S), Some("api"), NO_EVIDENCE, None)
  const BATCH_ROW := Row(
    1, K, Some(Num(25.0)), Num(20.0), ManualSource, Manual, 1, Some(1 + 14 * DAY_S), Some("api_batch"), NO_EVIDENCE, None)
  const TWO_WRITES := Machine(State(map[K := Num(20.0), L := Num(20.0)], [API_ROW, BATCH_ROW], 2), map[])

  const TWO_WRITES_EVENTS := [
    OwnerWrites(OPEN_ENV, K, Num(25.0), "api", 0), BatchWrites(OPEN_ENV, K, Num(20.0), "api_batch", 1), BatchCommits]

  lemma ReachTwoWrites()
    ensures Run(TwoKeys({}), Start(map[K := Num(20.0), L := Num(20.0)]), TWO_WRITES_EVENTS) == TWO_WRITES
  {
    var reg := TwoKeys({});
    var m0 := Start(map[K := Num(20.0), L := Num(20.0)]);
    var e1, e2 := OwnerWrites(OPEN_ENV, K, Num(25.0), "api", 0), BatchWrites(OPEN_ENV, K, Num(20.0), "api_batch", 1);
    var m1 := Step(reg, m0, e1);
    assert m1 == Machine(State(map[K := Num(25.0), L := Num(20.0)], [API_ROW], 1), map[]);
    var m2 := Step(reg, m1, e2);
    assert m2.s == TWO_WRITES.s;
    RunThree(reg, m0, e1, e2, BatchCommits);
  }

  lemma UndoTakesOlder()
    ensures UndoBatch(TWO_WRITES.s, K, "api_batch").rows == [API_ROW]
  {
    var r1, r2 := API_ROW, BATCH_ROW;
    assert [r1, r2][..1] == [r1] && [r1][..0] == [];
    assert ReopenNewest([r1, r2], K, SUPERSEDE_LIMIT, 1) == [r1, r2];
    assert DeleteId([r1], 1) == [r1];
  }

  /** The no-op undo breaks the drift cap: the owner's latest decision is deleted and an
      older one becomes the reference again. */
  lemma NoOpUndoBreaksDriftCap() returns (m: Machine)
    ensures m == Run(TwoKeys({}), Start(map[K := Num(20.0), L := Num(20.0)]), TWO_WRITES_EVENTS)
    ensures var written := Step(TwoKeys({}), m, BatchWrites(OPEN_ENV, K, Num(20.0), "api_batch", 2));
            var m' := Step(TwoKeys({}), written, BatchUndoes(OPEN_ENV, K, 3));
            K in m'.s.settings && m'.s.settings[K] == Num(20.0) && ManualValue(m'.s.rows, K) == Some(Num(25.0))
            && !Within(Some(m'.s.settings[K]), ManualValue(m'.s.rows, K), 1.5)
  {
    var reg := TwoKeys({});
    m := TWO_WRITES;
    ReachTwoWrites();
    UndoTakesOlder();
    hide Run, ReopenNewest, DeleteId, NewestManualBy;
    var m3 := Step(reg, m, BatchWrites(OPEN_ENV, K, Num(20.0), "api_batch", 2));
    assert m.s.settings[K := Num(20.0)] == m.s.settings;
    assert m3 == Machine(m.s, map[K := Batch("api_batch", Num(20.0), None)]);
    var m4 := Step(reg, m3, BatchUndoes(OPEN_ENV, K, 3));
    assert m4.s.rows == [API_ROW];
  }

  lemma RunThree(reg: Registry, m0: Machine, e1: Event, e2: Event, e3: Event)
    ensures Run(reg, m0, [e1, e2, e3]) == Step(reg, Step(reg, Step(reg, m0, e1), e2), e3)
  {
    assert [e1, e2, e3][..2] == [e1, e2] && [e1, e2][..1] == [e1] && [e1][..0] == [];
    assert Run(reg, m0, [e1]) == Step(reg, m0, e1);
    assert Run(reg, m0, [e1, e2]) == Step(reg, Run(reg, m0, [e1]), e2);
  }

  const FIRST := Proposal(K, Num(20.5), TuningReview, None, None)
  const SECOND := Proposal(L, Num(20.5), TuningReview, None, None)
  const ROW0 := Row(0, K, Some(Num(20.0)), Num(20.5), TuningReview, Evaluating, 0, None, None, NO_EVIDENCE, Some(Saving))
  const ROW1 := Row(
    1, K, Some(Num(20.5)), Num(21.0), ManualSource, Manual, 1, Some(1 + 14 * DAY_S), Some("api_batch"), NO_EVIDENCE, None)
  const ROW2 := Row(2, L, Some(Num(20.0)), Num(20.5), TuningReview, Evaluating, 2, None, None, NO_EVIDENCE, Some(Saving))
  const AFTER_BATCH := State(map[K := Num(21.0), L := Num(20.0)], [Closed(ROW0, 1), ROW1], 2)
  const ONE_RUNNING := State(map[K := Num(21.0), L := Num(20.5)], [Closed(ROW0, 1), ROW1, ROW2], 3)

  const ONE_CHANGE := State(map[K := Num(20.5), L := Num(20.0)], [ROW0], 1)

  lemma FirstIsApplied()
    ensures Propose(TwoKeys({}), OPEN_ENV, State(map[K := Num(20.0), L := Num(20.0)], [], 0), FIRST, 0).0 == ONE_CHANGE
  {}

  lemma BatchClosesFirst()
    ensures Write(TwoKeys({}), OPEN_ENV, ONE_CHANGE, K, Num(21.0), Owner("api_batch"), 1) == AFTER_BATCH
  {
    assert CountFrom([ROW0, ROW1], EvaluatingOf(K), 2) == 0 && CountFrom([ROW0, ROW1], EvaluatingOf(K), 1) == 0;
    assert SupersedeNewest([ROW0, ROW1], K, SUPERSEDE_LIMIT, 1) == [Closed(ROW0, 1), ROW1];
    assert [ROW0] + [ROW1] == [ROW0, ROW1];
  }

  lemma SecondIsApplied()
    ensures Propose(TwoKeys({}), OPEN_ENV, AFTER_BATCH, SECOND, 2).0 == ONE_RUNNING
  {
    var rows := AFTER_BATCH.rows;
    assert rows[..1] == [Closed(ROW0, 1)] && [Closed(ROW0, 1)][..0] == [];
    assert Newest([Closed(ROW0, 1)], ACTIVE).None? && !Busy(rows);
    assert Newest([Closed(ROW0, 1)], ManualOf(L)).None? && Newest(rows, ManualOf(L)).None?;
    assert rows[1..] == [ROW1] && [ROW1][1..] == [] && Oldest([ROW1], AutomatedOf(L)).None?;
    assert ManualValue(rows, L).None?;
    assert CheckLocked(TwoKeys({}), OPEN_ENV, AFTER_BATCH, SECOND, 2).None?;
  }

  const TWO_RUNNING: seq<Row> := [Reopened(Closed(ROW0, 1), 1), ROW2]

  lemma UndoReopensFirst()
    ensures UndoBatch(ONE_RUNNING, K, "api_batch").rows == TWO_RUNNING
  {
    var c0, rows := Closed(ROW0, 1), ONE_RUNNING.rows;
    var o0 := Reopened(c0, 1);
    assert rows[..2] == [c0, ROW1];
    assert NewestManualBy([c0, ROW1], K, "api_batch", UNDO_LIMIT) == Some(ROW1);
    assert CountFrom(rows, SupersededOf(K), 3) == 0 && CountFrom(rows, SupersededOf(K), 2) == 0;
    assert CountFrom(rows, SupersededOf(K), 1) == 0;
    assert ReopenNewest(rows, K, SUPERSEDE_LIMIT, 1) == [o0, ROW1, ROW2];
    assert [o0, ROW1, ROW2][..2] == [o0, ROW1] && [o0, ROW1][..1] == [o0] && [o0][..0] == [];
    assert DeleteId([o0], 1) == [o0] && DeleteId([o0, ROW1], 1) == [o0];
  }

  lemma RunningCounts()
    ensures EvaluatingCount(ONE_RUNNING.rows) == 1 && EvaluatingCount(TWO_RUNNING) == 2
  {
    CountTwo(Reopened(Closed(ROW0, 1), 1), ROW2);
    CountTwo(Closed(ROW0, 1), ROW1);
    EvaluatingSnoc([Closed(ROW0, 1), ROW1], ROW2);
    assert [Closed(ROW0, 1), ROW1] + [ROW2] == ONE_RUNNING.rows;
  }

  lemma CountTwo(a: Row, b: Row)
    ensures EvaluatingCount([a, b]) == (if a.status == Evaluating then 1 else 0) + if b.status == Evaluating then 1 else 0
  {
    assert [] + [a] == [a] && [a] + [b] == [a, b];
    EvaluatingSnoc([], a);
    EvaluatingSnoc([a], b);
  }

  const TWO_CHANGES := [
    Proposes(OPEN_ENV, FIRST, 0), BatchWrites(OPEN_ENV, K, Num(21.0), "api_batch", 1), BatchCommits,
    Proposes(OPEN_ENV, SECOND, 2)]

  lemma ReachOneRunning()
    ensures Run(TwoKeys({}), Start(map[K := Num(20.0), L := Num(20.0)]), TWO_CHANGES) == Machine(ONE_RUNNING, map[])
  {
    var reg, m0, es := TwoKeys({}), Start(map[K := Num(20.0), L := Num(20.0)]), TWO_CHANGES;
    FirstIsApplied();
    BatchClosesFirst();
    SecondIsApplied();
    assert es[..3] == [es[0], es[1], es[2]];
    hide Propose, Write;
    RunThree(reg, m0, es[0], es[1], es[2]);
  }

  /** The no-op undo can also leave two changes evaluating at once: a committed batch
      closed the first, a second one was applied, and the undo re-opens the first. */
  lemma NoOpUndoReopensBesideAnother() returns (m: Machine)
    ensures m == Run(TwoKeys({}), Start(map[K := Num(20.0), L := Num(20.0)]), TWO_CHANGES)
    ensures EvaluatingCount(m.s.rows) == 1
    ensures var written := Step(TwoKeys({}), m, BatchWrites(OPEN_ENV, K, Num(21.0), "api_batch", 3));
            var undone := Step(TwoKeys({}), written, BatchUndoes(OPEN_ENV, K, 4));
            EvaluatingCount(undone.s.rows) == 2 && undone.s.settings == m.s.settings
  {
    m := Machine(ONE_RUNNING, map[]);
    ReachOneRunning();
    hide Run;
    assert ONE_RUNNING.settings[K := Num(21.0)] == ONE_RUNNING.settings;
    UndoReopensFirst();
    RunningCounts();
  }

  const STILL_OPEN := map[K := Batch("api_batch", Num(20.5), Some(1))]

  lemma ReachStillOpen()
    ensures Step(TwoKeys({}), Machine(ONE_CHANGE, map[]), TWO_CHANGES[1]) == Machine(AFTER_BATCH, STILL_OPEN)
  {
    BatchClosesFirst();
  }

  /** Without the commit the second change is applied while the batch may still be
      undone, and then its undo alone leaves both evaluating. */
  lemma ProposalWhileOpenRunsTwo() returns (m: Machine)
    ensures m == Run(TwoKeys({}), Start(map[K := Num(20.0), L := Num(20.0)]), [TWO_CHANGES[0], TWO_CHANGES[1], TWO_CHANGES[3]])
    ensures m.open.Keys == {K} && EvaluatingCount(m.s.rows) == 1
    ensures EvaluatingCount(Step(TwoKeys({}), m, BatchUndoes(OPEN_ENV, K, 4)).s.rows) == 2
  {
    m := Machine(ONE_RUNNING, STILL_OPEN);
    var reg, m0, es := TwoKeys({}), Start(map[K := Num(20.0), L := Num(20.0)]), TWO_CHANGES;
    FirstIsApplied();
    SecondIsApplied();
    UndoReopensFirst();
    RunningCounts();
    hide Propose, EvaluatingCount, NewestManualBy, Run;
    assert Step(reg, m0, es[0]) == Machine(ONE_CHANGE, map[]);
    assert Step(reg, Machine(AFTER_BATCH, STILL_OPEN), es[3]) == m;
    assert Step(reg, m, BatchUndoes(OPEN_ENV, K, 4)).s.rows == TWO_RUNNING;
    ReachStillOpen();
    hide Step;
    RunThree(reg, m0, es[0], es[1], es[3]);
  }

  const OPEN_ROW := Row(
    0, K, Some(Num(20.0)), Num(25.0), ManualSource, Manual, 0, Some(14 * DAY_S), Some("api_batch"), NO_EVIDENCE, None)
  const LATER_ROW := Row(
    1, K, Some(Num(25.0)), Num(30.0), ManualSource, Manual, 1, Some(1 + 14 * DAY_S), Some("api"), NO_EVIDENCE, None)
  const OPEN := map[K := Batch("api_batch", Num(20.0), Some(0))]
  const OPENED := State(map[K := Num(25.0), L := Num(20.0)], [OPEN_ROW], 1)
  const OVERWRITTEN := State(map[K := Num(30.0), L := Num(20.0)], [OPEN_ROW, LATER_ROW], 2)

  const OPEN_WRITE := [
    BatchWrites(OPEN_ENV, K, Num(25.0), "api_batch", 0), OwnerWrites(OPEN_ENV, K, Num(30.0), "api", 1)]

  lemma ReachOpened()
    ensures Step(TwoKeys({}), Start(map[K := Num(20.0), L := Num(20.0)]), OPEN_WRITE[0]) == Machine(OPENED, OPEN)
  {}

  lemma ReachOverwritten()
    ensures Step(TwoKeys({}), Machine(OPENED, OPEN), OPEN_WRITE[1]) == Machine(OVERWRITTEN, OPEN)
  {
    assert [OPEN_ROW] + [LATER_ROW] == [OPEN_ROW, LATER_ROW];
  }

  lemma RunTwo(reg: Registry, m0: Machine, e1: Event, e2: Event)
    ensures Run(reg, m0, [e1, e2]) == Step(reg, Step(reg, m0, e1), e2)
  {
    assert [e1, e2][..1] == [e1] && [e1][..0] == [];
    assert Run(reg, m0, [e1]) == Step(reg, m0, e1);
  }

  lemma UndoTakesFirst()
    ensures UndoBatch(OVERWRITTEN, K, "api_batch").rows == [LATER_ROW]
  {
    var r1, r2 := OPEN_ROW, LATER_ROW;
    assert [r1, r2][..1] == [r1] && [r1][..0] == [];
    assert NewestManualBy([r1], K, "api_batch", 4) == Some(r1);
    assert NewestManualBy([r1, r2], K, "api_batch", UNDO_LIMIT) == Some(r1);
    assert ReopenNewest([r1, r2], K, SUPERSEDE_LIMIT, 0) == [r1, r2];
    assert DeleteId([r1], 0) == [] && DeleteId([r1], 0) + [r2] == [r2];
    assert DeleteId([r1, r2], 0) == DeleteId([r1], 0) + [r2];
  }

  lemma ReachUndone()
    ensures Step(TwoKeys({}), Machine(OVERWRITTEN, OPEN), BatchUndoes(OPEN_ENV, K, 3)).s
            == State(map[K := Num(20.0), L := Num(20.0)], [LATER_ROW], 2)
  {
    UndoTakesFirst();
    hide ReopenNewest, DeleteId, NewestManualBy;
  }

  lemma LaterIsReference()
    ensures ManualValue([LATER_ROW], K) == Some(Num(30.0))
  {}

  /** An owner write of a key between its batch write and the undo also ends outside the
      cap: the undo restores the value under the owner's newer row. */
  lemma OwnerWriteWhileOpenBreaksCap()
    ensures var m := Run(TwoKeys({}), Start(map[K := Num(20.0), L := Num(20.0)]), OPEN_WRITE);
            var m' := Step(TwoKeys({}), m, BatchUndoes(OPEN_ENV, K, 3));
            K in m'.s.settings && m'.s.settings[K] == Num(20.0) && ManualValue(m'.s.rows, K) == Some(Num(30.0))
            && !Within(Some(m'.s.settings[K]), ManualValue(m'.s.rows, K), 1.5)
  {
    hide Run, Step, ManualValue;
    ReachOpened();
    ReachOverwritten();
    RunTwo(TwoKeys({}), Start(map[K := Num(20.0), L := Num(20.0)]), OPEN_WRITE[0], OPEN_WRITE[1]);
    ReachUndone();
    LaterIsReference();
  }

  /** The denylist is why the drift cap excludes denylisted keys: pinning one records a
      reference that later owner writes never move. */
  lemma PinnedDeniedKeyEscapesCap() returns (m: Machine)
    ensures m == Step(TwoKeys({K}), Step(TwoKeys({K}), Start(map[K := Num(20.0), L := Num(20.0)]), FreezesKey(K, 3, 0)),
                      OwnerWrites(OPEN_ENV, K, Num(30.0), "api", 1))
    ensures m.s.settings[K] == Num(30.0) && ManualValue(m.s.rows, K) == Some(Num(20.0))
            && !Within(Some(m.s.settings[K]), ManualValue(m.s.rows, K), 1.5)
  {
    var reg := TwoKeys({K});
    var m1 := Step(reg, Start(map[K := Num(20.0), L := Num(20.0)]), FreezesKey(K, 3, 0));
    m := Step(reg, m1, OwnerWrites(OPEN_ENV, K, Num(30.0), "api", 1));
  }

  // ------------------------------------------------------- a default that does not fit

  const WARM_SPEC := Spec(FloatKind, Some(10.0), Some(30.0), false)
  const COMFORT := Registry(
    map[CeilingC := WARM_SPEC, SetpointC := WARM_SPEC], {}, map[CeilingC := 0.5, SetpointC := 0.5],
    map[CeilingC := 1.5, SetpointC := 1.5], {}, {}, {}, {}, {}, 0.5)
  const COMFORT_ENV := Env(true, {CeilingC, SetpointC}, {}, false, Some(7), 14, 28, true)
  const HOUSE := map[CeilingC := Num(21.0), SetpointC := Num(20.5)]
  const CLEARED := Row(
    0, SetpointC, Some(Num(20.5)), Num(21.0), ManualSource, Manual, 0, Some(14 * DAY_S), Some("api"), NO_EVIDENCE, None)
  const AFTER_DELETE := State(map[CeilingC := Num(21.0), SetpointC := Num(21.0)], [CLEARED], 1)
  const LOWER := Proposal(SetpointC, Num(20.5), TuningReview, None, None)

  /** From settings that agree, the owner drops the setpoint of 20.5, whose default 21.0
      does not fit beside the ceiling of 21.0. */
  lemma DeleteBreaksAgreement()
    ensures Coherent(COMFORT, HOUSE)
    ensures Run(COMFORT, Start(HOUSE), [OwnerDeletes(COMFORT_ENV, SetpointC, Num(21.0), "api", 0)]) == Machine(AFTER_DELETE, map[])
    ensures !CrossCheck(COMFORT, AFTER_DELETE.settings, SetpointC, Num(21.0)) && !Coherent(COMFORT, AFTER_DELETE.settings)
  {
    var e := OwnerDeletes(COMFORT_ENV, SetpointC, Num(21.0), "api", 0);
    assert [e][..0] == [];
    DeleteLeaves();
    hide Step;
    assert !KeyCoherent(COMFORT, AFTER_DELETE.settings, SetpointC);
  }

  lemma DeleteLeaves()
    ensures Step(COMFORT, Start(HOUSE), OwnerDeletes(COMFORT_ENV, SetpointC, Num(21.0), "api", 0)) == Machine(AFTER_DELETE, map[])
  {
    assert [] + [CLEARED] == [CLEARED];
    assert HOUSE[SetpointC := Num(21.0)] == AFTER_DELETE.settings;
  }

  lemma LowerIsApplied()
    ensures Propose(COMFORT, COMFORT_ENV, AFTER_DELETE, LOWER, 15 * DAY_S).1 == Applied(1, Num(21.0), Num(20.5))
  {
    assert [CLEARED][..0] == [] && Newest([CLEARED], ManualOf(SetpointC)) == Some(CLEARED);
    NotBusyMeansNone([CLEARED]);
    forall i | 0 <= i < |[CLEARED]| ensures [CLEARED][i] == CLEARED {}
    assert CLEARED.frozenUntil == Some(14 * DAY_S) && !Frozen([CLEARED], SetpointC, 15 * DAY_S);
    assert AFTER_DELETE.settings[SetpointC] == Num(21.0) && AFTER_DELETE.settings[CeilingC] == Num(21.0);
  }

  lemma AfterDeleteIsWellFormed()
    ensures WellFormed(COMFORT, AFTER_DELETE)
  {
    var es := [OwnerDeletes(COMFORT_ENV, SetpointC, Num(21.0), "api", 0)];
    DeleteBreaksAgreement();
    CoherentIsTyped(COMFORT, State(HOUSE, [], 0));
    RunKeeps(COMFORT, HOUSE, es);
  }

  /** After that delete a change of the setpoint is applied, and its rollback is refused:
      the setting stays where the change put it. */
  lemma RollbackAfterDeleteIsRefused()
    ensures var m := Run(COMFORT, Start(HOUSE), [OwnerDeletes(COMFORT_ENV, SetpointC, Num(21.0), "api", 0)]);
            var (s1, out) := Propose(COMFORT, COMFORT_ENV, m.s, LOWER, 15 * DAY_S);
            var (s2, back) := Rollback(COMFORT, COMFORT_ENV, s1, 1, NO_EVIDENCE, 16 * DAY_S);
            out.Applied? && back == RestoreInvalid && SetpointC in s2.settings && s2.settings[SetpointC] == Num(20.5)
  {
    DeleteBreaksAgreement();
    LowerIsApplied();
    AfterDeleteIsWellFormed();
    hide Run, Rollback, WellFormed;
    ProposeEffect(COMFORT, COMFORT_ENV, AFTER_DELETE, LOWER, 15 * DAY_S);
    ProposeThenRollback(COMFORT, COMFORT_ENV, AFTER_DELETE, LOWER, 15 * DAY_S, NO_EVIDENCE, 16 * DAY_S);
    hide Propose, CrossCheck;
  }
}
