/** One change at a time, and a proposal and its rollback cancelling out
    (src/auto_tune.py). */
module AutoTuneSingle {
  import opened Common
  import opened Ledger
  import opened AutoTune
  import opened AutoTuneRuns
  import opened AutoTuneBase
  import opened AutoTuneDrift

  // -------------------------------------------------- counting evaluating rows

  function EvaluatingCount(rows: seq<Row>): nat {
    if |rows| == 0 then 0
    else EvaluatingCount(rows[..|rows| - 1]) + if rows[|rows| - 1].status == Evaluating then 1 else 0
  }

  lemma EvaluatingSnoc(rows: seq<Row>, r: Row)
    ensures EvaluatingCount(rows + [r]) == EvaluatingCount(rows) + if r.status == Evaluating then 1 else 0
  {
    assert (rows + [r])[..|rows|] == rows;
  }

  lemma {:induction false} EvaluatingLe(a: seq<Row>, b: seq<Row>)
    requires |a| == |b| && forall i :: 0 <= i < |a| && b[i].status == Evaluating ==> a[i].status == Evaluating
    ensures EvaluatingCount(b) <= EvaluatingCount(a)
  {
    if |a| > 0 { EvaluatingLe(a[..|a| - 1], b[..|b| - 1]); }
  }

  lemma {:induction false} NotBusyMeansNone(rows: seq<Row>)
    ensures !Busy(rows) <==> EvaluatingCount(rows) == 0
    ensures !Busy(rows) <==> forall i :: 0 <= i < |rows| ==> rows[i].status != Evaluating
  {
    if |rows| > 0 { NotBusyMeansNone(rows[..|rows| - 1]); }
  }

  /** After a change that is being evaluated come only the owner's rows. */
  ghost predicate Tidy(rows: seq<Row>) {
    forall i, j :: 0 <= i < j < |rows| && rows[i].status == Evaluating ==> rows[j].status == Manual
  }

  lemma {:induction false} TidyMeansOne(rows: seq<Row>)
    requires Tidy(rows)
    ensures EvaluatingCount(rows) <= 1
  {
    if |rows| > 0 {
      var rest := rows[..|rows| - 1];
      TidyMeansOne(rest);
      NotBusyMeansNone(rest);
    }
  }

  // --------------------------------------------------------------- invariant

  /** Which manual row closed a row, if one did, and that it exists. */
  predicate MidBounded(r: Row, bound: nat) {
    (r.status == Evaluating || r.status == Superseded) && r.evidence.manualId.Some? ==> r.evidence.manualId.value < bound
  }

  ghost predicate MidsBounded(s: State) {
    forall i :: 0 <= i < |s.rows| ==> MidBounded(s.rows[i], s.nextId)
  }

  /** No proposal is applied while any batch write waits to be undone or kept, and a batch
      entry that leaves its value as it is finds no row of an earlier batch. */
  predicate SingleLegal(reg: Registry, m: Machine, e: Event) {
    match e
    case Proposes(env, p, now) => Propose(reg, env, m.s, p, now).1.Applied? ==> m.open == map[]
    case BatchWrites(_, key, v, name, _) => NoOp(reg, m.s, key, v) ==> Harmless(m.s, key, name)
    case _ => true
  }

  predicate SingleRun(reg: Registry, m: Machine, es: seq<Event>) {
    |es| > 0 ==> SingleRun(reg, m, es[..|es| - 1]) && SingleLegal(reg, Run(reg, m, es[..|es| - 1]), es[|es| - 1])
  }

  /** Evaluating, or closed by a manual row no older than `mark`, so that the undo of an
      open batch write may still re-open it. */
  predicate LiveFrom(r: Row, mark: nat) {
    r.status == Evaluating
    || (r.status == Superseded && r.evidence.manualId.Some? && r.evidence.manualId.value >= mark)
  }

  ghost predicate TidyFrom(rows: seq<Row>, mark: nat) {
    forall i, j :: 0 <= i < j < |rows| && LiveFrom(rows[i], mark) ==> rows[j].status == Manual
  }

  /** The undo of `k` can only take back a row no older than `mark`. */
  ghost predicate TakesFrom(s: State, k: Key, name: string, mark: nat) {
    var m := NewestManualBy(s.rows, k, name, UNDO_LIMIT);
    m.Some? ==> m.value.id >= mark
  }

  /** `mark` is the next row id when the oldest open batch began, or now if none is open. */
  ghost predicate SingleInv(reg: Registry, m: Machine, mark: nat) {
    WellFormed(reg, m.s) && MidsBounded(m.s) && TidyFrom(m.s.rows, mark) && mark <= m.s.nextId
    && (m.open == map[] ==> mark == m.s.nextId)
    && forall k :: k in m.open ==> TakesFrom(m.s, k, m.open[k].name, mark)
  }

  function Mark(m: Machine, mark: nat): nat { if m.open == map[] then m.s.nextId else mark }

  // ------------------------------------------------------ rows, old and new

  /** Row by row, the new rows are live only where the old ones were. */
  ghost predicate NoMoreLive(a: seq<Row>, b: seq<Row>, mark: nat, bound: nat) {
    |a| == |b| && forall i :: 0 <= i < |a| ==>
      (LiveFrom(b[i], mark) ==> LiveFrom(a[i], mark)) && MidBounded(b[i], bound)
  }

  lemma RelabelledTidy(a: seq<Row>, b: seq<Row>, mark: nat, bound: nat)
    requires TidyFrom(a, mark) && SameTrails(a, b) && NoMoreLive(a, b, mark, bound)
    ensures TidyFrom(b, mark)
  {
    forall i, j | 0 <= i < j < |b| && LiveFrom(b[i], mark) ensures b[j].status == Manual {
      assert EntryOf(a[j]) == EntryOf(b[j]);
    }
  }

  lemma LaterMark(s: State, mark: nat)
    requires TidyFrom(s.rows, mark) && mark <= s.nextId
    ensures TidyFrom(s.rows, s.nextId)
  {}

  lemma TakesSame(s: State, s': State, k: Key, name: string, mark: nat)
    requires TakesFrom(s, k, name, mark) && SameTrails(s.rows, s'.rows)
    ensures TakesFrom(s', k, name, mark)
  {
    NewestManualBySame(s.rows, s'.rows, k, name, UNDO_LIMIT);
  }

  /** An event that only relabels rows. */
  lemma RelabelledKeeps(reg: Registry, m: Machine, s': State, mark: nat)
    requires SingleInv(reg, m, mark) && WellFormed(reg, s') && s'.nextId == m.s.nextId
    requires SameTrails(m.s.rows, s'.rows) && NoMoreLive(m.s.rows, s'.rows, mark, s'.nextId)
    ensures SingleInv(reg, m.(s := s'), mark)
  {
    RelabelledTidy(m.s.rows, s'.rows, mark, s'.nextId);
    forall k | k in m.open ensures TakesFrom(s', k, m.open[k].name, mark) { TakesSame(m.s, s', k, m.open[k].name, mark); }
  }

  lemma RelabelNoMoreLive(s: State, id: nat, status: Status, frozen: Option<int>, ev: Evidence, mark: nat)
    requires InIdOrder(s.rows) && MidsBounded(s) && ById(s.rows, id).Some?
    requires var was := ById(s.rows, id).value;
             status == Kept || status == RolledBack || (status == was.status && ev == was.evidence)
             || (was.status == Evaluating && ev.manualId == was.evidence.manualId
                 && (status == Superseded || status == Evaluating))
    ensures NoMoreLive(s.rows, Relabel(s.rows, id, status, frozen, ev), mark, s.nextId)
  {
    ByIdFound(s.rows, id);
    var w :| 0 <= w < |s.rows| && s.rows[w] == ById(s.rows, id).value;
    forall i | 0 <= i < |s.rows| ensures s.rows[i].id == id ==> i == w {}
    forall i | 0 <= i < |s.rows| ensures MidBounded(s.rows[i], s.nextId) {}
  }

  // ------------------------------------------------------------- every event

  lemma ProposeSingle(reg: Registry, m: Machine, env: Env, p: Proposal, now: int, mark: nat)
    requires SingleInv(reg, m, mark) && SingleLegal(reg, m, Proposes(env, p, now))
    ensures var m' := Step(reg, m, Proposes(env, p, now)); SingleInv(reg, m', Mark(m', mark))
  {
    ProposeKeeps(reg, env, m.s, p, now);
    ProposeEffect(reg, env, m.s, p, now);
    var (s', out) := Propose(reg, env, m.s, p, now);
    hide Propose, WellFormed, Moved, Busy;
    if out.Applied? {
      AppliedKeeps(reg, m, s', NewRow(reg, out.id, p, out.oldValue, out.newValue, now));
    } else {
      RelabelledKeeps(reg, m, s', mark);
    }
  }

  lemma AppliedKeeps(reg: Registry, m: Machine, s': State, r: Row)
    requires SingleInv(reg, m, m.s.nextId) && m.open == map[] && !Busy(m.s.rows) && r.evidence.manualId.None?
    requires WellFormed(reg, s') && s'.rows == m.s.rows + [r] && s'.nextId == m.s.nextId + 1
    ensures SingleInv(reg, m.(s := s'), s'.nextId)
  {
    NotBusyMeansNone(m.s.rows);
    forall i | 0 <= i < |m.s.rows| ensures !LiveFrom(m.s.rows[i], s'.nextId) && MidBounded(m.s.rows[i], s'.nextId) {
      assert MidBounded(m.s.rows[i], m.s.nextId);
    }
  }

  /** A new manual row on top. */
  lemma ManualKeeps(reg: Registry, m: Machine, r: Row, s1: State, mark: nat)
    requires SingleInv(reg, m, mark) && r.status == Manual && r.id == m.s.nextId
    requires s1.rows == m.s.rows + [r] && s1.nextId == m.s.nextId + 1
    ensures TidyFrom(s1.rows, mark) && MidsBounded(s1)
    ensures forall k :: k in m.open ==> TakesFrom(s1, k, m.open[k].name, mark)
  {
    forall i | 0 <= i < |s1.rows| ensures MidBounded(s1.rows[i], s1.nextId) {
      if i < |m.s.rows| { assert MidBounded(m.s.rows[i], m.s.nextId); }
    }
    forall k | k in m.open ensures TakesFrom(s1, k, m.open[k].name, mark) {
      NewestManualBySnoc(m.s.rows, r, k, m.open[k].name, UNDO_LIMIT);
    }
  }

  lemma SupersedeNoMoreLive(rows: seq<Row>, key: Key, mid: nat, mark: nat)
    requires mark <= mid && forall i :: 0 <= i < |rows| ==> MidBounded(rows[i], mid + 1)
    ensures NoMoreLive(rows, SupersedeNewest(rows, key, SUPERSEDE_LIMIT, mid), mark, mid + 1)
  {}

  /** Everything of the invariant but which batches are open now. */
  ghost predicate OldBatches(reg: Registry, m: Machine, s': State, mark: nat) {
    WellFormed(reg, s') && MidsBounded(s') && TidyFrom(s'.rows, mark) && m.s.nextId <= s'.nextId
    && forall k :: k in m.open ==> TakesFrom(s', k, m.open[k].name, mark)
  }

  lemma StoreSingle(reg: Registry, m: Machine, env: Env, key: Key, v: Value, name: string, now: int, mark: nat)
    requires SingleInv(reg, m, mark) && key in m.s.settings && IsDefault(reg, key, v)
    ensures OldBatches(reg, m, StoreValue(reg, env, m.s, key, v, Owner(name), now), mark)
  {
    StoreKeeps(reg, env, m.s, key, v, name, now);
    var s' := StoreValue(reg, env, m.s, key, v, Owner(name), now);
    StoreEffect(reg, env, m.s, key, v, name, now);
    hide StoreValue, WellFormed, IsDefault;
    if Recorded(reg, env, m.s, key, v) {
      RecordedKeeps(reg, m, ManualRow(env, m.s, key, v, name, now), s', key, mark);
    } else {
      SameRowsTake(m, s', mark);
    }
  }

  lemma OwnerSingle(reg: Registry, m: Machine, env: Env, key: Key, v: Value, name: string, now: int, mark: nat)
    requires SingleInv(reg, m, mark)
    ensures OldBatches(reg, m, Write(reg, env, m.s, key, v, Owner(name), now), mark)
    ensures OldBatches(reg, m, Clear(reg, env, m.s, key, v, name, now), mark)
  {
    if key in m.s.settings && Accepts(reg, m.s.settings, key, v) {
      CoerceIdempotent(reg.schema[key].kind, v);
      StoreSingle(reg, m, env, key, Validate(reg.schema[key], v).value, name, now, mark);
    }
    if key in m.s.settings && IsDefault(reg, key, v) { StoreSingle(reg, m, env, key, v, name, now, mark); }
  }

  lemma SameRowsTake(m: Machine, s': State, mark: nat)
    requires s'.rows == m.s.rows && forall k :: k in m.open ==> TakesFrom(m.s, k, m.open[k].name, mark)
    ensures forall k :: k in m.open ==> TakesFrom(s', k, m.open[k].name, mark)
  {
    forall k | k in m.open ensures TakesFrom(s', k, m.open[k].name, mark) { assert TakesFrom(m.s, k, m.open[k].name, mark); }
  }

  lemma RecordedKeeps(reg: Registry, m: Machine, r: Row, s': State, key: Key, mark: nat)
    requires SingleInv(reg, m, mark) && WellFormed(reg, s') && r.status == Manual && r.id == m.s.nextId
    requires s'.rows == SupersedeNewest(m.s.rows + [r], key, SUPERSEDE_LIMIT, m.s.nextId) && s'.nextId == m.s.nextId + 1
    requires SameTrails(m.s.rows + [r], s'.rows)
    ensures MidsBounded(s') && TidyFrom(s'.rows, mark)
    ensures forall k :: k in m.open ==> TakesFrom(s', k, m.open[k].name, mark)
  {
    var s1 := s'.(rows := m.s.rows + [r]);
    ManualKeeps(reg, m, r, s1, mark);
    SupersedeNoMoreLive(s1.rows, key, m.s.nextId, mark);
    RelabelledTidy(s1.rows, s'.rows, mark, s'.nextId);
    hide SupersedeNewest;
    forall k | k in m.open ensures TakesFrom(s', k, m.open[k].name, mark) { TakesSame(s1, s', k, m.open[k].name, mark); }
  }

  lemma BatchSingle(reg: Registry, m: Machine, env: Env, key: Key, v: Value, name: string, now: int, mark: nat)
    requires SingleInv(reg, m, mark) && SingleLegal(reg, m, BatchWrites(env, key, v, name, now))
    ensures var m' := Step(reg, m, BatchWrites(env, key, v, name, now)); SingleInv(reg, m', Mark(m', mark))
  {
    if key in m.s.settings && Accepts(reg, m.s.settings, key, v) {
      var m' := Step(reg, m, BatchWrites(env, key, v, name, now));
      OwnerSingle(reg, m, env, key, v, name, now, mark);
      BatchTakes(reg, m.s, env, key, v, name, now, mark);
      assert key in m'.open && m'.open[key].name == name;
    }
  }

  /** The undo of this batch write will find its own row, or none. */
  lemma BatchTakes(reg: Registry, s: State, env: Env, key: Key, v: Value, name: string, now: int, mark: nat)
    requires WellFormed(reg, s) && key in s.settings && Accepts(reg, s.settings, key, v) && mark <= s.nextId
    requires NoOp(reg, s, key, v) ==> Harmless(s, key, name)
    ensures TakesFrom(Write(reg, env, s, key, v, Owner(name), now), key, name, mark)
  {
    var s' := Write(reg, env, s, key, v, Owner(name), now);
    var canonical := Validate(reg.schema[key], v).value;
    OwnerWriteEffect(reg, env, s, key, v, name, now);
    hide Write;
    if Recorded(reg, env, s, key, canonical) {
      var r := ManualRow(env, s, key, canonical, name, now);
      NewestManualBySnoc(s.rows, r, key, name, UNDO_LIMIT);
      NewestManualBySame(s.rows + [r], s'.rows, key, name, UNDO_LIMIT);
    } else {
      SameMeansEqual(reg, s, key, v);
      if !NoOp(reg, s, key, v) {
        NewestNoneMeansAbsent(s.rows, key);
        forall i | 0 <= i < |s.rows| && s.rows[i].key == key ensures s.rows[i].actor.None? { assert RowOk(reg, s.rows[i]); }
        NewestManualByMisses(s.rows, key, name, UNDO_LIMIT);
      }
    }
  }

  lemma UndoSingle(reg: Registry, m: Machine, env: Env, key: Key, now: int, mark: nat)
    requires SingleInv(reg, m, mark)
    ensures var m' := Step(reg, m, BatchUndoes(env, key, now)); SingleInv(reg, m', Mark(m', mark))
  {
    if key in m.open {
      var name := m.open[key].name;
      var s' := Write(reg, env, m.s, key, m.open[key].prior, BatchUndo(name), now);
      UndoKeeps(reg, env, m.s, key, m.open[key].prior, name, now);
      if key in m.s.settings && Accepts(reg, m.s.settings, key, m.open[key].prior) {
        UndoWriteEffect(reg, env, m.s, key, m.open[key].prior, name, now);
        var found := NewestManualBy(m.s.rows, key, name, UNDO_LIMIT);
        if found.Some? {
          NewestManualByMember(m.s.rows, key, name, UNDO_LIMIT);
          assert TakesFrom(m.s, key, name, mark);
          hide Write, Accepts, WellFormed, NewestManualBy, TidyFrom, ReopenNewest, DeleteId;
          UndoneKeeps(reg, m, s', key, found.value, mark);
        }
      }
      hide Write, Accepts, WellFormed, TidyFrom, ReopenNewest, DeleteId;
      ClosedKeeps(reg, m, s', key, mark);
    }
  }

  lemma ClosedKeeps(reg: Registry, m: Machine, s': State, key: Key, mark: nat)
    requires SingleInv(reg, m, mark) && key in m.open && WellFormed(reg, s') && s'.nextId == m.s.nextId
    requires s'.rows == m.s.rows
             || (MidsBounded(s') && TidyFrom(s'.rows, mark)
                 && forall k :: k in m.open && k != key ==> TakesFrom(s', k, m.open[k].name, mark))
    ensures var m' := Machine(s', m.open - {key}); SingleInv(reg, m', Mark(m', mark))
  {
    if s'.rows == m.s.rows { SameRowsTake(m, s', mark); }
    LaterMark(s', mark);
  }

  lemma ReopenNoMoreLive(rows: seq<Row>, key: Key, mid: nat, mark: nat, bound: nat)
    requires mark <= mid && forall i :: 0 <= i < |rows| ==> MidBounded(rows[i], bound)
    ensures NoMoreLive(rows, ReopenNewest(rows, key, SUPERSEDE_LIMIT, mid), mark, bound)
  {}

  lemma UndoneKeeps(reg: Registry, m: Machine, s': State, key: Key, r: Row, mark: nat)
    requires SingleInv(reg, m, mark) && key in m.open && s'.nextId == m.s.nextId
    requires r.id >= mark && r in m.s.rows && r.key == key
    requires s'.rows == DeleteId(ReopenNewest(m.s.rows, key, SUPERSEDE_LIMIT, r.id), r.id)
    ensures MidsBounded(s') && TidyFrom(s'.rows, mark)
    ensures forall k :: k in m.open && k != key ==> TakesFrom(s', k, m.open[k].name, mark)
  {
    var s1 := m.s.(rows := ReopenNewest(m.s.rows, key, SUPERSEDE_LIMIT, r.id));
    ReopenKeepsTrails(m.s.rows, key, SUPERSEDE_LIMIT, r.id);
    ReopenNoMoreLive(m.s.rows, key, r.id, mark, m.s.nextId);
    RelabelledTidy(m.s.rows, s1.rows, mark, m.s.nextId);
    forall i | 0 <= i < |s1.rows| && s1.rows[i].id == r.id ensures s1.rows[i].key == key {
      var w :| 0 <= w < |m.s.rows| && m.s.rows[w] == r;
      assert i == w;
    }
    hide ReopenNewest;
    DeleteTidy(s1.rows, r.id, mark);
    DeleteKeepsOrder(s1.rows, r.id);
    forall i | 0 <= i < |s'.rows| ensures MidBounded(s'.rows[i], s'.nextId) { assert s'.rows[i] in s1.rows; }
    forall k | k in m.open && k != key ensures TakesFrom(s', k, m.open[k].name, mark) {
      TakesSame(m.s, s1, k, m.open[k].name, mark);
      NewestManualByDelete(s1.rows, r.id, k, m.open[k].name, UNDO_LIMIT);
    }
  }

  /** Rows taken away leave the others in order. */
  lemma {:induction false} DeleteTidy(rows: seq<Row>, id: nat, mark: nat)
    requires TidyFrom(rows, mark) && InIdOrder(rows)
    ensures TidyFrom(DeleteId(rows, id), mark)
  {
    if |rows| > 0 {
      var rest, last := rows[..|rows| - 1], rows[|rows| - 1];
      DeleteTidy(rest, id, mark);
      DeleteKeepsOrder(rest, id);
      forall i | 0 <= i < |DeleteId(rest, id)| && LiveFrom(DeleteId(rest, id)[i], mark) ensures last.status == Manual {
        assert DeleteId(rest, id)[i] in rest;
      }
    }
  }

  lemma RollbackSingle(reg: Registry, m: Machine, env: Env, id: nat, ev: Evidence, now: int, mark: nat)
    requires SingleInv(reg, m, mark)
    ensures SingleInv(reg, Step(reg, m, RollsBack(env, id, ev, now)), mark)
  {
    RollbackKeeps(reg, env, m.s, id, ev, now);
    if RollbackCheck(reg, m.s, id).None? {
      RelabelNoMoreLive(m.s, id, RolledBack, FreezeUntil(now, env.rollbackFreezeDays), ev, mark);
      hide WellFormed, SameTrails;
      RelabelledKeeps(reg, m, Rollback(reg, env, m.s, id, ev, now).0, mark);
    }
  }

  lemma FreezeNoMoreLive(s: State, id: nat, days: int, now: int, mark: nat)
    requires InIdOrder(s.rows) && MidsBounded(s)
    ensures NoMoreLive(s.rows, FreezeRow(s, id, days, now).rows, mark, s.nextId)
  {
    if ById(s.rows, id).Some? {
      var row := ById(s.rows, id).value;
      RelabelNoMoreLive(s, id, row.status, Some(now + MaxI(0, days) * DAY_S), row.evidence, mark);
    }
  }

  lemma QuietSingle(reg: Registry, m: Machine, e: Event, mark: nat)
    requires SingleInv(reg, m, mark) && (e.Keeps? || e.FreezesRow? || e.Judges?)
    ensures SingleInv(reg, Step(reg, m, e), mark)
  {
    var m' := Step(reg, m, e);
    QuietKeeps(reg, m, e);
    assert NoMoreLive(m.s.rows, m'.s.rows, mark, m.s.nextId) by {
      match e {
        case Keeps(id, ev) =>
          if Keep(m.s, id, ev).1 { RelabelNoMoreLive(m.s, id, Kept, ById(m.s.rows, id).value.frozenUntil, ev, mark); }
        case FreezesRow(id, days, now) => FreezeNoMoreLive(m.s, id, days, now, mark);
        case Judges(id, status, ev) =>
          if MayJudge(m.s, id, status, ev) {
            RelabelNoMoreLive(m.s, id, status, ById(m.s.rows, id).value.frozenUntil, ev, mark);
          }
      }
    }
    hide Step, WellFormed, SameTrails, NoMoreLive;
    RelabelledKeeps(reg, m, m'.s, mark);
  }

  lemma FreezeKeySingle(reg: Registry, m: Machine, key: Key, days: int, now: int, mark: nat)
    requires SingleInv(reg, m, mark)
    ensures var m' := Step(reg, m, FreezesKey(key, days, now)); SingleInv(reg, m', Mark(m', mark))
  {
    FreezeKeyKeeps(reg, m.s, key, days, now);
    var s' := FreezeKey(m.s, key, days, now);
    var n := Newest(m.s.rows, OfKey(key));
    if n.Some? {
      FreezeKeeps(reg, m.s, n.value.id, days, now);
      FreezeNoMoreLive(m.s, n.value.id, days, now, mark);
      hide FreezeRow, WellFormed, SameTrails, NoMoreLive;
      RelabelledKeeps(reg, m, s', mark);
    } else {
      hide WellFormed;
      ManualKeeps(reg, m, PinRow(m.s, key, days, now), s', mark);
      LaterMark(s', mark);
    }
  }

  lemma StepSingle(reg: Registry, m: Machine, e: Event, mark: nat)
    requires SingleInv(reg, m, mark) && SingleLegal(reg, m, e)
    ensures SingleInv(reg, Step(reg, m, e), Mark(Step(reg, m, e), mark))
  {
    match e {
      case Proposes(env, p, now) => ProposeSingle(reg, m, env, p, now, mark);
      case OwnerWrites(env, key, v, name, now) =>
        OwnerSingle(reg, m, env, key, v, name, now, mark);
        LaterMark(Step(reg, m, e).s, mark);
      case OwnerDeletes(env, key, v, name, now) =>
        OwnerSingle(reg, m, env, key, v, name, now, mark);
        LaterMark(Step(reg, m, e).s, mark);
      case BatchWrites(env, key, v, name, now) => BatchSingle(reg, m, env, key, v, name, now, mark);
      case BatchUndoes(env, key, now) => UndoSingle(reg, m, env, key, now, mark);
      case BatchCommits => LaterMark(m.s, mark);
      case FreezesKey(key, days, now) => FreezeKeySingle(reg, m, key, days, now, mark);
      case RollsBack(env, id, ev, now) => RollbackSingle(reg, m, env, id, ev, now, mark);
      case _ => QuietSingle(reg, m, e, mark);
    }
  }

  lemma {:induction false} RunSingle(reg: Registry, settings: map<Key, Value>, es: seq<Event>) returns (mark: nat)
    requires Typed(reg, State(settings, [], 0)) && SingleRun(reg, Start(settings), es)
    ensures SingleInv(reg, Run(reg, Start(settings), es), mark)
  {
    if |es| == 0 {
      mark := 0;
    } else {
      var before := RunSingle(reg, settings, es[..|es| - 1]);
      var m := Run(reg, Start(settings), es[..|es| - 1]);
      StepSingle(reg, m, es[|es| - 1], before);
      mark := Mark(Step(reg, m, es[|es| - 1]), before);
    }
  }

  /** One change at a time: every reachable state has at most one evaluating row in the
      whole ledger, and after it come only the owner's rows, whatever the proposals, owner
      writes, pins, undos and verdicts were. */
  lemma SingleEvaluating(reg: Registry, settings: map<Key, Value>, es: seq<Event>)
    requires Typed(reg, State(settings, [], 0)) && SingleRun(reg, Start(settings), es)
    ensures var s := Run(reg, Start(settings), es).s;
            EvaluatingCount(s.rows) <= 1 && Tidy(s.rows) && MidsBounded(s)
  {
    var mark := RunSingle(reg, settings, es);
    TidyMeansOne(Run(reg, Start(settings), es).s.rows);
  }

  // --------------------------------------------------------------- cancelling

  lemma ByIdOfSnoc(rows: seq<Row>, r: Row)
    ensures ById(rows + [r], r.id) == Some(r)
  {
    assert (rows + [r])[|rows + [r]| - 1] == r;
  }

  lemma RelabelSnoc(rows: seq<Row>, r: Row, status: Status, frozen: Option<int>, ev: Evidence)
    requires forall i :: 0 <= i < |rows| ==> rows[i].id != r.id
    ensures Relabel(rows + [r], r.id, status, frozen, ev)
            == rows + [r.(status := status, frozenUntil := frozen, evidence := ev)]
  {}

  /** An applied proposal followed at once by its rollback. The rollback goes through and
      gives the settings back exactly when the value in force before the proposal passed
      its cross-check against the others; what remains is the one row, labelled as rolled
      back and freezing its key. Otherwise it is refused and the change stays. */
  lemma ProposeThenRollback(reg: Registry, env: Env, s: State, p: Proposal, now: int, ev: Evidence, later: int)
    requires WellFormed(reg, s) && Propose(reg, env, s, p, now).1.Applied?
    ensures p.key in s.settings
    ensures var (s1, out) := Propose(reg, env, s, p, now);
            var (s2, back) := Rollback(reg, env, s1, out.id, ev, later);
            (s2.settings == s.settings <==> CrossCheck(reg, s.settings, p.key, s.settings[p.key]))
            && (if s2.settings == s.settings
                then back == Restored(out.oldValue) && IsRolledBack(env, s, s2, p.key, out.id, ev, later)
                else back == RestoreInvalid && s2 == s1)
  {
    ProposeEffect(reg, env, s, p, now);
    ProposedMoves(reg, env, s, p, now);
    var (s1, out) := Propose(reg, env, s, p, now);
    var r := NewRow(reg, out.id, p, out.oldValue, out.newValue, now);
    hide Propose, CheckMove;
    ByIdOfSnoc(s.rows, r);
    NewestOfSnoc(s.rows, r, OfKey(p.key));
    RelabelSnoc(s.rows, r, RolledBack, FreezeUntil(later, env.rollbackFreezeDays), ev);
    assert s.settings[p.key := out.newValue][p.key := out.oldValue] == s.settings;
  }

  /** One more row than before, rolled back and freezing its key. */
  predicate IsRolledBack(env: Env, s: State, s2: State, key: Key, id: nat, ev: Evidence, later: int) {
    |s2.rows| == |s.rows| + 1 && s2.rows[..|s.rows|] == s.rows
    && var r := s2.rows[|s.rows|];
       r.key == key && r.id == id && r.status == RolledBack && r.evidence == ev
       && r.frozenUntil == FreezeUntil(later, env.rollbackFreezeDays)
  }

  /** What is proposed differs from a value that is valid by itself. */
  lemma ProposedMoves(reg: Registry, env: Env, s: State, p: Proposal, now: int)
    requires Typed(reg, s) && Propose(reg, env, s, p, now).1.Applied?
    ensures p.key in reg.schema && p.key in s.settings
    ensures Validate(reg.schema[p.key], s.settings[p.key]) == Some(s.settings[p.key])
    ensures Propose(reg, env, s, p, now).1.newValue != s.settings[p.key]
  {}

  /** So it is in every state of every run, deletes included. */
  lemma ProposeThenRollbackOnRuns(
    reg: Registry, settings: map<Key, Value>, es: seq<Event>, env: Env, p: Proposal, now: int, ev: Evidence, later: int)
    requires Typed(reg, State(settings, [], 0))
    ensures var m := Run(reg, Start(settings), es);
            var (s1, out) := Propose(reg, env, m.s, p, now);
            out.Applied? ==>
              var (s2, back) := Rollback(reg, env, s1, out.id, ev, later);
              p.key in m.s.settings
              && (s2.settings == m.s.settings <==> CrossCheck(reg, m.s.settings, p.key, m.s.settings[p.key]))
              && (if s2.settings == m.s.settings
                  then back == Restored(out.oldValue) && IsRolledBack(env, m.s, s2, p.key, out.id, ev, later)
                  else back == RestoreInvalid && s2 == s1)
    ensures Coherent(reg, settings) && DefaultsFit(reg, Start(settings), es) ==>
              var m := Run(reg, Start(settings), es);
              var (s1, out) := Propose(reg, env, m.s, p, now);
              out.Applied? ==> Rollback(reg, env, s1, out.id, ev, later).0.settings == m.s.settings
  {
    var m := Run(reg, Start(settings), es);
    RunKeeps(reg, settings, es);
    if Coherent(reg, settings) && DefaultsFit(reg, Start(settings), es) { RunCoherent(reg, settings, es); }
    hide Run, WellFormed, Propose, Rollback, CrossCheck;
    var (s1, out) := Propose(reg, env, m.s, p, now);
    if out.Applied? {
      ProposeThenRollback(reg, env, m.s, p, now, ev, later);
      if Coherent(reg, m.s.settings) { CoherentChecks(reg, env, m.s, p, now); }
    }
  }

  lemma CoherentChecks(reg: Registry, env: Env, s: State, p: Proposal, now: int)
    requires Coherent(reg, s.settings) && Propose(reg, env, s, p, now).1.Applied?
    ensures p.key in s.settings && CrossCheck(reg, s.settings, p.key, s.settings[p.key])
  {
    CoherentIsTyped(reg, s);
    ProposedMoves(reg, env, s, p, now);
    assert KeyCoherent(reg, s.settings, p.key);
  }

  /** A refused rollback changes nothing; a performed one touches one setting and one row. */
  lemma RefusedRollbackIsSilent(reg: Registry, env: Env, s: State, id: nat, ev: Evidence, now: int)
    ensures var (s', out) := Rollback(reg, env, s, id, ev, now);
            if out.Restored? then
              ById(s.rows, id).Some?
              && (forall k :: k in s.settings && k != ById(s.rows, id).value.key ==> k in s'.settings && s'.settings[k] == s.settings[k])
              && |s'.rows| == |s.rows|
              && (forall i :: 0 <= i < |s.rows| && s.rows[i].id != id ==> s'.rows[i] == s.rows[i])
            else s' == s
  {}
}
