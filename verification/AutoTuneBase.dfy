/** What every event of a run keeps, legal or not: rows in id order and typed values; and
    which events keep settings that pass their own checks (src/auto_tune.py,
    src/runtime_settings.py). */
module AutoTuneBase {
  import opened Common
  import opened Ledger
  import opened AutoTune
  import opened AutoTuneRuns

  /** Denylisted keys never get an automated or an owner's row, and the value to
      restore has its key's type. */
  ghost predicate RowOk(reg: Registry, r: Row) {
    (r.key in reg.denied ==> r.actor.None? && r.status == Manual)
    && (r.key in reg.schema && r.oldValue.Some? ==> Coerce(reg.schema[r.key].kind, r.oldValue.value) == r.oldValue)
  }

  ghost predicate RowsOk(reg: Registry, rows: seq<Row>) {
    forall i :: 0 <= i < |rows| ==> RowOk(reg, rows[i])
  }

  ghost predicate WellFormed(reg: Registry, s: State) { Ordered(s) && Typed(reg, s) && RowsOk(reg, s.rows) }

  // ----------------------------------------------------- effects of the writes

  function ManualRow(env: Env, s: State, key: Key, after: Value, name: string, now: int): Row
    requires key in s.settings
  {
    Row(s.nextId, key, Some(s.settings[key]), after, ManualSource, Manual, now,
        FreezeUntil(now, env.manualFreezeDays), Some(name), NO_EVIDENCE, None)
  }

  predicate Recorded(reg: Registry, env: Env, s: State, key: Key, v: Value)
    requires key in reg.schema && key in s.settings
  {
    key !in reg.denied && !Same(reg.schema[key], s.settings[key], v)
    && (key in env.allow || Newest(s.rows, OfKey(key)).Some?)
  }

  lemma CoerceIdempotent(kind: Kind, v: Value)
    requires Coerce(kind, v).Some?
    ensures Coerce(kind, Coerce(kind, v).value) == Coerce(kind, v)
  {
    if kind.IntKind? && v.Num? { TruncIdempotent(v.x); }
  }

  /** An owner's value comes into force: one manual row on top if it is recorded. */
  lemma StoreEffect(reg: Registry, env: Env, s: State, key: Key, v: Value, name: string, now: int)
    requires Typed(reg, s) && key in s.settings && IsDefault(reg, key, v)
    ensures var s' := StoreValue(reg, env, s, key, v, Owner(name), now);
            s'.settings == s.settings[key := v]
            && (if Recorded(reg, env, s, key, v)
                then s'.nextId == s.nextId + 1
                     && SameTrails(s.rows + [ManualRow(env, s, key, v, name, now)], s'.rows)
                     && s'.rows == SupersedeNewest(s.rows + [ManualRow(env, s, key, v, name, now)], key,
                                                   SUPERSEDE_LIMIT, s.nextId)
                else s'.rows == s.rows && s'.nextId == s.nextId)
  {
    SupersedeKeepsTrails(s.rows + [ManualRow(env, s, key, v, name, now)], key, SUPERSEDE_LIMIT, s.nextId);
  }

  /** An accepted owner write: the value, and one manual row on top if it is recorded. */
  lemma OwnerWriteEffect(reg: Registry, env: Env, s: State, key: Key, v: Value, name: string, now: int)
    requires Typed(reg, s) && key in s.settings && Accepts(reg, s.settings, key, v)
    ensures var s' := Write(reg, env, s, key, v, Owner(name), now);
            var canonical := Validate(reg.schema[key], v).value;
            s'.settings == s.settings[key := canonical]
            && (if Recorded(reg, env, s, key, canonical)
                then s'.nextId == s.nextId + 1
                     && SameTrails(s.rows + [ManualRow(env, s, key, canonical, name, now)], s'.rows)
                     && s'.rows == SupersedeNewest(s.rows + [ManualRow(env, s, key, canonical, name, now)], key,
                                                   SUPERSEDE_LIMIT, s.nextId)
                else s'.rows == s.rows && s'.nextId == s.nextId)
  {
    CoerceIdempotent(reg.schema[key].kind, v);
    StoreEffect(reg, env, s, key, Validate(reg.schema[key], v).value, name, now);
  }

  lemma SameMeansEqual(reg: Registry, s: State, key: Key, v: Value)
    requires Typed(reg, s) && key in reg.schema && Validate(reg.schema[key], v).Some?
    ensures Same(reg.schema[key], s.settings[key], Validate(reg.schema[key], v).value)
            <==> s.settings[key] == Validate(reg.schema[key], v).value
    ensures Same(reg.schema[key], s.settings[key], v) <==> s.settings[key] == Validate(reg.schema[key], v).value
  {
    ValidateIdempotent(reg.schema[key], v);
    if Validate(reg.schema[key], s.settings[key]).Some? { CoerceIdempotent(reg.schema[key].kind, s.settings[key]); }
  }

  lemma SameTypedMeansEqual(reg: Registry, s: State, key: Key, v: Value)
    requires Typed(reg, s) && IsDefault(reg, key, v)
    ensures Same(reg.schema[key], s.settings[key], v) <==> s.settings[key] == v
  {}

  /** An applied proposal: one automated row on top, within a step and within the cap. */
  lemma ProposeEffect(reg: Registry, env: Env, s: State, p: Proposal, now: int)
    requires Typed(reg, s)
    ensures var (s', out) := Propose(reg, env, s, p, now);
            match out
            case Applied(id, before, after) =>
              p.key in reg.schema && p.key !in reg.denied && p.key in s.settings
              && before == s.settings[p.key] && s'.settings == s.settings[p.key := after]
              && Moved(reg, s, p.key, after)
              && s'.rows == s.rows + [NewRow(reg, id, p, before, after, now)] && id == s.nextId && s'.nextId == id + 1
              && !Busy(s.rows)
            case Refused(LedgerError(false)) =>
              p.key in reg.schema && p.key in s.settings && s'.rows == s.rows && s'.nextId == s.nextId
              && exists after :: s'.settings == s.settings[p.key := after] && Moved(reg, s, p.key, after)
            case _ => s' == s
  {
    if CheckStatic(reg, env, p).None? && CheckLocked(reg, env, s, p, now).None? {
      var spec := reg.schema[p.key];
      ValidateIdempotent(spec, p.value);
      CoerceIdempotent(spec.kind, p.value);
      var cur := Validate(spec, s.settings[p.key]).value;
      assert cur == s.settings[p.key];
      assert s.settings[p.key := cur] == s.settings;
      assert Moved(reg, s, p.key, Validate(spec, p.value).value);
    }
  }

  /** `after` is a canonical value that the move checks and the validator let the key
      take from where it is. */
  ghost predicate Moved(reg: Registry, s: State, key: Key, after: Value) {
    key in reg.schema && key in s.settings && Coerce(reg.schema[key].kind, after) == Some(after)
    && CheckMove(reg, s.rows, key, s.settings[key], after).None?
    && Accepts(reg, s.settings, key, after) && Validate(reg.schema[key], after) == Some(after)
  }

  /** The undo of a batch write: the value goes back, and the newest manual row of the
      key that the batch left among the newest five, if there is one, is taken back. */
  lemma UndoWriteEffect(reg: Registry, env: Env, s: State, key: Key, v: Value, batch: string, now: int)
    requires key in s.settings && Accepts(reg, s.settings, key, v)
    ensures var s' := Write(reg, env, s, key, v, BatchUndo(batch), now);
            s'.settings == s.settings[key := Validate(reg.schema[key], v).value] && s'.nextId == s.nextId
            && s'.rows == match NewestManualBy(s.rows, key, batch, UNDO_LIMIT)
                          case Some(m) => DeleteId(ReopenNewest(s.rows, key, SUPERSEDE_LIMIT, m.id), m.id)
                          case None => s.rows
  {}

  // ----------------------------------------------------- every step, any event

  lemma {:induction false} NewestSameTrails(a: seq<Row>, b: seq<Row>, key: Key)
    requires SameTrails(a, b)
    ensures var x, y := Newest(a, OfKey(key)), Newest(b, OfKey(key));
            (x.Some? <==> y.Some?)
            && (x.Some? ==> EntryOf(x.value) == EntryOf(y.value) && x.value.actor == y.value.actor)
  {
    if |a| > 0 {
      assert EntryOf(a[|a| - 1]) == EntryOf(b[|b| - 1]);
      NewestSameTrails(a[..|a| - 1], b[..|b| - 1], key);
    }
  }

  lemma {:induction false} NewestOfSnoc(rows: seq<Row>, r: Row, q: Query)
    ensures Newest(rows + [r], q) == if Matches(q, r) then Some(r) else Newest(rows, q)
  {
    assert (rows + [r])[..|rows|] == rows;
  }

  lemma {:induction false} NewestNoneMeansAbsent(rows: seq<Row>, key: Key)
    ensures Newest(rows, OfKey(key)).None? ==> forall i :: 0 <= i < |rows| ==> rows[i].key != key
  {
    if |rows| > 0 { NewestNoneMeansAbsent(rows[..|rows| - 1], key); }
  }

  lemma FrameKeeps(reg: Registry, s: State, s': State)
    requires WellFormed(reg, s) && SameTrails(s.rows, s'.rows) && s'.nextId == s.nextId && Typed(reg, s')
    ensures WellFormed(reg, s')
  {
    assert forall i :: 0 <= i < |s'.rows| ==> EntryOf(s.rows[i]) == EntryOf(s'.rows[i]);
  }

  lemma AppendKeeps(reg: Registry, s: State, r: Row, s': State)
    requires WellFormed(reg, s) && Typed(reg, s') && RowOk(reg, r)
    requires s'.rows == s.rows + [r] && r.id == s.nextId && s'.nextId == s.nextId + 1
    ensures WellFormed(reg, s')
  {}

  lemma StoreKeeps(reg: Registry, env: Env, s: State, key: Key, v: Value, name: string, now: int)
    requires WellFormed(reg, s) && key in s.settings && IsDefault(reg, key, v)
    ensures WellFormed(reg, StoreValue(reg, env, s, key, v, Owner(name), now))
  {
    var s' := StoreValue(reg, env, s, key, v, Owner(name), now);
    StoreEffect(reg, env, s, key, v, name, now);
    hide StoreValue;
    if Recorded(reg, env, s, key, v) {
      var r := ManualRow(env, s, key, v, name, now);
      var s1 := State(s'.settings, s.rows + [r], s.nextId + 1);
      AppendKeeps(reg, s, r, s1);
      FrameKeeps(reg, s1, s');
    }
  }

  lemma WriteKeeps(reg: Registry, env: Env, s: State, key: Key, v: Value, name: string, now: int)
    requires WellFormed(reg, s)
    ensures WellFormed(reg, Write(reg, env, s, key, v, Owner(name), now))
  {
    if key in s.settings && Accepts(reg, s.settings, key, v) {
      CoerceIdempotent(reg.schema[key].kind, v);
      StoreKeeps(reg, env, s, key, Validate(reg.schema[key], v).value, name, now);
    }
  }

  lemma ClearKeeps(reg: Registry, env: Env, s: State, key: Key, v: Value, name: string, now: int)
    requires WellFormed(reg, s)
    ensures WellFormed(reg, Clear(reg, env, s, key, v, name, now))
  {
    if key in s.settings && IsDefault(reg, key, v) { StoreKeeps(reg, env, s, key, v, name, now); }
  }

  lemma {:induction false} DeleteKeepsOrder(rows: seq<Row>, id: nat)
    requires InIdOrder(rows)
    ensures forall r :: r in DeleteId(rows, id) ==> r in rows && r.id != id
    ensures InIdOrder(DeleteId(rows, id))
  {
    if |rows| > 0 {
      var d := DeleteId(rows[..|rows| - 1], id);
      DeleteKeepsOrder(rows[..|rows| - 1], id);
      assert forall i :: 0 <= i < |d| ==> d[i] in d;
    }
  }

  lemma DeleteKeeps(reg: Registry, s: State, id: nat)
    requires WellFormed(reg, s)
    ensures WellFormed(reg, s.(rows := DeleteId(s.rows, id)))
  {
    var s' := s.(rows := DeleteId(s.rows, id));
    DeleteKeepsOrder(s.rows, id);
    assert forall i :: 0 <= i < |s'.rows| ==> s'.rows[i] in s'.rows;
  }

  lemma UndoKeeps(reg: Registry, env: Env, s: State, key: Key, v: Value, batch: string, now: int)
    requires WellFormed(reg, s)
    ensures WellFormed(reg, Write(reg, env, s, key, v, BatchUndo(batch), now))
  {
    if key in s.settings && Accepts(reg, s.settings, key, v) {
      CoerceIdempotent(reg.schema[key].kind, v);
      UndoWriteEffect(reg, env, s, key, v, batch, now);
      var s' := Write(reg, env, s, key, v, BatchUndo(batch), now);
      hide Write;
      if NewestManualBy(s.rows, key, batch, UNDO_LIMIT).Some? {
        var mid := NewestManualBy(s.rows, key, batch, UNDO_LIMIT).value.id;
        var s1 := State(s'.settings, ReopenNewest(s.rows, key, SUPERSEDE_LIMIT, mid), s.nextId);
        ReopenKeepsTrails(s.rows, key, SUPERSEDE_LIMIT, mid);
        FrameKeeps(reg, s, s1);
        DeleteKeeps(reg, s1, mid);
      }
    }
  }

  lemma RelabelKeeps(
    reg: Registry, s: State, id: nat, status: Status, frozen: Option<int>, ev: Evidence, settings: map<Key, Value>)
    requires WellFormed(reg, s) && ById(s.rows, id).Some? && Typed(reg, s.(settings := settings))
    requires ById(s.rows, id).value.status == Manual <==> status == Manual
    ensures WellFormed(reg, State(settings, Relabel(s.rows, id, status, frozen, ev), s.nextId))
    ensures SameTrails(s.rows, Relabel(s.rows, id, status, frozen, ev))
  {
    ByIdFound(s.rows, id);
    var w :| 0 <= w < |s.rows| && s.rows[w] == ById(s.rows, id).value;
    assert forall i :: 0 <= i < |s.rows| && s.rows[i].id == id ==> i == w;
    RelabelKeepsTrails(s.rows, id, status, frozen, ev);
    FrameKeeps(reg, s, State(settings, Relabel(s.rows, id, status, frozen, ev), s.nextId));
  }

  lemma ProposeKeeps(reg: Registry, env: Env, s: State, p: Proposal, now: int)
    requires WellFormed(reg, s)
    ensures WellFormed(reg, Propose(reg, env, s, p, now).0)
  {
    ProposeEffect(reg, env, s, p, now);
    var (s', out) := Propose(reg, env, s, p, now);
    hide Propose, CheckMove, Accepts;
    if out.Applied? {
      AppendKeeps(reg, s, NewRow(reg, out.id, p, out.oldValue, out.newValue, now), s');
    } else if out.reason == LedgerError(false) {
      FrameKeeps(reg, s, s');
    }
  }

  lemma RollbackKeeps(reg: Registry, env: Env, s: State, id: nat, ev: Evidence, now: int)
    requires WellFormed(reg, s)
    ensures WellFormed(reg, Rollback(reg, env, s, id, ev, now).0)
    ensures SameTrails(s.rows, Rollback(reg, env, s, id, ev, now).0.rows)
  {
    if RollbackCheck(reg, s, id).None? {
      var row := ById(s.rows, id).value;
      CoerceIdempotent(reg.schema[row.key].kind, row.oldValue.value);
      RelabelKeeps(reg, s, id, RolledBack, FreezeUntil(now, env.rollbackFreezeDays), ev,
                   Rollback(reg, env, s, id, ev, now).0.settings);
    }
  }

  lemma FreezeKeeps(reg: Registry, s: State, id: nat, days: int, now: int)
    requires WellFormed(reg, s)
    ensures WellFormed(reg, FreezeRow(s, id, days, now))
    ensures SameTrails(s.rows, FreezeRow(s, id, days, now).rows)
  {
    if ById(s.rows, id).Some? {
      var row := ById(s.rows, id).value;
      RelabelKeeps(reg, s, id, row.status, Some(now + MaxI(0, days) * DAY_S), row.evidence, s.settings);
    }
  }

  lemma FreezeKeyKeeps(reg: Registry, s: State, key: Key, days: int, now: int)
    requires WellFormed(reg, s)
    ensures WellFormed(reg, FreezeKey(s, key, days, now))
  {
    var n := Newest(s.rows, OfKey(key));
    if n.Some? { FreezeKeeps(reg, s, n.value.id, days, now); }
    else { AppendKeeps(reg, s, PinRow(s, key, days, now), FreezeKey(s, key, days, now)); }
  }

  lemma KeepKeeps(reg: Registry, s: State, id: nat, ev: Evidence)
    requires WellFormed(reg, s)
    ensures WellFormed(reg, Keep(s, id, ev).0) && SameTrails(s.rows, Keep(s, id, ev).0.rows)
  {
    if Keep(s, id, ev).1 { RelabelKeeps(reg, s, id, Kept, ById(s.rows, id).value.frozenUntil, ev, s.settings); }
  }

  lemma JudgeKeeps(reg: Registry, s: State, id: nat, status: Status, ev: Evidence)
    requires WellFormed(reg, s) && MayJudge(s, id, status, ev)
    ensures WellFormed(reg, Annotate(s, id, status, ev)) && SameTrails(s.rows, Annotate(s, id, status, ev).rows)
  {
    RelabelKeeps(reg, s, id, status, ById(s.rows, id).value.frozenUntil, ev, s.settings);
  }

  /** The verbs that only relabel one row leave settings and trails alone. */
  lemma QuietKeeps(reg: Registry, m: Machine, e: Event)
    requires WellFormed(reg, m.s) && (e.Keeps? || e.FreezesRow? || e.Judges?)
    ensures var m' := Step(reg, m, e);
            WellFormed(reg, m'.s) && SameTrails(m.s.rows, m'.s.rows) && m'.s.settings == m.s.settings
            && m'.open == m.open && m'.s.nextId == m.s.nextId
  {
    hide WellFormed, Relabel, ById;
    match e {
      case Keeps(id, ev) => KeepKeeps(reg, m.s, id, ev);
      case FreezesRow(id, days, now) => FreezeKeeps(reg, m.s, id, days, now);
      case Judges(id, status, ev) => if MayJudge(m.s, id, status, ev) { JudgeKeeps(reg, m.s, id, status, ev); }
    }
  }

  /** Every event of a run keeps the ledger well formed. */
  lemma StepKeeps(reg: Registry, m: Machine, e: Event)
    requires WellFormed(reg, m.s)
    ensures WellFormed(reg, Step(reg, m, e).s)
  {
    hide WellFormed;
    match e {
      case Proposes(env, p, now) => ProposeKeeps(reg, env, m.s, p, now);
      case OwnerWrites(env, key, v, name, now) => WriteKeeps(reg, env, m.s, key, v, name, now);
      case OwnerDeletes(env, key, v, name, now) => ClearKeeps(reg, env, m.s, key, v, name, now);
      case BatchWrites(env, key, v, name, now) => WriteKeeps(reg, env, m.s, key, v, name, now);
      case BatchUndoes(env, key, now) =>
        if key in m.open { UndoKeeps(reg, env, m.s, key, m.open[key].prior, m.open[key].name, now); }
      case BatchCommits =>
      case RollsBack(env, id, ev, now) => RollbackKeeps(reg, env, m.s, id, ev, now);
      case FreezesKey(key, days, now) => FreezeKeyKeeps(reg, m.s, key, days, now);
      case _ => QuietKeeps(reg, m, e);
    }
  }

  lemma {:induction false} RunKeeps(reg: Registry, settings: map<Key, Value>, es: seq<Event>)
    requires Typed(reg, State(settings, [], 0))
    ensures WellFormed(reg, Run(reg, Start(settings), es).s)
  {
    if |es| > 0 {
      RunKeeps(reg, settings, es[..|es| - 1]);
      StepKeeps(reg, Run(reg, Start(settings), es[..|es| - 1]), es[|es| - 1]);
    }
  }

  // ------------------------------------------------------- settings that agree

  /** Every setting passes its own validation and its cross-check against the others. */
  ghost predicate Coherent(reg: Registry, settings: map<Key, Value>) {
    forall k :: k in reg.schema ==> KeyCoherent(reg, settings, k)
  }

  predicate KeyCoherent(reg: Registry, settings: map<Key, Value>, k: Key) {
    k in reg.schema && k in settings && Validate(reg.schema[k], settings[k]) == Some(settings[k])
    && CrossCheck(reg, settings, k, settings[k])
  }

  /** An accepted write keeps the settings coherent: the two comfort keys check each
      other by the same inequality. */
  lemma WriteCoherent(reg: Registry, settings: map<Key, Value>, key: Key, v: Value)
    requires Coherent(reg, settings) && Accepts(reg, settings, key, v)
    ensures Coherent(reg, settings[key := Validate(reg.schema[key], v).value])
  {
    var canonical := Validate(reg.schema[key], v).value;
    var after := settings[key := canonical];
    ValidateIdempotent(reg.schema[key], v);
    forall k | k in reg.schema ensures KeyCoherent(reg, after, k) { assert KeyCoherent(reg, settings, k); }
  }

  lemma CoherentIsTyped(reg: Registry, s: State)
    requires Coherent(reg, s.settings)
    ensures Typed(reg, s)
  {
    forall k | k in reg.schema
      ensures k in s.settings && Coerce(reg.schema[k].kind, s.settings[k]) == Some(s.settings[k])
    {
      assert KeyCoherent(reg, s.settings, k);
    }
  }

  lemma ProposeCoherent(reg: Registry, env: Env, s: State, p: Proposal, now: int)
    requires Coherent(reg, s.settings)
    ensures Coherent(reg, Propose(reg, env, s, p, now).0.settings)
  {
    CoherentIsTyped(reg, s);
    ProposeEffect(reg, env, s, p, now);
    var (s', out) := Propose(reg, env, s, p, now);
    hide Propose, CheckMove;
    if out.Applied? {
      WriteCoherent(reg, s.settings, p.key, out.newValue);
    } else if out.reason == LedgerError(false) {
      var after :| s'.settings == s.settings[p.key := after] && Moved(reg, s, p.key, after);
      WriteCoherent(reg, s.settings, p.key, after);
    }
  }

  lemma UndoCoherent(reg: Registry, env: Env, s: State, key: Key, v: Value, batch: string, now: int)
    requires Coherent(reg, s.settings)
    ensures Coherent(reg, Write(reg, env, s, key, v, BatchUndo(batch), now).settings)
  {
    if key in s.settings && Accepts(reg, s.settings, key, v) {
      UndoWriteEffect(reg, env, s, key, v, batch, now);
      WriteCoherent(reg, s.settings, key, v);
    }
  }

  lemma RollbackCoherent(reg: Registry, env: Env, s: State, id: nat, ev: Evidence, now: int)
    requires Coherent(reg, s.settings)
    ensures Coherent(reg, Rollback(reg, env, s, id, ev, now).0.settings)
  {
    if RollbackCheck(reg, s, id).None? {
      var row := ById(s.rows, id).value;
      WriteCoherent(reg, s.settings, row.key, row.oldValue.value);
    }
  }

  /** A default that comes into force is one the store would accept as it stands. */
  predicate DefaultFits(reg: Registry, s: State, e: Event) {
    e.OwnerDeletes? ==>
      Accepts(reg, s.settings, e.key, e.value) && Validate(reg.schema[e.key], e.value) == Some(e.value)
  }

  /** Every event of a run keeps the settings coherent, except exactly
      a delete whose default does not fit. */
  lemma StepCoherent(reg: Registry, m: Machine, e: Event)
    requires Coherent(reg, m.s.settings)
    ensures DefaultFits(reg, m.s, e) ==> Coherent(reg, Step(reg, m, e).s.settings)
    ensures e.OwnerDeletes? && e.key in m.s.settings && IsDefault(reg, e.key, e.value) && !DefaultFits(reg, m.s, e)
            ==> !Coherent(reg, Step(reg, m, e).s.settings)
  {
    hide Coherent, Rollback, Propose;
    match e {
      case Proposes(env, p, now) => ProposeCoherent(reg, env, m.s, p, now);
      case OwnerWrites(env, key, v, name, now) => OwnerCoherent(reg, env, m.s, key, v, name, now);
      case OwnerDeletes(env, key, v, name, now) => ClearCoherent(reg, env, m.s, key, v, name, now);
      case BatchWrites(env, key, v, name, now) => OwnerCoherent(reg, env, m.s, key, v, name, now);
      case BatchUndoes(env, key, now) =>
        if key in m.open { UndoCoherent(reg, env, m.s, key, m.open[key].prior, m.open[key].name, now); }
      case RollsBack(env, id, ev, now) => RollbackCoherent(reg, env, m.s, id, ev, now);
      case _ =>
    }
  }

  lemma ClearCoherent(reg: Registry, env: Env, s: State, key: Key, v: Value, name: string, now: int)
    requires Coherent(reg, s.settings)
    ensures var fits := Accepts(reg, s.settings, key, v) && Validate(reg.schema[key], v) == Some(v);
            var s' := Clear(reg, env, s, key, v, name, now);
            (fits ==> Coherent(reg, s'.settings))
            && (key in s.settings && IsDefault(reg, key, v) && !fits ==> !Coherent(reg, s'.settings))
  {
    CoherentIsTyped(reg, s);
    if key in s.settings && IsDefault(reg, key, v) {
      StoreEffect(reg, env, s, key, v, name, now);
      hide StoreValue;
      if Accepts(reg, s.settings, key, v) && Validate(reg.schema[key], v) == Some(v) {
        WriteCoherent(reg, s.settings, key, v);
      } else {
        assert !KeyCoherent(reg, s.settings[key := v], key);
      }
    }
  }

  lemma OwnerCoherent(reg: Registry, env: Env, s: State, key: Key, v: Value, name: string, now: int)
    requires Coherent(reg, s.settings)
    ensures Coherent(reg, Write(reg, env, s, key, v, Owner(name), now).settings)
  {
    if key in s.settings && Accepts(reg, s.settings, key, v) {
      CoherentIsTyped(reg, s);
      OwnerWriteEffect(reg, env, s, key, v, name, now);
      WriteCoherent(reg, s.settings, key, v);
    }
  }

  /** Every default that came into force on the run fitted. */
  predicate DefaultsFit(reg: Registry, m: Machine, es: seq<Event>) {
    |es| > 0 ==> DefaultsFit(reg, m, es[..|es| - 1]) && DefaultFits(reg, Run(reg, m, es[..|es| - 1]).s, es[|es| - 1])
  }

  /** On such a run settings that agree at the start agree in every state. */
  lemma {:induction false} RunCoherent(reg: Registry, settings: map<Key, Value>, es: seq<Event>)
    requires Coherent(reg, settings) && DefaultsFit(reg, Start(settings), es)
    ensures Coherent(reg, Run(reg, Start(settings), es).s.settings)
  {
    if |es| > 0 {
      RunCoherent(reg, settings, es[..|es| - 1]);
      StepCoherent(reg, Run(reg, Start(settings), es[..|es| - 1]), es[|es| - 1]);
    }
  }
}
