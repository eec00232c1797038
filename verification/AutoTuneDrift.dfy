/** The drift cap over whole runs: in every reachable state a capped key with ledger rows
    is within its cap of the owner's reference value (src/auto_tune.py). Everything is said
    about one key, and only the events on that key are restricted. */
module AutoTuneDrift {
  import opened Common
  import opened Ledger
  import opened AutoTune
  import opened AutoTuneRuns
  import opened AutoTuneBase

  // ------------------------------------------------------------- legal events

  /** What a run must not do to `k` while a batch write of it waits to be undone or kept:
      move it, by a proposal, another write, a delete or a first pin. A batch entry that leaves the
      value as it is must find no row of an earlier batch among the newest five manual rows. */
  predicate CapLegal(reg: Registry, m: Machine, e: Event, k: Key) {
    match e
    case Proposes(env, p, now) => p.key == k && k in m.open ==> Propose(reg, env, m.s, p, now).0 == m.s
    case OwnerWrites(_, key, _, _, _) => key == k ==> k !in m.open
    case OwnerDeletes(_, key, _, _, _) => key == k ==> k !in m.open
    case BatchWrites(_, key, v, name, _) => key == k ==> k !in m.open && (NoOp(reg, m.s, k, v) ==> Harmless(m.s, k, name))
    case FreezesKey(key, _, _) => key == k && k in m.open ==> Newest(m.s.rows, OfKey(k)).Some?
    case _ => true
  }

  predicate NoOp(reg: Registry, s: State, key: Key, v: Value) {
    key in reg.schema && key in s.settings && Same(reg.schema[key], s.settings[key], v)
  }

  predicate Harmless(s: State, key: Key, name: string) { NewestManualBy(s.rows, key, name, UNDO_LIMIT).None? }

  predicate CapRun(reg: Registry, m: Machine, es: seq<Event>, k: Key) {
    |es| > 0 ==> CapRun(reg, m, es[..|es| - 1], k) && CapLegal(reg, Run(reg, m, es[..|es| - 1]), es[|es| - 1], k)
  }

  // --------------------------------------------------------------- invariant

  /** The undo of an open batch write of `k` will find its own manual row on top of the
      key's rows, or no row at all. */
  ghost predicate BatchOk(reg: Registry, s: State, k: Key, b: Batch)
    requires k in reg.schema
  {
    Coerce(reg.schema[k].kind, b.prior) == Some(b.prior)
    && match b.mid
       case Some(mid) =>
         var n := Newest(s.rows, OfKey(k));
         n.Some? && n.value.id == mid && n.value.status == Manual && n.value.actor == Some(b.name)
       case None => Harmless(s, k, b.name)
  }

  /** The cap holds now, or would hold again after the open batch write is undone. */
  ghost predicate CapOk(m: Machine, k: Key, cap: real) {
    k in m.s.settings &&
    var t := Trail(m.s.rows, k);
    if k !in m.open then KeyOk(m.s.settings[k], t, cap)
    else if m.open[k].mid.None? then KeyOk(m.s.settings[k], t, cap) && KeyOk(m.open[k].prior, t, cap)
    else |t| > 0 && t[|t| - 1].manual && m.s.settings[k] == t[|t| - 1].after && t[|t| - 1].after.Num?
         && KeyOk(m.open[k].prior, t[..|t| - 1], cap)
  }

  ghost predicate Capped(reg: Registry, k: Key, cap: real) {
    k in reg.schema && k !in reg.denied && IsNumeric(reg.schema[k]) && MaxDrift(reg, k) == Some(cap) && cap >= 0.0
  }

  ghost predicate KeyInv(reg: Registry, m: Machine, k: Key, cap: real) {
    WellFormed(reg, m.s) && Capped(reg, k, cap) && (k in m.open ==> BatchOk(reg, m.s, k, m.open[k])) && CapOk(m, k, cap)
  }

  // ------------------------------------------------- events that leave k alone

  /** Everything the invariant of `k` looks at is the same in both states. */
  ghost predicate SameKey(a: State, b: State, k: Key) {
    k in a.settings && k in b.settings && a.settings[k] == b.settings[k] && Trail(a.rows, k) == Trail(b.rows, k)
    && SameRow(Newest(a.rows, OfKey(k)), Newest(b.rows, OfKey(k)))
    && forall name :: Harmless(a, k, name) <==> Harmless(b, k, name)
  }

  predicate SameRow(x: Option<Row>, y: Option<Row>) {
    (x.Some? <==> y.Some?) && (x.Some? ==> EntryOf(x.value) == EntryOf(y.value) && x.value.actor == y.value.actor)
  }

  lemma SameKeyKeeps(reg: Registry, m: Machine, m': Machine, k: Key, cap: real)
    requires KeyInv(reg, m, k, cap) && SameKey(m.s, m'.s, k) && WellFormed(reg, m'.s)
    requires (k in m.open <==> k in m'.open) && (k in m.open ==> m.open[k] == m'.open[k])
    ensures KeyInv(reg, m', k, cap)
  {}

  lemma RelabelledIsSame(a: State, b: State, k: Key)
    requires SameTrails(a.rows, b.rows) && k in a.settings && k in b.settings && a.settings[k] == b.settings[k]
    ensures SameKey(a, b, k)
  {
    SameTrailsSameTrail(a.rows, b.rows, k);
    NewestSameTrails(a.rows, b.rows, k);
    forall name ensures Harmless(a, k, name) <==> Harmless(b, k, name) {
      NewestManualBySame(a.rows, b.rows, k, name, UNDO_LIMIT);
    }
  }

  lemma AppendedIsSame(a: State, r: Row, b: State, k: Key)
    requires b.rows == a.rows + [r] && r.key != k && k in a.settings && k in b.settings && a.settings[k] == b.settings[k]
    ensures SameKey(a, b, k)
  {
    TrailSnoc(a.rows, r, k);
    NewestOfSnoc(a.rows, r, OfKey(k));
    forall name ensures Harmless(a, k, name) <==> Harmless(b, k, name) {
      NewestManualBySnoc(a.rows, r, k, name, UNDO_LIMIT);
    }
  }

  lemma {:induction false} DeleteKeepsOthersNewest(rows: seq<Row>, id: nat, other: Key)
    requires forall i :: 0 <= i < |rows| && rows[i].id == id ==> rows[i].key != other
    ensures Newest(DeleteId(rows, id), OfKey(other)) == Newest(rows, OfKey(other))
    ensures Trail(DeleteId(rows, id), other) == Trail(rows, other)
  {
    if |rows| > 0 {
      var rest, last := rows[..|rows| - 1], rows[|rows| - 1];
      DeleteKeepsOthersNewest(rest, id, other);
      if last.id != id {
        NewestOfSnoc(DeleteId(rest, id), last, OfKey(other));
        TrailSnoc(DeleteId(rest, id), last, other);
      }
    }
  }

  lemma DeletedIsSame(a: State, id: nat, b: State, k: Key)
    requires b.rows == DeleteId(a.rows, id) && forall i :: 0 <= i < |a.rows| && a.rows[i].id == id ==> a.rows[i].key != k
    requires k in a.settings && k in b.settings && a.settings[k] == b.settings[k]
    ensures SameKey(a, b, k)
  {
    DeleteKeepsOthersNewest(a.rows, id, k);
    forall name ensures Harmless(a, k, name) <==> Harmless(b, k, name) {
      NewestManualByDelete(a.rows, id, k, name, UNDO_LIMIT);
    }
  }

  lemma SameKeyTrans(a: State, b: State, c: State, k: Key)
    requires SameKey(a, b, k) && SameKey(b, c, k)
    ensures SameKey(a, c, k)
  {
    forall name ensures Harmless(a, k, name) <==> Harmless(c, k, name) { assert Harmless(a, k, name) <==> Harmless(b, k, name); }
  }

  lemma StoreElsewhere(reg: Registry, s: State, env: Env, key: Key, v: Value, name: string, now: int, k: Key)
    requires WellFormed(reg, s) && key != k && k in s.settings && key in s.settings && IsDefault(reg, key, v)
    ensures SameKey(s, StoreValue(reg, env, s, key, v, Owner(name), now), k)
  {
    var s' := StoreValue(reg, env, s, key, v, Owner(name), now);
    StoreEffect(reg, env, s, key, v, name, now);
    hide StoreValue, SameKey, WellFormed;
    if Recorded(reg, env, s, key, v) {
      var r := ManualRow(env, s, key, v, name, now);
      var s1 := State(s'.settings, s.rows + [r], s'.nextId);
      AppendedIsSame(s, r, s1, k);
      RelabelledIsSame(s1, s', k);
      SameKeyTrans(s, s1, s', k);
    } else {
      RelabelledIsSame(s, s', k);
    }
  }

  lemma OwnerElsewhere(reg: Registry, s: State, env: Env, key: Key, v: Value, name: string, now: int, k: Key)
    requires WellFormed(reg, s) && key != k && k in s.settings
    ensures SameKey(s, Write(reg, env, s, key, v, Owner(name), now), k)
    ensures SameKey(s, Clear(reg, env, s, key, v, name, now), k)
  {
    RelabelledIsSame(s, s, k);
    if key in s.settings && Accepts(reg, s.settings, key, v) {
      CoerceIdempotent(reg.schema[key].kind, v);
      StoreElsewhere(reg, s, env, key, Validate(reg.schema[key], v).value, name, now, k);
    }
    if key in s.settings && IsDefault(reg, key, v) { StoreElsewhere(reg, s, env, key, v, name, now, k); }
  }

  lemma UndoElsewhere(reg: Registry, s: State, env: Env, key: Key, v: Value, batch: string, now: int, k: Key)
    requires WellFormed(reg, s) && key != k && k in s.settings
    ensures SameKey(s, Write(reg, env, s, key, v, BatchUndo(batch), now), k)
  {
    var s' := Write(reg, env, s, key, v, BatchUndo(batch), now);
    if key in s.settings && Accepts(reg, s.settings, key, v) {
      UndoWriteEffect(reg, env, s, key, v, batch, now);
      var found := NewestManualBy(s.rows, key, batch, UNDO_LIMIT);
      hide Write, SameKey, Accepts, NewestManualBy;
      if found.Some? {
        NewestManualByMember(s.rows, key, batch, UNDO_LIMIT);
        DeleteElsewhere(s, s', key, found.value, k);
      } else {
        RelabelledIsSame(s, s', k);
      }
    }
  }

  lemma DeleteElsewhere(s: State, s': State, key: Key, m: Row, k: Key)
    requires Ordered(s) && m in s.rows && m.key == key && key != k
    requires k in s.settings && k in s'.settings && s.settings[k] == s'.settings[k]
    requires s'.rows == DeleteId(ReopenNewest(s.rows, key, SUPERSEDE_LIMIT, m.id), m.id)
    ensures SameKey(s, s', k)
  {
    var s1 := s'.(rows := ReopenNewest(s.rows, key, SUPERSEDE_LIMIT, m.id));
    ReopenKeepsTrails(s.rows, key, SUPERSEDE_LIMIT, m.id);
    forall i | 0 <= i < |s1.rows| && s1.rows[i].id == m.id ensures s1.rows[i].key != k {
      var w :| 0 <= w < |s.rows| && s.rows[w] == m;
      assert i == w;
    }
    hide SameKey, ReopenNewest, DeleteId;
    RelabelledIsSame(s, s1, k);
    DeletedIsSame(s1, m.id, s', k);
    SameKeyTrans(s, s1, s', k);
  }

  // ------------------------------------------------------------ moves of k itself

  /** A manual row that equals the current value makes the distance zero. */
  lemma ManualOnTopOk(cur: Value, t: seq<Entry>, e: Entry, cap: real)
    requires e.manual && e.after == cur && cur.Num? && cap >= 0.0
    ensures KeyOk(cur, t + [e], cap)
  {
    RefOfSnocManual(t, e);
  }

  lemma KeyCommit(cur: Value, t: seq<Entry>, cap: real)
    requires |t| > 0 && t[|t| - 1].manual && cur == t[|t| - 1].after && cur.Num? && cap >= 0.0
    ensures KeyOk(cur, t, cap)
  {
    assert t == t[..|t| - 1] + [t[|t| - 1]];
    ManualOnTopOk(cur, t[..|t| - 1], t[|t| - 1], cap);
  }

  lemma AutomatedOnTopOk(cur: Value, after: Value, t: seq<Entry>, e: Entry, cap: real)
    requires !e.manual && e.before == Some(cur) && cur.Num? && cap >= 0.0 && KeyOk(cur, t, cap)
    requires if |t| > 0 then Within(Some(after), RefOf(t), cap) else Within(Some(after), Some(cur), cap)
    ensures KeyOk(after, t + [e], cap)
  {
    RefOfSnocAutomated(t, e);
  }

  lemma MoveStaysInCap(reg: Registry, s: State, k: Key, after: Value, cap: real)
    requires Capped(reg, k, cap) && Moved(reg, s, k, after) && Typed(reg, s)
    requires KeyOk(s.settings[k], Trail(s.rows, k), cap)
    ensures s.settings[k].Num? && after.Num?
    ensures var t := Trail(s.rows, k);
            if |t| > 0 then Within(Some(after), RefOf(t), cap) else Within(Some(after), Some(s.settings[k]), cap)
  {
    ReferenceOfTrail(s.rows, k);
  }

  lemma KeyPropose(reg: Registry, m: Machine, env: Env, p: Proposal, now: int, k: Key, cap: real)
    requires KeyInv(reg, m, k, cap) && CapLegal(reg, m, Proposes(env, p, now), k)
    ensures KeyInv(reg, Step(reg, m, Proposes(env, p, now)), k, cap)
  {
    ProposeKeeps(reg, env, m.s, p, now);
    ProposeEffect(reg, env, m.s, p, now);
    var (s', out) := Propose(reg, env, m.s, p, now);
    hide Propose, WellFormed, SameKey;
    if s' == m.s {
    } else if p.key != k {
      if out.Applied? { AppendedIsSame(m.s, NewRow(reg, out.id, p, out.oldValue, out.newValue, now), s', k); }
      else { RelabelledIsSame(m.s, s', k); }
      SameKeyKeeps(reg, m, m.(s := s'), k, cap);
    } else if out.Applied? {
      KeyApplied(reg, m, s', NewRow(reg, out.id, p, out.oldValue, out.newValue, now), out.newValue, k, cap);
    } else {
      var after :| s'.settings == m.s.settings[k := after] && Moved(reg, m.s, k, after);
      KeyUnlogged(reg, m, s', after, k, cap);
    }
  }

  lemma KeyApplied(reg: Registry, m: Machine, s': State, r: Row, after: Value, k: Key, cap: real)
    requires KeyInv(reg, m, k, cap) && WellFormed(reg, s') && k !in m.open && Moved(reg, m.s, k, after)
    requires s'.settings == m.s.settings[k := after] && s'.rows == m.s.rows + [r]
    requires r.key == k && r.status != Manual && r.oldValue == Some(m.s.settings[k])
    ensures KeyInv(reg, m.(s := s'), k, cap)
  {
    MoveStaysInCap(reg, m.s, k, after, cap);
    TrailSnoc(m.s.rows, r, k);
    AutomatedOnTopOk(m.s.settings[k], after, Trail(m.s.rows, k), EntryOf(r), cap);
  }

  /** A proposal whose row could neither be inserted nor its write be undone still
      moved the value by a checked move. */
  lemma KeyUnlogged(reg: Registry, m: Machine, s': State, after: Value, k: Key, cap: real)
    requires KeyInv(reg, m, k, cap) && WellFormed(reg, s') && k !in m.open && Moved(reg, m.s, k, after)
    requires s'.settings == m.s.settings[k := after] && s'.rows == m.s.rows
    ensures KeyInv(reg, m.(s := s'), k, cap)
  {
    MoveStaysInCap(reg, m.s, k, after, cap);
  }

  lemma StoreTrail(reg: Registry, s: State, env: Env, key: Key, v: Value, name: string, now: int)
    requires Typed(reg, s) && key in s.settings && IsDefault(reg, key, v)
    ensures var s' := StoreValue(reg, env, s, key, v, Owner(name), now);
            s'.settings == s.settings[key := v]
            && Trail(s'.rows, key) == Trail(s.rows, key)
                 + if Recorded(reg, env, s, key, v) then [EntryOf(ManualRow(env, s, key, v, name, now))] else []
  {
    StoreEffect(reg, env, s, key, v, name, now);
    var s' := StoreValue(reg, env, s, key, v, Owner(name), now);
    hide StoreValue;
    assert Trail(s.rows, key) + [] == Trail(s.rows, key);
    if Recorded(reg, env, s, key, v) {
      var r := ManualRow(env, s, key, v, name, now);
      TrailSnoc(s.rows, r, key);
      SameTrailsSameTrail(s.rows + [r], s'.rows, key);
    }
  }

  /** A value that is not recorded changed nothing or found the key without rows. */
  lemma UnrecordedMeansQuiet(reg: Registry, s: State, env: Env, key: Key, v: Value)
    requires Typed(reg, s) && key in s.settings && IsDefault(reg, key, v) && key !in reg.denied
    requires !Recorded(reg, env, s, key, v)
    ensures s.settings[key] == v || Trail(s.rows, key) == []
  {
    SameTypedMeansEqual(reg, s, key, v);
    NewestIsLast(s.rows, key);
  }

  lemma KeyStore(reg: Registry, m: Machine, env: Env, v: Value, name: string, now: int, k: Key, cap: real)
    requires KeyInv(reg, m, k, cap) && k !in m.open && IsDefault(reg, k, v)
    ensures KeyInv(reg, m.(s := StoreValue(reg, env, m.s, k, v, Owner(name), now)), k, cap)
  {
    StoreKeeps(reg, env, m.s, k, v, name, now);
    StoreTrail(reg, m.s, env, k, v, name, now);
    hide StoreValue, WellFormed;
    if Recorded(reg, env, m.s, k, v) {
      ManualOnTopOk(v, Trail(m.s.rows, k), EntryOf(ManualRow(env, m.s, k, v, name, now)), cap);
    } else {
      UnrecordedMeansQuiet(reg, m.s, env, k, v);
    }
  }

  lemma KeyOwner(reg: Registry, m: Machine, env: Env, v: Value, name: string, now: int, k: Key, cap: real)
    requires KeyInv(reg, m, k, cap) && k !in m.open
    ensures KeyInv(reg, m.(s := Write(reg, env, m.s, k, v, Owner(name), now)), k, cap)
    ensures KeyInv(reg, m.(s := Clear(reg, env, m.s, k, v, name, now)), k, cap)
  {
    if Accepts(reg, m.s.settings, k, v) {
      CoerceIdempotent(reg.schema[k].kind, v);
      KeyStore(reg, m, env, Validate(reg.schema[k], v).value, name, now, k, cap);
    }
    if IsDefault(reg, k, v) { KeyStore(reg, m, env, v, name, now, k, cap); }
    hide StoreValue, KeyInv;
  }

  lemma KeyBatch(reg: Registry, m: Machine, env: Env, v: Value, name: string, now: int, k: Key, cap: real)
    requires KeyInv(reg, m, k, cap) && CapLegal(reg, m, BatchWrites(env, k, v, name, now), k)
    ensures KeyInv(reg, Step(reg, m, BatchWrites(env, k, v, name, now)), k, cap)
  {
    WriteKeeps(reg, env, m.s, k, v, name, now);
    if Accepts(reg, m.s.settings, k, v) {
      var m' := Step(reg, m, BatchWrites(env, k, v, name, now));
      var canonical := Validate(reg.schema[k], v).value;
      OwnerWriteEffect(reg, env, m.s, k, v, name, now);
      CoerceIdempotent(reg.schema[k].kind, v);
      StoreTrail(reg, m.s, env, k, canonical, name, now);
      hide StoreValue, WellFormed, Accepts;
      if Recorded(reg, env, m.s, k, canonical) {
        BatchRecorded(reg, m, m', ManualRow(env, m.s, k, canonical, name, now), k, cap);
      } else {
        BatchUnrecorded(reg, m, m', env, v, name, k, cap);
      }
    }
  }

  lemma BatchRecorded(reg: Registry, m: Machine, m': Machine, r: Row, k: Key, cap: real)
    requires KeyInv(reg, m, k, cap) && WellFormed(reg, m'.s) && k !in m.open
    requires r.key == k && r.status == Manual && r.actor.Some? && r.newValue.Num?
    requires SameTrails(m.s.rows + [r], m'.s.rows) && Trail(m'.s.rows, k) == Trail(m.s.rows, k) + [EntryOf(r)]
    requires m'.s.settings == m.s.settings[k := r.newValue]
    requires m'.open == m.open[k := Batch(r.actor.value, m.s.settings[k], Some(r.id))]
    ensures KeyInv(reg, m', k, cap)
  {
    NewestOfSnoc(m.s.rows, r, OfKey(k));
    NewestSameTrails(m.s.rows + [r], m'.s.rows, k);
    var t := Trail(m.s.rows, k);
    assert (t + [EntryOf(r)])[..|t|] == t;
  }

  lemma BatchUnrecorded(reg: Registry, m: Machine, m': Machine, env: Env, v: Value, name: string, k: Key, cap: real)
    requires KeyInv(reg, m, k, cap) && WellFormed(reg, m'.s) && k !in m.open && k in m.s.settings
    requires Accepts(reg, m.s.settings, k, v) && !Recorded(reg, env, m.s, k, Validate(reg.schema[k], v).value)
    requires NoOp(reg, m.s, k, v) ==> Harmless(m.s, k, name)
    requires m'.s.rows == m.s.rows && m'.s.settings == m.s.settings[k := Validate(reg.schema[k], v).value]
    requires m'.open == m.open[k := Batch(name, m.s.settings[k], None)]
    ensures KeyInv(reg, m', k, cap)
  {
    CoerceIdempotent(reg.schema[k].kind, v);
    SameMeansEqual(reg, m.s, k, v);
    UnrecordedMeansQuiet(reg, m.s, env, k, Validate(reg.schema[k], v).value);
    if !NoOp(reg, m.s, k, v) {
      NewestIsLast(m.s.rows, k);
      NewestNoneMeansAbsent(m.s.rows, k);
      NewestManualByMisses(m.s.rows, k, name, UNDO_LIMIT);
    }
  }

  /** What the undo of an open batch write of `k` leaves behind. */
  lemma UndoEffect(reg: Registry, m: Machine, env: Env, k: Key, now: int)
    requires Typed(reg, m.s) && k in reg.schema && k in m.open && BatchOk(reg, m.s, k, m.open[k])
    requires Accepts(reg, m.s.settings, k, m.open[k].prior)
    ensures var s' := Write(reg, env, m.s, k, m.open[k].prior, BatchUndo(m.open[k].name), now);
            s'.settings == m.s.settings[k := m.open[k].prior] && s'.nextId == m.s.nextId
            && s'.rows == match m.open[k].mid
                          case Some(mid) => DeleteId(ReopenNewest(m.s.rows, k, SUPERSEDE_LIMIT, mid), mid)
                          case None => m.s.rows
  {
    UndoWriteEffect(reg, env, m.s, k, m.open[k].prior, m.open[k].name, now);
    if m.open[k].mid.Some? { NewestManualByFinds(m.s.rows, k, m.open[k].name, UNDO_LIMIT); }
  }

  lemma UndoneTrail(rows: seq<Row>, key: Key, mid: nat)
    requires InIdOrder(rows)
    requires Newest(rows, OfKey(key)).Some? && Newest(rows, OfKey(key)).value.id == mid
    ensures var t, after := Trail(rows, key), Trail(DeleteId(ReopenNewest(rows, key, SUPERSEDE_LIMIT, mid), mid), key);
            |t| > 0 && after == t[..|t| - 1]
  {
    var r := ReopenNewest(rows, key, SUPERSEDE_LIMIT, mid);
    ReopenKeepsTrails(rows, key, SUPERSEDE_LIMIT, mid);
    SameTrailsSameTrail(rows, r, key);
    NewestIsLast(rows, key);
    DeleteNewest(r, key, key);
  }

  lemma KeyUndo(reg: Registry, m: Machine, env: Env, now: int, k: Key, cap: real)
    requires KeyInv(reg, m, k, cap)
    ensures KeyInv(reg, Step(reg, m, BatchUndoes(env, k, now)), k, cap)
  {
    if k in m.open {
      StepKeeps(reg, m, BatchUndoes(env, k, now));
      if Accepts(reg, m.s.settings, k, m.open[k].prior) {
        UndoEffect(reg, m, env, k, now);
        if m.open[k].mid.Some? { UndoneTrail(m.s.rows, k, m.open[k].mid.value); }
      } else if m.open[k].mid.Some? {
        KeyCommit(m.s.settings[k], Trail(m.s.rows, k), cap);
      }
    }
  }

  /** A rollback that goes through restores exactly the value before the newest row,
      which is an automated one. */
  lemma RollbackEffect(reg: Registry, s: State, id: nat)
    requires WellFormed(reg, s) && RollbackCheck(reg, s, id).None?
    ensures var row := ById(s.rows, id).value;
            var t := Trail(s.rows, row.key);
            row.key in reg.schema && |t| > 0 && t[|t| - 1] == EntryOf(row) && row.status != Manual
            && row.oldValue.Some? && Validate(reg.schema[row.key], row.oldValue.value) == row.oldValue
  {
    var row := ById(s.rows, id).value;
    NewestIsLast(s.rows, row.key);
    ByIdFound(s.rows, id);
    assert RowOk(reg, row);
  }

  lemma KeyRollback(reg: Registry, m: Machine, env: Env, id: nat, ev: Evidence, now: int, k: Key, cap: real)
    requires KeyInv(reg, m, k, cap)
    ensures KeyInv(reg, Step(reg, m, RollsBack(env, id, ev, now)), k, cap)
  {
    var s' := Rollback(reg, env, m.s, id, ev, now).0;
    RollbackKeeps(reg, env, m.s, id, ev, now);
    if RollbackCheck(reg, m.s, id).None? {
      RollbackEffect(reg, m.s, id);
      var row := ById(m.s.rows, id).value;
      assert s'.settings == m.s.settings[row.key := row.oldValue.value];
      hide Rollback, WellFormed, SameKey;
      if row.key == k {
        RestoredOk(reg, m, k, row, s', cap);
      } else {
        RelabelledIsSame(m.s, s', k);
        SameKeyKeeps(reg, m, m.(s := s'), k, cap);
      }
    }
  }

  lemma RestoredOk(reg: Registry, m: Machine, k: Key, row: Row, s': State, cap: real)
    requires KeyInv(reg, m, k, cap) && WellFormed(reg, s') && SameTrails(m.s.rows, s'.rows)
    requires var t := Trail(m.s.rows, k); |t| > 0 && t[|t| - 1] == EntryOf(row)
    requires row.status != Manual && row.oldValue.Some? && s'.settings == m.s.settings[k := row.oldValue.value]
    ensures KeyInv(reg, m.(s := s'), k, cap)
  {
    var s1 := s'.(settings := m.s.settings);
    RelabelledIsSame(m.s, s1, k);
    assert !EntryOf(row).manual;
  }

  lemma KeyFreezeKey(reg: Registry, m: Machine, key: Key, days: int, now: int, k: Key, cap: real)
    requires KeyInv(reg, m, k, cap) && CapLegal(reg, m, FreezesKey(key, days, now), k)
    ensures KeyInv(reg, Step(reg, m, FreezesKey(key, days, now)), k, cap)
  {
    FreezeKeyKeeps(reg, m.s, key, days, now);
    var s' := FreezeKey(m.s, key, days, now);
    var n := Newest(m.s.rows, OfKey(key));
    if n.Some? {
      FreezeKeeps(reg, m.s, n.value.id, days, now);
      RelabelledIsSame(m.s, s', k);
      SameKeyKeeps(reg, m, m.(s := s'), k, cap);
    } else if key != k {
      AppendedIsSame(m.s, PinRow(m.s, key, days, now), s', k);
      SameKeyKeeps(reg, m, m.(s := s'), k, cap);
    } else {
      var r := PinRow(m.s, key, days, now);
      TrailSnoc(m.s.rows, r, k);
      ManualOnTopOk(m.s.settings[k], Trail(m.s.rows, k), EntryOf(r), cap);
    }
  }

  // ------------------------------------------------------------- every event

  lemma KeyElsewhere(reg: Registry, m: Machine, e: Event, k: Key, cap: real)
    requires KeyInv(reg, m, k, cap) && (e.OwnerWrites? || e.OwnerDeletes? || e.BatchWrites? || e.BatchUndoes?) && e.key != k
    ensures KeyInv(reg, Step(reg, m, e), k, cap)
  {
    var m' := Step(reg, m, e);
    StepKeeps(reg, m, e);
    assert SameKey(m.s, m.s, k);
    match e {
      case OwnerWrites(env, key, v, name, now) => OwnerElsewhere(reg, m.s, env, key, v, name, now, k);
      case OwnerDeletes(env, key, v, name, now) => OwnerElsewhere(reg, m.s, env, key, v, name, now, k);
      case BatchWrites(env, key, v, name, now) => OwnerElsewhere(reg, m.s, env, key, v, name, now, k);
      case BatchUndoes(env, key, now) =>
        if key in m.open { UndoElsewhere(reg, m.s, env, key, m.open[key].prior, m.open[key].name, now, k); }
    }
    assert SameKey(m.s, m'.s, k);
    hide Step, SameKey, WellFormed;
    SameKeyKeeps(reg, m, m', k, cap);
  }

  lemma KeyQuiet(reg: Registry, m: Machine, e: Event, k: Key, cap: real)
    requires KeyInv(reg, m, k, cap) && (e.Keeps? || e.FreezesRow? || e.Judges?)
    ensures KeyInv(reg, Step(reg, m, e), k, cap)
  {
    QuietKeeps(reg, m, e);
    RelabelledIsSame(m.s, Step(reg, m, e).s, k);
    SameKeyKeeps(reg, m, Step(reg, m, e), k, cap);
  }

  lemma KeyCommits(reg: Registry, m: Machine, k: Key, cap: real)
    requires KeyInv(reg, m, k, cap)
    ensures KeyInv(reg, Step(reg, m, BatchCommits), k, cap)
  {
    if k in m.open && m.open[k].mid.Some? { KeyCommit(m.s.settings[k], Trail(m.s.rows, k), cap); }
  }

  lemma KeyStep(reg: Registry, m: Machine, e: Event, k: Key, cap: real)
    requires KeyInv(reg, m, k, cap) && CapLegal(reg, m, e, k)
    ensures KeyInv(reg, Step(reg, m, e), k, cap)
  {
    hide KeyInv;
    match e {
      case Proposes(env, p, now) => KeyPropose(reg, m, env, p, now, k, cap);
      case OwnerWrites(env, key, v, name, now) =>
        if key == k { KeyOwner(reg, m, env, v, name, now, k, cap); } else { KeyElsewhere(reg, m, e, k, cap); }
      case OwnerDeletes(env, key, v, name, now) =>
        if key == k { KeyOwner(reg, m, env, v, name, now, k, cap); } else { KeyElsewhere(reg, m, e, k, cap); }
      case BatchWrites(env, key, v, name, now) =>
        if key == k { KeyBatch(reg, m, env, v, name, now, k, cap); } else { KeyElsewhere(reg, m, e, k, cap); }
      case BatchUndoes(env, key, now) =>
        if key == k { KeyUndo(reg, m, env, now, k, cap); } else { KeyElsewhere(reg, m, e, k, cap); }
      case BatchCommits => KeyCommits(reg, m, k, cap);
      case RollsBack(env, id, ev, now) => KeyRollback(reg, m, env, id, ev, now, k, cap);
      case FreezesKey(key, days, now) => KeyFreezeKey(reg, m, key, days, now, k, cap);
      case _ => KeyQuiet(reg, m, e, k, cap);
    }
  }

  lemma {:induction false} RunKeyInv(reg: Registry, settings: map<Key, Value>, es: seq<Event>, k: Key, cap: real)
    requires Typed(reg, State(settings, [], 0)) && CapRun(reg, Start(settings), es, k) && Capped(reg, k, cap)
    ensures KeyInv(reg, Run(reg, Start(settings), es), k, cap)
  {
    if |es| > 0 {
      RunKeyInv(reg, settings, es[..|es| - 1], k, cap);
      KeyStep(reg, Run(reg, Start(settings), es[..|es| - 1]), es[|es| - 1], k, cap);
    }
  }

  /** The drift cap. In every reachable state, for every capped key that is not
      denylisted, has ledger rows and has no batch write waiting to be undone or kept,
      the value is within the cap of the drift reference. */
  lemma DriftCapHolds(reg: Registry, settings: map<Key, Value>, es: seq<Event>, k: Key, cap: real)
    requires Typed(reg, State(settings, [], 0)) && CapRun(reg, Start(settings), es, k) && Capped(reg, k, cap)
    ensures var m := Run(reg, Start(settings), es);
            k !in m.open && Newest(m.s.rows, OfKey(k)).Some? ==>
              k in m.s.settings && Within(Some(m.s.settings[k]), ManualValue(m.s.rows, k), cap)
  {
    var m := Run(reg, Start(settings), es);
    RunKeyInv(reg, settings, es, k, cap);
    NewestIsLast(m.s.rows, k);
    ReferenceOfTrail(m.s.rows, k);
  }
}
