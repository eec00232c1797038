/** Whose value survives the race (src/auto_tune.py:415-478, 495-530): the owner's, on every
    trace, where no automated thread can move the key or its counterpart; concrete traces
    where it does not; and what is left when the hook takes a write for a no-op. */
module LockOwner {
  import opened Common
  import opened Ledger
  import opened AutoTune
  import AutoTuneRuns
  import opened AutoTuneBase
  import opened AutoTuneSingle
  import opened LockProtocol

  // ------------------------------------------------------------------- the guard

  /** Keys outside the comfort pair are checked against nothing that can change. */
  predicate ChecksAlone(key: Key) { !key.CeilingC? && !key.SetpointC? }

  function Counterpart(key: Key): Key { if key.CeilingC? then SetpointC else CeilingC }

  predicate Proposable(reg: Registry, allow: set<Key>, k: Key) {
    k in allow && k !in reg.denied && k in reg.schema && !reg.schema[k].cronReload
  }

  /** What a rollback of the row would write. */
  function Restores(reg: Registry, r: Row): Option<Value> {
    if r.key in reg.schema && r.oldValue.Some? then Validate(reg.schema[r.key], r.oldValue.value) else None
  }

  /** With `v` in `k`, the owner's value is in place, or can be put back. */
  predicate Spares(c: Setup, k: Key, v: Value) {
    if k == c.key then v == c.value else CrossCheck(c.reg, map[k := v], c.key, c.value)
  }

  predicate RowSpares(c: Setup, k: Key, r: Row) {
    r.key == k && Restores(c.reg, r).Some? ==> Spares(c, k, Restores(c.reg, r).value)
  }

  predicate CanRollBack(r: Row) { r.status == Evaluating || r.status == Kept }

  /** No automated thread can move `k` into the owner's way: it is not open to proposals,
      and every row that can still be rolled back restores a value that is not. */
  ghost predicate Still(c: Setup, s: State, allow: set<Key>, k: Key) {
    !Proposable(c.reg, allow, k)
    && forall i :: 0 <= i < |s.rows| && CanRollBack(s.rows[i]) ==> RowSpares(c, k, s.rows[i])
  }

  /** What the caller can check before the write or the delete. */
  ghost predicate Guarded(c: Setup, s: State, allow: set<Key>) {
    Still(c, s, allow, c.key)
    || (!c.deletes && (ChecksAlone(c.key) || Still(c, s, allow, Counterpart(c.key))))
  }

  /** Proposals see no more than this allowlist. */
  ghost predicate Allows(trace: seq<Action>, allow: set<Key>) {
    forall a :: a in trace && a.StartProposal? ==> a.env.allow <= allow
  }

  // --------------------------------------------------------------- invariants

  /** A thread never proposes `k`, and a row it holds is the ledger's and spares the owner. */
  ghost predicate ThreadStill(c: Setup, s: State, k: Key, pc: Pc) {
    (TimedPc(pc) ==> pc.p.key != k)
    && (HoldsRow(pc) ==> RowSpares(c, k, pc.row) && Snapshot(s, pc.row))
  }

  ghost predicate Snapshot(s: State, row: Row) {
    row.id < s.nextId
    && forall i :: 0 <= i < |s.rows| && s.rows[i].id == row.id ==> s.rows[i].key == row.key && s.rows[i].oldValue == row.oldValue
  }

  ghost predicate StillInv(c: Setup, w: World, allow: set<Key>, k: Key) {
    Still(c, w.s, allow, k) && forall tid :: tid in w.threads ==> ThreadStill(c, w.s, k, w.threads[tid])
  }

  /** The owner's value is in place, or can be put back. */
  predicate SafeIn(c: Setup, settings: map<Key, Value>, k: Key) {
    if k == c.key then c.key in settings && settings[c.key] == c.value else Accepts(c.reg, settings, c.key, c.value)
  }

  ghost predicate Safe(c: Setup, w: World, k: Key) {
    (w.owner.Idle? || w.owner.ReadPrev? || SafeIn(c, w.s.settings, k)) && !Lost(w.owner) && SaysOwn(c, w.owner)
  }

  /** What the hook is given is the owner's value. */
  predicate SaysOwn(c: Setup, o: OwnerPc) {
    (o.Removed? ==> c.deletes)
    && (o.WroteValue? || o.HookEntered? || o.HookRestored? || o.HookInserted? || o.HookDone? ==> o.after == c.value)
  }

  /** Which key the guard watches. */
  ghost predicate Watches(c: Setup, w: World, allow: set<Key>, k: Key) {
    if ChecksAlone(c.key) && k != c.key then !c.deletes && k == Counterpart(c.key)
    else (k == c.key || (!c.deletes && k == Counterpart(c.key))) && StillInv(c, w, allow, k)
  }

  predicate Lost(o: OwnerPc) { (o.HookRestored? || o.HookInserted? || o.HookDone?) && o.lost }

  // ------------------------------------------------------------- rows and threads

  /** Older rows keep key and value to restore; what is new has a fresh id. */
  ghost predicate RowsCarry(s: State, s': State) {
    |s.rows| <= |s'.rows| && s.nextId <= s'.nextId
    && (forall i :: 0 <= i < |s.rows| ==> SameOrigin(s.rows[i], s'.rows[i]))
    && forall i :: |s.rows| <= i < |s'.rows| ==> s'.rows[i].id >= s.nextId
  }

  predicate SameOrigin(a: Row, b: Row) { a.id == b.id && a.key == b.key && a.oldValue == b.oldValue }

  lemma CarriedSnapshot(s: State, s': State, row: Row)
    requires Snapshot(s, row) && RowsCarry(s, s')
    ensures Snapshot(s', row)
  {
    forall i | 0 <= i < |s'.rows| && s'.rows[i].id == row.id
      ensures s'.rows[i].key == row.key && s'.rows[i].oldValue == row.oldValue
    {
      assert i < |s.rows| ==> SameOrigin(s.rows[i], s'.rows[i]);
    }
  }

  lemma CarriedThread(c: Setup, s: State, s': State, k: Key, pc: Pc)
    requires ThreadStill(c, s, k, pc) && RowsCarry(s, s')
    ensures ThreadStill(c, s', k, pc)
  {
    if HoldsRow(pc) { CarriedSnapshot(s, s', pc.row); }
  }

  /** Every step: rows are carried, those that can be rolled back spare the owner, and
      only threads in `moved` have gone on. */
  lemma StepStays(c: Setup, w: World, w': World, allow: set<Key>, k: Key, moved: set<nat>)
    requires StillInv(c, w, allow, k) && RowsCarry(w.s, w'.s)
    requires forall i :: 0 <= i < |w'.s.rows| && CanRollBack(w'.s.rows[i]) ==> RowSpares(c, k, w'.s.rows[i])
    requires forall t :: t in w'.threads && t !in moved ==> t in w.threads && w'.threads[t] == w.threads[t]
    requires forall t :: t in moved && t in w'.threads ==> ThreadStill(c, w'.s, k, w'.threads[t])
    ensures StillInv(c, w', allow, k)
  {
    hide ThreadStill, RowSpares, RowsCarry, Proposable;
    forall t | t in w'.threads ensures ThreadStill(c, w'.s, k, w'.threads[t]) {
      if t !in moved { CarriedThread(c, w.s, w'.s, k, w.threads[t]); }
    }
  }

  lemma FoundIsSnapshot(c: Setup, s: State, allow: set<Key>, k: Key, id: nat)
    requires AutoTuneRuns.Ordered(s) && Still(c, s, allow, k) && ById(s.rows, id).Some? && CanRollBack(ById(s.rows, id).value)
    ensures Snapshot(s, ById(s.rows, id).value) && RowSpares(c, k, ById(s.rows, id).value)
  {
    AutoTuneRuns.ByIdFound(s.rows, id);
    var i :| 0 <= i < |s.rows| && s.rows[i] == ById(s.rows, id).value;
    assert forall j :: 0 <= j < |s.rows| && s.rows[j].id == id ==> j == i;
  }

  lemma StartStays(c: Setup, w: World, allow: set<Key>, k: Key, a: Action)
    requires AutoTuneRuns.Ordered(w.s) && StillInv(c, w, allow, k) && (a.StartProposal? || a.StartRollback? || a.StartKeep?)
    requires a.StartProposal? ==> a.env.allow <= allow
    ensures StillInv(c, Act(c, w, a), allow, k)
  {
    var w' := Act(c, w, a);
    if w' != w {
      if !a.StartProposal? { FoundIsSnapshot(c, w.s, allow, k, a.id); }
      hide RowSpares, Snapshot, ById, AutoTuneRuns.Ordered;
      StepStays(c, w, w', allow, k, {a.tid});
    }
  }

  lemma LabelledSpares(c: Setup, w: World, allow: set<Key>, k: Key, row: Row, status: Status, frozen: Option<int>, ev: Evidence)
    requires Still(c, w.s, allow, k) && RowSpares(c, k, row) && Snapshot(w.s, row)
    ensures var s' := w.s.(rows := Relabel(w.s.rows, row.id, status, frozen, ev));
            RowsCarry(w.s, s') && forall i :: 0 <= i < |s'.rows| && CanRollBack(s'.rows[i]) ==> RowSpares(c, k, s'.rows[i])
  {}

  lemma AddedSpares(c: Setup, s: State, allow: set<Key>, k: Key, r: Row)
    requires Still(c, s, allow, k) && r.id == s.nextId && (CanRollBack(r) ==> RowSpares(c, k, r))
    ensures var s' := s.(rows := s.rows + [r], nextId := s.nextId + 1);
            RowsCarry(s, s') && forall i :: 0 <= i < |s'.rows| && CanRollBack(s'.rows[i]) ==> RowSpares(c, k, s'.rows[i])
  {}

  /** A thread goes on with the proposal or the row it has. */
  predicate GoesOn(pc: Pc, pc': Pc) {
    (TimedPc(pc') ==> TimedPc(pc) && pc'.p == pc.p) && (HoldsRow(pc') ==> HoldsRow(pc) && pc'.row == pc.row)
  }

  lemma ProposalGoesOn(c: Setup, w: World, tid: nat, env: Env, ev: Evidence)
    requires tid in w.threads && TimedPc(w.threads[tid])
    ensures var w' := AdvanceThread(c, w, tid, w.threads[tid], env, ev);
            tid in w'.threads && w'.threads == w.threads[tid := w'.threads[tid]] && GoesOn(w.threads[tid], w'.threads[tid])
  {
    hide CheckKey, Accepts, Validate, Same, Canonical, Busy, Newest, Relabel, NewRow;
  }

  lemma ThreadGoesOn(c: Setup, w: World, tid: nat, env: Env, ev: Evidence)
    requires tid in w.threads
    ensures var w' := AdvanceThread(c, w, tid, w.threads[tid], env, ev);
            tid in w'.threads && w'.threads == w.threads[tid := w'.threads[tid]] && GoesOn(w.threads[tid], w'.threads[tid])
  {
    hide CheckKey, Accepts, Validate, Same, Canonical, Busy, Newest, Relabel, NewRow;
    if TimedPc(w.threads[tid]) { ProposalGoesOn(c, w, tid, env, ev); }
  }

  /** The steps that only read or write a setting. */
  lemma SettingStays(c: Setup, w: World, allow: set<Key>, k: Key, tid: nat, env: Env, ev: Evidence)
    requires StillInv(c, w, allow, k) && tid in w.threads
    requires AdvanceThread(c, w, tid, w.threads[tid], env, ev).s.rows == w.s.rows
    requires AdvanceThread(c, w, tid, w.threads[tid], env, ev).s.nextId == w.s.nextId
    ensures StillInv(c, AdvanceThread(c, w, tid, w.threads[tid], env, ev), allow, k)
  {
    ThreadGoesOn(c, w, tid, env, ev);
    hide AdvanceThread, RowSpares;
    var w' := AdvanceThread(c, w, tid, w.threads[tid], env, ev);
    assert RowsCarry(w.s, w'.s);
    assert ThreadStill(c, w.s, k, w.threads[tid]);
    CarriedThread(c, w.s, w'.s, k, w.threads[tid]);
    assert ThreadStill(c, w'.s, k, w'.threads[tid]);
    StepStays(c, w, w', allow, k, {tid});
  }

  lemma AdvanceStays(c: Setup, w: World, allow: set<Key>, k: Key, tid: nat, env: Env, ev: Evidence)
    requires StillInv(c, w, allow, k) && tid in w.threads
    ensures StillInv(c, AdvanceThread(c, w, tid, w.threads[tid], env, ev), allow, k)
  {
    var pc := w.threads[tid];
    var w' := AdvanceThread(c, w, tid, pc, env, ev);
    assert ThreadStill(c, w.s, k, pc);
    match pc {
      case RollbackUnlabelled(row, t) =>
        LabelledSpares(c, w, allow, k, row, RolledBack, FreezeUntil(t, env.rollbackFreezeDays), ev);
        hide StillInv, RowSpares, Relabel;
        StepStays(c, w, w', allow, k, {tid});
      case KeepSeen(row) =>
        KeepStays(c, w, allow, k, tid, row, ev);
      case Written(p, t, cur) =>
        if env.insertOk {
          AddedSpares(c, w.s, allow, k, NewRow(c.reg, w.s.nextId, p, cur, Canonical(c, p), t));
          hide StillInv, RowSpares;
          StepStays(c, w, w', allow, k, {tid});
        } else {
          SettingStays(c, w, allow, k, tid, env, ev);
        }
      case _ => SettingStays(c, w, allow, k, tid, env, ev);
    }
  }

  lemma KeepStays(c: Setup, w: World, allow: set<Key>, k: Key, tid: nat, row: Row, ev: Evidence)
    requires StillInv(c, w, allow, k) && tid in w.threads && w.threads[tid] == KeepSeen(row)
    ensures StillInv(c, Go(w, tid, Finished).(s := Annotate(w.s, row.id, Kept, ev)), allow, k)
  {
    var w' := Go(w, tid, Finished).(s := Annotate(w.s, row.id, Kept, ev));
    assert ThreadStill(c, w.s, k, w.threads[tid]);
    if ById(w.s.rows, row.id).Some? {
      LabelledSpares(c, w, allow, k, row, Kept, ById(w.s.rows, row.id).value.frozenUntil, ev);
    }
    hide StillInv, RowSpares, Relabel, ById, Snapshot;
    StepStays(c, w, w', allow, k, {tid});
  }

  lemma OwnerStays(c: Setup, w: World, allow: set<Key>, k: Key)
    requires StillInv(c, w, allow, k)
    ensures StillInv(c, AdvanceOwner(c, w), allow, k)
  {
    hide RowSpares, Snapshot, Accepts, Validate, Same;
    var w' := AdvanceOwner(c, w);
    if w.owner.HookRestored? {
      var r := w'.s.rows[|w.s.rows|];
      AddedSpares(c, w.s, allow, k, r);
      StepStays(c, w, w', allow, k, {});
    } else {
      forall i | 0 <= i < |w'.s.rows| && CanRollBack(w'.s.rows[i]) ensures RowSpares(c, k, w'.s.rows[i]) {
        assert w'.s.rows[i] == w.s.rows[i];
      }
      assert RowsCarry(w.s, w'.s);
      StepStays(c, w, w', allow, k, {});
    }
  }

  lemma ActStays(c: Setup, w: World, allow: set<Key>, k: Key, a: Action)
    requires AutoTuneRuns.Ordered(w.s) && StillInv(c, w, allow, k) && (a.StartProposal? ==> a.env.allow <= allow)
    ensures StillInv(c, Act(c, w, a), allow, k)
  {
    match a {
      case Tick(_) =>
      case Advance(tid, env, ev) => if tid in w.threads { AdvanceStays(c, w, allow, k, tid, env, ev); }
      case OwnerAdvances => OwnerStays(c, w, allow, k);
      case _ => StartStays(c, w, allow, k, a);
    }
  }

  // ------------------------------------------------------------- the owner's value

  /** A write that spares the owner's value keeps it in place, or acceptable. */
  lemma WriteSafe(c: Setup, settings: map<Key, Value>, k: Key, key: Key, v: Value)
    requires GoodSetup(c) && SafeIn(c, settings, k) && (k == c.key || (!c.deletes && k == Counterpart(c.key)))
    requires (ChecksAlone(c.key) && k != c.key) || (key == k ==> Spares(c, k, v))
    ensures SafeIn(c, settings[key := v], k)
  {}

  /** The owner's own write makes it safe. */
  lemma OwnWriteSafe(c: Setup, settings: map<Key, Value>, k: Key)
    requires k == c.key || (GoodSetup(c) && Accepts(c.reg, settings, c.key, c.value) && k == Counterpart(c.key))
    ensures SafeIn(c, settings[c.key := c.value], k)
  {}

  /** A thread's step writes at most the key it works on, and a rollback only the value
      its row restores. */
  lemma ThreadWrites(c: Setup, w: World, tid: nat, env: Env, ev: Evidence) returns (key: Key, v: Value)
    requires tid in w.threads
    ensures var pc, w' := w.threads[tid], AdvanceThread(c, w, tid, w.threads[tid], env, ev);
            w'.owner == w.owner
            && (w'.s.settings == w.s.settings
                || (w'.s.settings == w.s.settings[key := v]
                    && ((TimedPc(pc) && key == pc.p.key)
                        || (HoldsRow(pc) && key == pc.row.key && Restores(c.reg, pc.row) == Some(v)))))
  {
    hide CheckKey, Busy, Newest, Relabel, NewRow;
    var pc := w.threads[tid];
    key, v := c.key, c.value;
    match pc {
      case Confirmed(p, _, _) => key, v := p.key, Canonical(c, p);
      case InsertFailed(p, _, cur) => key, v := p.key, cur;
      case RollbackChecked(row, _) =>
        if Restores(c.reg, row).Some? { key, v := row.key, Restores(c.reg, row).value; }
      case _ =>
    }
  }

  lemma ThreadSafe(c: Setup, w: World, allow: set<Key>, k: Key, tid: nat, env: Env, ev: Evidence)
    requires GoodSetup(c) && Watches(c, w, allow, k) && Safe(c, w, k) && tid in w.threads
    ensures Safe(c, AdvanceThread(c, w, tid, w.threads[tid], env, ev), k)
  {
    var key, v := ThreadWrites(c, w, tid, env, ev);
    var w' := AdvanceThread(c, w, tid, w.threads[tid], env, ev);
    hide AdvanceThread, SafeIn, Snapshot, Spares;
    if w'.s.settings != w.s.settings && SafeIn(c, w.s.settings, k) {
      if !ChecksAlone(c.key) || k == c.key { assert ThreadStill(c, w.s, k, w.threads[tid]); }
      WriteSafe(c, w.s.settings, k, key, v);
    }
  }

  lemma OwnerSafe(c: Setup, w: World, k: Key)
    requires GoodSetup(c) && Safe(c, w, k) && (k == c.key || (!c.deletes && k == Counterpart(c.key)))
    ensures Safe(c, AdvanceOwner(c, w), k)
  {
    if k == c.key || Accepts(c.reg, w.s.settings, c.key, c.value) { OwnWriteSafe(c, w.s.settings, k); }
    SameSelf(c);
    if Accepts(c.reg, w.s.settings, c.key, c.value) { StoredAsIs(c); }
    hide Accepts, Validate, Same;
  }

  lemma StoredAsIs(c: Setup)
    requires GoodSetup(c) && Validate(c.reg.schema[c.key], c.value).Some?
    ensures Validate(c.reg.schema[c.key], c.value) == Some(c.value)
  {}

  lemma SameSelf(c: Setup)
    requires GoodSetup(c)
    ensures Same(c.reg.schema[c.key], c.value, c.value)
  {}

  lemma ActSafe(c: Setup, w: World, allow: set<Key>, k: Key, a: Action)
    requires GoodSetup(c) && Watches(c, w, allow, k) && Safe(c, w, k)
    ensures Safe(c, Act(c, w, a), k)
  {
    hide Safe, AdvanceThread, AdvanceOwner;
    match a {
      case Advance(tid, env, ev) => if tid in w.threads { ThreadSafe(c, w, allow, k, tid, env, ev); }
      case OwnerAdvances => OwnerSafe(c, w, k);
      case _ => SameStoreSafe(c, w, Act(c, w, a), k);
    }
  }

  lemma SameStoreSafe(c: Setup, w: World, w': World, k: Key)
    requires Safe(c, w, k) && w'.s == w.s && w'.owner == w.owner
    ensures Safe(c, w', k)
  {}

  lemma {:induction false} RunSafe(c: Setup, s: State, allow: set<Key>, clock: int, trace: seq<Action>, k: Key)
    requires GoodStart(c, s) && Allows(trace, allow) && Watches(c, Begin(s, clock), allow, k)
    ensures Watches(c, Run(c, Begin(s, clock), trace), allow, k) && Safe(c, Run(c, Begin(s, clock), trace), k)
  {
    if |trace| > 0 {
      var rest, a := trace[..|trace| - 1], trace[|trace| - 1];
      var w := Run(c, Begin(s, clock), rest);
      assert a in trace && Allows(rest, allow);
      RunSafe(c, s, allow, clock, rest, k);
      RunKeepsInv(c, s, clock, rest);
      ActSafe(c, w, allow, k, a);
      if !ChecksAlone(c.key) || k == c.key { ActStays(c, w, allow, k, a); }
    }
  }

  /** The owner wins. Where the guard holds before the write or the delete, on every trace:
      from the moment the hook has restored it until the freeze runs out, the setting holds
      the value written, or the default, whatever was in flight. */
  lemma OwnerWins(c: Setup, s: State, allow: set<Key>, clock: int, trace: seq<Action>)
    requires GoodStart(c, s) && Allows(trace, allow) && Guarded(c, s, allow)
    ensures var w := Run(c, Begin(s, clock), trace);
            !Lost(w.owner)
            && (w.owner.HookRestored? || w.owner.HookInserted? || (w.owner.HookDone? && w.clock < w.owner.until)
                ==> ValueHeld(c, w))
  {
    var w := Run(c, Begin(s, clock), trace);
    var k := if Still(c, s, allow, c.key) then c.key else Counterpart(c.key);
    RunSafe(c, s, allow, clock, trace, k);
    RestoredUnlessRefused(c, s, clock, trace);
  }
}
