/** The owner always wins: one owner write, or delete, raced step by step against any
    number of proposals, rollbacks and keeps (src/auto_tune.py:415-478, 495-530, 571-607,
    src/runtime_settings.py:1606-1693).

    Every step below is one read or write of the shared store. Proposals and rollbacks
    hold the lock between acquire and release; the owner's write lands before its hook
    asks for the lock, and a delete reads what is then in force for its hook; `keep` and
    the status update of `rollback` never hold it. */
module LockProtocol {
  import opened Common
  import opened Ledger
  import opened AutoTune
  import opened AutoTuneRuns
  import opened AutoTuneBase
  import opened AutoTuneSingle

  // -------------------------------------------------------------------- state

  /** Where an automated thread stands. */
  datatype Pc =
    | Waiting(p: Proposal, t: int)
    | Entered(p: Proposal, t: int)
    | HasRead(p: Proposal, t: int, cur: Value)
    | NotBusy(p: Proposal, t: int, cur: Value)
    | Checked(p: Proposal, t: int, cur: Value)
    | Confirmed(p: Proposal, t: int, cur: Value)
    | Written(p: Proposal, t: int, cur: Value)
    | InsertFailed(p: Proposal, t: int, cur: Value)
    | RollbackSeen(row: Row, t: int)
    | RollbackEntered(row: Row, t: int)
    | RollbackChecked(row: Row, t: int)
    | RollbackUnlabelled(row: Row, t: int)
    | KeepSeen(row: Row)
    | Finished

  datatype OwnerPc =
    | Idle
    | ReadPrev(prev: Value)
    | Removed(prev: Value)
    | WroteValue(prev: Value, after: Value)
    | HookEntered(prev: Value, after: Value)
    | HookRestored(prev: Value, after: Value, lost: bool)
    | HookInserted(after: Value, mid: nat, lost: bool, until: int)
    | HookDone(after: Value, mid: nat, lost: bool, until: int)
    | HookSkipped

  datatype Holder = Nobody | OwnerHolds | ThreadHolds(tid: nat)

  datatype World = World(s: State, lock: Holder, clock: int, threads: map<nat, Pc>, owner: OwnerPc)

  /** The owner's action on an allowlisted key: the write of a validated `value`, or the
      deletion of the stored value, which puts the default `value` in force unchecked. */
  datatype Setup = Setup(reg: Registry, key: Key, value: Value, days: int, deletes: bool)

  ghost predicate GoodSetup(c: Setup) {
    c.key in c.reg.schema && c.key !in c.reg.denied && c.days > 0
    && IsDefault(c.reg, c.key, c.value) && (!c.deletes ==> Validate(c.reg.schema[c.key], c.value) == Some(c.value))
  }

  datatype Action =
    | Tick(seconds: nat)
    | StartProposal(tid: nat, env: Env, p: Proposal, t: int)
    | StartRollback(tid: nat, id: nat, t: int)
    | StartKeep(tid: nat, id: nat)
    | Advance(tid: nat, env: Env, ev: Evidence)
    | OwnerAdvances

  // -------------------------------------------------------------------- steps

  function Go(w: World, tid: nat, pc: Pc): World { w.(threads := w.threads[tid := pc]) }

  function Leave(w: World, tid: nat): World { w.(lock := Nobody, threads := w.threads[tid := Finished]) }

  function Put(w: World, key: Key, v: Value): World { w.(s := w.s.(settings := w.s.settings[key := v])) }

  function Act(c: Setup, w: World, a: Action): World {
    match a
    case Tick(seconds) => w.(clock := w.clock + seconds)
    case StartProposal(tid, env, p, t) =>
      if tid !in w.threads && t <= w.clock && CheckStatic(c.reg, env, p).None? then Go(w, tid, Waiting(p, t)) else w
    case StartRollback(tid, id, t) =>
      if tid !in w.threads && t <= w.clock && Rollbackable(c, w.s, id)
      then Go(w, tid, RollbackSeen(ById(w.s.rows, id).value, t)) else w
    case StartKeep(tid, id) =>
      if tid !in w.threads && ById(w.s.rows, id).Some? && ById(w.s.rows, id).value.status == Evaluating
      then Go(w, tid, KeepSeen(ById(w.s.rows, id).value)) else w
    case Advance(tid, env, ev) => if tid in w.threads then AdvanceThread(c, w, tid, w.threads[tid], env, ev) else w
    case OwnerAdvances => AdvanceOwner(c, w)
  }

  /** What rollback checks before it asks for the lock. */
  predicate Rollbackable(c: Setup, s: State, id: nat) {
    ById(s.rows, id).Some?
    && var row := ById(s.rows, id).value;
       (row.status == Evaluating || row.status == Kept) && row.oldValue.Some? && row.key in c.reg.schema
  }

  function Canonical(c: Setup, p: Proposal): Value {
    if p.key in c.reg.schema && Validate(c.reg.schema[p.key], p.value).Some?
    then Validate(c.reg.schema[p.key], p.value).value else p.value
  }

  function AdvanceThread(c: Setup, w: World, tid: nat, pc: Pc, env: Env, ev: Evidence): World {
    match pc
    case Waiting(p, t) => if w.lock.Nobody? then Go(w, tid, Entered(p, t)).(lock := ThreadHolds(tid)) else w
    case Entered(p, t) =>
      if p.key in env.pinned || p.key !in c.reg.schema || p.key !in w.s.settings
         || Validate(c.reg.schema[p.key], w.s.settings[p.key]).None?
      then Leave(w, tid)
      else Go(w, tid, HasRead(p, t, Validate(c.reg.schema[p.key], w.s.settings[p.key]).value))
    case HasRead(p, t, cur) =>
      if Canonical(c, p) == cur || Busy(w.s.rows) then Leave(w, tid) else Go(w, tid, NotBusy(p, t, cur))
    case NotBusy(p, t, cur) =>
      if p.key !in c.reg.schema || CheckKey(c.reg, env, w.s.rows, p.key, cur, Canonical(c, p), t).Some? then Leave(w, tid)
      else Go(w, tid, Checked(p, t, cur))
    case Checked(p, t, cur) =>
      if p.key !in c.reg.schema || p.key !in w.s.settings || !Same(c.reg.schema[p.key], w.s.settings[p.key], cur)
      then Leave(w, tid) else Go(w, tid, Confirmed(p, t, cur))
    case Confirmed(p, t, cur) =>
      if !Accepts(c.reg, w.s.settings, p.key, Canonical(c, p)) then Leave(w, tid)
      else Put(Go(w, tid, Written(p, t, cur)), p.key, Canonical(c, p))
    case Written(p, t, cur) =>
      if env.insertOk
      then Leave(w, tid).(s := w.s.(rows := w.s.rows + [NewRow(c.reg, w.s.nextId, p, cur, Canonical(c, p), t)],
                                    nextId := w.s.nextId + 1))
      else Go(w, tid, InsertFailed(p, t, cur))
    case InsertFailed(p, t, cur) =>
      if Accepts(c.reg, w.s.settings, p.key, cur) then Put(Leave(w, tid), p.key, cur) else Leave(w, tid)
    case RollbackSeen(row, t) => if w.lock.Nobody? then Go(w, tid, RollbackEntered(row, t)).(lock := ThreadHolds(tid)) else w
    case RollbackEntered(row, t) =>
      if row.key !in c.reg.schema || row.key !in w.s.settings
         || Newest(w.s.rows, OfKey(row.key)).None? || Newest(w.s.rows, OfKey(row.key)).value.id != row.id
         || !Same(c.reg.schema[row.key], w.s.settings[row.key], row.newValue)
      then Leave(w, tid) else Go(w, tid, RollbackChecked(row, t))
    case RollbackChecked(row, t) =>
      if row.oldValue.None? || !Accepts(c.reg, w.s.settings, row.key, row.oldValue.value) then Leave(w, tid)
      else Put(Go(w, tid, RollbackUnlabelled(row, t)).(lock := Nobody), row.key,
               Validate(c.reg.schema[row.key], row.oldValue.value).value)
    case RollbackUnlabelled(row, t) =>
      Go(w, tid, Finished).(s := w.s.(rows := Relabel(w.s.rows, row.id, RolledBack,
                                                      FreezeUntil(t, env.rollbackFreezeDays), ev)))
    case KeepSeen(row) =>
      Go(w, tid, Finished).(s := Annotate(w.s, row.id, Kept, ev))
    case Finished => w
  }

  function AdvanceOwner(c: Setup, w: World): World {
    match w.owner
    case Idle => if c.key in w.s.settings then w.(owner := ReadPrev(w.s.settings[c.key])) else w
    case ReadPrev(prev) =>
      if c.deletes then Put(w.(owner := Removed(prev)), c.key, c.value)
      else if Accepts(c.reg, w.s.settings, c.key, c.value)
      then Put(w.(owner := WroteValue(prev, c.value)), c.key, c.value) else w
    case Removed(prev) => if c.key in w.s.settings then w.(owner := WroteValue(prev, w.s.settings[c.key])) else w
    case WroteValue(prev, after) =>
      if c.key in c.reg.schema && Same(c.reg.schema[c.key], prev, after) then w.(owner := HookSkipped)
      else if w.lock.Nobody? then w.(owner := HookEntered(prev, after), lock := OwnerHolds)
      else w
    case HookEntered(prev, after) =>
      if c.key !in w.s.settings || c.key !in c.reg.schema || Same(c.reg.schema[c.key], w.s.settings[c.key], after)
      then w.(owner := HookRestored(prev, after, false))
      else if Accepts(c.reg, w.s.settings, c.key, after)
      then Put(w.(owner := HookRestored(prev, after, false)), c.key, Validate(c.reg.schema[c.key], after).value)
      else w.(owner := HookRestored(prev, after, true))
    case HookRestored(prev, after, lost) =>
      var until := w.clock + c.days * DAY_S;
      w.(owner := HookInserted(after, w.s.nextId, lost, until),
         s := w.s.(rows := w.s.rows + [Row(w.s.nextId, c.key, Some(prev), after, ManualSource, Manual, w.clock,
                                           Some(until), Some("owner"), NO_EVIDENCE, None)],
                   nextId := w.s.nextId + 1))
    case HookInserted(after, mid, lost, until) =>
      w.(owner := HookDone(after, mid, lost, until), lock := Nobody,
         s := w.s.(rows := SupersedeNewest(w.s.rows, c.key, SUPERSEDE_LIMIT, mid)))
    case HookDone(_, _, _, _) => w
    case HookSkipped => w
  }

  function Run(c: Setup, w: World, trace: seq<Action>): World {
    if |trace| == 0 then w else Act(c, Run(c, w, trace[..|trace| - 1]), trace[|trace| - 1])
  }

  function Begin(s: State, clock: int): World { World(s, Nobody, clock, map[], Idle) }

  // --------------------------------------------------------------- invariants

  predicate Inside(pc: Pc) {
    pc.Entered? || pc.HasRead? || pc.NotBusy? || pc.Checked? || pc.Confirmed? || pc.Written? || pc.InsertFailed?
    || pc.RollbackEntered? || pc.RollbackChecked?
  }

  predicate OwnerInside(o: OwnerPc) { o.HookEntered? || o.HookRestored? || o.HookInserted? }

  /** Past the busy check: about to add an evaluating row. */
  predicate WillInsert(pc: Pc) { pc.NotBusy? || pc.Checked? || pc.Confirmed? || pc.Written? }

  /** Past its checks on `key`: this thread's next writes go to `key`. */
  predicate MayWrite(pc: Pc, key: Key) {
    ((pc.Checked? || pc.Confirmed? || pc.Written? || pc.InsertFailed?) && pc.p.key == key)
    || (pc.RollbackChecked? && pc.row.key == key)
  }

  predicate HoldsRow(pc: Pc) {
    pc.RollbackSeen? || pc.RollbackEntered? || pc.RollbackChecked? || pc.RollbackUnlabelled? || pc.KeepSeen?
  }

  /** Exactly the lock holder is inside a critical section. */
  ghost predicate Mutex(w: World) {
    (forall tid :: tid in w.threads ==> (Inside(w.threads[tid]) <==> w.lock == ThreadHolds(tid)))
    && (w.lock.ThreadHolds? ==> w.lock.tid in w.threads)
    && (OwnerInside(w.owner) <==> w.lock.OwnerHolds?)
  }

  /** Threads captured their time before now, and only ever label automated rows. */
  ghost predicate ThreadsOk(c: Setup, w: World) {
    forall tid :: tid in w.threads ==> ThreadOk(c, w, w.threads[tid])
  }

  predicate TimedPc(pc: Pc) {
    pc.Waiting? || pc.Entered? || pc.HasRead? || pc.NotBusy? || pc.Checked? || pc.Confirmed? || pc.Written? || pc.InsertFailed?
  }

  ghost predicate ThreadOk(c: Setup, w: World, pc: Pc) {
    (TimedPc(pc) ==> pc.t <= w.clock)
    && (HasCur(pc) ==> pc.p.key in c.reg.schema && Coerce(c.reg.schema[pc.p.key].kind, pc.cur) == Some(pc.cur))
    && (HoldsRow(pc) ==> NotManualId(w.s, pc.row.id))
  }

  predicate HasCur(pc: Pc) {
    pc.HasRead? || pc.NotBusy? || pc.Checked? || pc.Confirmed? || pc.Written? || pc.InsertFailed?
  }

  ghost predicate NotManualId(s: State, id: nat) {
    id < s.nextId && forall i :: 0 <= i < |s.rows| && s.rows[i].id == id ==> s.rows[i].status != Manual
  }

  /** Under the owner's freeze: the manual row is the newest of its key and carries the
      freeze, and nobody is past the checks on the key. */
  ghost predicate Protected(c: Setup, w: World, mid: nat, until: int) {
    var n := Newest(w.s.rows, OfKey(c.key));
    n.Some? && n.value.id == mid && n.value.status == Manual && n.value.frozenUntil == Some(until)
    && forall tid :: tid in w.threads ==> !MayWrite(w.threads[tid], c.key)
  }

  ghost predicate Holds(c: Setup, w: World, v: Value) { c.key in w.s.settings && w.s.settings[c.key] == v }

  ghost predicate ValueHeld(c: Setup, w: World) { Holds(c, w, c.value) }

  /** While the hook holds the lock: the value is lost exactly when it is not there, and
      then the validator refuses to put it back. */
  ghost predicate HeldUnlessLost(c: Setup, w: World, after: Value, lost: bool) {
    if lost then !Holds(c, w, after) && !Accepts(c.reg, w.s.settings, c.key, after) else Holds(c, w, after)
  }

  ghost predicate OwnerOk(c: Setup, w: World) {
    match w.owner
    case WroteValue(_, after) => IsDefault(c.reg, c.key, after)
    case HookEntered(_, after) => IsDefault(c.reg, c.key, after)
    case HookRestored(_, after, lost) => HeldUnlessLost(c, w, after, lost)
    case HookInserted(after, mid, lost, until) => HeldUnlessLost(c, w, after, lost) && Protected(c, w, mid, until)
    case HookDone(after, mid, lost, until) =>
      w.clock < until ==> (!lost ==> Holds(c, w, after)) && Protected(c, w, mid, until)
    case _ => true
  }

  /** At most one evaluating row, and none while a proposal is about to add one. */
  ghost predicate OneOk(w: World) {
    EvaluatingCount(w.s.rows) <= 1
    && forall tid :: tid in w.threads && WillInsert(w.threads[tid]) ==> EvaluatingCount(w.s.rows) == 0
  }

  ghost predicate Inv(c: Setup, w: World) {
    GoodSetup(c) && Ordered(w.s) && Typed(c.reg, w.s) && Mutex(w) && ThreadsOk(c, w) && OwnerOk(c, w) && OneOk(w)
  }

  // ------------------------------------------------------------- newest rows

  lemma {:induction false} NewestAt(rows: seq<Row>, key: Key, i: nat)
    requires i < |rows| && rows[i].key == key && forall j :: i < j < |rows| ==> rows[j].key != key
    ensures Newest(rows, OfKey(key)) == Some(rows[i])
  {
    if i < |rows| - 1 { NewestAt(rows[..|rows| - 1], key, i); }
  }

  lemma {:induction false} NewestIndex(rows: seq<Row>, key: Key) returns (i: nat)
    requires Newest(rows, OfKey(key)).Some?
    ensures i < |rows| && rows[i].key == key && Newest(rows, OfKey(key)) == Some(rows[i])
    ensures forall j :: i < j < |rows| ==> rows[j].key != key
  {
    if rows[|rows| - 1].key == key { i := |rows| - 1; } else { i := NewestIndex(rows[..|rows| - 1], key); }
  }

  /** Rewriting other rows in place leaves the newest row of a key where it was. */
  lemma NewestUntouched(a: seq<Row>, b: seq<Row>, key: Key)
    requires |a| == |b| && forall i :: 0 <= i < |a| ==> a[i].key == b[i].key
    requires Newest(a, OfKey(key)).Some?
    requires forall i :: 0 <= i < |a| && a[i] == Newest(a, OfKey(key)).value ==> b[i] == a[i]
    ensures Newest(b, OfKey(key)) == Newest(a, OfKey(key))
  {
    var i := NewestIndex(a, key);
    NewestAt(b, key, i);
  }

  // ----------------------------------------------------------- thread steps

  /** Steps of one thread that leave the store alone. */
  ghost predicate Moves(w: World, w': World, tid: nat, pc: Pc) {
    tid in w.threads && w'.s == w.s && w'.clock == w.clock && w'.owner == w.owner && w'.threads == w.threads[tid := pc]
  }

  lemma MoveKeepsInv(c: Setup, w: World, w': World, tid: nat, pc: Pc)
    requires Inv(c, w) && Moves(w, w', tid, pc) && ThreadOk(c, w, pc)
    requires (w'.lock == w.lock && (Inside(pc) <==> Inside(w.threads[tid])))
             || (w'.lock == Nobody && Inside(w.threads[tid]) && !Inside(pc))
             || (w'.lock == ThreadHolds(tid) && w.lock == Nobody && Inside(pc))
    requires WillInsert(pc) ==> EvaluatingCount(w.s.rows) == 0
    requires MayWrite(pc, c.key) ==> MayWrite(w.threads[tid], c.key) || !Shielded(w)
    ensures Inv(c, w')
  {
    assert Mutex(w');
    assert ThreadsOk(c, w') by {
      forall t | t in w'.threads ensures ThreadOk(c, w', w'.threads[t]) {
        assert t != tid ==> ThreadOk(c, w, w.threads[t]);
      }
    }
    assert OwnerOk(c, w') by {
      if Shielded(w) { assert forall t :: t in w'.threads && t != tid ==> w'.threads[t] == w.threads[t]; }
    }
  }

  /** The owner's freeze is in force. */
  predicate Shielded(w: World) {
    w.owner.HookInserted? || (w.owner.HookDone? && w.clock < w.owner.until)
  }

  /** A frozen key refuses every proposal that started before the freeze ends. */
  lemma ShieldRefuses(c: Setup, w: World, p: Proposal, t: int, env: Env, cur: Value)
    requires Inv(c, w) && Shielded(w) && w.owner.HookDone? && t <= w.clock && p.key == c.key
    ensures CheckKey(c.reg, env, w.s.rows, p.key, cur, Canonical(c, p), t) == Some(IsFrozen)
  {
    var i := NewestIndex(w.s.rows, c.key);
    assert w.s.rows[i].frozenUntil == Some(w.owner.until);
  }

  lemma ProposalReads(c: Setup, w: World, tid: nat, env: Env, ev: Evidence)
    requires Inv(c, w) && tid in w.threads
    requires w.threads[tid].Waiting? || w.threads[tid].Entered? || w.threads[tid].HasRead? || w.threads[tid].NotBusy?
             || w.threads[tid].Checked?
    ensures Inv(c, AdvanceThread(c, w, tid, w.threads[tid], env, ev))
  {
    var pc := w.threads[tid];
    var w' := AdvanceThread(c, w, tid, pc, env, ev);
    assert ThreadOk(c, w, pc);
    if w' != w {
      var pc' := w'.threads[tid];
      if pc.Entered? && pc'.HasRead? { CoerceOfValidate(c.reg.schema[pc.p.key], w.s.settings[pc.p.key]); }
      if pc.HasRead? && pc'.NotBusy? { NotBusyMeansNone(w.s.rows); }
      if pc.NotBusy? && pc'.Checked? && pc.p.key == c.key && Shielded(w) {
        ShieldRefuses(c, w, pc.p, pc.t, env, pc.cur);
        assert false;
      }
      hide CheckKey, Accepts, Validate, Ordered, Typed;
      assert Moves(w, w', tid, pc');
      MoveKeepsInv(c, w, w', tid, pc');
    }
  }

  lemma RollbackReads(c: Setup, w: World, tid: nat, env: Env, ev: Evidence)
    requires Inv(c, w) && tid in w.threads && (w.threads[tid].RollbackSeen? || w.threads[tid].RollbackEntered?)
    ensures Inv(c, AdvanceThread(c, w, tid, w.threads[tid], env, ev))
  {
    var pc := w.threads[tid];
    var w' := AdvanceThread(c, w, tid, pc, env, ev);
    assert ThreadOk(c, w, pc);
    if w' != w {
      var pc' := w'.threads[tid];
      if pc.RollbackEntered? && pc'.RollbackChecked? && pc.row.key == c.key && Shielded(w) {
        var i := NewestIndex(w.s.rows, c.key);
        assert false;
      }
      assert Moves(w, w', tid, pc');
      MoveKeepsInv(c, w, w', tid, pc');
    }
  }

  lemma CoerceOfValidate(spec: Spec, v: Value)
    requires Validate(spec, v).Some?
    ensures Coerce(spec.kind, Validate(spec, v).value) == Some(Validate(spec, v).value)
  {
    if spec.kind.IntKind? && v.Num? { TruncIdempotent(v.x); }
  }

  /** A write by the lock holder: never to the owner's key while it is shielded, and
      never while the owner's hook holds the lock. */
  lemma PutKeepsInv(c: Setup, w: World, tid: nat, key: Key, v: Value)
    requires Inv(c, w) && tid in w.threads && Inside(w.threads[tid])
    requires MayWrite(w.threads[tid], key) && key in c.reg.schema && Coerce(c.reg.schema[key].kind, v) == Some(v)
    ensures Inv(c, Put(w, key, v))
  {
    var w' := Put(w, key, v);
    assert Mutex(w');
    assert ThreadsOk(c, w') by {
      forall t | t in w'.threads ensures ThreadOk(c, w', w'.threads[t]) { assert ThreadOk(c, w, w.threads[t]); }
    }
    if Shielded(w) { assert key != c.key; }
  }

  lemma WriteStep(c: Setup, w: World, tid: nat, env: Env, ev: Evidence)
    requires Inv(c, w) && tid in w.threads
    requires w.threads[tid].Confirmed? || w.threads[tid].InsertFailed? || w.threads[tid].RollbackChecked?
    ensures Inv(c, AdvanceThread(c, w, tid, w.threads[tid], env, ev))
  {
    hide Accepts, Validate, Canonical, Ordered, Typed, OwnerOk, EvaluatingCount;
    var pc := w.threads[tid];
    var w' := AdvanceThread(c, w, tid, pc, env, ev);
    assert ThreadOk(c, w, pc);
    var key := if pc.RollbackChecked? then pc.row.key else pc.p.key;
    if w'.s == w.s {
      MoveKeepsInv(c, w, w', tid, w'.threads[tid]);
    } else {
      WrittenIsTyped(c, w, tid, env, ev);
      WriteThenMove(c, w, w', tid, key, w'.s.settings[key]);
    }
  }

  lemma WriteThenMove(c: Setup, w: World, w': World, tid: nat, key: Key, v: Value)
    requires Inv(c, w) && tid in w.threads && MayWrite(w.threads[tid], key) && tid in w'.threads
    requires key in c.reg.schema && Coerce(c.reg.schema[key].kind, v) == Some(v)
    requires Moves(Put(w, key, v), w', tid, w'.threads[tid])
    requires ThreadOk(c, w, w.threads[tid])
    requires w.threads[tid].Confirmed? ==>
               w'.lock == w.lock && w'.threads[tid] == Written(w.threads[tid].p, w.threads[tid].t, w.threads[tid].cur)
    requires w.threads[tid].InsertFailed? ==> w'.lock == Nobody && w'.threads[tid] == Finished
    requires w.threads[tid].RollbackChecked? ==> w'.lock == Nobody && w'.threads[tid] == RollbackUnlabelled(w.threads[tid].row, w.threads[tid].t)
    requires w.threads[tid].Confirmed? || w.threads[tid].InsertFailed? || w.threads[tid].RollbackChecked?
    ensures Inv(c, w')
  {
    PutKeepsInv(c, w, tid, key, v);
    var w1 := Put(w, key, v);
    assert ThreadOk(c, w1, w'.threads[tid]);
    hide Ordered, Typed, Protected;
    MoveKeepsInv(c, w1, w', tid, w'.threads[tid]);
  }

  lemma WrittenIsTyped(c: Setup, w: World, tid: nat, env: Env, ev: Evidence)
    requires tid in w.threads && ThreadOk(c, w, w.threads[tid])
    requires w.threads[tid].Confirmed? || w.threads[tid].InsertFailed? || w.threads[tid].RollbackChecked?
    requires AdvanceThread(c, w, tid, w.threads[tid], env, ev).s != w.s
    ensures var pc, w' := w.threads[tid], AdvanceThread(c, w, tid, w.threads[tid], env, ev);
            var key := if pc.RollbackChecked? then pc.row.key else pc.p.key;
            key in c.reg.schema && key in w'.s.settings
            && Coerce(c.reg.schema[key].kind, w'.s.settings[key]) == Some(w'.s.settings[key])
            && w'.s == Put(w, key, w'.s.settings[key]).s
  {
    var pc := w.threads[tid];
    if pc.Confirmed? {
      CanonicalFixed(c, w.s.settings, pc.p);
      CoerceOfValidate(c.reg.schema[pc.p.key], Canonical(c, pc.p));
    }
    if pc.RollbackChecked? { CoerceOfValidate(c.reg.schema[pc.row.key], pc.row.oldValue.value); }
  }

  lemma CanonicalFixed(c: Setup, settings: map<Key, Value>, p: Proposal)
    requires Accepts(c.reg, settings, p.key, Canonical(c, p))
    ensures Validate(c.reg.schema[p.key], Canonical(c, p)) == Some(Canonical(c, p))
  {
    if Validate(c.reg.schema[p.key], p.value).Some? { ValidateIdempotent(c.reg.schema[p.key], p.value); }
  }

  /** Appending a row: older rows keep their place and ids stay fresh. */
  lemma AppendKeepsParts(c: Setup, w: World, r: Row)
    requires Ordered(w.s) && ThreadsOk(c, w) && r.id == w.s.nextId
    ensures var w' := w.(s := w.s.(rows := w.s.rows + [r], nextId := w.s.nextId + 1));
            Ordered(w'.s) && ThreadsOk(c, w')
  {
    var w' := w.(s := w.s.(rows := w.s.rows + [r], nextId := w.s.nextId + 1));
    forall t | t in w'.threads ensures ThreadOk(c, w', w'.threads[t]) { assert ThreadOk(c, w, w.threads[t]); }
  }

  lemma InsertStep(c: Setup, w: World, tid: nat, env: Env, ev: Evidence)
    requires Inv(c, w) && tid in w.threads && w.threads[tid].Written?
    ensures Inv(c, AdvanceThread(c, w, tid, w.threads[tid], env, ev))
  {
    hide Canonical, NewRow, Ordered, Typed, OwnerOk, OneOk, Mutex;
    var pc := w.threads[tid];
    var w' := AdvanceThread(c, w, tid, pc, env, ev);
    assert ThreadOk(c, w, pc);
    if !env.insertOk {
      assert Moves(w, w', tid, InsertFailed(pc.p, pc.t, pc.cur));
      MoveKeepsInv(c, w, w', tid, w'.threads[tid]);
    } else {
      var r := NewRow(c.reg, w.s.nextId, pc.p, pc.cur, Canonical(c, pc.p), pc.t);
      NewRowFields(c, w.s.nextId, pc.p, pc.cur, Canonical(c, pc.p), pc.t);
      RowInserted(c, w, w', tid, r);
    }
  }

  lemma NewRowFields(c: Setup, id: nat, p: Proposal, cur: Value, after: Value, t: int)
    ensures var r := NewRow(c.reg, id, p, cur, after, t); r.id == id && r.key == p.key && r.status == Evaluating
  {}

  lemma RowInserted(c: Setup, w: World, w': World, tid: nat, r: Row)
    requires Inv(c, w) && tid in w.threads && w.threads[tid].Written?
    requires r.id == w.s.nextId && r.key == w.threads[tid].p.key && r.status == Evaluating
    requires w' == Leave(w, tid).(s := w.s.(rows := w.s.rows + [r], nextId := w.s.nextId + 1))
    ensures Inv(c, w')
  {
    AppendKeepsParts(c, w, r);
    NewestOfSnoc(w.s.rows, r, OfKey(c.key));
    EvaluatingSnoc(w.s.rows, r);
    if Shielded(w) { assert r.key != c.key; }
    assert Mutex(w') && OneOk(w');
    assert ThreadsOk(c, w') by {
      forall t | t in w'.threads ensures ThreadOk(c, w', w'.threads[t]) {
        assert t != tid ==> ThreadOk(c, w.(s := w'.s), w.threads[t]);
      }
    }
  }

  /** Relabelling an automated row never touches the owner's row and never adds an
      evaluating one. */
  ghost predicate OnlyCloses(a: seq<Row>, b: seq<Row>, id: nat) {
    |a| == |b| && forall i :: 0 <= i < |a| ==> Relabelled(a[i], b[i], id)
  }

  predicate Relabelled(a: Row, b: Row, id: nat) {
    a.id == b.id && a.key == b.key && (a.id != id ==> b == a)
    && (a.id == id ==> b.status == Kept || b.status == RolledBack || b == a)
  }

  lemma ClosingKeepsRows(s: State, s': State, id: nat)
    requires Ordered(s) && OnlyCloses(s.rows, s'.rows, id) && s'.nextId == s.nextId
    ensures Ordered(s') && EvaluatingCount(s'.rows) <= EvaluatingCount(s.rows)
    ensures forall i :: NotManualId(s, i) ==> NotManualId(s', i)
  {
    assert forall i :: 0 <= i < |s.rows| ==> Relabelled(s.rows[i], s'.rows[i], id);
    EvaluatingLe(s.rows, s'.rows);
  }

  lemma ClosingKeepsManual(c: Setup, s: State, s': State, id: nat)
    requires NotManualId(s, id) && OnlyCloses(s.rows, s'.rows, id)
    requires Newest(s.rows, OfKey(c.key)).Some? && Newest(s.rows, OfKey(c.key)).value.status == Manual
    ensures Newest(s'.rows, OfKey(c.key)) == Newest(s.rows, OfKey(c.key))
  {
    assert forall i :: 0 <= i < |s.rows| ==> Relabelled(s.rows[i], s'.rows[i], id);
    NewestUntouched(s.rows, s'.rows, c.key);
  }

  lemma ClosingKeepsInv(c: Setup, w: World, w': World, id: nat)
    requires Inv(c, w) && NotManualId(w.s, id) && OnlyCloses(w.s.rows, w'.s.rows, id)
    requires w' == w.(s := w.s.(rows := w'.s.rows))
    ensures Inv(c, w')
  {
    ClosingKeepsRows(w.s, w'.s, id);
    if Shielded(w) { ClosingKeepsManual(c, w.s, w'.s, id); }
    hide OnlyCloses, NotManualId, Ordered, EvaluatingCount;
    assert ThreadsOk(c, w') by {
      forall t | t in w'.threads ensures ThreadOk(c, w', w'.threads[t]) { assert ThreadOk(c, w, w.threads[t]); }
    }
  }

  /** The unlocked status updates of rollback and keep. They may relabel a row the owner
      has just closed, but never the owner's row, and never into evaluating. */
  lemma LabelStep(c: Setup, w: World, tid: nat, env: Env, ev: Evidence)
    requires Inv(c, w) && tid in w.threads && (w.threads[tid].RollbackUnlabelled? || w.threads[tid].KeepSeen?)
    ensures Inv(c, AdvanceThread(c, w, tid, w.threads[tid], env, ev))
  {
    var pc := w.threads[tid];
    var w' := AdvanceThread(c, w, tid, pc, env, ev);
    var w1 := w.(s := w'.s);
    assert ThreadOk(c, w, pc);
    assert OnlyCloses(w.s.rows, w1.s.rows, pc.row.id);
    ClosingKeepsInv(c, w, w1, pc.row.id);
    MoveKeepsInv(c, w1, w', tid, Finished);
  }

  lemma FinishedIsDone(c: Setup, w: World, tid: nat, env: Env, ev: Evidence)
    requires tid in w.threads && w.threads[tid].Finished?
    ensures AdvanceThread(c, w, tid, w.threads[tid], env, ev) == w
  {}

  lemma ThreadStep(c: Setup, w: World, tid: nat, env: Env, ev: Evidence)
    requires Inv(c, w) && tid in w.threads
    ensures Inv(c, AdvanceThread(c, w, tid, w.threads[tid], env, ev))
  {
    hide Inv, AdvanceThread;
    match w.threads[tid] {
      case Confirmed(_, _, _) => WriteStep(c, w, tid, env, ev);
      case InsertFailed(_, _, _) => WriteStep(c, w, tid, env, ev);
      case RollbackChecked(_, _) => WriteStep(c, w, tid, env, ev);
      case Written(_, _, _) => InsertStep(c, w, tid, env, ev);
      case RollbackUnlabelled(_, _) => LabelStep(c, w, tid, env, ev);
      case KeepSeen(_) => LabelStep(c, w, tid, env, ev);
      case RollbackSeen(_, _) => RollbackReads(c, w, tid, env, ev);
      case RollbackEntered(_, _) => RollbackReads(c, w, tid, env, ev);
      case Finished => FinishedIsDone(c, w, tid, env, ev);
      case _ => ProposalReads(c, w, tid, env, ev);
    }
  }

  // --------------------------------------------------- starts, clock and owner

  lemma StartKeepsInv(c: Setup, w: World, tid: nat, pc: Pc)
    requires Inv(c, w) && tid !in w.threads && ThreadOk(c, w, pc)
    requires !Inside(pc) && !WillInsert(pc) && !MayWrite(pc, c.key)
    ensures Inv(c, Go(w, tid, pc))
  {
    var w' := Go(w, tid, pc);
    assert Mutex(w');
    assert ThreadsOk(c, w') by {
      forall t | t in w'.threads ensures ThreadOk(c, w', w'.threads[t]) {
        assert t != tid ==> ThreadOk(c, w, w.threads[t]);
      }
    }
  }

  lemma FoundIsNotManual(s: State, id: nat)
    requires Ordered(s) && ById(s.rows, id).Some? && ById(s.rows, id).value.status != Manual
    ensures ById(s.rows, id).value.id == id && NotManualId(s, id)
  {
    ByIdFound(s.rows, id);
    var i :| 0 <= i < |s.rows| && s.rows[i] == ById(s.rows, id).value;
    assert forall j :: 0 <= j < |s.rows| && s.rows[j].id == id ==> j == i;
  }

  lemma OwnerStep(c: Setup, w: World)
    requires Inv(c, w)
    ensures Inv(c, AdvanceOwner(c, w))
  {
    match w.owner {
      case HookEntered(_, _) => OwnerRestores(c, w);
      case HookRestored(_, _, _) => OwnerInserts(c, w);
      case HookInserted(_, _, _, _) => OwnerCloses(c, w);
      case HookDone(_, _, _, _) =>
      case HookSkipped =>
      case _ => OwnerBegins(c, w);
    }
  }

  lemma OwnerBegins(c: Setup, w: World)
    requires Inv(c, w) && (w.owner.Idle? || w.owner.ReadPrev? || w.owner.Removed? || w.owner.WroteValue?)
    ensures Inv(c, AdvanceOwner(c, w))
  {
    hide Accepts, EvaluatingCount;
    var w' := AdvanceOwner(c, w);
    assert Mutex(w');
    assert ThreadsOk(c, w') by {
      forall t | t in w'.threads ensures ThreadOk(c, w', w'.threads[t]) { assert ThreadOk(c, w, w.threads[t]); }
    }
  }

  lemma OwnerRestores(c: Setup, w: World)
    requires Inv(c, w) && w.owner.HookEntered?
    ensures Inv(c, AdvanceOwner(c, w))
  {
    var w' := AdvanceOwner(c, w);
    assert Mutex(w');
    assert ThreadsOk(c, w') by {
      forall t | t in w'.threads ensures ThreadOk(c, w', w'.threads[t]) { assert ThreadOk(c, w, w.threads[t]); }
    }
    SameTypedMeansEqual(c.reg, w.s, c.key, w.owner.after);
  }

  lemma OwnerInserts(c: Setup, w: World)
    requires Inv(c, w) && w.owner.HookRestored?
    ensures Inv(c, AdvanceOwner(c, w))
  {
    var w' := AdvanceOwner(c, w);
    var r := w'.s.rows[|w.s.rows|];
    AppendKeepsParts(c, w, r);
    NewestOfSnoc(w.s.rows, r, OfKey(c.key));
    EvaluatingSnoc(w.s.rows, r);
    assert ThreadsOk(c, w') by {
      forall t | t in w'.threads ensures ThreadOk(c, w', w'.threads[t]) { assert ThreadOk(c, w.(s := w'.s), w.threads[t]); }
    }
    assert forall t :: t in w'.threads ==> !Inside(w.threads[t]);
  }

  lemma OwnerCloses(c: Setup, w: World)
    requires Inv(c, w) && w.owner.HookInserted?
    ensures Inv(c, AdvanceOwner(c, w))
  {
    var w' := AdvanceOwner(c, w);
    var a, b := w.s.rows, w'.s.rows;
    assert forall i :: 0 <= i < |a| ==> a[i].key == b[i].key && a[i].id == b[i].id && (a[i].status == Manual <==> b[i].status == Manual)
                                        && (a[i].status == Manual ==> b[i] == a[i]);
    NewestUntouched(a, b, c.key);
    EvaluatingLe(a, b);
    assert ThreadsOk(c, w') by {
      forall t | t in w'.threads ensures ThreadOk(c, w', w'.threads[t]) { assert ThreadOk(c, w, w.threads[t]); }
    }
    assert Mutex(w') && OneOk(w');
  }

  lemma TickKeepsInv(c: Setup, w: World, seconds: nat)
    requires Inv(c, w)
    ensures Inv(c, Act(c, w, Tick(seconds)))
  {
    var w' := Act(c, w, Tick(seconds));
    assert ThreadsOk(c, w') by {
      forall t | t in w'.threads ensures ThreadOk(c, w', w'.threads[t]) { assert ThreadOk(c, w, w.threads[t]); }
    }
  }

  /** A thread that starts is outside every critical section. */
  lemma StartsKeepInv(c: Setup, w: World, a: Action)
    requires Inv(c, w) && (a.StartProposal? || a.StartRollback? || a.StartKeep?)
    ensures Inv(c, Act(c, w, a))
  {
    if Act(c, w, a) != w {
      if !a.StartProposal? { FoundIsNotManual(w.s, a.id); }
      hide Inv, ById, Rollbackable, CheckStatic, NotManualId;
      match a {
        case StartProposal(tid, env, p, t) => StartKeepsInv(c, w, tid, Waiting(p, t));
        case StartRollback(tid, id, t) => StartKeepsInv(c, w, tid, RollbackSeen(ById(w.s.rows, id).value, t));
        case StartKeep(tid, id) => StartKeepsInv(c, w, tid, KeepSeen(ById(w.s.rows, id).value));
      }
    }
  }

  lemma ActKeepsInv(c: Setup, w: World, a: Action)
    requires Inv(c, w)
    ensures Inv(c, Act(c, w, a))
  {
    hide Inv, AdvanceThread, AdvanceOwner;
    match a {
      case Tick(seconds) => TickKeepsInv(c, w, seconds);
      case Advance(tid, env, ev) => if tid in w.threads { ThreadStep(c, w, tid, env, ev); }
      case OwnerAdvances => OwnerStep(c, w);
      case _ => StartsKeepInv(c, w, a);
    }
  }

  // ------------------------------------------------------------------ theorems

  ghost predicate GoodStart(c: Setup, s: State) {
    GoodSetup(c) && Ordered(s) && Typed(c.reg, s) && EvaluatingCount(s.rows) <= 1
  }

  lemma {:induction false} RunKeepsInv(c: Setup, s: State, clock: int, trace: seq<Action>)
    requires GoodStart(c, s)
    ensures Inv(c, Run(c, Begin(s, clock), trace))
  {
    if |trace| > 0 {
      RunKeepsInv(c, s, clock, trace[..|trace| - 1]);
      ActKeepsInv(c, Run(c, Begin(s, clock), trace[..|trace| - 1]), trace[|trace| - 1]);
    }
  }

  /** While the hook holds the lock past its restore, the setting holds the owner's value
      or one beside which the validator refuses it; completing the hook moves no setting;
      and a value the hook left in place stays until the freeze runs out. */
  lemma RestoredUnlessRefused(c: Setup, s: State, clock: int, trace: seq<Action>)
    requires GoodStart(c, s)
    ensures var w := Run(c, Begin(s, clock), trace);
            match w.owner
            case HookRestored(_, after, lost) => HeldUnlessLost(c, w, after, lost)
            case HookInserted(after, mid, lost, until) =>
              HeldUnlessLost(c, w, after, lost) && AdvanceOwner(c, w).owner == HookDone(after, mid, lost, until)
              && AdvanceOwner(c, w).s.settings == w.s.settings
            case HookDone(after, _, lost, until) => w.clock < until && !lost ==> Holds(c, w, after)
            case _ => true
  {
    RunKeepsInv(c, s, clock, trace);
  }

  /** Automated writes to a setting are exactly these thread steps. */
  predicate WritesKey(w: World, a: Action, key: Key) {
    a.Advance? && a.tid in w.threads
    && var pc := w.threads[a.tid];
       ((pc.Confirmed? || pc.InsertFailed?) && pc.p.key == key) || (pc.RollbackChecked? && pc.row.key == key)
  }

  /** Once the hook is done, no proposal and no rollback reaches a write of the key until
      the freeze expires, whatever was in flight, and the value never moves. */
  lemma NoAutomatedWriteUnderFreeze(c: Setup, s: State, clock: int, trace: seq<Action>, a: Action)
    requires GoodStart(c, s)
    ensures var w := Run(c, Begin(s, clock), trace);
            w.owner.HookDone? && w.clock < w.owner.until ==>
              !WritesKey(w, a, c.key)
              && c.key in w.s.settings && c.key in Act(c, w, a).s.settings
              && Act(c, w, a).s.settings[c.key] == w.s.settings[c.key]
  {
    RunKeepsInv(c, s, clock, trace);
    var w := Run(c, Begin(s, clock), trace);
    if w.owner.HookDone? && w.clock < w.owner.until { FrozenKeyIsLeftAlone(c, w, a); }
    hide Inv, Act, Run, WritesKey;
  }

  lemma FrozenKeyIsLeftAlone(c: Setup, w: World, a: Action)
    requires Inv(c, w) && w.owner.HookDone? && w.clock < w.owner.until
    ensures !WritesKey(w, a, c.key)
    ensures c.key in w.s.settings && c.key in Act(c, w, a).s.settings
    ensures Act(c, w, a).s.settings[c.key] == w.s.settings[c.key]
  {
    if a.Advance? && a.tid in w.threads { assert ThreadOk(c, w, w.threads[a.tid]); }
  }

  /** One change at a time holds under every interleaving of the lock protocol. */
  lemma SingleEvaluatingInterleaved(c: Setup, s: State, clock: int, trace: seq<Action>)
    requires GoodStart(c, s)
    ensures EvaluatingCount(Run(c, Begin(s, clock), trace).s.rows) <= 1
  {
    RunKeepsInv(c, s, clock, trace);
  }

  lemma OwnerOnlyByOwner(c: Setup, w: World, a: Action)
    ensures !a.OwnerAdvances? ==> Act(c, w, a).owner == w.owner
  {}

  // -------------------------------------------------------- when the hook is skipped

  /** The hook has gone on to record the write. */
  predicate Recording(o: OwnerPc) { o.HookEntered? || o.HookRestored? || o.HookInserted? || o.HookDone? }

  /** The owner's first step read `prev`, and the hook went by it. */
  predicate WentBy(c: Setup, o: OwnerPc, prev: Value) {
    c.key in c.reg.schema && !c.deletes
    && match o
       case Idle => false
       case ReadPrev(p) => p == prev
       case Removed(_) => false
       case WroteValue(p, after) => p == prev && after == c.value
       case HookSkipped => Same(c.reg.schema[c.key], prev, c.value)
       case HookEntered(p, _) => p == prev && !Same(c.reg.schema[c.key], prev, c.value)
       case _ => !Same(c.reg.schema[c.key], prev, c.value)
  }

  lemma {:induction false} RunGoesBy(c: Setup, w: World, trace: seq<Action>, prev: Value)
    requires WentBy(c, w.owner, prev)
    ensures WentBy(c, Run(c, w, trace).owner, prev)
  {
    if |trace| > 0 {
      RunGoesBy(c, w, trace[..|trace| - 1], prev);
      OwnerOnlyByOwner(c, Run(c, w, trace[..|trace| - 1]), trace[|trace| - 1]);
    }
  }

  lemma {:induction false} StaysIdle(c: Setup, s: State, clock: int, trace: seq<Action>)
    requires GoodStart(c, s) && OwnerAdvances !in trace
    ensures Run(c, Begin(s, clock), trace).owner == Idle && c.key in Run(c, Begin(s, clock), trace).s.settings
  {
    RunKeepsInv(c, s, clock, trace);
    if |trace| > 0 {
      StaysIdle(c, s, clock, trace[..|trace| - 1]);
      OwnerOnlyByOwner(c, Run(c, Begin(s, clock), trace[..|trace| - 1]), trace[|trace| - 1]);
    }
  }

  /** Whether the hook records a write, as opposed to a delete, is decided by the value stored when the owner read
      it, before any lock: on every trace, if that was already the owner's value the hook
      never records, otherwise it is never skipped. */
  lemma HookSkipsIff(c: Setup, s: State, clock: int, before: seq<Action>, after: seq<Action>)
    requires GoodStart(c, s) && !c.deletes && OwnerAdvances !in before
    ensures var read, w := Run(c, Begin(s, clock), before), Run(c, Begin(s, clock), before + [OwnerAdvances] + after);
            c.key in read.s.settings
            && var same := Same(c.reg.schema[c.key], read.s.settings[c.key], c.value);
               (w.owner.HookSkipped? ==> same) && (Recording(w.owner) ==> !same)
               && (w.owner.ReadPrev? || w.owner.WroteValue? || (w.owner.HookSkipped? <==> same))
  {
    hide Run, Same, Ordered, Typed, EvaluatingCount;
    StaysIdle(c, s, clock, before);
    var read := Run(c, Begin(s, clock), before);
    RunConcat(c, Begin(s, clock), before, [OwnerAdvances]);
    RunOne(c, read, OwnerAdvances);
    RunConcat(c, Begin(s, clock), before + [OwnerAdvances], after);
    RunGoesBy(c, AdvanceOwner(c, read), after, read.s.settings[c.key]);
  }

  lemma {:induction false} RunConcat(c: Setup, w: World, a: seq<Action>, b: seq<Action>)
    ensures Run(c, w, a + b) == Run(c, Run(c, w, a), b)
  {
    if |b| == 0 {
      assert a + b == a;
    } else {
      assert (a + b)[..|a + b| - 1] == a + b[..|b| - 1];
      RunConcat(c, w, a, b[..|b| - 1]);
    }
  }

  lemma RunOne(c: Setup, w: World, a: Action)
    ensures Run(c, w, [a]) == Act(c, w, a)
  {
    assert [a][..0] == [];
  }

  /** Some step of the trace is an automated write of the key. */
  ghost predicate SomeoneWrites(c: Setup, w: World, trace: seq<Action>) {
    exists i :: 0 <= i < |trace| && WritesKey(Run(c, w, trace[..i]), trace[i], c.key)
  }

  /** A skipped hook leaves no freeze behind: from the owner's write on, the value stands
      as long as nobody writes the key, and that is all that is promised. */
  lemma {:induction false} SkippedValueStands(c: Setup, w: World, trace: seq<Action>)
    requires GoodSetup(c) && ValueHeld(c, w) && (w.owner.WroteValue? || w.owner.HookSkipped?)
    requires !SomeoneWrites(c, w, trace) && !Recording(Run(c, w, trace).owner)
    ensures ValueHeld(c, Run(c, w, trace)) && (Run(c, w, trace).owner.WroteValue? || Run(c, w, trace).owner.HookSkipped?)
  {
    if |trace| > 0 {
      var n := |trace| - 1;
      var before := Run(c, w, trace[..n]);
      EarlierWrite(c, w, trace);
      RecordingStays(c, before, trace[n]);
      SkippedValueStands(c, w, trace[..n]);
      assert !WritesKey(before, trace[n], c.key);
      UnwrittenStands(c, before, trace[n]);
    }
  }

  lemma EarlierWrite(c: Setup, w: World, trace: seq<Action>)
    requires |trace| > 0
    ensures SomeoneWrites(c, w, trace[..|trace| - 1]) ==> SomeoneWrites(c, w, trace)
  {
    var rest := trace[..|trace| - 1];
    if i :| 0 <= i < |rest| && WritesKey(Run(c, w, rest[..i]), rest[i], c.key) {
      assert rest[..i] == trace[..i] && rest[i] == trace[i];
    }
  }

  lemma RecordingStays(c: Setup, w: World, a: Action)
    ensures Recording(w.owner) ==> Recording(Act(c, w, a).owner)
  {
    OwnerOnlyByOwner(c, w, a);
  }

  lemma UnwrittenStands(c: Setup, w: World, a: Action)
    requires GoodSetup(c) && ValueHeld(c, w) && (w.owner.WroteValue? || w.owner.HookSkipped?)
    requires !WritesKey(w, a, c.key) && !Recording(Act(c, w, a).owner)
    ensures ValueHeld(c, Act(c, w, a)) && (Act(c, w, a).owner.WroteValue? || Act(c, w, a).owner.HookSkipped?)
  {}

  // ---------------------------------------- alone, a thread is the sequential verb

  function Solo(c: Setup, w: World, tid: nat, env: Env, ev: Evidence, n: nat): (done: World)
    requires tid in w.threads
    ensures tid in done.threads
    decreases n
  {
    if n == 0 then w
    else
      var w' := AdvanceThread(c, w, tid, w.threads[tid], env, ev);
      AdvanceKeepsThread(c, w, tid, env, ev);
      Solo(c, w', tid, env, ev, n - 1)
  }

  lemma AdvanceKeepsThread(c: Setup, w: World, tid: nat, env: Env, ev: Evidence)
    requires tid in w.threads
    ensures tid in AdvanceThread(c, w, tid, w.threads[tid], env, ev).threads
  {}

  lemma {:induction false} FinishedStays(c: Setup, w: World, tid: nat, env: Env, ev: Evidence, n: nat)
    requires tid in w.threads && w.threads[tid].Finished?
    ensures Solo(c, w, tid, env, ev, n) == w
    decreases n
  {
    if n > 0 { FinishedStays(c, w, tid, env, ev, n - 1); }
  }

  /** From the re-read on: write, insert, and on a failed insert restore. */
  lemma SoloFromChecked(c: Setup, w: World, tid: nat, env: Env, ev: Evidence, p: Proposal, t: int, cur: Value)
    requires tid in w.threads && w.threads[tid] == Checked(p, t, cur) && p.key in w.s.settings
    requires CheckStatic(c.reg, env, p).None? && Validate(c.reg.schema[p.key], w.s.settings[p.key]) == Some(cur)
    ensures var done := Solo(c, w, tid, env, ev, 4);
            var canonical := Canonical(c, p);
            done.threads[tid].Finished? && done.lock == Nobody
            && done.s == if !Accepts(c.reg, w.s.settings, p.key, canonical) then w.s
                         else if env.insertOk
                         then w.s.(settings := w.s.settings[p.key := canonical],
                                   rows := w.s.rows + [NewRow(c.reg, w.s.nextId, p, cur, canonical, t)], nextId := w.s.nextId + 1)
                         else if Accepts(c.reg, w.s.settings[p.key := canonical], p.key, cur)
                         then w.s.(settings := w.s.settings[p.key := cur])
                         else w.s.(settings := w.s.settings[p.key := canonical])
  {
    ValidateIdempotent(c.reg.schema[p.key], w.s.settings[p.key]);
    var w1 := Go(w, tid, Confirmed(p, t, cur));
    assert AdvanceThread(c, w, tid, w.threads[tid], env, ev) == w1;
    if !Accepts(c.reg, w.s.settings, p.key, Canonical(c, p)) {
      FinishedStays(c, Leave(w1, tid), tid, env, ev, 2);
    } else {
      var w2 := AdvanceThread(c, w1, tid, w1.threads[tid], env, ev);
      var w3 := AdvanceThread(c, w2, tid, w2.threads[tid], env, ev);
      var w4 := AdvanceThread(c, w3, tid, w3.threads[tid], env, ev);
      assert Solo(c, w3, tid, env, ev, 1) == w4;
      assert Solo(c, w2, tid, env, ev, 2) == w4;
      assert Solo(c, w1, tid, env, ev, 3) == w4;
      if !env.insertOk && Accepts(c.reg, w2.s.settings, p.key, cur) {
        assert w2.s.settings[p.key := cur] == w.s.settings[p.key := cur];
      }
    }
  }

  /** A proposal that runs with nobody else moving is the sequential propose_change. */
  lemma SoloProposalIsPropose(c: Setup, w: World, tid: nat, env: Env, ev: Evidence, p: Proposal, t: int)
    requires tid in w.threads && w.threads[tid] == Waiting(p, t) && w.lock == Nobody
    requires CheckStatic(c.reg, env, p).None?
    ensures var done := Solo(c, w, tid, env, ev, 8);
            done.threads[tid].Finished? && done.lock == Nobody && done.s == Propose(c.reg, env, w.s, p, t).0
  {
    var w1 := AdvanceThread(c, w, tid, w.threads[tid], env, ev);
    var w2 := AdvanceThread(c, w1, tid, w1.threads[tid], env, ev);
    assert Solo(c, w, tid, env, ev, 8) == Solo(c, w1, tid, env, ev, 7);
    assert Solo(c, w1, tid, env, ev, 7) == Solo(c, w2, tid, env, ev, 6);
    if w2.threads[tid].Finished? {
      FinishedStays(c, w2, tid, env, ev, 6);
    } else {
      var w3 := AdvanceThread(c, w2, tid, w2.threads[tid], env, ev);
      assert Solo(c, w2, tid, env, ev, 6) == Solo(c, w3, tid, env, ev, 5);
      if w3.threads[tid].Finished? {
        FinishedStays(c, w3, tid, env, ev, 5);
      } else {
        var w4 := AdvanceThread(c, w3, tid, w3.threads[tid], env, ev);
        assert Solo(c, w3, tid, env, ev, 5) == Solo(c, w4, tid, env, ev, 4);
        if w4.threads[tid].Finished? {
          FinishedStays(c, w4, tid, env, ev, 4);
        } else {
          SoloFromChecked(c, w4, tid, env, ev, p, t, Validate(c.reg.schema[p.key], w.s.settings[p.key]).value);
        }
      }
    }
  }

  /** Likewise a rollback, when the row it read is still the ledger's row. */
  lemma SoloRollbackIsRollback(c: Setup, w: World, tid: nat, env: Env, ev: Evidence, id: nat, t: int)
    requires tid in w.threads && w.lock == Nobody && Rollbackable(c, w.s, id) && Ordered(w.s)
    requires w.threads[tid] == RollbackSeen(ById(w.s.rows, id).value, t)
    ensures var done := Solo(c, w, tid, env, ev, 4);
            done.threads[tid].Finished? && done.lock == Nobody && done.s == Rollback(c.reg, env, w.s, id, ev, t).0
  {
    hide Accepts, Validate, Same;
    var row := ById(w.s.rows, id).value;
    ByIdFound(w.s.rows, id);
    if Newest(w.s.rows, OfKey(row.key)).Some? { var i := NewestIndex(w.s.rows, row.key); }
    var w1 := AdvanceThread(c, w, tid, w.threads[tid], env, ev);
    var w2 := AdvanceThread(c, w1, tid, w1.threads[tid], env, ev);
    assert Solo(c, w, tid, env, ev, 4) == Solo(c, w1, tid, env, ev, 3);
    assert Solo(c, w1, tid, env, ev, 3) == Solo(c, w2, tid, env, ev, 2);
    if w2.threads[tid].Finished? {
      FinishedStays(c, w2, tid, env, ev, 2);
    } else {
      SoloTwo(c, w2, tid, env, ev);
    }
  }

  lemma SoloTwo(c: Setup, w: World, tid: nat, env: Env, ev: Evidence)
    requires tid in w.threads
    ensures var w1 := AdvanceThread(c, w, tid, w.threads[tid], env, ev);
            tid in w1.threads && Solo(c, w, tid, env, ev, 2) == AdvanceThread(c, w1, tid, w1.threads[tid], env, ev)
  {
    AdvanceKeepsThread(c, w, tid, env, ev);
    hide AdvanceThread;
    var w1 := AdvanceThread(c, w, tid, w.threads[tid], env, ev);
    assert Solo(c, w1, tid, env, ev, 1) == AdvanceThread(c, w1, tid, w1.threads[tid], env, ev);
  }
}
