/** Every verb of the auto-tune ledger (src/auto_tune.py), first as a step on values and
    then as a class that performs the step in place under the non-reentrant lock. */
module AutoTune {
  import opened Common
  import opened Ledger

  /** Who writes a setting: the owner (API, batch, workbench, ...), the ledger itself,
      another internal job, or the undo of a failed batch. */
  datatype Actor = Owner(name: string) | LedgerActor | Internal | BatchUndo(batch: string)

  /** What one call reads from the environment. `insertOk` is whether the row insert
      of a proposal succeeds. */
  datatype Env = Env(
    enabled: bool, allow: set<Key>, pinned: set<Key>, away: bool, baselineDays: Option<nat>,
    manualFreezeDays: int, rollbackFreezeDays: int, insertOk: bool)

  const MIN_BASELINE_DAYS: nat := 5
  const SUPERSEDE_LIMIT: nat := 20
  const UNDO_LIMIT: nat := 5

  datatype Refusal =
    | Disabled | Denylisted | NotAllowlisted | CronReload | Invalid | Pinned | Unchanged | IsBusy | IsFrozen
    | StepTooLarge | DriftCap | Away | NoBaseline | Changed | LedgerError(restored: bool)

  datatype Outcome = Applied(id: nat, oldValue: Value, newValue: Value) | Refused(reason: Refusal)

  datatype RollbackOutcome = Restored(value: Value) | NotFound | NotRollbackable | NoOldValue | Overtaken | RestoreInvalid

  predicate IsAllowlisted(reg: Registry, env: Env, key: Key) { key in env.allow && key !in reg.denied }

  function FreezeUntil(now: int, days: int): Option<int> {
    if days > 0 then Some(now + days * DAY_S) else None
  }

  // -------------------------------------------------------- writing a setting

  /** The two comfort keys must stay half a degree apart; the slack tolerance below its margin. */
  predicate CrossCheck(reg: Registry, settings: map<Key, Value>, key: Key, v: Value) {
    match (key, v)
    case (CeilingC, Num(c)) => NumAt(settings, SetpointC).Some? ==> c >= NumAt(settings, SetpointC).value + 0.5 - EPS
    case (SetpointC, Num(p)) => NumAt(settings, CeilingC).Some? ==> p <= NumAt(settings, CeilingC).value - 0.5 + EPS
    case (SlackTolC, Num(t)) => t < reg.slackMargin - EPS
    case _ => true
  }

  function NumAt(settings: map<Key, Value>, key: Key): Option<real> {
    if key in settings && settings[key].Num? then Some(settings[key].x) else None
  }

  /** set_setting accepts `v` for `key`. */
  predicate Accepts(reg: Registry, settings: map<Key, Value>, key: Key, v: Value) {
    key in reg.schema && Validate(reg.schema[key], v).Some?
    && CrossCheck(reg, settings, key, Validate(reg.schema[key], v).value)
  }

  function SetSetting(reg: Registry, env: Env, s: State, key: Key, v: Value, actor: Actor, now: int): State
    requires key in s.settings && Accepts(reg, s.settings, key, v)
  {
    StoreValue(reg, env, s, key, Validate(reg.schema[key], v).value, actor, now)
  }

  /** The value is in place; then comes the hook. */
  function StoreValue(reg: Registry, env: Env, s: State, key: Key, v: Value, actor: Actor, now: int): State
    requires key in s.settings && key in reg.schema
  {
    Hook(reg, env, s.(settings := s.settings[key := v]), key, s.settings[key], v, actor, now)
  }

  /** What a default read from the environment is sure to have is its key's type: no
      bound and no other setting is checked when it comes into force. */
  predicate IsDefault(reg: Registry, key: Key, v: Value) {
    key in reg.schema && Coerce(reg.schema[key].kind, v) == Some(v)
  }

  /** delete_setting: the stored value is dropped, `v` is the default that takes its place. */
  function ClearSetting(reg: Registry, env: Env, s: State, key: Key, v: Value, actor: Actor, now: int): State
    requires key in s.settings && key in reg.schema
  {
    StoreValue(reg, env, s, key, v, actor, now)
  }

  /** on_manual_change, after `key` went from `before` to `after`. */
  function Hook(reg: Registry, env: Env, s: State, key: Key, before: Value, after: Value, actor: Actor, now: int): State
    requires key in s.settings && key in reg.schema
  {
    match actor
    case BatchUndo(batch) => UndoBatch(s, key, batch)
    case LedgerActor => s
    case Internal => s
    case Owner(name) =>
      if key in reg.denied || Same(reg.schema[key], before, after) then s
      else if key !in env.allow && Newest(s.rows, OfKey(key)).None? then s
      else RecordManual(reg, env, RestoreOwner(reg, s, key, after), key, before, after, name, now)
  }

  /** A proposer that wrote after the owner is overwritten with the owner's value. The
      write is the ledger's own, so its hook has nothing more to do. */
  function RestoreOwner(reg: Registry, s: State, key: Key, after: Value): State
    requires key in s.settings && key in reg.schema
  {
    if !Same(reg.schema[key], s.settings[key], after) && Accepts(reg, s.settings, key, after)
    then s.(settings := s.settings[key := Validate(reg.schema[key], after).value])
    else s
  }

  function RecordManual(
    reg: Registry, env: Env, s: State, key: Key, before: Value, after: Value, name: string, now: int): State
  {
    var m := Row(s.nextId, key, Some(before), after, ManualSource, Manual, now,
                 FreezeUntil(now, env.manualFreezeDays), Some(name), NO_EVIDENCE, None);
    s.(rows := SupersedeNewest(s.rows + [m], key, SUPERSEDE_LIMIT, m.id), nextId := s.nextId + 1)
  }

  function UndoBatch(s: State, key: Key, batch: string): State {
    match NewestManualBy(s.rows, key, batch, UNDO_LIMIT)
    case None => s
    case Some(m) => s.(rows := DeleteId(ReopenNewest(s.rows, key, SUPERSEDE_LIMIT, m.id), m.id))
  }

  // --------------------------------------------------------------- proposing

  datatype Proposal = Proposal(
    key: Key, value: Value, source: Source, intent: Option<Intent>, expectedComfort: Option<real>)

  function DeriveIntent(reg: Registry, key: Key, source: Source, before: Value, after: Value): Intent {
    if source == LearnedParam then Learned
    else if source == ComfortFeedback && before.Num? && after.Num? then
      if ((key in reg.loosenDown || key in reg.dhw) && after.x < before.x) || (key in reg.loosenUp && after.x > before.x)
      then ComfortDown else ComfortUp
    else Saving
  }

  /** The checks made before the lock is taken. */
  function CheckStatic(reg: Registry, env: Env, p: Proposal): Option<Refusal> {
    if !env.enabled then Some(Disabled)
    else if p.key in reg.denied then Some(Denylisted)
    else if !IsAllowlisted(reg, env, p.key) || p.key !in reg.schema then Some(NotAllowlisted)
    else if reg.schema[p.key].cronReload then Some(CronReload)
    else if p.source.ManualSource? || p.source.UnknownSource? then Some(Invalid)
    else if p.intent == Some(UnknownIntent) then Some(Invalid)
    else if Validate(reg.schema[p.key], p.value).None? then Some(Invalid)
    else None
  }

  /** One spec step and, for numeric keys, the drift cap. */
  function CheckMove(reg: Registry, rows: seq<Row>, key: Key, cur: Value, canonical: Value): Option<Refusal>
    requires key in reg.schema
  {
    match reg.schema[key].kind
    case EnumKind(options) =>
      if cur.Sym? && canonical.Sym? && !Adjacent(options, cur.s, canonical.s) then Some(StepTooLarge) else None
    case TextKind => None
    case _ =>
      if !cur.Num? || !canonical.Num? then None
      else if AbsR(canonical.x - cur.x) > StepFor(reg, key) + EPS then Some(StepTooLarge)
      else if MaxDrift(reg, key).Some?
              && AbsR(canonical.x - Reference(rows, key, cur.x)) > MaxDrift(reg, key).value + EPS then Some(DriftCap)
      else None
  }

  /** float(manual_value), else the current value. */
  function Reference(rows: seq<Row>, key: Key, cur: real): real {
    match ManualValue(rows, key)
    case Some(Num(x)) => x
    case _ => cur
  }

  function IndexOf(options: seq<string>, s: string): int {
    if |options| == 0 then 0 else if options[0] == s then 0 else 1 + IndexOf(options[1..], s)
  }

  predicate Adjacent(options: seq<string>, a: string, b: string) {
    IndexOf(options, a) - IndexOf(options, b) == 1 || IndexOf(options, b) - IndexOf(options, a) == 1
  }

  /** The per-key checks: freeze, step and drift cap, away, baseline. */
  function CheckKey(
    reg: Registry, env: Env, rows: seq<Row>, key: Key, cur: Value, canonical: Value, now: int): Option<Refusal>
    requires key in reg.schema
  {
    if Frozen(rows, key, now) then Some(IsFrozen)
    else if CheckMove(reg, rows, key, cur, canonical).Some? then CheckMove(reg, rows, key, cur, canonical)
    else if env.away then Some(Away)
    else if env.baselineDays.None? || env.baselineDays.value < MIN_BASELINE_DAYS then Some(NoBaseline)
    else None
  }

  /** The checks made under the lock, in order. */
  function CheckLocked(reg: Registry, env: Env, s: State, p: Proposal, now: int): Option<Refusal>
    requires CheckStatic(reg, env, p).None?
  {
    var spec := reg.schema[p.key];
    var canonical := Validate(spec, p.value).value;
    if p.key in env.pinned then Some(Pinned)
    else if p.key !in s.settings || Validate(spec, s.settings[p.key]).None? then Some(Invalid)
    else
      var cur := Validate(spec, s.settings[p.key]).value;
      if canonical == cur then Some(Unchanged)
      else if Busy(s.rows) then Some(IsBusy)
      else if CheckKey(reg, env, s.rows, p.key, cur, canonical, now).Some?
      then CheckKey(reg, env, s.rows, p.key, cur, canonical, now)
      else if !Accepts(reg, s.settings, p.key, canonical) then Some(Invalid)
      else None
  }

  /** propose_change with nobody else running: re-reading the value finds it unchanged. */
  function Propose(reg: Registry, env: Env, s: State, p: Proposal, now: int): (State, Outcome) {
    if CheckStatic(reg, env, p).Some? then (s, Refused(CheckStatic(reg, env, p).value))
    else if CheckLocked(reg, env, s, p, now).Some? then (s, Refused(CheckLocked(reg, env, s, p, now).value))
    else
      var spec := reg.schema[p.key];
      var canonical, cur := Validate(spec, p.value).value, Validate(spec, s.settings[p.key]).value;
      var s1 := s.(settings := s.settings[p.key := canonical]);
      if env.insertOk then
        (s1.(rows := s.rows + [NewRow(reg, s.nextId, p, cur, canonical, now)], nextId := s.nextId + 1),
         Applied(s.nextId, cur, canonical))
      else if Accepts(reg, s1.settings, p.key, cur) then
        (s.(settings := s.settings[p.key := cur]), Refused(LedgerError(true)))
      else (s1, Refused(LedgerError(false)))
  }

  function NewRow(reg: Registry, id: nat, p: Proposal, cur: Value, canonical: Value, now: int): Row {
    Row(id, p.key, Some(cur), canonical, p.source, Evaluating, now, None, None,
        NO_EVIDENCE.(expectedComfort := p.expectedComfort),
        Some(if p.intent.Some? then p.intent.value else DeriveIntent(reg, p.key, p.source, cur, canonical)))
  }

  // ------------------------------------------------------------------- verbs

  function RollbackCheck(reg: Registry, s: State, id: nat): Option<RollbackOutcome> {
    match ById(s.rows, id)
    case None => Some(NotFound)
    case Some(row) =>
      if row.status != Evaluating && row.status != Kept then Some(NotRollbackable)
      else if row.oldValue.None? then Some(NoOldValue)
      else if row.key !in reg.schema || row.key !in s.settings then Some(RestoreInvalid)
      else if Newest(s.rows, OfKey(row.key)) != Some(row)
              || !Same(reg.schema[row.key], s.settings[row.key], row.newValue) then Some(Overtaken)
      else if !Accepts(reg, s.settings, row.key, row.oldValue.value) then Some(RestoreInvalid)
      else None
  }

  function Rollback(reg: Registry, env: Env, s: State, id: nat, ev: Evidence, now: int): (State, RollbackOutcome) {
    match RollbackCheck(reg, s, id)
    case Some(refusal) => (s, refusal)
    case None =>
      var row := ById(s.rows, id).value;
      var restored := Validate(reg.schema[row.key], row.oldValue.value).value;
      (s.(settings := s.settings[row.key := restored],
          rows := Relabel(s.rows, id, RolledBack, FreezeUntil(now, env.rollbackFreezeDays),
                          ev)),
       Restored(restored))
  }

  function Keep(s: State, id: nat, ev: Evidence): (State, bool) {
    match ById(s.rows, id)
    case Some(row) =>
      if row.status == Evaluating then (s.(rows := Relabel(s.rows, id, Kept, row.frozenUntil, ev)), true) else (s, false)
    case None => (s, false)
  }

  function FreezeRow(s: State, id: nat, days: int, now: int): State {
    match ById(s.rows, id)
    case Some(row) =>
      s.(rows := Relabel(s.rows, id, row.status, Some(now + MaxI(0, days) * DAY_S), row.evidence))
    case None => s
  }

  function FreezeKey(s: State, key: Key, days: int, now: int): State {
    match Newest(s.rows, OfKey(key))
    case Some(row) => FreezeRow(s, row.id, days, now)
    case None => s.(rows := s.rows + [PinRow(s, key, days, now)], nextId := s.nextId + 1)
  }

  /** The row that pins a key's current value, or that it has none. */
  function PinRow(s: State, key: Key, days: int, now: int): Row {
    var cur := if key in s.settings then Some(s.settings[key]) else None;
    Row(s.nextId, key, cur, cur.GetOr(Absent), ManualSource, Manual, now,
        Some(now + MaxI(0, days) * DAY_S), None, NO_EVIDENCE, None)
  }

  /** Update of the evidence, and possibly the status, of one evaluating row (the judge). */
  function Annotate(s: State, id: nat, status: Status, ev: Evidence): State {
    match ById(s.rows, id)
    case Some(row) => s.(rows := Relabel(s.rows, id, status, row.frozenUntil, ev))
    case None => s
  }

  // ------------------------------------------------------- the store, in place

  ghost predicate Total(reg: Registry, s: State) {
    reg.schema.Keys <= s.settings.Keys
  }

  /** Actors whose writes return from the hook before it reaches for the lock. */
  predicate PassesUnlocked(actor: Actor) { actor.LedgerActor? || actor.Internal? }

  class Store {
    var settings: map<Key, Value>
    var rows: seq<Row>
    var nextId: nat
    var lockHeld: bool

    function Value(): State
      reads this
    {
      State(settings, rows, nextId)
    }

    constructor (initial: map<Key, Ledger.Value>)
      ensures Value() == State(initial, [], 0) && !lockHeld
    {
      settings, rows, nextId, lockHeld := initial, [], 0, false;
    }

    /** The lock is not re-entrant: whoever holds it may only write under an actor
        whose hook returns before acquiring. */
    method WriteSetting(reg: Registry, env: Env, key: Key, v: Ledger.Value, actor: Actor, now: int)
      returns (ok: bool)
      requires Total(reg, Value())
      requires lockHeld ==> PassesUnlocked(actor)
      modifies this
      ensures lockHeld == old(lockHeld)
      ensures ok == Accepts(reg, old(settings), key, v)
      ensures Value() == if ok then SetSetting(reg, env, old(Value()), key, v, actor, now) else old(Value())
      decreases if actor.Owner? then 1 else 0, 1
    {
      if key !in reg.schema || Validate(reg.schema[key], v).None? { return false; }
      var canonical := Validate(reg.schema[key], v).value;
      if !CrossCheck(reg, settings, key, canonical) { return false; }
      var prev := settings[key];
      settings := settings[key := canonical];
      OnManualChange(reg, env, key, prev, canonical, actor, now);
      return true;
    }

    /** `stored` is whether the key has a stored value to drop. */
    method DeleteSetting(
      reg: Registry, env: Env, key: Key, stored: bool, fallback: Ledger.Value, actor: Actor, now: int) returns (removed: bool)
      requires Total(reg, Value()) && key in reg.schema
      requires lockHeld ==> PassesUnlocked(actor)
      modifies this
      ensures lockHeld == old(lockHeld) && removed == stored
      ensures Value() == if stored then ClearSetting(reg, env, old(Value()), key, fallback, actor, now)
                         else old(Value())
    {
      var prev := settings[key];
      if stored {
        settings := settings[key := fallback];
        var after := settings[key];
        OnManualChange(reg, env, key, prev, after, actor, now);
      }
      return stored;
    }

    method OnManualChange(
      reg: Registry, env: Env, key: Key, before: Ledger.Value, after: Ledger.Value, actor: Actor, now: int)
      requires Total(reg, Value()) && key in reg.schema
      requires lockHeld ==> PassesUnlocked(actor)
      modifies this
      ensures lockHeld == old(lockHeld)
      ensures Value() == Hook(reg, env, old(Value()), key, before, after, actor, now)
      decreases if actor.Owner? then 1 else 0, 0
    {
      match actor {
        case BatchUndo(batch) => UndoBatchManual(key, batch);
        case LedgerActor =>
        case Internal =>
        case Owner(name) =>
          if key in reg.denied { return; }
          if Same(reg.schema[key], before, after) { return; }
          Acquire();
          if key in env.allow || Newest(rows, OfKey(key)).Some? {
            RestoreOwnerValue(reg, env, key, after, now);
            var mid := InsertRow(Row(nextId, key, Some(before), after, ManualSource, Manual, now,
                                     FreezeUntil(now, env.manualFreezeDays), Some(name), NO_EVIDENCE, None));
            SupersedeEvaluating(key, mid);
          }
          Release();
      }
    }

    method RestoreOwnerValue(reg: Registry, env: Env, key: Key, after: Ledger.Value, now: int)
      requires Total(reg, Value()) && key in reg.schema && lockHeld
      modifies this
      ensures lockHeld
      ensures Value() == RestoreOwner(reg, old(Value()), key, after)
      decreases 0, 2
    {
      if !Same(reg.schema[key], settings[key], after) {
        var _ := WriteSetting(reg, env, key, after, LedgerActor, now);
      }
    }

    method Acquire()
      requires !lockHeld
      modifies this`lockHeld
      ensures lockHeld
    {
      lockHeld := true;
    }

    method Release()
      requires lockHeld
      modifies this`lockHeld
      ensures !lockHeld
    {
      lockHeld := false;
    }

    method InsertRow(row: Row) returns (id: nat)
      requires row.id == nextId
      modifies this`rows, this`nextId
      ensures rows == old(rows) + [row] && nextId == old(nextId) + 1 && id == old(nextId)
    {
      id := nextId;
      rows := rows + [row];
      nextId := nextId + 1;
    }

    method UpdateRow(id: nat, status: Status, frozen: Option<int>, ev: Evidence)
      modifies this`rows
      ensures rows == Relabel(old(rows), id, status, frozen, ev)
    {
      var i := 0;
      while i < |rows|
        invariant 0 <= i <= |rows| == old(|rows|)
        invariant rows[..i] == Relabel(old(rows), id, status, frozen, ev)[..i]
        invariant rows[i..] == old(rows)[i..]
      {
        if rows[i].id == id {
          rows := rows[i := rows[i].(status := status, frozenUntil := frozen, evidence := ev)];
        }
        i := i + 1;
      }
    }

    method SupersedeEvaluating(key: Key, mid: nat)
      modifies this`rows
      ensures rows == SupersedeNewest(old(rows), key, SUPERSEDE_LIMIT, mid)
    {
      var i, left := |rows|, SUPERSEDE_LIMIT;
      while i > 0
        invariant 0 <= i <= |rows| == old(|rows|)
        invariant left == MaxI(0, SUPERSEDE_LIMIT - CountFrom(old(rows), EvaluatingOf(key), i))
        invariant forall j :: 0 <= j < i ==> rows[j] == old(rows)[j]
        invariant forall j :: i <= j < |rows| ==>
          rows[j] == SupersedeNewest(old(rows), key, SUPERSEDE_LIMIT, mid)[j]
      {
        i := i - 1;
        if Matches(EvaluatingOf(key), rows[i]) && left > 0 {
          rows := rows[i := Closed(rows[i], mid)];
          left := left - 1;
        }
      }
    }

    method ReopenSuperseded(key: Key, mid: nat)
      modifies this`rows
      ensures rows == ReopenNewest(old(rows), key, SUPERSEDE_LIMIT, mid)
    {
      var i, left := |rows|, SUPERSEDE_LIMIT;
      while i > 0
        invariant 0 <= i <= |rows| == old(|rows|)
        invariant left == MaxI(0, SUPERSEDE_LIMIT - CountFrom(old(rows), SupersededOf(key), i))
        invariant forall j :: 0 <= j < i ==> rows[j] == old(rows)[j]
        invariant forall j :: i <= j < |rows| ==>
          rows[j] == ReopenNewest(old(rows), key, SUPERSEDE_LIMIT, mid)[j]
      {
        i := i - 1;
        if Matches(SupersededOf(key), rows[i]) && left > 0 {
          rows := rows[i := Reopened(rows[i], mid)];
          left := left - 1;
        }
      }
    }

    method DeleteRow(id: nat)
      modifies this`rows
      ensures rows == DeleteId(old(rows), id)
    {
      var kept, i := [], 0;
      while i < |rows|
        invariant 0 <= i <= |rows|
        invariant kept == DeleteId(rows[..i], id)
      {
        assert rows[..i + 1][..i] == rows[..i];
        if rows[i].id != id { kept := kept + [rows[i]]; }
        i := i + 1;
      }
      assert rows[..i] == rows;
      rows := kept;
    }

    method UndoBatchManual(key: Key, batch: string)
      requires !lockHeld
      modifies this
      ensures !lockHeld && Value() == UndoBatch(old(Value()), key, batch)
    {
      Acquire();
      var i, left := |rows|, UNDO_LIMIT;
      assert rows[..i] == rows;
      while i > 0 && left > 0
        invariant 0 <= i <= |rows| && Value() == old(Value()) && lockHeld
        invariant NewestManualBy(rows, key, batch, UNDO_LIMIT) == NewestManualBy(rows[..i], key, batch, left)
      {
        i := i - 1;
        assert rows[..i + 1][..i] == rows[..i];
        if Matches(ManualOf(key), rows[i]) {
          if rows[i].actor == Some(batch) {
            var mid := rows[i].id;
            ReopenSuperseded(key, mid);
            DeleteRow(mid);
            break;
          }
          left := left - 1;
        }
      }
      Release();
    }

    method ProposeChange(reg: Registry, env: Env, p: Proposal, now: int) returns (out: Outcome)
      requires Total(reg, Value()) && !lockHeld
      modifies this
      ensures !lockHeld
      ensures (Value(), out) == Propose(reg, env, old(Value()), p, now)
    {
      if !env.enabled { return Refused(Disabled); }
      if p.key in reg.denied { return Refused(Denylisted); }
      if !IsAllowlisted(reg, env, p.key) || p.key !in reg.schema { return Refused(NotAllowlisted); }
      var spec := reg.schema[p.key];
      if spec.cronReload { return Refused(CronReload); }
      if p.source.ManualSource? || p.source.UnknownSource? || p.intent == Some(UnknownIntent) { return Refused(Invalid); }
      if Validate(spec, p.value).None? { return Refused(Invalid); }
      var canonical := Validate(spec, p.value).value;
      Acquire();
      out := ProposeLocked(reg, env, p, canonical, now);
      Release();
    }

    method ProposeLocked(reg: Registry, env: Env, p: Proposal, canonical: Ledger.Value, now: int)
      returns (out: Outcome)
      requires Total(reg, Value()) && lockHeld && CheckStatic(reg, env, p).None?
      requires canonical == Validate(reg.schema[p.key], p.value).value
      modifies this
      ensures lockHeld
      ensures (Value(), out) == Propose(reg, env, old(Value()), p, now)
    {
      var spec := reg.schema[p.key];
      if p.key in env.pinned { return Refused(Pinned); }
      if Validate(spec, settings[p.key]).None? { return Refused(Invalid); }
      var cur := Validate(spec, settings[p.key]).value;
      if canonical == cur { return Refused(Unchanged); }
      if Newest(rows, ACTIVE).Some? { return Refused(IsBusy); }
      if Frozen(rows, p.key, now) { return Refused(IsFrozen); }
      var move := CheckMove(reg, rows, p.key, cur, canonical);
      if move.Some? { return Refused(move.value); }
      if env.away { return Refused(Away); }
      if env.baselineDays.None? || env.baselineDays.value < MIN_BASELINE_DAYS { return Refused(NoBaseline); }
      ValidateIdempotent(spec, settings[p.key]);
      ValidateIdempotent(spec, p.value);
      if !Same(spec, settings[p.key], cur) { return Refused(Changed); }
      var ok := WriteSetting(reg, env, p.key, canonical, LedgerActor, now);
      if !ok { return Refused(Invalid); }
      if env.insertOk {
        var id := InsertRow(NewRow(reg, nextId, p, cur, canonical, now));
        return Applied(id, cur, canonical);
      }
      var restored := WriteSetting(reg, env, p.key, cur, LedgerActor, now);
      assert restored ==> settings == old(settings)[p.key := cur];
      return Refused(LedgerError(restored));
    }

    method RollBack(reg: Registry, env: Env, id: nat, ev: Evidence, now: int) returns (out: RollbackOutcome)
      requires Total(reg, Value()) && !lockHeld
      modifies this
      ensures !lockHeld
      ensures (Value(), out) == Rollback(reg, env, old(Value()), id, ev, now)
    {
      var found := ById(rows, id);
      if found.None? { return NotFound; }
      var row := found.value;
      if row.status != Evaluating && row.status != Kept { return NotRollbackable; }
      if row.oldValue.None? { return NoOldValue; }
      if row.key !in reg.schema { return RestoreInvalid; }
      Acquire();
      if Newest(rows, OfKey(row.key)) != Some(row) || !Same(reg.schema[row.key], settings[row.key], row.newValue) {
        Release();
        return Overtaken;
      }
      var ok := WriteSetting(reg, env, row.key, row.oldValue.value, LedgerActor, now);
      Release();
      if !ok { return RestoreInvalid; }
      UpdateRow(id, RolledBack, FreezeUntil(now, env.rollbackFreezeDays), ev);
      return Restored(settings[row.key]);
    }

    method KeepChange(id: nat, ev: Evidence) returns (ok: bool)
      modifies this
      ensures lockHeld == old(lockHeld)
      ensures (Value(), ok) == Keep(old(Value()), id, ev)
    {
      var found := ById(rows, id);
      if found.None? || found.value.status != Evaluating { return false; }
      UpdateRow(id, Kept, found.value.frozenUntil, ev);
      return true;
    }

    method FreezeById(id: nat, days: int, now: int) returns (ok: bool)
      modifies this
      ensures lockHeld == old(lockHeld)
      ensures Value() == FreezeRow(old(Value()), id, days, now)
      ensures ok == ById(old(rows), id).Some?
    {
      var found := ById(rows, id);
      if found.None? { return false; }
      UpdateRow(id, found.value.status, Some(now + MaxI(0, days) * DAY_S), found.value.evidence);
      return true;
    }

    method FreezeByKey(key: Key, days: int, now: int)
      modifies this
      ensures lockHeld == old(lockHeld)
      ensures Value() == FreezeKey(old(Value()), key, days, now)
    {
      var newest := Newest(rows, OfKey(key));
      if newest.Some? {
        var _ := FreezeById(newest.value.id, days, now);
      } else {
        var cur := if key in settings then Some(settings[key]) else None;
        var _ := InsertRow(Row(nextId, key, cur, cur.GetOr(Absent), ManualSource, Manual, now,
                               Some(now + MaxI(0, days) * DAY_S), None, NO_EVIDENCE, None));
      }
    }
  }

  lemma ValidateIdempotent(spec: Spec, v: Ledger.Value)
    requires Validate(spec, v).Some?
    ensures Validate(spec, Validate(spec, v).value) == Validate(spec, v)
  {
    if spec.kind.IntKind? && v.Num? { TruncIdempotent(v.x); }
  }

  lemma TruncIdempotent(x: real)
    ensures Trunc(Trunc(x) as real) == Trunc(x)
  {}
}
