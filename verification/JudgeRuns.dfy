/** The daily verdict on the ledger (src/auto_tune_judge.py): one run as a step on the
    store, and over whole histories the proof that every evaluation ends. */
module JudgeRuns {
  import opened Common
  import opened Ledger
  import opened AutoTune
  import opened AutoTuneRuns
  import opened AutoTuneBase
  import opened Judge

  // ------------------------------------------------------------------ one run

  /** What a run sees beside the ledger: the clock with its local days, the keys that can
      be replayed, what came of the replay (the week over the days both arms have), and
      the tripwires, read once before and once after it. */
  datatype Reading = Reading(
    env: Env, now: int, localDay: int -> int, whitelist: set<Key>, replayFree: bool, replayOk: bool, week: Week,
    tripBefore: bool, tripAfter: bool)

  datatype Verdict = NotDue | AwayWait | ReplayBusy | Defer | KeepIt | RollItBack

  predicate Due(r: Reading, row: Row) { r.localDay(r.now) >= r.localDay(row.appliedAt) + VERDICT_DAYS }

  predicate Replayable(r: Reading, row: Row) { row.key in r.whitelist && row.oldValue.Some? }

  /** intent_of: what the row says, else what its source and direction say. */
  function IntentOf(reg: Registry, row: Row): Intent {
    if row.intent.Some? && row.intent != Some(UnknownIntent) then row.intent.value
    else DeriveIntent(reg, row.key, row.source, row.oldValue.GetOr(Absent), row.newValue)
  }

  /** The week is judged with the comfort cost the row's evidence expects. */
  function WeekOf(r: Reading, row: Row): Week { r.week.(expected := row.evidence.expectedComfort) }

  ghost function VerdictOf(reg: Registry, r: Reading, row: Row): Verdict {
    if !Due(r, row) then NotDue
    else if r.env.away then AwayWait
    else if !Replayable(r, row) then Defer
    else if !r.replayFree then ReplayBusy
    else if !r.replayOk || r.week.days < MIN_VERDICT_DAYS then Defer
    else if Passes(WeekOf(r, row), IntentOf(reg, row)) && !r.tripAfter then KeepIt
    else RollItBack
  }

  /** verdict(): the replayed week is decided on, and a late tripwire beats a keep. */
  method VerdictFor(reg: Registry, r: Reading, row: Row) returns (v: Verdict)
    ensures v == VerdictOf(reg, r, row)
  {
    if !Due(r, row) { return NotDue; }
    if r.env.away { return AwayWait; }
    if !Replayable(r, row) { return Defer; }
    if !r.replayFree { return ReplayBusy; }
    if !r.replayOk || r.week.days < MIN_VERDICT_DAYS { return Defer; }
    var keep, _ := Decide(WeekOf(r, row), IntentOf(reg, row));
    v := if keep && !r.tripAfter then KeepIt else RollItBack;
  }

  /** The row a run judges. */
  function Judged(r: Reading, s: State): Option<Row> {
    if !r.env.enabled then None
    else match Newest(s.rows, ACTIVE)
         case None => None
         case Some(row) => if row.source.ManualSource? then None else Some(row)
  }

  /** rollback, or, when it refuses, a terminal close. */
  function RollbackOrClose(reg: Registry, r: Reading, s: State, row: Row): State {
    match Rollback(reg, r.env, s, row.id, row.evidence.(reason := "rolled_back"), r.now)
    case (after, Restored(_)) => after
    case (after, _) => Annotate(after, row.id, Superseded, row.evidence.(reason := "rollback_refused"))
  }

  ghost function VerdictStep(reg: Registry, r: Reading, s: State): State {
    match Judged(r, s)
    case None => s
    case Some(row) =>
      if r.tripBefore then RollbackOrClose(reg, r, s, row)
      else match VerdictOf(reg, r, row)
           case NotDue => s
           case AwayWait => s
           case ReplayBusy =>
             Annotate(s, row.id, Evaluating, row.evidence.(busyRetries := row.evidence.busyRetries + 1))
           case Defer =>
             if row.evidence.deferred + 1 > MAX_DEFERRALS
             then Keep(s, row.id, row.evidence.(reason := "undecidable")).0
             else Annotate(s, row.id, Evaluating, row.evidence.(deferred := row.evidence.deferred + 1))
           case KeepIt => Keep(s, row.id, row.evidence).0
           case RollItBack => RollbackOrClose(reg, r, s, row)
  }

  method RollBackOrClose(store: Store, reg: Registry, r: Reading, row: Row)
    requires Total(reg, store.Value()) && !store.lockHeld
    modifies store
    ensures !store.lockHeld && store.Value() == RollbackOrClose(reg, r, old(store.Value()), row)
  {
    var out := store.RollBack(reg, r.env, row.id, row.evidence.(reason := "rolled_back"), r.now);
    if out.Restored? { return; }
    var found := ById(store.rows, row.id);
    if found.Some? {
      store.UpdateRow(row.id, Superseded, found.value.frozenUntil, row.evidence.(reason := "rollback_refused"));
    }
  }

  /** _verdict_locked: tripwires first, then, once the week is over, the verdict. */
  method VerdictLocked(store: Store, reg: Registry, r: Reading)
    requires Total(reg, store.Value()) && !store.lockHeld && InIdOrder(store.rows)
    modifies store
    ensures !store.lockHeld && store.Value() == VerdictStep(reg, r, old(store.Value()))
  {
    if !r.env.enabled { return; }
    var active := Newest(store.rows, ACTIVE);
    if active.None? || active.value.source.ManualSource? { return; }
    var row := active.value;
    NewestById(store.rows, ACTIVE);
    if r.tripBefore { RollBackOrClose(store, reg, r, row); return; }
    if !Due(r, row) { return; }
    var verdict := VerdictFor(reg, r, row);
    match verdict {
      case ReplayBusy =>
        store.UpdateRow(row.id, Evaluating, row.frozenUntil, row.evidence.(busyRetries := row.evidence.busyRetries + 1));
      case Defer =>
        var deferred := row.evidence.deferred + 1;
        if deferred > MAX_DEFERRALS {
          var _ := store.KeepChange(row.id, row.evidence.(reason := "undecidable"));
        } else {
          store.UpdateRow(row.id, Evaluating, row.frozenUntil, row.evidence.(deferred := deferred));
        }
      case KeepIt => var _ := store.KeepChange(row.id, row.evidence);
      case RollItBack => RollBackOrClose(store, reg, r, row);
      case _ =>
    }
  }

  // ------------------------------------------------------------ what a run does

  lemma {:induction false} NewestById(rows: seq<Row>, q: Query)
    requires InIdOrder(rows)
    ensures var n := Newest(rows, q); n.Some? ==> ById(rows, n.value.id) == n && n.value in rows && Matches(q, n.value)
  {
    if |rows| > 0 {
      NewestById(rows[..|rows| - 1], q);
    }
  }

  /** A run that judges a due row with the house occupied and the replay free, or that
      finds a tripped wire. */
  ghost predicate Deciding(reg: Registry, r: Reading, row: Row) {
    r.tripBefore || VerdictOf(reg, r, row) in {Defer, KeepIt, RollItBack}
  }

  /** How one run leaves the row it judged. */
  ghost function Ruled(reg: Registry, r: Reading, s: State, row: Row): (Status, nat) {
    var deferred := row.evidence.deferred;
    var closed := (if RollbackCheck(reg, s, row.id).None? then RolledBack else Superseded, deferred);
    if r.tripBefore then closed
    else match VerdictOf(reg, r, row)
         case Defer => if deferred >= MAX_DEFERRALS then (Kept, deferred) else (Evaluating, deferred + 1)
         case KeepIt => (Kept, deferred)
         case RollItBack => closed
         case _ => (Evaluating, deferred)
  }

  /** One run touches one row and, only when it rolls back, one setting. The judged row
      ends kept, rolled back, or closed because its rollback was refused; a run that
      waits or finds the replay busy leaves the deferral counter alone. */
  lemma RunRulesOneRow(reg: Registry, r: Reading, s: State, i: nat)
    requires InIdOrder(s.rows) && i < |s.rows|
    ensures var s' := VerdictStep(reg, r, s);
            |s'.rows| == |s.rows| && s'.nextId == s.nextId && s'.rows[i].id == s.rows[i].id
            && (if Judged(r, s) == Some(s.rows[i])
                then (s'.rows[i].status, s'.rows[i].evidence.deferred) == Ruled(reg, r, s, s.rows[i])
                     && (s'.settings != s.settings ==> s'.rows[i].status == RolledBack)
                else s'.rows[i] == s.rows[i])
  {
    hide Newest, ById, Passes, IntentOf, WeekOf, Due, Replayable, Accepts, Validate, Same, Relabel, FreezeUntil;
    NewestById(s.rows, ACTIVE);
    if Judged(r, s).Some? {
      var row := Judged(r, s).value;
      assert row.id == s.rows[i].id ==> row == s.rows[i];
      RelabelTouchesOne(s.rows, row, i);
    }
  }

  /** The row of a proposal is judged as what it was proposed for, or else by its source
      and direction, and with the comfort cost it was proposed at; a row without an intent
      by its source and direction. */
  lemma JudgedAsProposed(reg: Registry, r: Reading, id: nat, p: Proposal, cur: Value, want: Value, now: int, row: Row)
    requires p.intent != Some(UnknownIntent)
    ensures var applied := NewRow(reg, id, p, cur, want, now);
            IntentOf(reg, applied)
            == (if p.intent.Some? then p.intent.value else DeriveIntent(reg, p.key, p.source, cur, want))
            && WeekOf(r, applied).expected == p.expectedComfort
    ensures row.intent.None? && row.oldValue.Some?
            ==> IntentOf(reg, row) == DeriveIntent(reg, row.key, row.source, row.oldValue.value, row.newValue)
    ensures WeekOf(r, row) == r.week.(expected := row.evidence.expectedComfort)
  {
    if p.intent.None? { IntentBySource(reg, p.key, p.source, cur, want); }
  }

  // --------------------------------------------- what the run says, in its own terms

  /** The house is occupied, the week of the row is over, and no wire tripped before. */
  predicate Asked(r: Reading, row: Row) {
    !r.tripBefore && !r.env.away && r.localDay(r.now) - r.localDay(row.appliedAt) >= 7
  }

  /** A replay of at least four days on both arms is there to judge. */
  predicate Replayed(r: Reading, row: Row) {
    row.key in r.whitelist && row.oldValue.Some? && r.replayFree && r.replayOk && r.week.days >= 4
  }

  /** Another run holds the replay. */
  predicate ReplayTaken(r: Reading, row: Row) { row.key in r.whitelist && row.oldValue.Some? && !r.replayFree }

  /** How a run leaves the row it judges. A week that was replayed is kept exactly when no
      clause is violated and no wire has tripped, and is rolled back or closed otherwise.
      It is put off exactly when nothing was replayed though the replay was free, and kept
      undecided the fourth time. A taken replay only counts a retry, and a row whose week
      is not over, or an empty house, leaves everything alone. */
  lemma RunJudges(reg: Registry, r: Reading, s: State, i: nat)
    requires InIdOrder(s.rows) && i < |s.rows| && Judged(r, s) == Some(s.rows[i])
    ensures var row, s' := s.rows[i], VerdictStep(reg, r, s);
            |s'.rows| == |s.rows|
            && var row' := s'.rows[i];
               var ev := row.evidence;
               if r.tripBefore then Undone(reg, s, s', row, row')
               else if !Asked(r, row) then s' == s
               else if ReplayTaken(r, row)
               then row' == row.(evidence := ev.(busyRetries := ev.busyRetries + 1)) && s'.settings == s.settings
               else if !Replayed(r, row)
               then s'.settings == s.settings
                    && row' == if ev.deferred < 3 then row.(evidence := ev.(deferred := ev.deferred + 1))
                               else row.(status := Kept, evidence := ev.(reason := "undecidable"))
               else if !r.tripAfter && forall c :: !Violated(WeekOf(r, row), IntentOf(reg, row), c)
               then row' == row.(status := Kept) && s'.settings == s.settings
               else Undone(reg, s, s', row, row')
  {
    hide Judged, Newest, ById, Violated, RollbackOrClose, Relabel, Undone, InIdOrder, IntentOf, WeekOf;
    NewestById(s.rows, ACTIVE);
    JudgedIsEvaluating(r, s);
    RelabelTouchesOne(s.rows, s.rows[i], i);
    UndoneBy(reg, r, s, i);
    JudgedIsNewest(r, s);
  }

  /** A run that is switched off, or finds nothing running, changes nothing. */
  lemma IdleRunIsNothing(reg: Registry, r: Reading, s: State)
    requires !r.env.enabled || forall i :: 0 <= i < |s.rows| ==> s.rows[i].status != Evaluating
    ensures VerdictStep(reg, r, s) == s
  {
    if r.env.enabled { NoneActive(s.rows); }
  }

  lemma {:induction false} NoneActive(rows: seq<Row>)
    requires forall i :: 0 <= i < |rows| ==> rows[i].status != Evaluating
    ensures Newest(rows, ACTIVE).None?
  {
    if |rows| > 0 { NoneActive(rows[..|rows| - 1]); }
  }

  lemma JudgedIsNewest(r: Reading, s: State)
    ensures Judged(r, s).Some? ==> Judged(r, s) == Newest(s.rows, ACTIVE)
  {}

  /** The change is taken back: the old value is in force, or, where that is refused, the
      row is closed and the value stands. */
  ghost predicate Undone(reg: Registry, s: State, s': State, row: Row, row': Row) {
    if row'.status == RolledBack
    then row.oldValue.Some? && row.key in reg.schema && Validate(reg.schema[row.key], row.oldValue.value).Some?
         && s'.settings == s.settings[row.key := Validate(reg.schema[row.key], row.oldValue.value).value]
         && row' == row.(status := RolledBack, frozenUntil := row'.frozenUntil, evidence := row'.evidence)
    else s'.settings == s.settings && row' == row.(status := Superseded, evidence := row'.evidence)
  }

  lemma UndoneBy(reg: Registry, r: Reading, s: State, i: nat)
    requires InIdOrder(s.rows) && i < |s.rows| && s.rows[i].status == Evaluating
    ensures var s' := RollbackOrClose(reg, r, s, s.rows[i]);
            |s'.rows| == |s.rows| && Undone(reg, s, s', s.rows[i], s'.rows[i])
  {
    RelabelTouchesOne(s.rows, s.rows[i], i);
    ByIdAt(s.rows, i);
    hide Accepts, Validate, Same, Newest;
  }

  lemma RelabelTouchesOne(rows: seq<Row>, row: Row, i: nat)
    requires InIdOrder(rows) && i < |rows| && row in rows
    ensures row.id == rows[i].id <==> row == rows[i]
    ensures forall status, frozen, ev ::
      Relabel(rows, row.id, status, frozen, ev)[i]
      == if row == rows[i] then row.(status := status, frozenUntil := frozen, evidence := ev) else rows[i]
  {
    var j :| 0 <= j < |rows| && rows[j] == row;
  }

  /** Every deciding run makes progress on the row it judges: it closes it or uses up
      one of its deferrals, so the deferrals left are a strict measure. */
  lemma VerdictProgress(reg: Registry, r: Reading, s: State, i: nat)
    requires InIdOrder(s.rows) && i < |s.rows| && Judged(r, s) == Some(s.rows[i])
    ensures var before, after := s.rows[i], VerdictStep(reg, r, s).rows[i];
            if Deciding(reg, r, before)
            then after.status != Evaluating
                 || before.evidence.deferred < after.evidence.deferred <= MAX_DEFERRALS
            else after.status == Evaluating && after.evidence.deferred == before.evidence.deferred
  {
    RunRulesOneRow(reg, r, s, i);
  }

  // --------------------------------------------------------------- whole histories

  /** Daily runs, interleaved with everything else that can happen to the ledger. */
  datatype Happening = Runs(r: Reading) | Happens(e: Event)

  ghost function Next(reg: Registry, m: Machine, h: Happening): Machine {
    match h
    case Runs(r) => m.(s := VerdictStep(reg, r, m.s))
    case Happens(e) => Step(reg, m, e)
  }

  ghost function After(reg: Registry, m: Machine, hs: seq<Happening>): Machine {
    if |hs| == 0 then m else Next(reg, After(reg, m, hs[..|hs| - 1]), hs[|hs| - 1])
  }

  predicate Running(rows: seq<Row>, id: nat) { ById(rows, id).Some? && ById(rows, id).value.status == Evaluating }

  /** Everything short of an undo that re-opens row `id`, which wipes its counter; the
      judge's own updates of that row are its runs. */
  predicate LeavesClosed(reg: Registry, m: Machine, h: Happening, id: nat) {
    h.Happens? ==>
      (h.e.BatchUndoes? && Running(Step(reg, m, h.e).s.rows, id) ==> Running(m.s.rows, id))
      && (h.e.Judges? ==> h.e.id != id)
  }

  ghost predicate StaysClosed(reg: Registry, m: Machine, hs: seq<Happening>, id: nat) {
    |hs| > 0 ==>
      StaysClosed(reg, m, hs[..|hs| - 1], id) && LeavesClosed(reg, After(reg, m, hs[..|hs| - 1]), hs[|hs| - 1], id)
  }

  ghost predicate Decides(reg: Registry, h: Happening, s: State, id: nat) {
    h.Runs? && Judged(h.r, s).Some? && Judged(h.r, s).value.id == id && Deciding(reg, h.r, Judged(h.r, s).value)
  }

  /** How many deciding runs judged row `id` along the way. */
  ghost function DecidingRuns(reg: Registry, m: Machine, hs: seq<Happening>, id: nat): nat {
    if |hs| == 0 then 0
    else DecidingRuns(reg, m, hs[..|hs| - 1], id)
         + if Decides(reg, hs[|hs| - 1], After(reg, m, hs[..|hs| - 1]).s, id) then 1 else 0
  }

  /** If row `id` is still evaluating it was so before, and it has been deferred once
      more exactly when this was a deciding run. */
  ghost predicate Moves(s: State, s': State, id: nat, decided: bool) {
    Running(s'.rows, id) ==>
      Running(s.rows, id)
      && var before, after := ById(s.rows, id).value.evidence.deferred, ById(s'.rows, id).value.evidence.deferred;
         after == before + (if decided then 1 else 0) && (decided ==> after <= MAX_DEFERRALS)
  }

  /** Rows stay where they are, at most one is added with a fresh id, and row `id`, if it
      is still evaluating, was so before with the same evidence. */
  ghost predicate Carries(s: State, s': State, id: nat) {
    |s.rows| <= |s'.rows| <= |s.rows| + 1 && s'.nextId == s.nextId + |s'.rows| - |s.rows|
    && (forall i :: 0 <= i < |s.rows| ==> CarriesRow(s.rows[i], s'.rows[i], id))
    && (|s'.rows| > |s.rows| ==> s'.rows[|s.rows|].id == s.nextId)
  }

  predicate CarriesRow(a: Row, b: Row, id: nat) {
    b.id == a.id && (a.id == id && b.status == Evaluating ==> a.status == Evaluating && b.evidence == a.evidence)
  }

  lemma CarriesMoves(s: State, s': State, id: nat)
    requires Ordered(s) && id < s.nextId && Carries(s, s', id)
    ensures Ordered(s') && s.nextId <= s'.nextId && Moves(s, s', id, false)
  {
    forall i | 0 <= i < |s.rows| ensures s'.rows[i].id == s.rows[i].id { assert CarriesRow(s.rows[i], s'.rows[i], id); }
    ByIdFound(s'.rows, id);
    if ById(s'.rows, id).Some? {
      var i :| 0 <= i < |s'.rows| && s'.rows[i] == ById(s'.rows, id).value;
      assert CarriesRow(s.rows[i], s'.rows[i], id);
      ByIdAt(s.rows, i);
    }
  }

  lemma {:induction false} ByIdAt(rows: seq<Row>, i: nat)
    requires InIdOrder(rows) && i < |rows|
    ensures ById(rows, rows[i].id) == Some(rows[i])
  {
    if i < |rows| - 1 { ByIdAt(rows[..|rows| - 1], i); }
  }

  lemma StoreCarries(reg: Registry, env: Env, s: State, key: Key, v: Value, name: string, now: int, id: nat)
    requires key in s.settings && key in reg.schema
    ensures Carries(s, StoreValue(reg, env, s, key, v, Owner(name), now), id)
  {}

  lemma WriteCarries(reg: Registry, env: Env, s: State, key: Key, v: Value, name: string, now: int, id: nat)
    ensures Carries(s, Write(reg, env, s, key, v, Owner(name), now), id)
    ensures Carries(s, Clear(reg, env, s, key, v, name, now), id)
  {
    hide StoreValue;
    if key in s.settings && Accepts(reg, s.settings, key, v) {
      StoreCarries(reg, env, s, key, Validate(reg.schema[key], v).value, name, now, id);
    }
    if key in s.settings && IsDefault(reg, key, v) { StoreCarries(reg, env, s, key, v, name, now, id); }
  }

  lemma ProposeCarries(reg: Registry, env: Env, s: State, p: Proposal, now: int, id: nat)
    ensures Carries(s, Propose(reg, env, s, p, now).0, id)
  {}

  lemma RelabelCarries(
    s: State, settings: map<Key, Value>, row: Row, status: Status, frozen: Option<int>, ev: Evidence, id: nat)
    requires InIdOrder(s.rows) && row in s.rows
    requires row.id != id || status != Evaluating || (row.status == Evaluating && ev == row.evidence)
    ensures Carries(s, s.(settings := settings, rows := Relabel(s.rows, row.id, status, frozen, ev)), id)
  {
    var rows' := Relabel(s.rows, row.id, status, frozen, ev);
    forall i | 0 <= i < |s.rows| ensures CarriesRow(s.rows[i], rows'[i], id) { RelabelTouchesOne(s.rows, row, i); }
  }

  lemma FreezeCarries(s: State, rowId: nat, days: int, now: int, id: nat)
    requires InIdOrder(s.rows)
    ensures Carries(s, FreezeRow(s, rowId, days, now), id)
  {
    ByIdFound(s.rows, rowId);
    if ById(s.rows, rowId).Some? {
      var row := ById(s.rows, rowId).value;
      RelabelCarries(s, s.settings, row, row.status, Some(now + MaxI(0, days) * DAY_S), row.evidence, id);
    }
  }

  /** The verbs that relabel one row. */
  lemma LabelCarries(reg: Registry, m: Machine, e: Event, id: nat)
    requires InIdOrder(m.s.rows) && (e.RollsBack? || e.Keeps? || (e.Judges? && e.id != id))
    ensures Carries(m.s, Step(reg, m, e).s, id)
  {
    ByIdFound(m.s.rows, e.id);
    match e {
      case RollsBack(env, rowId, ev, now) =>
        if RollbackCheck(reg, m.s, rowId).None? {
          RelabelCarries(m.s, Rollback(reg, env, m.s, rowId, ev, now).0.settings, ById(m.s.rows, rowId).value, RolledBack,
                         FreezeUntil(now, env.rollbackFreezeDays), ev, id);
        }
      case Keeps(rowId, ev) =>
        if Keep(m.s, rowId, ev).1 {
          var row := ById(m.s.rows, rowId).value;
          RelabelCarries(m.s, m.s.settings, row, Kept, row.frozenUntil, ev, id);
        }
      case Judges(rowId, status, ev) =>
        if MayJudge(m.s, rowId, status, ev) {
          var row := ById(m.s.rows, rowId).value;
          RelabelCarries(m.s, m.s.settings, row, status, row.frozenUntil, ev, id);
        }
    }
  }

  lemma StepCarries(reg: Registry, m: Machine, e: Event, id: nat)
    requires InIdOrder(m.s.rows) && !e.BatchUndoes? && (e.Judges? ==> e.id != id)
    ensures Carries(m.s, Step(reg, m, e).s, id)
  {
    match e {
      case Proposes(env, p, now) => ProposeCarries(reg, env, m.s, p, now, id);
      case OwnerWrites(env, key, value, name, now) => WriteCarries(reg, env, m.s, key, value, name, now, id);
      case OwnerDeletes(env, key, value, name, now) => WriteCarries(reg, env, m.s, key, value, name, now, id);
      case BatchWrites(env, key, value, name, now) => WriteCarries(reg, env, m.s, key, value, name, now, id);
      case FreezesRow(rowId, days, now) => FreezeCarries(m.s, rowId, days, now, id);
      case FreezesKey(key, days, now) =>
        if Newest(m.s.rows, OfKey(key)).Some? { FreezeCarries(m.s, Newest(m.s.rows, OfKey(key)).value.id, days, now, id); }
      case BatchCommits =>
      case _ => LabelCarries(reg, m, e, id);
    }
  }

  /** An undo that does not re-open row `id` leaves it as it is, or takes it away. */
  lemma UndoMoves(reg: Registry, m: Machine, e: Event, id: nat)
    requires Ordered(m.s) && e.BatchUndoes? && (Running(Step(reg, m, e).s.rows, id) ==> Running(m.s.rows, id))
    ensures Ordered(Step(reg, m, e).s) && m.s.nextId == Step(reg, m, e).s.nextId
    ensures Moves(m.s, Step(reg, m, e).s, id, false)
  {
    var s, s', key := m.s, Step(reg, m, e).s, e.key;
    if key in m.open && key in s.settings && Accepts(reg, s.settings, key, m.open[key].prior) {
      UndoWriteEffect(reg, e.env, s, key, m.open[key].prior, m.open[key].name, e.now);
      var found := NewestManualBy(s.rows, key, m.open[key].name, UNDO_LIMIT);
      if found.Some? { ReopenMoves(s, s', key, found.value.id, id); }
    }
  }

  lemma ReopenMoves(s: State, s': State, key: Key, mid: nat, id: nat)
    requires Ordered(s) && s'.nextId == s.nextId && (Running(s'.rows, id) ==> Running(s.rows, id))
    requires s'.rows == DeleteId(ReopenNewest(s.rows, key, SUPERSEDE_LIMIT, mid), mid)
    ensures Ordered(s') && Moves(s, s', id, false)
  {
    var r := ReopenNewest(s.rows, key, SUPERSEDE_LIMIT, mid);
    DeleteOrdered(s, r, s', mid);
    if Running(s'.rows, id) {
      ReopenKeepsRunning(s.rows, key, mid, id);
      DeleteById(r, mid, id);
      hide ReopenNewest, DeleteId, ById;
    }
  }

  lemma DeleteOrdered(s: State, r: seq<Row>, s': State, mid: nat)
    requires Ordered(s) && |r| == |s.rows| && (forall i :: 0 <= i < |r| ==> r[i].id == s.rows[i].id)
    requires s'.rows == DeleteId(r, mid) && s'.nextId == s.nextId
    ensures Ordered(s')
  {
    DeleteKeepsOrder(r, mid);
    forall i | 0 <= i < |s'.rows| ensures s'.rows[i].id < s'.nextId { assert s'.rows[i] in r; }
  }

  lemma {:induction false} DeleteById(rows: seq<Row>, d: nat, id: nat)
    ensures ById(DeleteId(rows, d), id) == if id == d then None else ById(rows, id)
  {
    if |rows| > 0 {
      var rest, last := rows[..|rows| - 1], rows[|rows| - 1];
      DeleteById(rest, d, id);
      if last.id != d { assert (DeleteId(rest, d) + [last])[..|DeleteId(rest, d)|] == DeleteId(rest, d); }
    }
  }

  /** A row that is evaluating was not re-opened. */
  lemma {:induction false} ReopenKeepsRunning(rows: seq<Row>, key: Key, mid: nat, id: nat)
    requires InIdOrder(rows) && Running(rows, id)
    ensures ById(ReopenNewest(rows, key, SUPERSEDE_LIMIT, mid), id) == ById(rows, id)
  {
    ByIdFound(rows, id);
    var r := ReopenNewest(rows, key, SUPERSEDE_LIMIT, mid);
    var i :| 0 <= i < |rows| && rows[i] == ById(rows, id).value;
    assert r[i] == rows[i];
    assert InIdOrder(r);
    ByIdAt(r, i);
  }

  lemma RunMoves(reg: Registry, r: Reading, s: State, id: nat)
    requires Ordered(s)
    ensures Ordered(VerdictStep(reg, r, s)) && VerdictStep(reg, r, s).nextId == s.nextId
    ensures Moves(s, VerdictStep(reg, r, s), id, Decides(reg, Runs(r), s, id))
  {
    var s' := VerdictStep(reg, r, s);
    RunKeepsShape(reg, r, s);
    JudgedIsEvaluating(r, s);
    NewestById(s.rows, ACTIVE);
    ByIdFound(s'.rows, id);
    if ById(s'.rows, id).Some? {
      var i :| 0 <= i < |s'.rows| && s'.rows[i] == ById(s'.rows, id).value;
      RunRulesOneRow(reg, r, s, i);
      ByIdAt(s.rows, i);
      hide VerdictStep, RollbackCheck, ById;
    }
  }

  lemma RunKeepsShape(reg: Registry, r: Reading, s: State)
    requires Ordered(s)
    ensures var s' := VerdictStep(reg, r, s); Ordered(s') && |s'.rows| == |s.rows| && s'.nextId == s.nextId
  {
    var s' := VerdictStep(reg, r, s);
    if |s.rows| == 0 { assert Newest(s.rows, ACTIVE).None?; } else { RunRulesOneRow(reg, r, s, 0); }
    forall j | 0 <= j < |s.rows|
      ensures |s'.rows| == |s.rows| && s'.rows[j].id == s.rows[j].id
    {
      RunRulesOneRow(reg, r, s, j);
    }
  }

  lemma HappeningMoves(reg: Registry, m: Machine, h: Happening, id: nat)
    requires Ordered(m.s) && id < m.s.nextId && LeavesClosed(reg, m, h, id)
    ensures Ordered(Next(reg, m, h).s) && m.s.nextId <= Next(reg, m, h).s.nextId
    ensures Moves(m.s, Next(reg, m, h).s, id, Decides(reg, h, m.s, id))
  {
    hide Carries, Moves, VerdictStep;
    match h {
      case Runs(r) => RunMoves(reg, r, m.s, id);
      case Happens(e) =>
        if e.BatchUndoes? {
          UndoMoves(reg, m, e, id);
        } else {
          StepCarries(reg, m, e, id);
          CarriesMoves(m.s, Step(reg, m, e).s, id);
        }
    }
  }

  /** Every evaluation ends. Over any history in which no undo re-opens it, a row that is
      still evaluating has been deferred once per deciding run since it was first seen,
      and at most MAX_DEFERRALS times: the next deciding run after that closes it. */
  lemma {:induction false} EvaluationEnds(reg: Registry, m: Machine, hs: seq<Happening>, id: nat)
    requires Ordered(m.s) && id < m.s.nextId && StaysClosed(reg, m, hs, id)
    ensures var end := After(reg, m, hs).s;
            Ordered(end) && m.s.nextId <= end.nextId
            && (Running(end.rows, id) ==>
                  Running(m.s.rows, id)
                  && var deferred := ById(end.rows, id).value.evidence.deferred;
                     deferred == ById(m.s.rows, id).value.evidence.deferred + DecidingRuns(reg, m, hs, id)
                     && (DecidingRuns(reg, m, hs, id) > 0 ==> deferred <= MAX_DEFERRALS))
  {
    hide Step, VerdictStep, Next, Decides, LeavesClosed;
    if |hs| > 0 {
      EvaluationEnds(reg, m, hs[..|hs| - 1], id);
      HappeningMoves(reg, After(reg, m, hs[..|hs| - 1]), hs[|hs| - 1], id);
    }
  }

  lemma JudgedIsEvaluating(r: Reading, s: State)
    requires InIdOrder(s.rows)
    ensures Judged(r, s).Some? ==> Judged(r, s).value.status == Evaluating
  {
    NewestById(s.rows, ACTIVE);
  }

  /** With one evaluating row, which is what the ledger keeps, every enabled run judges
      it: after MAX_DEFERRALS deferrals nothing but waiting can keep it open. */
  lemma {:induction false} SoleEvaluatingIsJudged(r: Reading, s: State, i: nat)
    requires i < |s.rows| && s.rows[i].status == Evaluating && !s.rows[i].source.ManualSource? && r.env.enabled
    requires forall j :: 0 <= j < |s.rows| && j != i ==> s.rows[j].status != Evaluating
    ensures Judged(r, s) == Some(s.rows[i])
    decreases |s.rows|
  {
    var n := |s.rows| - 1;
    if i < n { SoleEvaluatingIsJudged(r, s.(rows := s.rows[..n]), i); }
  }
}
