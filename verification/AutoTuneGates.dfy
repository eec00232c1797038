/** Which gates a proposal has to pass, one by one in the inputs' own terms
    (src/auto_tune.py:380-475): it is applied exactly when it passes them all, and a
    refusal names the first it fails. */
module AutoTuneGates {
  import opened Common
  import opened Ledger
  import opened AutoTune
  import opened AutoTuneRuns
  import opened AutoTuneBase

  /** In the order they are asked. */
  datatype Gate =
    | Switch | Denylist | Allowlist | Cron | KnownSource | KnownIntent | LegalValue | Pin | Readable | Different
    | Alone | Thawed | StepSize | Drift | Home | Baseline | Agreement | Insert

  function Place(g: Gate): nat {
    match g
    case Switch => 0
    case Denylist => 1
    case Allowlist => 2
    case Cron => 3
    case KnownSource => 4
    case KnownIntent => 5
    case LegalValue => 6
    case Pin => 7
    case Readable => 8
    case Different => 9
    case Alone => 10
    case Thawed => 11
    case StepSize => 12
    case Drift => 13
    case Home => 14
    case Baseline => 15
    case Agreement => 16
    case Insert => 17
  }

  /** What the caller is told when the gate is the first to fail; `back` is whether the old
      value could be put back. */
  function ReasonOf(g: Gate, back: bool): Refusal {
    match g
    case Switch => Disabled
    case Denylist => Denylisted
    case Allowlist => NotAllowlisted
    case Cron => CronReload
    case KnownSource => Invalid
    case KnownIntent => Invalid
    case LegalValue => Invalid
    case Pin => Pinned
    case Readable => Invalid
    case Different => Unchanged
    case Alone => IsBusy
    case Thawed => IsFrozen
    case StepSize => StepTooLarge
    case Drift => DriftCap
    case Home => Away
    case Baseline => NoBaseline
    case Agreement => Invalid
    case Insert => LedgerError(back)
  }

  /** The value asked for, in the key's type, if it is one the key may take. */
  function Asked(reg: Registry, p: Proposal): Option<Value> {
    if p.key in reg.schema then Validate(reg.schema[p.key], p.value) else None
  }

  /** The value in force, if it is one the key may take. */
  function InForce(reg: Registry, s: State, key: Key): Option<Value> {
    if key in reg.schema && key in s.settings then Validate(reg.schema[key], s.settings[key]) else None
  }

  ghost predicate Fails(reg: Registry, env: Env, s: State, p: Proposal, now: int, g: Gate) {
    var want, cur := Asked(reg, p), InForce(reg, s, p.key);
    match g
    case Switch => !env.enabled
    case Denylist => p.key in reg.denied
    case Allowlist => p.key !in env.allow || p.key !in reg.schema
    case Cron => p.key in reg.schema && reg.schema[p.key].cronReload
    case KnownSource => p.source == ManualSource || p.source == UnknownSource
    case KnownIntent => p.intent == Some(UnknownIntent)
    case LegalValue => want.None?
    case Pin => p.key in env.pinned
    case Readable => cur.None?
    case Different => want == cur
    case Alone => SomeEvaluating(s.rows)
    case Thawed => FrozenPast(s.rows, p.key, now)
    case StepSize => want.Some? && cur.Some? && !OneStep(reg, p.key, cur.value, want.value)
    case Drift => want.Some? && cur.Some? && !InCap(reg, s.rows, p.key, cur.value, want.value)
    case Home => env.away
    case Baseline => env.baselineDays.None? || env.baselineDays.value < 5
    case Agreement => want.Some? && !Agrees(reg, s.settings[p.key := want.value], p.key)
    case Insert => !env.insertOk
  }

  ghost predicate SomeEvaluating(rows: seq<Row>) { exists r :: r in rows && r.status == Evaluating }

  ghost predicate FrozenPast(rows: seq<Row>, key: Key, now: int) {
    exists r :: r in rows && r.key == key && r.frozenUntil.Some? && r.frozenUntil.value > now
  }

  /** Numbers move by at most a step, an enum to an option listed next to it, texts freely. */
  ghost predicate OneStep(reg: Registry, key: Key, cur: Value, want: Value) {
    key in reg.schema
    && match reg.schema[key].kind
       case TextKind => true
       case EnumKind(options) => cur.Sym? && want.Sym? && Neighbours(options, cur.s, want.s)
       case _ => cur.Num? && want.Num? && Near(cur.x, want.x, StepFor(reg, key) + EPS)
  }

  predicate Near(a: real, b: real, d: real) { a - b <= d && b - a <= d }

  predicate FirstAt(options: seq<string>, i: nat, s: string) {
    i < |options| && options[i] == s && forall j :: 0 <= j < i ==> options[j] != s
  }

  ghost predicate Neighbours(options: seq<string>, a: string, b: string) {
    exists i: nat, j: nat :: FirstAt(options, i, a) && FirstAt(options, j, b) && (j == i + 1 || i == j + 1)
  }

  /** A number stays within the cap of what the owner last chose: the last manual value,
      or what was there before the first automated change, else the value in force. */
  ghost predicate InCap(reg: Registry, rows: seq<Row>, key: Key, cur: Value, want: Value) {
    key in reg.schema && IsNumeric(reg.schema[key]) && cur.Num? && want.Num? && MaxDrift(reg, key).Some? ==>
      Near(AnchorOf(RefOf(Trail(rows, key)), cur.x), want.x, MaxDrift(reg, key).value + EPS)
  }

  function AnchorOf(ref: Option<Value>, cur: real): real {
    match ref
    case Some(Num(x)) => x
    case _ => cur
  }

  /** With the new value in place, the ceiling is half a degree above the setpoint, and
      the slack tolerance below its margin. */
  predicate Agrees(reg: Registry, after: map<Key, Value>, key: Key) {
    (key == CeilingC || key == SetpointC ==> Apart(after))
    && (key == SlackTolC && NumberIn(after, SlackTolC) ==> after[SlackTolC].x + EPS < reg.slackMargin)
  }

  predicate NumberIn(settings: map<Key, Value>, key: Key) { key in settings && settings[key].Num? }

  predicate Apart(settings: map<Key, Value>) {
    NumberIn(settings, CeilingC) && NumberIn(settings, SetpointC) ==>
      settings[CeilingC].x - settings[SetpointC].x >= 0.5 - EPS
  }

  ghost predicate PassesAll(reg: Registry, env: Env, s: State, p: Proposal, now: int) {
    forall g :: !Fails(reg, env, s, p, now, g)
  }

  ghost predicate FirstFailing(reg: Registry, env: Env, s: State, p: Proposal, now: int, g: Gate) {
    Fails(reg, env, s, p, now, g) && forall h :: Place(h) < Place(g) ==> !Fails(reg, env, s, p, now, h)
  }

  // ------------------------------------------- each check against its gate

  lemma {:induction false} BusyMeans(rows: seq<Row>)
    ensures Busy(rows) <==> SomeEvaluating(rows)
  {
    if |rows| > 0 {
      var rest, last := rows[..|rows| - 1], rows[|rows| - 1];
      BusyMeans(rest);
      assert rows == rest + [last];
    }
  }

  lemma FrozenMeans(rows: seq<Row>, key: Key, now: int)
    ensures Frozen(rows, key, now) <==> FrozenPast(rows, key, now)
  {
    if FrozenPast(rows, key, now) {
      var r :| r in rows && r.key == key && r.frozenUntil.Some? && r.frozenUntil.value > now;
      var i :| 0 <= i < |rows| && rows[i] == r;
    }
  }

  lemma {:induction false} IndexIsFirst(options: seq<string>, s: string)
    requires s in options
    ensures IndexOf(options, s) >= 0 && FirstAt(options, IndexOf(options, s), s)
  {
    if options[0] != s {
      IndexIsFirst(options[1..], s);
      var i := IndexOf(options[1..], s);
      forall j | 0 <= j < i + 1 ensures options[j] != s { if j > 0 { assert options[1..][j - 1] != s; } }
    }
  }

  lemma AdjacentMeans(options: seq<string>, a: string, b: string)
    requires a in options && b in options
    ensures Adjacent(options, a, b) <==> Neighbours(options, a, b)
  {
    IndexIsFirst(options, a);
    IndexIsFirst(options, b);
    var i, j := IndexOf(options, a), IndexOf(options, b);
    if k: nat, l: nat :| FirstAt(options, k, a) && FirstAt(options, l, b) && (l == k + 1 || k == l + 1) {
      assert k == i && l == j;
    }
  }

  /** The checks on the move are the step and the cap, in that order. */
  lemma MoveMeans(reg: Registry, rows: seq<Row>, key: Key, cur: Value, want: Value, before: Value, asked: Value)
    requires key in reg.schema
    requires Validate(reg.schema[key], before) == Some(cur) && Validate(reg.schema[key], asked) == Some(want)
    ensures CheckMove(reg, rows, key, cur, want)
            == if !OneStep(reg, key, cur, want) then Some(StepTooLarge)
               else if !InCap(reg, rows, key, cur, want) then Some(DriftCap) else None
  {
    match reg.schema[key].kind {
      case EnumKind(options) =>
        AdjacentMeans(options, cur.s, want.s);
        hide Adjacent, Neighbours, RefOf, Trail, ManualValue;
      case TextKind =>
      case _ => NumberMoves(reg, rows, key, cur, want);
    }
  }

  lemma NumberMoves(reg: Registry, rows: seq<Row>, key: Key, cur: Value, want: Value)
    requires key in reg.schema && IsNumeric(reg.schema[key]) && cur.Num? && want.Num?
    ensures CheckMove(reg, rows, key, cur, want)
            == if !OneStep(reg, key, cur, want) then Some(StepTooLarge)
               else if !InCap(reg, rows, key, cur, want) then Some(DriftCap) else None
  {
    ReferenceOfTrail(rows, key);
    hide RefOf, Trail, ManualValue, StepFor, MaxDrift;
  }

  lemma AcceptsMeans(reg: Registry, settings: map<Key, Value>, key: Key, asked: Value, want: Value)
    requires key in reg.schema && Validate(reg.schema[key], asked) == Some(want)
    ensures Accepts(reg, settings, key, want) <==> Agrees(reg, settings[key := want], key)
  {
    ValidateIdempotent(reg.schema[key], asked);
  }

  // ----------------------------------------------------------------- theorems

  lemma StaticGate(reg: Registry, env: Env, s: State, p: Proposal, now: int) returns (g: Gate)
    requires CheckStatic(reg, env, p).Some?
    ensures FirstFailing(reg, env, s, p, now, g) && Place(g) <= 6
            && CheckStatic(reg, env, p) == Some(ReasonOf(g, false))
  {
    g := if !env.enabled then Switch else if p.key in reg.denied then Denylist
         else if p.key !in env.allow || p.key !in reg.schema then Allowlist
         else if reg.schema[p.key].cronReload then Cron
         else if p.source == ManualSource || p.source == UnknownSource then KnownSource
         else if p.intent == Some(UnknownIntent) then KnownIntent else LegalValue;
    hide RefOf, Trail, Validate, Agrees, InCap, OneStep;
  }

  lemma StaticPasses(reg: Registry, env: Env, s: State, p: Proposal, now: int, g: Gate)
    requires CheckStatic(reg, env, p).None? && Place(g) <= 6
    ensures !Fails(reg, env, s, p, now, g)
  {}

  /** What the checks under the lock find, gate by gate. */
  ghost predicate LockedAt(reg: Registry, env: Env, s: State, p: Proposal, now: int, g: Gate) {
    Place(g) > 6 && Place(g) < 17 && Fails(reg, env, s, p, now, g)
    && forall h :: 6 < Place(h) < Place(g) ==> !Fails(reg, env, s, p, now, h)
  }

  /** The checks under the lock, each in the inputs' own terms. */
  ghost function LockedAnswer(reg: Registry, env: Env, s: State, p: Proposal, now: int): Option<Gate> {
    var cur, want := InForce(reg, s, p.key), Asked(reg, p);
    if p.key in env.pinned then Some(Pin)
    else if cur.None? || want.None? then Some(Readable)
    else if want == cur then Some(Different)
    else if SomeEvaluating(s.rows) then Some(Alone)
    else if FrozenPast(s.rows, p.key, now) then Some(Thawed)
    else if !OneStep(reg, p.key, cur.value, want.value) then Some(StepSize)
    else if !InCap(reg, s.rows, p.key, cur.value, want.value) then Some(Drift)
    else if env.away then Some(Home)
    else if env.baselineDays.None? || env.baselineDays.value < 5 then Some(Baseline)
    else if !Agrees(reg, s.settings[p.key := want.value], p.key) then Some(Agreement)
    else None
  }

  lemma LockedMeans(reg: Registry, env: Env, s: State, p: Proposal, now: int)
    requires CheckStatic(reg, env, p).None?
    ensures var a := LockedAnswer(reg, env, s, p, now);
            CheckLocked(reg, env, s, p, now) == if a.Some? then Some(ReasonOf(a.value, false)) else None
  {
    hide Busy, CheckKey, Accepts, Agrees, InCap, OneStep, SomeEvaluating, FrozenPast, Validate;
    BusyMeans(s.rows);
    var cur, want := InForce(reg, s, p.key), Asked(reg, p);
    if cur.Some? {
      KeyMeans(reg, env, s.rows, p.key, cur.value, want.value, s.settings[p.key], p.value, now);
      AcceptsMeans(reg, s.settings, p.key, p.value, want.value);
    }
  }

  lemma KeyMeans(
    reg: Registry, env: Env, rows: seq<Row>, key: Key, cur: Value, want: Value, before: Value, asked: Value, now: int)
    requires key in reg.schema
    requires Validate(reg.schema[key], before) == Some(cur) && Validate(reg.schema[key], asked) == Some(want)
    ensures CheckKey(reg, env, rows, key, cur, want, now)
            == if FrozenPast(rows, key, now) then Some(IsFrozen)
               else if !OneStep(reg, key, cur, want) then Some(StepTooLarge)
               else if !InCap(reg, rows, key, cur, want) then Some(DriftCap)
               else if env.away then Some(Away)
               else if env.baselineDays.None? || env.baselineDays.value < 5 then Some(NoBaseline) else None
  {
    FrozenMeans(rows, key, now);
    MoveMeans(reg, rows, key, cur, want, before, asked);
    hide Frozen, CheckMove, InCap, OneStep, FrozenPast, Validate;
  }

  lemma LockedGate(reg: Registry, env: Env, s: State, p: Proposal, now: int) returns (g: Gate)
    requires CheckStatic(reg, env, p).None? && CheckLocked(reg, env, s, p, now).Some?
    ensures LockedAt(reg, env, s, p, now, g) && CheckLocked(reg, env, s, p, now) == Some(ReasonOf(g, false))
  {
    LockedMeans(reg, env, s, p, now);
    g := LockedAnswer(reg, env, s, p, now).value;
    AnswerFails(reg, env, s, p, now, g);
    hide CheckStatic, CheckLocked, LockedAnswer, Fails, Place;
    forall h | 6 < Place(h) < Place(g) ensures !Fails(reg, env, s, p, now, h) {
      EarlierPasses(reg, env, s, p, now, g, h);
    }
  }

  lemma AnswerFails(reg: Registry, env: Env, s: State, p: Proposal, now: int, g: Gate)
    requires Asked(reg, p).Some? && LockedAnswer(reg, env, s, p, now) == Some(g)
    ensures 6 < Place(g) < 17 && Fails(reg, env, s, p, now, g)
  {
    hide Agrees, InCap, OneStep, SomeEvaluating, FrozenPast, Validate;
  }

  lemma EarlierPasses(reg: Registry, env: Env, s: State, p: Proposal, now: int, g: Gate, h: Gate)
    requires Asked(reg, p).Some? && LockedAnswer(reg, env, s, p, now) == Some(g) && 6 < Place(h) < Place(g)
    ensures !Fails(reg, env, s, p, now, h)
  {
    hide Agrees, InCap, OneStep, SomeEvaluating, FrozenPast, Validate;
  }

  lemma LockedPasses(reg: Registry, env: Env, s: State, p: Proposal, now: int)
    requires CheckStatic(reg, env, p).None? && CheckLocked(reg, env, s, p, now).None?
    ensures forall h :: 6 < Place(h) < 17 ==> !Fails(reg, env, s, p, now, h)
  {
    LockedMeans(reg, env, s, p, now);
    hide CheckLocked, Agrees, InCap, OneStep, SomeEvaluating, FrozenPast, Validate;
  }

  /** A proposal is applied exactly when it passes every gate: the value is then in force,
      and one row that says so is evaluating on top of the others. */
  lemma AppliedIff(reg: Registry, env: Env, s: State, p: Proposal, now: int)
    ensures var (s', out) := Propose(reg, env, s, p, now);
            (out.Applied? <==> PassesAll(reg, env, s, p, now))
            && (out.Applied? ==>
                  out == Applied(s.nextId, InForce(reg, s, p.key).value, Asked(reg, p).value)
                  && s'.settings == s.settings[p.key := out.newValue] && s'.nextId == s.nextId + 1
                  && |s'.rows| == |s.rows| + 1 && s'.rows[..|s.rows|] == s.rows
                  && Announces(s'.rows[|s.rows|], out, p, now))
  {
    if CheckStatic(reg, env, p).Some? {
      var g := StaticGate(reg, env, s, p, now);
    } else if CheckLocked(reg, env, s, p, now).Some? {
      var g := LockedGate(reg, env, s, p, now);
    } else {
      LockedPasses(reg, env, s, p, now);
      hide CheckLocked, Accepts, Validate, DeriveIntent, Agrees, InCap, OneStep, SomeEvaluating, FrozenPast;
      forall g | env.insertOk ensures !Fails(reg, env, s, p, now, g) {
        if Place(g) <= 6 { StaticPasses(reg, env, s, p, now, g); }
      }
      assert env.insertOk || Fails(reg, env, s, p, now, Insert);
    }
  }

  /** The row of an applied proposal. */
  predicate Announces(r: Row, out: Outcome, p: Proposal, now: int)
    requires out.Applied?
  {
    r.id == out.id && r.key == p.key && r.oldValue == Some(out.oldValue) && r.newValue == out.newValue
    && r.source == p.source && r.status == Evaluating && r.appliedAt == now && r.frozenUntil.None? && r.actor.None?
    && r.evidence == NO_EVIDENCE.(expectedComfort := p.expectedComfort)
    && r.intent.Some? && (p.intent.Some? ==> r.intent == p.intent)
  }

  /** A refusal names the first gate that fails, and nothing has changed, unless only the
      insert failed: then no row is added, and the value in force is the old one again
      exactly when that could be put back. */
  lemma RefusalIsFirstFailing(reg: Registry, env: Env, s: State, p: Proposal, now: int) returns (g: Gate)
    requires Propose(reg, env, s, p, now).1.Refused?
    ensures FirstFailing(reg, env, s, p, now, g)
    ensures var (s', out) := Propose(reg, env, s, p, now);
            out == Refused(ReasonOf(g, out.reason == LedgerError(true)))
            && (g != Insert ==> s' == s)
            && (g == Insert ==> s'.rows == s.rows && s'.nextId == s.nextId && out.reason.LedgerError?
                                && s'.settings == s.settings[p.key := (if out.reason.restored then InForce(reg, s, p.key)
                                                                       else Asked(reg, p)).value]
                                && (out.reason.restored <==>
                                    Agrees(reg, s.settings[p.key := InForce(reg, s, p.key).value], p.key)))
  {
    if CheckStatic(reg, env, p).Some? {
      g := StaticGate(reg, env, s, p, now);
    } else if CheckLocked(reg, env, s, p, now).Some? {
      g := LockedGate(reg, env, s, p, now);
      hide Fails, CheckStatic, CheckLocked;
      forall h | Place(h) < Place(g) ensures !Fails(reg, env, s, p, now, h) {
        if Place(h) <= 6 { StaticPasses(reg, env, s, p, now, h); }
      }
    } else {
      g := Insert;
      InsertFails(reg, env, s, p, now);
    }
  }

  lemma InsertFails(reg: Registry, env: Env, s: State, p: Proposal, now: int)
    requires CheckStatic(reg, env, p).None? && CheckLocked(reg, env, s, p, now).None? && !env.insertOk
    ensures FirstFailing(reg, env, s, p, now, Insert)
    ensures var (s', out) := Propose(reg, env, s, p, now);
            out.Refused? && out.reason.LedgerError? && s'.rows == s.rows && s'.nextId == s.nextId
            && s'.settings == s.settings[p.key := (if out.reason.restored then InForce(reg, s, p.key)
                                                   else Asked(reg, p)).value]
            && (out.reason.restored <==> Agrees(reg, s.settings[p.key := InForce(reg, s, p.key).value], p.key))
  {
    LockedPasses(reg, env, s, p, now);
    var cur, want := InForce(reg, s, p.key).value, Asked(reg, p).value;
    AcceptsMeans(reg, s.settings[p.key := want], p.key, s.settings[p.key], cur);
    assert s.settings[p.key := want][p.key := cur] == s.settings[p.key := cur];
    hide CheckLocked, Accepts, Validate, Agrees, InCap, OneStep, SomeEvaluating, FrozenPast;
    forall h | Place(h) < 17 ensures !Fails(reg, env, s, p, now, h) {
      if Place(h) <= 6 { StaticPasses(reg, env, s, p, now, h); }
    }
  }

  // ------------------------------------------------------- the tables and freezes

  /** What a key may take: a number within the bounds, cut towards zero for an int; an
      option of the enum; any text. */
  lemma LegalMeans(spec: Spec, v: Value, c: Value)
    ensures Validate(spec, v) == Some(c) <==>
            match spec.kind
            case FloatKind => v.Num? && c == v && Bounded(spec, c.x)
            case IntKind => v.Num? && c.Num? && Bounded(spec, c.x) && CutTowardsZero(v.x, c.x)
            case EnumKind(options) => v.Sym? && c == v && v.s in options
            case TextKind => v.Sym? && c == v
  {
    if spec.kind.IntKind? && v.Num? && c.Num? {
      CutIsTrunc(v.x, c.x);
      hide Trunc, CutTowardsZero;
    }
  }

  predicate CutTowardsZero(x: real, n: real) {
    n == (n.Floor as real) && (if x >= 0.0 then n <= x < n + 1.0 else n - 1.0 < x <= n)
  }

  lemma CutIsTrunc(x: real, n: real)
    ensures n == (Trunc(x) as real) <==> CutTowardsZero(x, n)
  {
    if CutTowardsZero(x, n) {
      if x >= 0.0 { OneFloor(x, n.Floor); } else { OneFloor(-x, -n.Floor); }
    }
  }

  lemma OneFloor(x: real, k: int)
    requires (k as real) <= x < (k as real) + 1.0
    ensures x.Floor == k
  {}

  predicate Bounded(spec: Spec, x: real) {
    (spec.lo.Some? ==> spec.lo.value <= x) && (spec.hi.Some? ==> x <= spec.hi.value)
  }

  // ------------------------------------------------------------ taking a change back

  /** Row `i` is a change that still stands: the newest of its key, its value in force,
      and the old one acceptable. */
  ghost predicate Stands(reg: Registry, s: State, i: nat)
    requires i < |s.rows|
  {
    var row := s.rows[i];
    (row.status == Evaluating || row.status == Kept) && row.oldValue.Some? && row.key in reg.schema
    && row.key in s.settings
    && (forall j :: i < j < |s.rows| ==> s.rows[j].key != row.key)
    && Same(reg.schema[row.key], s.settings[row.key], row.newValue)
    && Validate(reg.schema[row.key], row.oldValue.value).Some?
    && Agrees(reg, s.settings[row.key := Validate(reg.schema[row.key], row.oldValue.value).value], row.key)
  }

  lemma {:induction false} NewestIffLast(rows: seq<Row>, i: nat)
    requires InIdOrder(rows) && i < |rows|
    ensures Newest(rows, OfKey(rows[i].key)) == Some(rows[i]) <==> forall j :: i < j < |rows| ==> rows[j].key != rows[i].key
    ensures ById(rows, rows[i].id) == Some(rows[i])
  {
    if i < |rows| - 1 {
      NewestIffLast(rows[..|rows| - 1], i);
    }
  }

  /** A change is rolled back exactly when it still stands: then its old value is in
      force again and its row says so; a refusal changes nothing. */
  lemma RestoredIff(reg: Registry, env: Env, s: State, i: nat, j: nat, ev: Evidence, now: int)
    requires Ordered(s) && i < |s.rows| && j < |s.rows|
    ensures var row, (s', out) := s.rows[i], Rollback(reg, env, s, s.rows[i].id, ev, now);
            (out.Restored? <==> Stands(reg, s, i))
            && (!out.Restored? ==> s' == s)
            && (out.Restored? ==>
                  s'.settings == s.settings[row.key := Validate(reg.schema[row.key], row.oldValue.value).value]
                  && |s'.rows| == |s.rows| && s'.nextId == s.nextId
                  && s'.rows[j] == if i != j then s.rows[j]
                                   else row.(status := RolledBack, frozenUntil := s'.rows[j].frozenUntil, evidence := ev))
  {
    var row := s.rows[i];
    NewestIffLast(s.rows, i);
    if row.key in reg.schema && row.oldValue.Some? && Validate(reg.schema[row.key], row.oldValue.value).Some? {
      var back := Validate(reg.schema[row.key], row.oldValue.value).value;
      AcceptsMeans(reg, s.settings, row.key, row.oldValue.value, back);
      ValidateIdempotent(reg.schema[row.key], row.oldValue.value);
    }
    assert row.id == s.rows[j].id <==> i == j;
    hide Newest, ById, Validate, Same, Agrees, CrossCheck, InIdOrder;
  }

  /** A rolled back row keeps its key from every proposal for exactly the days asked. */
  lemma RollbackFreezes(reg: Registry, env: Env, s: State, id: nat, ev: Evidence, now: int, p: Proposal, later: Env, t: int)
    requires Ordered(s) && Rollback(reg, env, s, id, ev, now).1.Restored?
    ensures var s' := Rollback(reg, env, s, id, ev, now).0;
            var row := ById(s'.rows, id);
            row.Some? && row.value.status == RolledBack
            && row.value.frozenUntil
               == (if env.rollbackFreezeDays > 0 then Some(now + env.rollbackFreezeDays * 86400) else None)
            && (p.key == row.value.key && env.rollbackFreezeDays > 0 && t < now + env.rollbackFreezeDays * 86400
                ==> !Propose(reg, later, s', p, t).1.Applied?)
  {
    var s' := Rollback(reg, env, s, id, ev, now).0;
    RelabelledById(s.rows, id, RolledBack, FreezeUntil(now, env.rollbackFreezeDays), ev);
    var row := ById(s'.rows, id).value;
    ByIdFound(s'.rows, id);
    hide Propose, Relabel, ById, Ordered, CheckStatic, CheckLocked, Accepts, Validate;
    if p.key == row.key && env.rollbackFreezeDays > 0 && t < now + env.rollbackFreezeDays * 86400 {
      FrozenRefuses(reg, later, s', p, t, row);
    }
  }

  /** So does the row of an owner's value that comes into force. */
  lemma OwnerFreezes(
    reg: Registry, env: Env, s: State, key: Key, v: Value, name: string, now: int, p: Proposal, later: Env, t: int)
    requires Typed(reg, s) && key in s.settings && IsDefault(reg, key, v) && Recorded(reg, env, s, key, v)
    ensures var s' := StoreValue(reg, env, s, key, v, Owner(name), now);
            var days := env.manualFreezeDays;
            |s'.rows| == |s.rows| + 1
            && var row := s'.rows[|s.rows|];
               row.key == key && row.status == Manual && row.newValue == v && row.oldValue == Some(s.settings[key])
               && row.frozenUntil == (if days > 0 then Some(now + days * 86400) else None)
               && (p.key == key && days > 0 && t < now + days * 86400 ==> !Propose(reg, later, s', p, t).1.Applied?)
  {
    StoreEffect(reg, env, s, key, v, name, now);
    hide StoreValue, Propose, IsDefault, Typed, Recorded;
    var s' := StoreValue(reg, env, s, key, v, Owner(name), now);
    var row := s'.rows[|s.rows|];
    if p.key == key && env.manualFreezeDays > 0 && t < now + env.manualFreezeDays * 86400 {
      FrozenRefuses(reg, later, s', p, t, row);
    }
  }

  /** A change is kept exactly when it is still being evaluated; only its row changes. */
  lemma KeptIff(s: State, i: nat, j: nat, ev: Evidence)
    requires Ordered(s) && i < |s.rows| && j < |s.rows|
    ensures var (s', ok) := Keep(s, s.rows[i].id, ev);
            (ok <==> s.rows[i].status == Evaluating)
            && (if ok then s'.settings == s.settings && s'.nextId == s.nextId && |s'.rows| == |s.rows|
                           && s'.rows[j] == if i == j then s.rows[j].(status := Kept, evidence := ev) else s.rows[j]
                else s' == s)
  {
    NewestIffLast(s.rows, i);
    assert s.rows[i].id == s.rows[j].id <==> i == j;
    hide ById, InIdOrder;
  }

  /** A freeze by key reaches the key's newest row, or pins the value in force by a manual
      row if it has none; no proposal of the key is applied until it runs out. */
  lemma KeyFreezes(reg: Registry, s: State, key: Key, days: int, now: int, i: nat, p: Proposal, later: Env, t: int)
    requires Ordered(s)
    requires i <= |s.rows| && (i < |s.rows| ==> s.rows[i].key == key)
    requires forall j :: i < j < |s.rows| ==> s.rows[j].key != key
    requires i == |s.rows| ==> forall j :: 0 <= j < |s.rows| ==> s.rows[j].key != key
    ensures var s' := FreezeKey(s, key, days, now);
            s'.settings == s.settings && |s'.rows| == MaxI(|s.rows|, i + 1)
            && var row := s'.rows[i];
               row.key == key && row.frozenUntil == Some(now + (if days > 0 then days * 86400 else 0))
               && (if i < |s.rows| then row == s.rows[i].(frozenUntil := row.frozenUntil)
                   else row.status == Manual && (key in s.settings ==> row.newValue == s.settings[key]))
               && (p.key == key && days > 0 && t < now + days * 86400 ==> !Propose(reg, later, s', p, t).1.Applied?)
  {
    var s' := FreezeKey(s, key, days, now);
    if i < |s.rows| { NewestIffLast(s.rows, i); } else { NoneOfKey(s.rows, key); }
    hide Newest, ById, InIdOrder, Propose;
    if p.key == key && days > 0 && t < now + days * 86400 { FrozenRefuses(reg, later, s', p, t, s'.rows[i]); }
  }

  lemma {:induction false} NoneOfKey(rows: seq<Row>, key: Key)
    requires forall j :: 0 <= j < |rows| ==> rows[j].key != key
    ensures Newest(rows, OfKey(key)).None?
  {
    if |rows| > 0 { NoneOfKey(rows[..|rows| - 1], key); }
  }

  /** Where no table says otherwise, twenty steps cross the range of a key, and the cap is
      three steps. */
  lemma UntabledStep(reg: Registry, key: Key)
    requires key in reg.schema && key !in reg.steps && reg.schema[key].lo.Some? && reg.schema[key].hi.Some?
    ensures 20.0 * StepFor(reg, key) == reg.schema[key].hi.value - reg.schema[key].lo.value
    ensures key !in reg.drift && IsNumeric(reg.schema[key])
            ==> MaxDrift(reg, key).Some?
                && 20.0 * MaxDrift(reg, key).value == 3.0 * (reg.schema[key].hi.value - reg.schema[key].lo.value)
  {}

  lemma FrozenRefuses(reg: Registry, env: Env, s: State, p: Proposal, now: int, r: Row)
    requires r in s.rows && r.key == p.key && r.frozenUntil.Some? && now < r.frozenUntil.value
    ensures !Propose(reg, env, s, p, now).1.Applied?
  {
    hide Propose;
    AppliedIff(reg, env, s, p, now);
    assert FrozenPast(s.rows, p.key, now);
    assert Fails(reg, env, s, p, now, Thawed);
  }

  lemma {:induction false} RelabelledById(rows: seq<Row>, id: nat, status: Status, frozen: Option<int>, ev: Evidence)
    ensures var r, r' := ById(rows, id), ById(Relabel(rows, id, status, frozen, ev), id);
            r' == if r.Some? then Some(r.value.(status := status, frozenUntil := frozen, evidence := ev)) else None
  {
    if |rows| > 0 {
      ByIdFound(rows, id);
      var rest := rows[..|rows| - 1];
      assert Relabel(rows, id, status, frozen, ev)[..|rows| - 1] == Relabel(rest, id, status, frozen, ev);
      RelabelledById(rest, id, status, frozen, ev);
    }
  }
}
