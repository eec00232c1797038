/** The auto-tune change ledger as a value: settings, rows and the queries over them
    (src/auto_tune.py, with the row store of src/db.py). */
module Ledger {
  import opened Common

  const EPS: real := 0.000000001
  const DAY_S: int := 86400

  /** Setting keys. The three keys whose write is cross-checked are singled out. */
  datatype Key = CeilingC | SetpointC | SlackTolC | Named(name: string)

  /** A stored value; Absent is what a row records for a key that has none. */
  datatype Value = Num(x: real) | Sym(s: string) | Absent

  datatype Kind = FloatKind | IntKind | EnumKind(options: seq<string>) | TextKind

  datatype Spec = Spec(kind: Kind, lo: Option<real>, hi: Option<real>, cronReload: bool)

  datatype Status = Evaluating | Kept | RolledBack | Superseded | Manual

  datatype Source = TuningReview | ComfortFeedback | LearnedParam | PlanPattern | ManualSource | UnknownSource

  datatype Intent = Saving | TradeOff | ComfortUp | ComfortDown | Learned | UnknownIntent

  datatype Evidence = Evidence(
    manualId: Option<nat>, deferred: nat, busyRetries: nat, expectedComfort: Option<real>, reason: string)

  const NO_EVIDENCE := Evidence(None, 0, 0, None, "")

  /** `actor` names who a manual row was recorded for. */
  datatype Row = Row(
    id: nat, key: Key, oldValue: Option<Value>, newValue: Value, source: Source, status: Status,
    appliedAt: int, frozenUntil: Option<int>, actor: Option<string>, evidence: Evidence, intent: Option<Intent>)

  datatype State = State(settings: map<Key, Value>, rows: seq<Row>, nextId: nat)

  /** The static tables: schema, denylist, step and drift tables, key classes. */
  datatype Registry = Registry(
    schema: map<Key, Spec>, denied: set<Key>, steps: map<Key, real>, drift: map<Key, real>,
    loosenDown: set<Key>, loosenUp: set<Key>, dhw: set<Key>, learned: set<Key>, planPattern: set<Key>, slackMargin: real)

  // ------------------------------------------------------------- validation

  /** Truncation toward zero, as int() does. */
  function Trunc(x: real): int {
    if x >= 0.0 then x.Floor else -((-x).Floor)
  }

  function Coerce(kind: Kind, v: Value): Option<Value> {
    match (kind, v)
    case (FloatKind, Num(_)) => Some(v)
    case (IntKind, Num(x)) => Some(Num(Trunc(x) as real))
    case (EnumKind(_), Sym(_)) => Some(v)
    case (TextKind, Sym(_)) => Some(v)
    case _ => None
  }

  predicate InRange(spec: Spec, v: Value) {
    match v
    case Num(x) => (spec.lo.Some? ==> x >= spec.lo.value) && (spec.hi.Some? ==> x <= spec.hi.value)
    case Sym(s) => spec.kind.EnumKind? ==> s in spec.kind.options
    case Absent => false
  }

  function Validate(spec: Spec, v: Value): Option<Value> {
    match Coerce(spec.kind, v)
    case Some(c) => if InRange(spec, c) then Some(c) else None
    case None => None
  }

  predicate Same(spec: Spec, a: Value, b: Value) {
    if Validate(spec, a).Some? && Validate(spec, b).Some? then Validate(spec, a) == Validate(spec, b)
    else a == b
  }

  predicate IsNumeric(spec: Spec) { spec.kind.FloatKind? || spec.kind.IntKind? }

  function StepFor(reg: Registry, key: Key): real {
    if key in reg.steps then reg.steps[key]
    else if key in reg.schema && reg.schema[key].lo.Some? && reg.schema[key].hi.Some?
    then (reg.schema[key].hi.value - reg.schema[key].lo.value) / 20.0
    else 1.0
  }

  function MaxDrift(reg: Registry, key: Key): Option<real> {
    if key in reg.drift then Some(reg.drift[key])
    else if key !in reg.schema || !IsNumeric(reg.schema[key]) then None
    else Some(StepFor(reg, key) * 3.0)
  }

  // ----------------------------------------------------------- row queries

  datatype Query = Query(key: Option<Key>, status: Option<Status>, notStatus: Option<Status>)

  predicate Matches(q: Query, r: Row) {
    (q.key.Some? ==> r.key == q.key.value)
    && (q.status.Some? ==> r.status == q.status.value)
    && (q.notStatus.Some? ==> r.status != q.notStatus.value)
  }

  /** Newest matching row. Rows are stored in id order. */
  function Newest(rows: seq<Row>, q: Query): Option<Row> {
    if |rows| == 0 then None
    else if Matches(q, rows[|rows| - 1]) then Some(rows[|rows| - 1])
    else Newest(rows[..|rows| - 1], q)
  }

  function Oldest(rows: seq<Row>, q: Query): Option<Row> {
    if |rows| == 0 then None
    else if Matches(q, rows[0]) then Some(rows[0])
    else Oldest(rows[1..], q)
  }

  function OfKey(key: Key): Query { Query(Some(key), None, None) }
  function ManualOf(key: Key): Query { Query(Some(key), Some(Manual), None) }
  function AutomatedOf(key: Key): Query { Query(Some(key), None, Some(Manual)) }
  function EvaluatingOf(key: Key): Query { Query(Some(key), Some(Evaluating), None) }
  function SupersededOf(key: Key): Query { Query(Some(key), Some(Superseded), None) }
  const ACTIVE := Query(None, Some(Evaluating), None)

  predicate Busy(rows: seq<Row>) { Newest(rows, ACTIVE).Some? }

  predicate Frozen(rows: seq<Row>, key: Key, now: int) {
    exists i :: 0 <= i < |rows| && rows[i].key == key && rows[i].frozenUntil.Some? && rows[i].frozenUntil.value > now
  }

  /** Drift reference: the newest manual value, else the value before the first
      automated change. */
  function ManualValue(rows: seq<Row>, key: Key): Option<Value> {
    match Newest(rows, ManualOf(key))
    case Some(m) => Some(m.newValue)
    case None => match Oldest(rows, AutomatedOf(key)) case Some(r) => r.oldValue case None => None
  }

  function ById(rows: seq<Row>, id: nat): Option<Row> {
    if |rows| == 0 then None
    else if rows[|rows| - 1].id == id then Some(rows[|rows| - 1])
    else ById(rows[..|rows| - 1], id)
  }

  // ----------------------------------------------------------- row updates

  function Relabel(rows: seq<Row>, id: nat, status: Status, frozen: Option<int>, ev: Evidence): (out: seq<Row>)
    ensures |out| == |rows|
  {
    seq(|rows|, i requires 0 <= i < |rows| =>
      if rows[i].id == id then rows[i].(status := status, frozenUntil := frozen, evidence := ev) else rows[i])
  }

  function Closed(row: Row, mid: nat): Row {
    row.(status := Superseded, evidence := NO_EVIDENCE.(manualId := Some(mid), reason := "manual_change"))
  }

  /** How many rows from index `from` on match. */
  function CountFrom(rows: seq<Row>, q: Query, from: nat): nat
    decreases |rows| - from
  {
    if from >= |rows| then 0 else CountFrom(rows, q, from + 1) + if Matches(q, rows[from]) then 1 else 0
  }

  /** Row `i` is among the newest `limit` rows matching `q`. */
  predicate AmongNewest(rows: seq<Row>, q: Query, limit: nat, i: nat)
    requires i < |rows|
  {
    Matches(q, rows[i]) && CountFrom(rows, q, i + 1) < limit
  }

  /** Close the newest `limit` evaluating rows of `key` in favour of manual row `mid`. */
  function SupersedeNewest(rows: seq<Row>, key: Key, limit: nat, mid: nat): (out: seq<Row>)
    ensures |out| == |rows|
  {
    seq(|rows|, i requires 0 <= i < |rows| =>
      if AmongNewest(rows, EvaluatingOf(key), limit, i) then Closed(rows[i], mid) else rows[i])
  }

  function Reopened(row: Row, mid: nat): Row {
    if row.evidence.manualId == Some(mid) then row.(status := Evaluating, evidence := NO_EVIDENCE) else row
  }

  /** Among the newest `limit` superseded rows of `key`, re-open those closed by `mid`. */
  function ReopenNewest(rows: seq<Row>, key: Key, limit: nat, mid: nat): (out: seq<Row>)
    ensures |out| == |rows|
  {
    seq(|rows|, i requires 0 <= i < |rows| =>
      if AmongNewest(rows, SupersededOf(key), limit, i) then Reopened(rows[i], mid) else rows[i])
  }

  function DeleteId(rows: seq<Row>, id: nat): seq<Row> {
    if |rows| == 0 then []
    else if rows[|rows| - 1].id == id then DeleteId(rows[..|rows| - 1], id)
    else DeleteId(rows[..|rows| - 1], id) + [rows[|rows| - 1]]
  }

  /** Newest manual row of `key` recorded for `actor`, among the newest `limit` manual rows. */
  function NewestManualBy(rows: seq<Row>, key: Key, actor: string, limit: nat): Option<Row> {
    if |rows| == 0 || limit == 0 then None
    else
      var last, rest := rows[|rows| - 1], rows[..|rows| - 1];
      if Matches(ManualOf(key), last)
      then if last.actor == Some(actor) then Some(last) else NewestManualBy(rest, key, actor, limit - 1)
      else NewestManualBy(rest, key, actor, limit)
  }
}
