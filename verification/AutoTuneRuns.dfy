/** Whole runs of the ledger as a state machine over its verbs, and the history of one
    key that the drift reference is a function of (src/auto_tune.py). */
module AutoTuneRuns {
  import opened Common
  import opened Ledger
  import opened AutoTune

  // ------------------------------------------------------------------ machine

  /** A batch write that may still be undone: who wrote, what to restore, and the
      manual row the hook recorded for it, if it recorded one. */
  datatype Batch = Batch(name: string, prior: Value, mid: Option<nat>)

  datatype Machine = Machine(s: State, open: map<Key, Batch>)

  datatype Event =
    | Proposes(env: Env, p: Proposal, now: int)
    | OwnerWrites(env: Env, key: Key, value: Value, name: string, now: int)
    | OwnerDeletes(env: Env, key: Key, value: Value, name: string, now: int)
    | BatchWrites(env: Env, key: Key, value: Value, name: string, now: int)
    | BatchUndoes(env: Env, key: Key, now: int)
    | BatchCommits
    | RollsBack(env: Env, id: nat, ev: Evidence, now: int)
    | Keeps(id: nat, ev: Evidence)
    | FreezesRow(id: nat, days: int, now: int)
    | FreezesKey(key: Key, days: int, now: int)
    | Judges(id: nat, status: Status, ev: Evidence)

  function Write(reg: Registry, env: Env, s: State, key: Key, v: Value, actor: Actor, now: int): State {
    if key in s.settings && Accepts(reg, s.settings, key, v) then SetSetting(reg, env, s, key, v, actor, now) else s
  }

  /** The owner drops the stored value of `key`, and the default `v` is in force. */
  function Clear(reg: Registry, env: Env, s: State, key: Key, v: Value, name: string, now: int): State {
    if key in s.settings && IsDefault(reg, key, v) then ClearSetting(reg, env, s, key, v, Owner(name), now) else s
  }

  function Step(reg: Registry, m: Machine, e: Event): Machine {
    match e
    case Proposes(env, p, now) => m.(s := Propose(reg, env, m.s, p, now).0)
    case OwnerWrites(env, key, value, name, now) => m.(s := Write(reg, env, m.s, key, value, Owner(name), now))
    case OwnerDeletes(env, key, value, name, now) => m.(s := Clear(reg, env, m.s, key, value, name, now))
    case BatchWrites(env, key, value, name, now) =>
      if key !in m.s.settings || !Accepts(reg, m.s.settings, key, value) then m
      else
        var s := Write(reg, env, m.s, key, value, Owner(name), now);
        Machine(s, m.open[key := Batch(name, m.s.settings[key],
                                       if s.nextId > m.s.nextId then Some(m.s.nextId) else None)])
    case BatchUndoes(env, key, now) =>
      if key !in m.open then m
      else Machine(Write(reg, env, m.s, key, m.open[key].prior, BatchUndo(m.open[key].name), now), m.open - {key})
    case BatchCommits => m.(open := map[])
    case RollsBack(env, id, ev, now) => m.(s := Rollback(reg, env, m.s, id, ev, now).0)
    case Keeps(id, ev) => m.(s := Keep(m.s, id, ev).0)
    case FreezesRow(id, days, now) => m.(s := FreezeRow(m.s, id, days, now))
    case FreezesKey(key, days, now) => m.(s := FreezeKey(m.s, key, days, now))
    case Judges(id, status, ev) => if MayJudge(m.s, id, status, ev) then m.(s := Annotate(m.s, id, status, ev)) else m
  }

  /** The judge annotates or closes an evaluating row and keeps which manual row, if
      any, its evidence names. */
  predicate MayJudge(s: State, id: nat, status: Status, ev: Evidence) {
    ById(s.rows, id).Some? && ById(s.rows, id).value.status == Evaluating
    && ev.manualId == ById(s.rows, id).value.evidence.manualId && (status == Evaluating || status == Superseded)
  }

  function Run(reg: Registry, m: Machine, es: seq<Event>): Machine {
    if |es| == 0 then m else Step(reg, Run(reg, m, es[..|es| - 1]), es[|es| - 1])
  }

  function Start(settings: map<Key, Value>): Machine { Machine(State(settings, [], 0), map[]) }

  // ------------------------------------------------------- one key's history

  /** What the drift reference of a key depends on: which rows are the owner's, and
      the values before and after. Statuses among automated rows do not matter. */
  datatype Entry = Entry(id: nat, manual: bool, before: Option<Value>, after: Value)

  function EntryOf(r: Row): Entry { Entry(r.id, r.status == Manual, r.oldValue, r.newValue) }

  function Trail(rows: seq<Row>, key: Key): seq<Entry> {
    if |rows| == 0 then []
    else if rows[|rows| - 1].key == key then Trail(rows[..|rows| - 1], key) + [EntryOf(rows[|rows| - 1])]
    else Trail(rows[..|rows| - 1], key)
  }

  function NewestManual(t: seq<Entry>): Option<Value> {
    if |t| == 0 then None
    else if t[|t| - 1].manual then Some(t[|t| - 1].after)
    else NewestManual(t[..|t| - 1])
  }

  function RefOf(t: seq<Entry>): Option<Value> {
    if NewestManual(t).Some? then NewestManual(t) else if |t| > 0 then t[0].before else None
  }

  predicate Within(v: Option<Value>, ref: Option<Value>, cap: real) {
    v.Some? && ref.Some? && v.value.Num? && ref.value.Num? && AbsR(v.value.x - ref.value.x) <= cap + EPS
  }

  /** The value is within the cap of the reference, and so is what a rollback of the
      newest row would restore. */
  predicate KeyOk(cur: Value, t: seq<Entry>, cap: real) {
    |t| > 0 ==> Within(Some(cur), RefOf(t), cap)
                && (!t[|t| - 1].manual ==> Within(t[|t| - 1].before, RefOf(t), cap))
  }

  /** Rows are stored in id order. */
  ghost predicate InIdOrder(rows: seq<Row>) { forall i, j :: 0 <= i < j < |rows| ==> rows[i].id < rows[j].id }

  ghost predicate Ordered(s: State) {
    InIdOrder(s.rows) && (forall i :: 0 <= i < |s.rows| ==> s.rows[i].id < s.nextId)
  }

  /** Stored values have their key's type; registries have non-negative steps. */
  ghost predicate Typed(reg: Registry, s: State) {
    Total(reg, s) && forall k :: k in reg.schema ==> Coerce(reg.schema[k].kind, s.settings[k]) == Some(s.settings[k])
  }

  /** The same rows up to status (never into or out of manual), evidence and freeze. */
  ghost predicate SameTrails(a: seq<Row>, b: seq<Row>) {
    |a| == |b| && forall i :: 0 <= i < |a| ==>
      a[i].id == b[i].id && a[i].key == b[i].key && a[i].actor == b[i].actor && EntryOf(a[i]) == EntryOf(b[i])
  }

  lemma {:induction false} SameTrailsSameTrail(a: seq<Row>, b: seq<Row>, key: Key)
    requires SameTrails(a, b)
    ensures Trail(a, key) == Trail(b, key)
  {
    if |a| > 0 { SameTrailsSameTrail(a[..|a| - 1], b[..|b| - 1], key); }
  }

  lemma TrailSnoc(rows: seq<Row>, r: Row, key: Key)
    ensures Trail(rows + [r], key) == if r.key == key then Trail(rows, key) + [EntryOf(r)] else Trail(rows, key)
  {
    assert (rows + [r])[..|rows|] == rows;
  }

  /** The newest row of a key is the last entry of its trail. */
  lemma {:induction false} NewestIsLast(rows: seq<Row>, key: Key)
    ensures var t, n := Trail(rows, key), Newest(rows, OfKey(key));
            (n.Some? <==> |t| > 0)
            && (n.Some? ==> EntryOf(n.value) == t[|t| - 1] && n.value.key == key && n.value in rows)
  {
    if |rows| > 0 { NewestIsLast(rows[..|rows| - 1], key); }
  }

  lemma {:induction false} OldestBySnoc(rows: seq<Row>, q: Query)
    requires |rows| > 0
    ensures var rest, last := rows[..|rows| - 1], rows[|rows| - 1];
            Oldest(rows, q) == if Oldest(rest, q).Some? then Oldest(rest, q)
                               else if Matches(q, last) then Some(last) else None
  {
    if |rows| > 1 {
      OldestBySnoc(rows[1..], q);
      assert rows[1..][..|rows| - 2] == rows[..|rows| - 1][1..];
    }
  }

  lemma {:induction false} OldestAutomatedIsFirst(rows: seq<Row>, key: Key)
    requires NewestManual(Trail(rows, key)).None?
    ensures var t, o := Trail(rows, key), Oldest(rows, AutomatedOf(key));
            (o.Some? <==> |t| > 0) && (o.Some? ==> EntryOf(o.value) == t[0])
  {
    if |rows| > 0 {
      var t := Trail(rows, key);
      assert rows[|rows| - 1].key == key ==> t[..|t| - 1] == Trail(rows[..|rows| - 1], key);
      OldestAutomatedIsFirst(rows[..|rows| - 1], key);
      OldestBySnoc(rows, AutomatedOf(key));
    }
  }

  lemma {:induction false} NewestManualOfTrail(rows: seq<Row>, key: Key)
    ensures var n := Newest(rows, ManualOf(key));
            NewestManual(Trail(rows, key)) == if n.Some? then Some(n.value.newValue) else None
  {
    if |rows| > 0 {
      var t := Trail(rows, key);
      assert rows[|rows| - 1].key == key ==> t[..|t| - 1] == Trail(rows[..|rows| - 1], key);
      NewestManualOfTrail(rows[..|rows| - 1], key);
    }
  }

  /** The drift reference is a function of the trail. */
  lemma ReferenceOfTrail(rows: seq<Row>, key: Key)
    ensures ManualValue(rows, key) == RefOf(Trail(rows, key))
  {
    NewestManualOfTrail(rows, key);
    if NewestManual(Trail(rows, key)).None? { OldestAutomatedIsFirst(rows, key); }
  }

  lemma RefOfSnocAutomated(t: seq<Entry>, e: Entry)
    requires !e.manual
    ensures RefOf(t + [e]) == if |t| > 0 then RefOf(t) else e.before
  {
    assert (t + [e])[..|t|] == t;
    assert NewestManual(t + [e]) == NewestManual(t);
    assert |t| > 0 ==> (t + [e])[0] == t[0];
  }

  lemma RefOfSnocManual(t: seq<Entry>, e: Entry)
    requires e.manual
    ensures RefOf(t + [e]) == Some(e.after)
  {}

  function DropId(t: seq<Entry>, id: nat): seq<Entry> {
    if |t| == 0 then []
    else if t[|t| - 1].id == id then DropId(t[..|t| - 1], id)
    else DropId(t[..|t| - 1], id) + [t[|t| - 1]]
  }

  lemma {:induction false} TrailOfDelete(rows: seq<Row>, id: nat, key: Key)
    ensures Trail(DeleteId(rows, id), key) == DropId(Trail(rows, key), id)
  {
    if |rows| > 0 {
      var last, rest := rows[|rows| - 1], rows[..|rows| - 1];
      TrailOfDelete(rest, id, key);
      if last.id != id { TrailSnoc(DeleteId(rest, id), last, key); }
      if last.key == key { assert Trail(rows, key)[..|Trail(rest, key)|] == Trail(rest, key); }
    }
  }

  lemma {:induction false} DropAbsent(t: seq<Entry>, id: nat)
    requires forall i :: 0 <= i < |t| ==> t[i].id != id
    ensures DropId(t, id) == t
  {
    if |t| > 0 { DropAbsent(t[..|t| - 1], id); }
  }

  lemma {:induction false} TrailMembers(rows: seq<Row>, key: Key)
    ensures forall e :: e in Trail(rows, key) ==> exists i :: 0 <= i < |rows| && rows[i].key == key && EntryOf(rows[i]) == e
  {
    if |rows| > 0 {
      var rest := rows[..|rows| - 1];
      TrailMembers(rest, key);
      forall e | e in Trail(rows, key)
        ensures exists i :: 0 <= i < |rows| && rows[i].key == key && EntryOf(rows[i]) == e
      {
        if e in Trail(rest, key) {
          var i :| 0 <= i < |rest| && rest[i].key == key && EntryOf(rest[i]) == e;
          assert rows[i].key == key && EntryOf(rows[i]) == e;
        } else {
          assert EntryOf(rows[|rows| - 1]) == e;
        }
      }
    }
  }

  /** Deleting the newest row of `key` takes exactly that entry off the key's trail
      and leaves every other trail alone. */
  lemma DeleteNewest(rows: seq<Row>, key: Key, other: Key)
    requires InIdOrder(rows)
    requires |Trail(rows, key)| > 0
    ensures var t := Trail(rows, key);
            var after := DeleteId(rows, t[|t| - 1].id);
            Trail(after, key) == t[..|t| - 1] && (other != key ==> Trail(after, other) == Trail(rows, other))
  {
    var t := Trail(rows, key);
    var id := t[|t| - 1].id;
    TrailOfDelete(rows, id, key);
    TrailOfDelete(rows, id, other);
    TrailIdsIncrease(rows, key);
    DropAbsent(t[..|t| - 1], id);
    if other != key {
      TrailMembers(rows, key);
      TrailMembers(rows, other);
      assert t[|t| - 1] in t;
      forall i | 0 <= i < |Trail(rows, other)| ensures Trail(rows, other)[i].id != id {
        assert Trail(rows, other)[i] in Trail(rows, other);
      }
      DropAbsent(Trail(rows, other), id);
    }
  }

  lemma {:induction false} TrailIdsIncrease(rows: seq<Row>, key: Key)
    requires InIdOrder(rows)
    ensures forall i, j :: 0 <= i < j < |Trail(rows, key)| ==> Trail(rows, key)[i].id < Trail(rows, key)[j].id
  {
    if |rows| > 0 {
      var rest := rows[..|rows| - 1];
      TrailIdsIncrease(rest, key);
      TrailMembers(rest, key);
      forall i | 0 <= i < |Trail(rest, key)| ensures Trail(rest, key)[i].id < rows[|rows| - 1].id {
        assert Trail(rest, key)[i] in Trail(rest, key);
      }
    }
  }

  // ------------------------------------------------ how each verb moves a trail

  lemma RelabelKeepsTrails(rows: seq<Row>, id: nat, status: Status, frozen: Option<int>, ev: Evidence)
    requires forall i :: 0 <= i < |rows| && rows[i].id == id ==> (rows[i].status == Manual <==> status == Manual)
    ensures SameTrails(rows, Relabel(rows, id, status, frozen, ev))
  {}

  lemma SupersedeKeepsTrails(rows: seq<Row>, key: Key, limit: nat, mid: nat)
    ensures SameTrails(rows, SupersedeNewest(rows, key, limit, mid))
  {}

  lemma ReopenKeepsTrails(rows: seq<Row>, key: Key, limit: nat, mid: nat)
    ensures SameTrails(rows, ReopenNewest(rows, key, limit, mid))
  {}

  lemma {:induction false} ByIdFound(rows: seq<Row>, id: nat)
    ensures ById(rows, id).Some? ==> ById(rows, id).value in rows && ById(rows, id).value.id == id
    ensures ById(rows, id).None? ==> forall i :: 0 <= i < |rows| ==> rows[i].id != id
  {
    if |rows| > 0 { ByIdFound(rows[..|rows| - 1], id); }
  }

  lemma {:induction false} NewestManualByFinds(rows: seq<Row>, key: Key, batch: string, limit: nat)
    requires limit > 0
    requires var n := Newest(rows, OfKey(key)); n.Some? && n.value.status == Manual && n.value.actor == Some(batch)
    ensures NewestManualBy(rows, key, batch, limit) == Newest(rows, OfKey(key))
  {
    if rows[|rows| - 1].key != key { NewestManualByFinds(rows[..|rows| - 1], key, batch, limit); }
  }

  lemma {:induction false} NewestManualByMisses(rows: seq<Row>, key: Key, batch: string, limit: nat)
    requires forall i :: 0 <= i < |rows| && rows[i].key == key ==> rows[i].actor.None?
    ensures NewestManualBy(rows, key, batch, limit).None?
    decreases |rows|
  {
    if |rows| > 0 && limit > 0 {
      NewestManualByMisses(rows[..|rows| - 1], key, batch, limit);
      NewestManualByMisses(rows[..|rows| - 1], key, batch, limit - 1);
    }
  }

  lemma {:induction false} NewestManualByMember(rows: seq<Row>, key: Key, batch: string, limit: nat)
    requires NewestManualBy(rows, key, batch, limit).Some?
    ensures var m := NewestManualBy(rows, key, batch, limit).value;
            m in rows && m.key == key && m.status == Manual && m.actor == Some(batch)
    decreases |rows|
  {
    var last, rest := rows[|rows| - 1], rows[..|rows| - 1];
    if !Matches(ManualOf(key), last) {
      NewestManualByMember(rest, key, batch, limit);
    } else if last.actor != Some(batch) {
      NewestManualByMember(rest, key, batch, limit - 1);
    }
  }

  /** Looking at fewer rows finds the same row or none. */
  lemma {:induction false} NewestManualByFewer(rows: seq<Row>, key: Key, batch: string, few: nat, limit: nat)
    requires few <= limit
    ensures NewestManualBy(rows, key, batch, few).Some?
            ==> NewestManualBy(rows, key, batch, few) == NewestManualBy(rows, key, batch, limit)
    decreases |rows|
  {
    if |rows| > 0 && few > 0 {
      NewestManualByFewer(rows[..|rows| - 1], key, batch, few, limit);
      NewestManualByFewer(rows[..|rows| - 1], key, batch, few - 1, limit - 1);
    }
  }

  /** After one more row: that row if it is the batch's, else what was found before or,
      when it fills up the search, nothing. */
  lemma NewestManualBySnoc(rows: seq<Row>, r: Row, key: Key, batch: string, limit: nat)
    requires limit > 0
    ensures var found := NewestManualBy(rows + [r], key, batch, limit);
            if Matches(ManualOf(key), r) && r.actor == Some(batch) then found == Some(r)
            else found.Some? ==> found == NewestManualBy(rows, key, batch, limit)
    ensures r.key != key ==> NewestManualBy(rows + [r], key, batch, limit) == NewestManualBy(rows, key, batch, limit)
  {
    assert (rows + [r])[..|rows|] == rows;
    NewestManualByFewer(rows, key, batch, limit - 1, limit);
  }

  /** The search does not look at statuses among automated rows, evidence or freezes. */
  lemma {:induction false} NewestManualBySame(a: seq<Row>, b: seq<Row>, key: Key, batch: string, limit: nat)
    requires SameTrails(a, b)
    ensures var x, y := NewestManualBy(a, key, batch, limit), NewestManualBy(b, key, batch, limit);
            (x.Some? <==> y.Some?) && (x.Some? ==> x.value.id == y.value.id)
    decreases |a|
  {
    if |a| > 0 && limit > 0 {
      assert EntryOf(a[|a| - 1]) == EntryOf(b[|b| - 1]);
      NewestManualBySame(a[..|a| - 1], b[..|b| - 1], key, batch, limit);
      NewestManualBySame(a[..|a| - 1], b[..|b| - 1], key, batch, limit - 1);
    }
  }

  /** Deleting a row of another key does not change it either. */
  lemma {:induction false} NewestManualByDelete(rows: seq<Row>, id: nat, key: Key, batch: string, limit: nat)
    requires forall i :: 0 <= i < |rows| && rows[i].id == id ==> rows[i].key != key
    ensures NewestManualBy(DeleteId(rows, id), key, batch, limit) == NewestManualBy(rows, key, batch, limit)
    decreases |rows|
  {
    if |rows| > 0 && limit > 0 {
      var rest, last := rows[..|rows| - 1], rows[|rows| - 1];
      NewestManualByDelete(rest, id, key, batch, limit);
      NewestManualByDelete(rest, id, key, batch, limit - 1);
      if last.id == id {
        NewestManualByUnfold(rest, last, key, batch, limit);
      } else {
        NewestManualByUnfold(rest, last, key, batch, limit);
        NewestManualByUnfold(DeleteId(rest, id), last, key, batch, limit);
      }
      hide NewestManualBy;
      assert rows == rest + [last];
    }
  }

  lemma NewestManualByUnfold(rows: seq<Row>, r: Row, key: Key, batch: string, limit: nat)
    requires limit > 0
    ensures NewestManualBy(rows + [r], key, batch, limit)
            == if !Matches(ManualOf(key), r) then NewestManualBy(rows, key, batch, limit)
               else if r.actor == Some(batch) then Some(r) else NewestManualBy(rows, key, batch, limit - 1)
  {
    assert (rows + [r])[..|rows|] == rows;
  }
}
