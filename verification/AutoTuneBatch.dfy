/** A batch of settings that fails half way and is undone entry by entry
    (src/api/main.py:4998-5060): the order of the undo decides whether it gives back
    what the batch took. */
module AutoTuneBatch {
  import opened Common
  import opened Ledger
  import opened AutoTune
  import opened AutoTuneRuns
  import opened AutoTuneBase

  datatype Change = Change(key: Key, value: Value)

  function WriteOf(env: Env, c: Change, now: int): Event { BatchWrites(env, c.key, c.value, "api_batch", now) }

  function WritesOf(env: Env, cs: seq<Change>, now: int): (es: seq<Event>)
    ensures |es| == |cs|
  {
    seq(|cs|, i requires 0 <= i < |cs| => WriteOf(env, cs[i], now))
  }

  /** Undoes the entries of `us` in turn. The source takes them in the order they were written. */
  function UndoesOf(env: Env, us: seq<Change>, now: int): (es: seq<Event>)
    ensures |es| == |us|
  {
    seq(|us|, i requires 0 <= i < |us| => BatchUndoes(env, us[i].key, now))
  }

  function Reversed(cs: seq<Change>): (r: seq<Change>)
    ensures |r| == |cs|
  {
    if |cs| == 0 then [] else [cs[|cs| - 1]] + Reversed(cs[..|cs| - 1])
  }

  // ---------------------------------------------------------- what the writes leave

  function Canon(reg: Registry, c: Change): Value {
    if c.key in reg.schema && Validate(reg.schema[c.key], c.value).Some?
    then Validate(reg.schema[c.key], c.value).value else c.value
  }

  function NewValues(reg: Registry, settings: map<Key, Value>, cs: seq<Change>): map<Key, Value> {
    if |cs| == 0 then settings
    else NewValues(reg, settings, cs[..|cs| - 1])[cs[|cs| - 1].key := Canon(reg, cs[|cs| - 1])]
  }

  /** The entries that were written before one failed: one a key, each accepted when its
      turn came. */
  predicate Taken(reg: Registry, settings: map<Key, Value>, cs: seq<Change>) {
    |cs| > 0 ==>
      var rest, last := cs[..|cs| - 1], cs[|cs| - 1];
      Taken(reg, settings, rest) && (forall i :: 0 <= i < |rest| ==> rest[i].key != last.key)
      && last.key in settings && Accepts(reg, NewValues(reg, settings, rest), last.key, last.value)
  }

  predicate Keyed(cs: seq<Change>, k: Key) { exists i :: 0 <= i < |cs| && cs[i].key == k }

  lemma {:induction false} OthersKeep(reg: Registry, settings: map<Key, Value>, cs: seq<Change>, k: Key)
    requires !Keyed(cs, k)
    ensures k in NewValues(reg, settings, cs) <==> k in settings
    ensures k in settings ==> NewValues(reg, settings, cs)[k] == settings[k]
  {
    if |cs| > 0 {
      var rest := cs[..|cs| - 1];
      assert forall i :: 0 <= i < |rest| ==> rest[i] == cs[i];
      OthersKeep(reg, settings, rest, k);
    }
  }

  lemma {:induction false} TakenAt(reg: Registry, settings: map<Key, Value>, cs: seq<Change>, i: nat)
    requires Taken(reg, settings, cs) && i < |cs|
    ensures cs[i].key in settings && cs[i].key in NewValues(reg, settings, cs)
    ensures NewValues(reg, settings, cs)[cs[i].key] == Canon(reg, cs[i])
    ensures Accepts(reg, NewValues(reg, settings, cs[..i]), cs[i].key, cs[i].value)
    ensures forall j :: 0 <= j < |cs| && j != i ==> cs[j].key != cs[i].key
  {
    var rest := cs[..|cs| - 1];
    if i < |rest| {
      TakenAt(reg, settings, rest, i);
      assert rest[..i] == cs[..i] && forall j :: 0 <= j < |rest| ==> rest[j] == cs[j];
    } else {
      assert forall j :: 0 <= j < |rest| ==> rest[j] == cs[j];
    }
  }

  /** The batches left open are those of the entries, each with the value it found. */
  ghost predicate OpenFor(m: Machine, settings: map<Key, Value>, cs: seq<Change>) {
    forall i :: 0 <= i < |cs| ==> cs[i].key in m.open && cs[i].key in settings && m.open[cs[i].key].prior == settings[cs[i].key]
  }

  lemma {:induction false} RunWrites(reg: Registry, m: Machine, env: Env, cs: seq<Change>, now: int)
    requires Typed(reg, m.s) && Taken(reg, m.s.settings, cs)
    ensures var m' := Run(reg, m, WritesOf(env, cs, now));
            m'.s.settings == NewValues(reg, m.s.settings, cs) && OpenFor(m', m.s.settings, cs) && Typed(reg, m'.s)
  {
    hide Accepts, Step, WritesOf, WriteOf, Typed;
    if |cs| > 0 {
      var rest, last := cs[..|cs| - 1], cs[|cs| - 1];
      var m1 := Run(reg, m, WritesOf(env, rest, now));
      RunWrites(reg, m, env, rest, now);
      WritesSnoc(env, cs, now);
      OthersKeep(reg, m.s.settings, rest, last.key);
      WriteTurn(reg, m1, m.s.settings, env, cs, now);
    }
  }

  lemma WritesSnoc(env: Env, cs: seq<Change>, now: int)
    requires |cs| > 0
    ensures var es := WritesOf(env, cs, now);
            es[..|cs| - 1] == WritesOf(env, cs[..|cs| - 1], now) && es[|cs| - 1] == WriteOf(env, cs[|cs| - 1], now)
  {}

  lemma WriteTurn(reg: Registry, m: Machine, settings: map<Key, Value>, env: Env, cs: seq<Change>, now: int)
    requires |cs| > 0 && Typed(reg, m.s) && OpenFor(m, settings, cs[..|cs| - 1])
    requires var last := cs[|cs| - 1];
             Accepts(reg, m.s.settings, last.key, last.value) && last.key in m.s.settings && last.key in settings
             && m.s.settings[last.key] == settings[last.key]
             && forall i :: 0 <= i < |cs| - 1 ==> cs[i].key != last.key
    ensures var last := cs[|cs| - 1];
            var m' := Step(reg, m, WriteOf(env, last, now));
            m'.s.settings == m.s.settings[last.key := Canon(reg, last)] && OpenFor(m', settings, cs) && Typed(reg, m'.s)
  {
    var rest, last := cs[..|cs| - 1], cs[|cs| - 1];
    OwnerWriteEffect(reg, env, m.s, last.key, last.value, "api_batch", now);
    CoerceIdempotent(reg.schema[last.key].kind, last.value);
    hide Write, Accepts;
    assert forall i :: 0 <= i < |rest| ==> rest[i] == cs[i];
  }

  // ------------------------------------------------------------ what an undo leaves

  /** The settings after the entries of `us` have been undone in turn: each takes the value
      it had before the batch, if that is accepted when its turn comes. */
  function Undo(reg: Registry, settings: map<Key, Value>, now: map<Key, Value>, us: seq<Change>): map<Key, Value> {
    if |us| == 0 then now
    else UndoOne(reg, settings, Undo(reg, settings, now, us[..|us| - 1]), us[|us| - 1].key)
  }

  function UndoOne(reg: Registry, settings: map<Key, Value>, now: map<Key, Value>, key: Key): map<Key, Value> {
    if key in settings && Accepts(reg, now, key, settings[key]) then now[key := settings[key]] else now
  }

  /** One undo a key, of keys the batch wrote. */
  ghost predicate Undoes(us: seq<Change>, cs: seq<Change>) {
    OneAKey(us) && forall i :: 0 <= i < |us| ==> Keyed(cs, us[i].key)
  }

  lemma {:induction false} RunUndoes(
    reg: Registry, m: Machine, settings: map<Key, Value>, env: Env, cs: seq<Change>, us: seq<Change>, now: int)
    requires Typed(reg, State(settings, [], 0)) && OpenFor(m, settings, cs) && Undoes(us, cs)
    requires m.s.settings.Keys == settings.Keys
    ensures var m' := Run(reg, m, UndoesOf(env, us, now));
            m'.s.settings == Undo(reg, settings, m.s.settings, us) && m'.s.settings.Keys == settings.Keys
            && forall k :: k in m.open && !Keyed(us, k) ==> k in m'.open && m'.open[k] == m.open[k]
  {
    hide Accepts, Typed, Run, Step;
    var es := UndoesOf(env, us, now);
    if |us| == 0 {
      RunNone(reg, m, es);
    } else {
      var rest, key := us[..|us| - 1], us[|us| - 1].key;
      UndoesRest(us, cs);
      RunUndoes(reg, m, settings, env, cs, rest, now);
      UndoesSnoc(env, us, now);
      var m1 := Run(reg, m, UndoesOf(env, rest, now));
      var i :| 0 <= i < |cs| && cs[i].key == key;
      RunLast(reg, m, es);
      KeyedMore(us);
      UndoStep(reg, m1, settings, env, key, now);
    }
  }

  lemma KeyedMore(us: seq<Change>)
    requires |us| > 0
    ensures forall k :: !Keyed(us, k) ==> !Keyed(us[..|us| - 1], k) && k != us[|us| - 1].key
  {
    var rest := us[..|us| - 1];
    assert forall i :: 0 <= i < |rest| ==> rest[i] == us[i];
  }

  /** The parts of the order that its last entry leaves. */
  lemma UndoesRest(us: seq<Change>, cs: seq<Change>)
    requires |us| > 0 && Undoes(us, cs)
    ensures Undoes(us[..|us| - 1], cs) && !Keyed(us[..|us| - 1], us[|us| - 1].key)
    ensures exists i :: 0 <= i < |cs| && cs[i].key == us[|us| - 1].key
  {
    var rest := us[..|us| - 1];
    assert forall i :: 0 <= i < |rest| ==> rest[i] == us[i];
    assert Keyed(cs, us[|us| - 1].key);
  }

  lemma UndoesSnoc(env: Env, us: seq<Change>, now: int)
    requires |us| > 0
    ensures var es := UndoesOf(env, us, now);
            es[..|us| - 1] == UndoesOf(env, us[..|us| - 1], now) && es[|us| - 1] == BatchUndoes(env, us[|us| - 1].key, now)
  {}

  lemma RunNone(reg: Registry, m: Machine, es: seq<Event>)
    requires |es| == 0
    ensures Run(reg, m, es) == m
  {}

  lemma RunLast(reg: Registry, m: Machine, es: seq<Event>)
    requires |es| > 0
    ensures Run(reg, m, es) == Step(reg, Run(reg, m, es[..|es| - 1]), es[|es| - 1])
  {}

  lemma UndoStep(reg: Registry, m: Machine, settings: map<Key, Value>, env: Env, key: Key, now: int)
    requires Typed(reg, State(settings, [], 0)) && m.s.settings.Keys == settings.Keys
    requires key in m.open && key in settings && m.open[key].prior == settings[key]
    ensures var m' := Step(reg, m, BatchUndoes(env, key, now));
            m'.s.settings == UndoOne(reg, settings, m.s.settings, key) && m'.open == m.open - {key}
            && m'.s.settings.Keys == settings.Keys
  {
    if Accepts(reg, m.s.settings, key, settings[key]) {
      UndoWriteEffect(reg, env, m.s, key, settings[key], m.open[key].name, now);
      assert Validate(reg.schema[key], settings[key]) == Some(settings[key]);
    }
    hide Accepts;
  }

  lemma {:induction false} UndoKeepsKeys(
    reg: Registry, settings: map<Key, Value>, now: map<Key, Value>, us: seq<Change>)
    requires now.Keys == settings.Keys
    ensures Undo(reg, settings, now, us).Keys == settings.Keys
  {
    if |us| > 0 { UndoKeepsKeys(reg, settings, now, us[..|us| - 1]); }
  }

  /** A key changes only in its own turn. */
  lemma {:induction false} OnlyInTurn(
    reg: Registry, settings: map<Key, Value>, now: map<Key, Value>, us: seq<Change>, t: nat, k: Key)
    requires t <= |us| && now.Keys == settings.Keys && k in settings
    requires forall i :: t <= i < |us| ==> us[i].key != k
    ensures k in Undo(reg, settings, now, us) && k in Undo(reg, settings, now, us[..t])
    ensures Undo(reg, settings, now, us)[k] == Undo(reg, settings, now, us[..t])[k]
  {
    UndoKeepsKeys(reg, settings, now, us);
    UndoKeepsKeys(reg, settings, now, us[..t]);
    if t == |us| {
      assert us[..t] == us;
    } else {
      var rest := us[..|us| - 1];
      assert rest[..t] == us[..t] && forall i :: t <= i < |rest| ==> rest[i] == us[i];
      OnlyInTurn(reg, settings, now, rest, t, k);
    }
  }

  lemma NewKeys(reg: Registry, settings: map<Key, Value>, cs: seq<Change>)
    requires Taken(reg, settings, cs)
    ensures NewValues(reg, settings, cs).Keys == settings.Keys
  {
    forall k ensures k in NewValues(reg, settings, cs) <==> k in settings {
      if Keyed(cs, k) {
        var i :| 0 <= i < |cs| && cs[i].key == k;
        TakenAt(reg, settings, cs, i);
      } else {
        OthersKeep(reg, settings, cs, k);
      }
    }
  }

  // ------------------------------------------------------------ the comfort pair

  predicate Pair(a: Key, b: Key) { (a.CeilingC? && b.SetpointC?) || (a.SetpointC? && b.CeilingC?) }

  lemma CrossDepends(reg: Registry, a: map<Key, Value>, b: map<Key, Value>, key: Key, v: Value)
    requires forall p :: Pair(key, p) ==> NumAt(a, p) == NumAt(b, p)
    ensures CrossCheck(reg, a, key, v) == CrossCheck(reg, b, key, v)
  {
    assert key.CeilingC? ==> Pair(key, SetpointC);
    assert key.SetpointC? ==> Pair(key, CeilingC);
  }

  /** Whether `x` in `a` goes with `y` in its counterpart `b`. */
  predicate Goes(reg: Registry, a: Key, x: Value, b: Key, y: Value) { CrossCheck(reg, map[b := y], a, x) }

  /** The two comfort keys check each other by one inequality. */
  lemma GoesSymmetric(reg: Registry, a: Key, x: Value, b: Key, y: Value)
    requires Pair(a, b)
    ensures Goes(reg, a, x, b, y) <==> Goes(reg, b, y, a, x)
  {}

  lemma CrossIsGoes(reg: Registry, m: map<Key, Value>, a: Key, x: Value, b: Key)
    requires Pair(a, b) && b in m
    ensures CrossCheck(reg, m, a, x) <==> Goes(reg, a, x, b, m[b])
  {
    CrossDepends(reg, m, map[b := m[b]], a, x);
  }

  /** The value the entry found is one the store accepts as it stood before the batch. */
  predicate Sound(reg: Registry, settings: map<Key, Value>, c: Change) {
    c.key in settings && Accepts(reg, settings, c.key, settings[c.key])
  }

  ghost predicate AllSound(reg: Registry, settings: map<Key, Value>, cs: seq<Change>) {
    forall i :: 0 <= i < |cs| ==> Sound(reg, settings, cs[i])
  }

  lemma TypedValue(reg: Registry, settings: map<Key, Value>, key: Key)
    requires Typed(reg, State(settings, [], 0)) && key in reg.schema
    ensures key in settings
    ensures Validate(reg.schema[key], settings[key]).Some? ==> Validate(reg.schema[key], settings[key]) == Some(settings[key])
  {}

  /** Entry `i` was accepted beside what its counterpart held: the value it had before the
      batch, unless that was written first. */
  lemma WrittenBeside(reg: Registry, settings: map<Key, Value>, cs: seq<Change>, i: nat, b: Key)
    requires Taken(reg, settings, cs) && i < |cs| && Pair(cs[i].key, b) && b in settings && !Keyed(cs[..i], b)
    ensures Goes(reg, cs[i].key, Canon(reg, cs[i]), b, settings[b])
  {
    TakenAt(reg, settings, cs, i);
    OthersKeep(reg, settings, cs[..i], b);
    CrossIsGoes(reg, NewValues(reg, settings, cs[..i]), cs[i].key, Canon(reg, cs[i]), b);
  }

  /** Entry `t` was accepted beside the new value of its counterpart, written before. */
  lemma WrittenAfter(reg: Registry, settings: map<Key, Value>, cs: seq<Change>, j: nat, t: nat)
    requires Taken(reg, settings, cs) && j < t < |cs| && Pair(cs[t].key, cs[j].key)
    ensures Goes(reg, cs[t].key, Canon(reg, cs[t]), cs[j].key, Canon(reg, cs[j]))
  {
    TakenAt(reg, settings, cs, t);
    TakenPrefix(reg, settings, cs, t);
    assert cs[..t][j] == cs[j];
    TakenAt(reg, settings, cs[..t], j);
    CrossIsGoes(reg, NewValues(reg, settings, cs[..t]), cs[t].key, Canon(reg, cs[t]), cs[j].key);
  }

  lemma {:induction false} TakenPrefix(reg: Registry, settings: map<Key, Value>, cs: seq<Change>, j: nat)
    requires Taken(reg, settings, cs) && j <= |cs|
    ensures Taken(reg, settings, cs[..j])
  {
    if j == |cs| {
      assert cs[..j] == cs;
    } else {
      TakenPrefix(reg, settings, cs[..|cs| - 1], j);
      assert cs[..|cs| - 1][..j] == cs[..j];
    }
  }

  lemma NotBefore(reg: Registry, settings: map<Key, Value>, cs: seq<Change>, i: nat, j: nat)
    requires Taken(reg, settings, cs) && i <= j < |cs|
    ensures !Keyed(cs[..i], cs[j].key)
  {
    TakenAt(reg, settings, cs, j);
  }

  // --------------------------------------------------------- in any order: necessity

  /** In its turn a refused entry keeps the batch's value, so if it ends where it was the
      batch had not moved it. */
  lemma RefusedKeeps(reg: Registry, settings: map<Key, Value>, cs: seq<Change>, us: seq<Change>, t: nat, i: nat)
    requires Taken(reg, settings, cs) && Undoes(us, cs) && t < |us| && i < |cs| && us[t].key == cs[i].key
    requires cs[i].key in settings
    requires !Accepts(reg, Undo(reg, settings, NewValues(reg, settings, cs), us[..t]), cs[i].key, settings[cs[i].key])
    ensures cs[i].key in Undo(reg, settings, NewValues(reg, settings, cs), us)
    ensures Undo(reg, settings, NewValues(reg, settings, cs), us)[cs[i].key] == Canon(reg, cs[i])
  {
    var written, key := NewValues(reg, settings, cs), cs[i].key;
    NewKeys(reg, settings, cs);
    TakenAt(reg, settings, cs, i);
    var upto := us[..t + 1];
    assert upto[..t] == us[..t] && us[..t][..0] == [];
    OnlyInTurn(reg, settings, written, us[..t], 0, key);
    assert Undo(reg, settings, written, upto) == Undo(reg, settings, written, us[..t]);
    OnlyInTurn(reg, settings, written, us, t + 1, key);
  }

  /** What the counterpart holds in entry `t`'s turn: its final value, if it has had its turn. */
  lemma BesideInTurn(reg: Registry, settings: map<Key, Value>, cs: seq<Change>, us: seq<Change>, t: nat, j: nat)
    requires Taken(reg, settings, cs) && Undoes(us, cs) && t <= |us| && j < |cs| && cs[j].key in settings
    ensures var written := NewValues(reg, settings, cs);
            var at, end := Undo(reg, settings, written, us[..t]), Undo(reg, settings, written, us);
            cs[j].key in at && cs[j].key in end
            && at[cs[j].key] == if Keyed(us[..t], cs[j].key) then end[cs[j].key] else Canon(reg, cs[j])
  {
    var written, key := NewValues(reg, settings, cs), cs[j].key;
    NewKeys(reg, settings, cs);
    TakenAt(reg, settings, cs, j);
    UndoKeepsKeys(reg, settings, written, us);
    UndoKeepsKeys(reg, settings, written, us[..t]);
    if Keyed(us[..t], key) {
      var u :| 0 <= u < |us[..t]| && us[..t][u].key == key;
      OnlyInTurn(reg, settings, written, us, t, key);
    } else {
      assert us[..t][..0] == [];
      OnlyInTurn(reg, settings, written, us[..t], 0, key);
    }
  }

  lemma OutsidersKeep(reg: Registry, settings: map<Key, Value>, cs: seq<Change>, us: seq<Change>, t: nat, k: Key)
    requires Taken(reg, settings, cs) && Undoes(us, cs) && t <= |us| && k in settings && !Keyed(cs, k)
    ensures var at := Undo(reg, settings, NewValues(reg, settings, cs), us[..t]); k in at && at[k] == settings[k]
  {
    var written := NewValues(reg, settings, cs);
    NewKeys(reg, settings, cs);
    OthersKeep(reg, settings, cs, k);
    assert us[..t][..0] == [];
    OnlyInTurn(reg, settings, written, us[..t], 0, k);
  }

  /** Nothing that is undone goes beside what refuses it. */
  lemma NotAccepted(reg: Registry, settings: map<Key, Value>, now: map<Key, Value>, key: Key, b: Key)
    requires Typed(reg, State(settings, [], 0)) && key in settings && Pair(key, b) && b in now
    requires !Goes(reg, key, settings[key], b, now[b])
    ensures !Accepts(reg, now, key, settings[key])
  {
    if key in reg.schema { TypedValue(reg, settings, key); }
    CrossIsGoes(reg, now, key, settings[key], b);
  }

  /** Two comfort entries, undone at `tx` and then at `ty`, that both end where they were. */
  lemma PairNeeds(
    reg: Registry, settings: map<Key, Value>, cs: seq<Change>, us: seq<Change>, x: nat, tx: nat, y: nat, ty: nat)
    requires Typed(reg, State(settings, [], 0)) && Taken(reg, settings, cs) && Undoes(us, cs)
    requires tx < ty < |us| && x < |cs| && y < |cs| && us[tx].key == cs[x].key && us[ty].key == cs[y].key
    requires Pair(cs[x].key, cs[y].key) && cs[x].key in settings && cs[y].key in settings
    requires Undo(reg, settings, NewValues(reg, settings, cs), us) == settings
    ensures Goes(reg, cs[x].key, settings[cs[x].key], cs[y].key, settings[cs[y].key])
  {
    var a, b := cs[x].key, cs[y].key;
    var written := NewValues(reg, settings, cs);
    GoesSymmetric(reg, a, settings[a], b, settings[b]);
    if !Goes(reg, a, settings[a], b, settings[b]) {
      assert us[..ty][tx].key == a;
      BesideInTurn(reg, settings, cs, us, ty, x);
      NotAccepted(reg, settings, Undo(reg, settings, written, us[..ty]), b, a);
      RefusedKeeps(reg, settings, cs, us, ty, y);
      assert !Keyed(us[..tx], b);
      BesideInTurn(reg, settings, cs, us, tx, y);
      NotAccepted(reg, settings, Undo(reg, settings, written, us[..tx]), a, b);
      RefusedKeeps(reg, settings, cs, us, tx, x);
      UnmovedPairGoes(reg, settings, cs, x, y);
      assert false;
    }
  }

  /** A batch that left both comfort values as they were was accepted beside them. */
  lemma UnmovedPairGoes(reg: Registry, settings: map<Key, Value>, cs: seq<Change>, x: nat, y: nat)
    requires Taken(reg, settings, cs) && x < |cs| && y < |cs| && Pair(cs[x].key, cs[y].key)
    requires cs[x].key in settings && Canon(reg, cs[x]) == settings[cs[x].key]
    requires cs[y].key in settings && Canon(reg, cs[y]) == settings[cs[y].key]
    ensures Goes(reg, cs[x].key, settings[cs[x].key], cs[y].key, settings[cs[y].key])
  {
    GoesSymmetric(reg, cs[x].key, settings[cs[x].key], cs[y].key, settings[cs[y].key]);
    if x < y {
      NotBefore(reg, settings, cs, x, y);
      WrittenBeside(reg, settings, cs, x, cs[y].key);
    } else {
      NotBefore(reg, settings, cs, y, x);
      WrittenBeside(reg, settings, cs, y, cs[x].key);
    }
  }

  /** A comfort entry whose counterpart the batch does not write. */
  lemma LoneNeeds(reg: Registry, settings: map<Key, Value>, cs: seq<Change>, us: seq<Change>, i: nat, t: nat, b: Key)
    requires Typed(reg, State(settings, [], 0)) && Taken(reg, settings, cs) && Undoes(us, cs)
    requires t < |us| && i < |cs| && us[t].key == cs[i].key && cs[i].key in settings
    requires Pair(cs[i].key, b) && b in settings && !Keyed(cs, b)
    requires Undo(reg, settings, NewValues(reg, settings, cs), us) == settings
    ensures Goes(reg, cs[i].key, settings[cs[i].key], b, settings[b])
  {
    var written := NewValues(reg, settings, cs);
    if !Goes(reg, cs[i].key, settings[cs[i].key], b, settings[b]) {
      OutsidersKeep(reg, settings, cs, us, t, b);
      NotAccepted(reg, settings, Undo(reg, settings, written, us[..t]), cs[i].key, b);
      RefusedKeeps(reg, settings, cs, us, t, i);
      WrittenBeside(reg, settings, cs, i, b);
      assert false;
    }
  }

  lemma NeedsValid(reg: Registry, settings: map<Key, Value>, cs: seq<Change>, us: seq<Change>, i: nat, t: nat)
    requires Typed(reg, State(settings, [], 0)) && Taken(reg, settings, cs) && Undoes(us, cs)
    requires t < |us| && i < |cs| && us[t].key == cs[i].key && cs[i].key in settings
    requires Undo(reg, settings, NewValues(reg, settings, cs), us) == settings
    ensures cs[i].key in reg.schema && Validate(reg.schema[cs[i].key], settings[cs[i].key]) == Some(settings[cs[i].key])
  {
    TakenAt(reg, settings, cs, i);
    TypedValue(reg, settings, cs[i].key);
    if Validate(reg.schema[cs[i].key], settings[cs[i].key]).None? {
      RefusedKeeps(reg, settings, cs, us, t, i);
      ValidateIdempotent(reg.schema[cs[i].key], cs[i].value);
      assert false;
    }
  }

  /** An entry without a counterpart is checked alike at every instant. */
  lemma AloneNeeds(reg: Registry, settings: map<Key, Value>, cs: seq<Change>, us: seq<Change>, i: nat, t: nat)
    requires Typed(reg, State(settings, [], 0)) && Taken(reg, settings, cs) && Undoes(us, cs)
    requires t < |us| && i < |cs| && us[t].key == cs[i].key && cs[i].key in settings
    requires forall b :: Pair(cs[i].key, b) ==> b !in settings
    requires Undo(reg, settings, NewValues(reg, settings, cs), us) == settings
    ensures CrossCheck(reg, settings, cs[i].key, settings[cs[i].key])
  {
    var key, written := cs[i].key, NewValues(reg, settings, cs);
    var at, first := Undo(reg, settings, written, us[..t]), NewValues(reg, settings, cs[..i]);
    TakenAt(reg, settings, cs, i);
    TypedValue(reg, settings, key);
    NewKeys(reg, settings, cs);
    TakenPrefix(reg, settings, cs, i);
    NewKeys(reg, settings, cs[..i]);
    UndoKeepsKeys(reg, settings, written, us[..t]);
    CrossDepends(reg, at, settings, key, settings[key]);
    CrossDepends(reg, first, settings, key, settings[key]);
    if !CrossCheck(reg, settings, key, settings[key]) {
      RefusedKeeps(reg, settings, cs, us, t, i);
      assert false;
    }
  }

  predicate AllTurns(us: seq<Change>, cs: seq<Change>) { forall i :: 0 <= i < |cs| ==> Keyed(us, cs[i].key) }

  /** In whatever order the entries are undone, a setting that the store would not have
      accepted before the batch is not given back. */
  lemma AnyOrderNeeds(reg: Registry, settings: map<Key, Value>, cs: seq<Change>, us: seq<Change>, i: nat)
    requires Typed(reg, State(settings, [], 0)) && Taken(reg, settings, cs) && Undoes(us, cs) && AllTurns(us, cs)
    requires Undo(reg, settings, NewValues(reg, settings, cs), us) == settings && i < |cs|
    ensures Sound(reg, settings, cs[i])
  {
    hide Undo, NewValues, Typed, Goes, Canon;
    var a := cs[i].key;
    TakenAt(reg, settings, cs, i);
    var t :| 0 <= t < |us| && us[t].key == a;
    NeedsValid(reg, settings, cs, us, i, t);
    if b :| Pair(a, b) && b in settings {
      CrossIsGoes(reg, settings, a, settings[a], b);
      if Keyed(cs, b) {
        var j :| 0 <= j < |cs| && cs[j].key == b;
        var u :| 0 <= u < |us| && us[u].key == b;
        GoesSymmetric(reg, a, settings[a], b, settings[b]);
        if t < u { PairNeeds(reg, settings, cs, us, i, t, j, u); } else { PairNeeds(reg, settings, cs, us, j, u, i, t); }
      } else {
        LoneNeeds(reg, settings, cs, us, i, t, b);
      }
    } else {
      AloneNeeds(reg, settings, cs, us, i, t);
    }
  }

  // --------------------------------------------------------------- last entry first

  lemma {:induction false} UndoCons(
    reg: Registry, settings: map<Key, Value>, now: map<Key, Value>, u: Change, us: seq<Change>)
    ensures Undo(reg, settings, now, [u] + us) == Undo(reg, settings, UndoOne(reg, settings, now, u.key), us)
    decreases |us|
  {
    var all := [u] + us;
    if |us| == 0 {
      assert all[..0] == [] && Undo(reg, settings, now, all[..0]) == now;
    } else {
      assert all[..|all| - 1] == [u] + us[..|us| - 1] && all[|all| - 1] == us[|us| - 1];
      UndoCons(reg, settings, now, u, us[..|us| - 1]);
    }
  }

  /** The newest entry can be put back: its counterpart holds what it held before the
      batch, or what was accepted beside the entry's old value. */
  lemma NewestGoesBack(reg: Registry, settings: map<Key, Value>, cs: seq<Change>)
    requires Typed(reg, State(settings, [], 0)) && Taken(reg, settings, cs) && |cs| > 0
    requires Sound(reg, settings, cs[|cs| - 1])
    ensures UndoOne(reg, settings, NewValues(reg, settings, cs), cs[|cs| - 1].key)
            == NewValues(reg, settings, cs[..|cs| - 1])
  {
    var rest, key := cs[..|cs| - 1], cs[|cs| - 1].key;
    var written, before := NewValues(reg, settings, cs), NewValues(reg, settings, rest);
    TypedValue(reg, settings, key);
    NewKeys(reg, settings, cs);
    NotBefore(reg, settings, cs, |rest|, |rest|);
    OthersKeep(reg, settings, rest, key);
    assert before[key := Canon(reg, cs[|cs| - 1])][key := settings[key]] == before;
    if b :| Pair(key, b) && b in settings {
      CrossIsGoes(reg, written, key, settings[key], b);
      if j :| 0 <= j < |rest| && rest[j].key == b {
        TakenAt(reg, settings, cs, j);
        NotBefore(reg, settings, cs, j, |rest|);
        WrittenBeside(reg, settings, cs, j, key);
        GoesSymmetric(reg, key, settings[key], b, Canon(reg, cs[j]));
      } else {
        assert !Keyed(cs, b);
        OthersKeep(reg, settings, cs, b);
        CrossIsGoes(reg, settings, key, settings[key], b);
      }
    } else {
      CrossDepends(reg, written, settings, key, settings[key]);
    }
  }

  lemma {:induction false} BackwardsRestores(reg: Registry, settings: map<Key, Value>, cs: seq<Change>)
    requires Typed(reg, State(settings, [], 0)) && Taken(reg, settings, cs) && AllSound(reg, settings, cs)
    ensures Undo(reg, settings, NewValues(reg, settings, cs), Reversed(cs)) == settings
    decreases |cs|
  {
    if |cs| > 0 {
      var rest, last := cs[..|cs| - 1], cs[|cs| - 1];
      NewestGoesBack(reg, settings, cs);
      assert forall i :: 0 <= i < |rest| ==> rest[i] == cs[i];
      hide Sound, NewValues, UndoOne, Typed;
      BackwardsRestores(reg, settings, rest);
      UndoCons(reg, settings, NewValues(reg, settings, cs), last, Reversed(rest));
    }
  }

  lemma {:induction false} ReversedAt(cs: seq<Change>, i: nat)
    requires i < |cs|
    ensures Reversed(cs)[i] == cs[|cs| - 1 - i]
  {
    var rest := cs[..|cs| - 1];
    assert Reversed(cs) == [cs[|cs| - 1]] + Reversed(rest);
    if i > 0 {
      ReversedAt(rest, i - 1);
      assert Reversed(cs)[i] == Reversed(rest)[i - 1];
    }
  }

  ghost predicate OneAKey(us: seq<Change>) { forall i, j :: 0 <= i < j < |us| ==> us[i].key != us[j].key }

  lemma Mirrored(cs: seq<Change>, r: seq<Change>)
    requires |r| == |cs| && (forall i :: 0 <= i < |cs| ==> r[i] == cs[|cs| - 1 - i]) && OneAKey(cs)
    ensures OneAKey(r) && (forall i :: 0 <= i < |cs| ==> Keyed(cs, r[i].key) && Keyed(r, cs[i].key))
  {
    var n := |cs|;
    forall i, j | 0 <= i < j < n ensures r[i].key != r[j].key {
      var a, b := n - 1 - j, n - 1 - i;
      assert cs[a].key != cs[b].key;
    }
    forall i | 0 <= i < n ensures Keyed(cs, r[i].key) && Keyed(r, cs[i].key) {
      var a := n - 1 - i;
      assert r[i] == cs[a] && r[a] == cs[i];
    }
  }

  lemma OrderOf(reg: Registry, settings: map<Key, Value>, cs: seq<Change>)
    requires Taken(reg, settings, cs)
    ensures Undoes(cs, cs) && AllTurns(cs, cs) && Undoes(Reversed(cs), cs) && AllTurns(Reversed(cs), cs)
  {
    hide Taken, Reversed;
    forall i, j | 0 <= i < j < |cs| ensures cs[i].key != cs[j].key { TakenAt(reg, settings, cs, i); }
    forall i | 0 <= i < |cs| ensures Reversed(cs)[i] == cs[|cs| - 1 - i] { ReversedAt(cs, i); }
    Mirrored(cs, Reversed(cs));
  }

  // -------------------------------------------------------------- first entry first

  /** Entry `i` cannot be undone before a later one: the value it found is refused beside
      what that left in the counterpart. */
  ghost predicate Stuck(reg: Registry, settings: map<Key, Value>, cs: seq<Change>, i: nat) {
    i < |cs| && cs[i].key in settings && exists j :: StuckOn(reg, settings, cs, i, j)
  }

  predicate StuckOn(reg: Registry, settings: map<Key, Value>, cs: seq<Change>, i: nat, j: int)
    requires i < |cs| && cs[i].key in settings
  {
    i < j < |cs| && Pair(cs[i].key, cs[j].key)
    && !Goes(reg, cs[i].key, settings[cs[i].key], cs[j].key, Canon(reg, cs[j]))
  }

  /** In its turn an entry is accepted unless it is stuck, and it ends accordingly. */
  lemma {:induction false} ForwardTurn(reg: Registry, settings: map<Key, Value>, cs: seq<Change>, t: nat)
    requires Typed(reg, State(settings, [], 0)) && Taken(reg, settings, cs) && AllSound(reg, settings, cs) && t < |cs|
    ensures cs[t].key in settings
    ensures var written := NewValues(reg, settings, cs);
            (Accepts(reg, Undo(reg, settings, written, cs[..t]), cs[t].key, settings[cs[t].key])
             <==> !Stuck(reg, settings, cs, t))
            && cs[t].key in Undo(reg, settings, written, cs)
            && Undo(reg, settings, written, cs)[cs[t].key]
               == if Stuck(reg, settings, cs, t) then Canon(reg, cs[t]) else settings[cs[t].key]
    decreases t, 1
  {
    var key, written := cs[t].key, NewValues(reg, settings, cs);
    TakenAt(reg, settings, cs, t);
    OrderOf(reg, settings, cs);
    assert Sound(reg, settings, cs[t]);
    if b :| Pair(key, b) && b in settings { PairTurn(reg, settings, cs, t, b); } else { LoneTurn(reg, settings, cs, t); }
    hide Stuck, Sound, Typed, NewValues;
    TurnEnds(reg, settings, cs, t);
  }

  lemma TurnEnds(reg: Registry, settings: map<Key, Value>, cs: seq<Change>, t: nat)
    requires Taken(reg, settings, cs) && Undoes(cs, cs) && t < |cs| && cs[t].key in settings
    ensures var written := NewValues(reg, settings, cs);
            var end, at := Undo(reg, settings, written, cs), Undo(reg, settings, written, cs[..t]);
            cs[t].key in end
            && end[cs[t].key] == if Accepts(reg, at, cs[t].key, settings[cs[t].key]) then settings[cs[t].key] else Canon(reg, cs[t])
  {
    var key, written := cs[t].key, NewValues(reg, settings, cs);
    NewKeys(reg, settings, cs);
    if Accepts(reg, Undo(reg, settings, written, cs[..t]), key, settings[key]) {
      assert cs[..t + 1][..t] == cs[..t];
      OnlyInTurn(reg, settings, written, cs, t + 1, key);
    } else {
      RefusedKeeps(reg, settings, cs, cs, t, t);
    }
  }

  lemma LoneTurn(reg: Registry, settings: map<Key, Value>, cs: seq<Change>, t: nat)
    requires Typed(reg, State(settings, [], 0)) && Taken(reg, settings, cs) && t < |cs| && Sound(reg, settings, cs[t])
    requires forall b :: Pair(cs[t].key, b) ==> b !in settings
    ensures Accepts(reg, Undo(reg, settings, NewValues(reg, settings, cs), cs[..t]), cs[t].key, settings[cs[t].key])
    ensures !Stuck(reg, settings, cs, t)
  {
    var at := Undo(reg, settings, NewValues(reg, settings, cs), cs[..t]);
    NewKeys(reg, settings, cs);
    UndoKeepsKeys(reg, settings, NewValues(reg, settings, cs), cs[..t]);
    TypedValue(reg, settings, cs[t].key);
    CrossDepends(reg, at, settings, cs[t].key, settings[cs[t].key]);
    forall j | t < j < |cs| ensures !Pair(cs[t].key, cs[j].key) { TakenAt(reg, settings, cs, j); }
  }

  lemma PairTurn(reg: Registry, settings: map<Key, Value>, cs: seq<Change>, t: nat, b: Key)
    requires Typed(reg, State(settings, [], 0)) && Taken(reg, settings, cs) && AllSound(reg, settings, cs) && t < |cs|
    requires cs[t].key in settings && Pair(cs[t].key, b) && b in settings
    ensures Accepts(reg, Undo(reg, settings, NewValues(reg, settings, cs), cs[..t]), cs[t].key, settings[cs[t].key])
            <==> !Stuck(reg, settings, cs, t)
    decreases t, 0
  {
    var key, at := cs[t].key, Undo(reg, settings, NewValues(reg, settings, cs), cs[..t]);
    assert Sound(reg, settings, cs[t]);
    TypedValue(reg, settings, key);
    OrderOf(reg, settings, cs);
    CrossIsGoes(reg, settings, key, settings[key], b);
    if Keyed(cs, b) {
      var j :| 0 <= j < |cs| && cs[j].key == b;
      TakenAt(reg, settings, cs, j);
      BesideInTurn(reg, settings, cs, cs, t, j);
      CrossIsGoes(reg, at, key, settings[key], b);
      if j < t {
        assert cs[..t][j].key == b;
        ForwardTurn(reg, settings, cs, j);
        EarlierGoes(reg, settings, cs, j, t);
        NotStuckLast(reg, settings, cs, j, t);
      } else {
        NotBefore(reg, settings, cs, t, j);
        StuckIff(reg, settings, cs, t, j);
      }
    } else {
      OutsidersKeep(reg, settings, cs, cs, t, b);
      CrossIsGoes(reg, at, key, settings[key], b);
    }
  }

  /** The value entry `t` found goes beside both the old and the new value of an earlier
      counterpart. */
  lemma EarlierGoes(reg: Registry, settings: map<Key, Value>, cs: seq<Change>, j: nat, t: nat)
    requires Taken(reg, settings, cs) && j < t < |cs| && Pair(cs[t].key, cs[j].key) && cs[t].key in settings
    ensures Goes(reg, cs[t].key, settings[cs[t].key], cs[j].key, Canon(reg, cs[j]))
  {
    NotBefore(reg, settings, cs, j, t);
    WrittenBeside(reg, settings, cs, j, cs[t].key);
    GoesSymmetric(reg, cs[t].key, settings[cs[t].key], cs[j].key, Canon(reg, cs[j]));
  }

  lemma NotStuckLast(reg: Registry, settings: map<Key, Value>, cs: seq<Change>, j: nat, t: nat)
    requires Taken(reg, settings, cs) && j < t < |cs| && Pair(cs[t].key, cs[j].key) && cs[t].key in settings
    ensures !Stuck(reg, settings, cs, t)
  {
    TakenAt(reg, settings, cs, j);
  }

  lemma StuckIff(reg: Registry, settings: map<Key, Value>, cs: seq<Change>, t: nat, j: nat)
    requires Taken(reg, settings, cs) && t < j < |cs| && Pair(cs[t].key, cs[j].key) && cs[t].key in settings
    ensures Stuck(reg, settings, cs, t) <==> !Goes(reg, cs[t].key, settings[cs[t].key], cs[j].key, Canon(reg, cs[j]))
  {
    TakenAt(reg, settings, cs, j);
    hide Goes, Canon;
    assert !Goes(reg, cs[t].key, settings[cs[t].key], cs[j].key, Canon(reg, cs[j])) ==> StuckOn(reg, settings, cs, t, j);
  }

  /** A stuck entry had changed its setting: its own new value was accepted beside the
      counterpart's. */
  lemma StuckIsChanged(reg: Registry, settings: map<Key, Value>, cs: seq<Change>, i: nat)
    requires Taken(reg, settings, cs) && Stuck(reg, settings, cs, i)
    ensures Canon(reg, cs[i]) != settings[cs[i].key]
  {
    var j :| StuckOn(reg, settings, cs, i, j);
    WrittenAfter(reg, settings, cs, i, j);
    GoesSymmetric(reg, cs[i].key, Canon(reg, cs[i]), cs[j].key, Canon(reg, cs[j]));
  }

  // -------------------------------------------------------------------- theorems

  lemma RunBatch(reg: Registry, m: Machine, env: Env, cs: seq<Change>, us: seq<Change>, now: int, later: int)
    requires Typed(reg, m.s) && Taken(reg, m.s.settings, cs) && Undoes(us, cs)
    ensures Run(reg, Run(reg, m, WritesOf(env, cs, now)), UndoesOf(env, us, later)).s.settings
            == Undo(reg, m.s.settings, NewValues(reg, m.s.settings, cs), us)
  {
    RunWrites(reg, m, env, cs, now);
    NewKeys(reg, m.s.settings, cs);
    assert Typed(reg, State(m.s.settings, [], 0));
    hide Run, Typed;
    RunUndoes(reg, Run(reg, m, WritesOf(env, cs, now)), m.s.settings, env, cs, us, later);
  }

  /** A failed batch is undone in the order it was written. Every setting is given back
      exactly when the store would have accepted each entry's old value as it stood before
      the batch, and no entry is stuck: none of the two comfort keys has to be put back
      beside a later entry's value of the other that refuses it. With the first alone, a
      stuck entry keeps its new value, and nothing else does. */
  lemma FailedBatchRestoresIff(reg: Registry, m: Machine, env: Env, cs: seq<Change>, now: int, later: int)
    requires Typed(reg, m.s) && Taken(reg, m.s.settings, cs)
    ensures var settings := m.s.settings;
            var after := Run(reg, Run(reg, m, WritesOf(env, cs, now)), UndoesOf(env, cs, later)).s.settings;
            (after == settings
             <==> AllSound(reg, settings, cs) && forall i :: 0 <= i < |cs| ==> !Stuck(reg, settings, cs, i))
            && (AllSound(reg, settings, cs) ==> EndsStuck(reg, settings, cs, after))
  {
    var settings := m.s.settings;
    RunBatch(reg, m, env, cs, cs, now, later) by { OrderOf(reg, settings, cs); }
    ForwardIff(reg, settings, cs) by { assert Typed(reg, State(settings, [], 0)); }
  }

  /** Every setting ends where it was before the batch, except those of stuck entries. */
  ghost predicate EndsStuck(reg: Registry, settings: map<Key, Value>, cs: seq<Change>, after: map<Key, Value>) {
    after.Keys == settings.Keys
    && (forall k :: k in settings && k in after && !Keyed(cs, k) ==> after[k] == settings[k])
    && forall i :: 0 <= i < |cs| ==> EndsAt(reg, settings, cs, after, i)
  }

  ghost predicate EndsAt(reg: Registry, settings: map<Key, Value>, cs: seq<Change>, after: map<Key, Value>, i: nat)
    requires i < |cs|
  {
    cs[i].key in settings && cs[i].key in after
    && after[cs[i].key] == if Stuck(reg, settings, cs, i) then Canon(reg, cs[i]) else settings[cs[i].key]
  }

  lemma ForwardEnds(reg: Registry, settings: map<Key, Value>, cs: seq<Change>)
    requires Typed(reg, State(settings, [], 0)) && Taken(reg, settings, cs) && AllSound(reg, settings, cs)
    ensures EndsStuck(reg, settings, cs, Undo(reg, settings, NewValues(reg, settings, cs), cs))
  {
    var after := Undo(reg, settings, NewValues(reg, settings, cs), cs);
    NewKeys(reg, settings, cs);
    UndoKeepsKeys(reg, settings, NewValues(reg, settings, cs), cs);
    OrderOf(reg, settings, cs);
    forall k | k in settings && !Keyed(cs, k) ensures after[k] == settings[k] {
      OutsidersKeep(reg, settings, cs, cs, |cs|, k);
      assert cs[..|cs|] == cs;
    }
    forall i | 0 <= i < |cs| ensures EndsAt(reg, settings, cs, after, i) { ForwardTurn(reg, settings, cs, i); }
  }

  lemma ForwardIff(reg: Registry, settings: map<Key, Value>, cs: seq<Change>)
    requires Typed(reg, State(settings, [], 0)) && Taken(reg, settings, cs)
    ensures var after := Undo(reg, settings, NewValues(reg, settings, cs), cs);
            (after == settings
             <==> AllSound(reg, settings, cs) && forall i :: 0 <= i < |cs| ==> !Stuck(reg, settings, cs, i))
            && (AllSound(reg, settings, cs) ==> EndsStuck(reg, settings, cs, after))
  {
    var after := Undo(reg, settings, NewValues(reg, settings, cs), cs);
    OrderOf(reg, settings, cs);
    if after == settings {
      forall i | 0 <= i < |cs| ensures Sound(reg, settings, cs[i]) { AnyOrderNeeds(reg, settings, cs, cs, i); }
    }
    hide Sound, Stuck, Taken, Undo, NewValues, Typed;
    if AllSound(reg, settings, cs) {
      ForwardEnds(reg, settings, cs);
      forall i | 0 <= i < |cs| && Stuck(reg, settings, cs, i) ensures after != settings {
        StuckIsChanged(reg, settings, cs, i);
        assert EndsAt(reg, settings, cs, after, i);
      }
      if forall i :: 0 <= i < |cs| ==> !Stuck(reg, settings, cs, i) { NoneStuck(reg, settings, cs, after); }
    }
  }

  lemma NoneStuck(reg: Registry, settings: map<Key, Value>, cs: seq<Change>, after: map<Key, Value>)
    requires EndsStuck(reg, settings, cs, after) && forall i :: 0 <= i < |cs| ==> !Stuck(reg, settings, cs, i)
    ensures after == settings
  {
    hide Stuck;
    forall k | k in settings ensures after[k] == settings[k] {
      if Keyed(cs, k) {
        var i :| 0 <= i < |cs| && cs[i].key == k;
        assert EndsAt(reg, settings, cs, after, i);
      }
    }
  }

  /** Undone last entry first it would be given back exactly when the store would have
      accepted each entry's old value as it stood before the batch. */
  lemma FailedBatchBackwards(reg: Registry, m: Machine, env: Env, cs: seq<Change>, now: int, later: int)
    requires Typed(reg, m.s) && Taken(reg, m.s.settings, cs)
    ensures Run(reg, Run(reg, m, WritesOf(env, cs, now)), UndoesOf(env, Reversed(cs), later)).s.settings == m.s.settings
            <==> AllSound(reg, m.s.settings, cs)
  {
    var settings := m.s.settings;
    assert Typed(reg, State(settings, [], 0));
    OrderOf(reg, settings, cs);
    RunBatch(reg, m, env, cs, Reversed(cs), now, later);
    hide Run, Sound, Undo, NewValues;
    if AllSound(reg, settings, cs) { BackwardsRestores(reg, settings, cs); }
    if Undo(reg, settings, NewValues(reg, settings, cs), Reversed(cs)) == settings {
      forall i | 0 <= i < |cs| ensures Sound(reg, settings, cs[i]) { AnyOrderNeeds(reg, settings, cs, Reversed(cs), i); }
    }
  }

  /** No order does better: if undoing the entries in any order at all gives every setting
      back, so does last entry first. */
  lemma BackwardsIsBest(reg: Registry, m: Machine, env: Env, cs: seq<Change>, us: seq<Change>, now: int, later: int)
    requires Typed(reg, m.s) && Taken(reg, m.s.settings, cs) && Undoes(us, cs) && AllTurns(us, cs)
    ensures var m1 := Run(reg, m, WritesOf(env, cs, now));
            Run(reg, m1, UndoesOf(env, us, later)).s.settings == m.s.settings
            ==> Run(reg, m1, UndoesOf(env, Reversed(cs), later)).s.settings == m.s.settings
  {
    var settings := m.s.settings;
    assert Typed(reg, State(settings, [], 0));
    RunBatch(reg, m, env, cs, us, now, later);
    FailedBatchBackwards(reg, m, env, cs, now, later);
    hide Run, Sound, Undo, NewValues;
    if Undo(reg, settings, NewValues(reg, settings, cs), us) == settings {
      forall i | 0 <= i < |cs| ensures Sound(reg, settings, cs[i]) { AnyOrderNeeds(reg, settings, cs, us, i); }
    }
  }

  const COMFORT_SPEC := Spec(FloatKind, Some(10.0), Some(30.0), false)
  const COMFORT := Registry(
    map[CeilingC := COMFORT_SPEC, SetpointC := COMFORT_SPEC], {}, map[], map[], {}, {}, {}, {}, {}, 0.5)
  const BOTH_UP := [Change(CeilingC, Num(23.0)), Change(SetpointC, Num(22.0))]
  const HOUSE := map[CeilingC := Num(21.5), SetpointC := Num(20.5)]

  lemma BothUpTaken()
    ensures Typed(COMFORT, State(HOUSE, [], 0)) && Taken(COMFORT, HOUSE, BOTH_UP) && AllSound(COMFORT, HOUSE, BOTH_UP)
    ensures Stuck(COMFORT, HOUSE, BOTH_UP, 0) && !Stuck(COMFORT, HOUSE, BOTH_UP, 1)
  {
    assert BOTH_UP[..1] == [Change(CeilingC, Num(23.0))] && BOTH_UP[..1][..0] == [];
    assert NewValues(COMFORT, HOUSE, BOTH_UP[..1]) == HOUSE[CeilingC := Num(23.0)];
    assert Taken(COMFORT, HOUSE, BOTH_UP[..1]);
    assert StuckOn(COMFORT, HOUSE, BOTH_UP, 0, 1);
  }

  /** It does happen: a batch that raises the ceiling and then the setpoint leaves the
      raised ceiling behind when a later entry fails. */
  lemma FailedBatchCanStick(env: Env)
    ensures var m1 := Run(COMFORT, Start(HOUSE), WritesOf(env, BOTH_UP, 0));
            Run(COMFORT, m1, UndoesOf(env, BOTH_UP, 1)).s.settings == map[CeilingC := Num(23.0), SetpointC := Num(20.5)]
  {
    var m1 := Run(COMFORT, Start(HOUSE), WritesOf(env, BOTH_UP, 0));
    var after := Run(COMFORT, m1, UndoesOf(env, BOTH_UP, 1)).s.settings;
    BothUpTaken();
    FailedBatchRestoresIff(COMFORT, Start(HOUSE), env, BOTH_UP, 0, 1);
    hide Run, Stuck, Taken, AllSound;
    assert EndsAt(COMFORT, HOUSE, BOTH_UP, after, 0) && EndsAt(COMFORT, HOUSE, BOTH_UP, after, 1);
    assert after[CeilingC] == Num(23.0) && after[SetpointC] == Num(20.5);
  }
}
