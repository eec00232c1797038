/** The weekly automatic change (src/auto_tune_apply.py): which suggestion is chosen,
    that the ledger will not turn it down for a reason the chooser checked, when the
    next run is, and the one-change-a-week quota. */
module Apply {
  import opened Common
  import opened Ledger
  import opened AutoTune
  import opened AutoTuneRuns
  import opened AutoTuneBase
  import opened AutoTuneGates

  // ---------------------------------------------------------------- candidates

  datatype ReviewVerdict = Recommended | ComfortFirst | TradeOffVerdict | NotApplicable

  /** One row of the weekly review. `saving` is pence per week saved. */
  datatype Suggestion = Suggestion(
    key: Key, current: Value, suggested: Value, verdict: ReviewVerdict, saving: real, hours: Option<real>,
    showerCurrent: Option<int>, showerSuggested: Option<int>, hoursBelow: Option<real>)

  datatype JobProposal = JobProposal(key: Key, direction: real)

  datatype Comfort = Comfort(cold: nat, n: nat, nDays: nat, job: Option<JobProposal>)

  datatype Skip =
    | SkipNotAllowlisted | SkipColdFeedback | SkipNoFeedback | SkipOneDay | SkipNotSaving | SkipComfortCost
    | SkipShower | SkipNoColdFeedback | SkipAboveFloor | SkipVerdict | SkipInvalid | SkipStale | SkipUnchanged
    | SkipConflict | SkipStep | SkipFrozen

  datatype Review = Review(reg: Registry, env: Env, s: State, comfort: Comfort, tolerance: real, now: int)

  /** The part of the check that the verdict decides. */
  function CheckVerdict(rv: Review, r: Suggestion): Option<Skip> {
    match r.verdict
    case TradeOffVerdict =>
      if rv.comfort.n < 1 then Some(SkipNoFeedback)
      else if rv.comfort.nDays < 2 then Some(SkipOneDay)
      else if r.saving <= 0.0 || r.hours.None? || r.hours.value <= 0.0 then Some(SkipNotSaving)
      else if r.hours.value > 2.0 * rv.tolerance + EPS then Some(SkipComfortCost)
      else if r.showerCurrent.Some? && r.showerSuggested.Some? && r.showerSuggested.value > r.showerCurrent.value
      then Some(SkipShower)
      else None
    case ComfortFirst =>
      if rv.comfort.cold < 1 then Some(SkipNoColdFeedback)
      else if r.hoursBelow.None? || r.hoursBelow.value <= 0.0 then Some(SkipAboveFloor)
      else None
    case Recommended => None
    case NotApplicable => Some(SkipVerdict)
  }

  predicate Conflicts(comfort: Comfort, key: Key, live: Value, new_: Value) {
    comfort.job.Some? && comfort.job.value.key == key && live.Num? && new_.Num?
    && (new_.x - live.x) * comfort.job.value.direction < 0.0
  }

  function CheckStep(reg: Registry, key: Key, live: Value, new_: Value): Option<Skip>
    requires key in reg.schema
  {
    match reg.schema[key].kind
    case EnumKind(options) =>
      if live.Sym? && new_.Sym? && !Adjacent(options, live.s, new_.s) then Some(SkipStep) else None
    case TextKind => None
    case _ => if live.Num? && new_.Num? && AbsR(new_.x - live.x) > StepFor(reg, key) + EPS then Some(SkipStep) else None
  }

  /** The part of the check that the live value decides. */
  function CheckLive(rv: Review, r: Suggestion): Option<Skip>
    requires r.key in rv.reg.schema
  {
    var spec := rv.reg.schema[r.key];
    if r.key !in rv.s.settings || Validate(spec, rv.s.settings[r.key]).None? || Validate(spec, r.current).None?
       || Validate(spec, r.suggested).None? then Some(SkipInvalid)
    else
      var live, new_ := Validate(spec, rv.s.settings[r.key]).value, Validate(spec, r.suggested).value;
      if live != Validate(spec, r.current).value then Some(SkipStale)
      else if live == new_ then Some(SkipUnchanged)
      else if Conflicts(rv.comfort, r.key, live, new_) then Some(SkipConflict)
      else if CheckStep(rv.reg, r.key, live, new_).Some? then Some(SkipStep)
      else if Frozen(rv.s.rows, r.key, rv.now) then Some(SkipFrozen)
      else None
  }

  /** Why a candidate is passed over; None when it is eligible. */
  function CheckCandidate(rv: Review, r: Suggestion): Option<Skip> {
    if r.key !in rv.reg.schema || !IsAllowlisted(rv.reg, rv.env, r.key) then Some(SkipNotAllowlisted)
    else if rv.comfort.cold >= 1 && r.hours.Some? && r.hours.value > 0.0 then Some(SkipColdFeedback)
    else if CheckVerdict(rv, r).Some? then CheckVerdict(rv, r)
    else CheckLive(rv, r)
  }

  predicate Eligible(rv: Review, r: Suggestion) { CheckCandidate(rv, r).None? }

  // -------------------------------------------------------------- the choice

  function Rank(v: ReviewVerdict): nat {
    match v case Recommended => 0 case ComfortFirst => 1 case TradeOffVerdict => 2 case NotApplicable => 3
  }

  function Money(r: Suggestion): real { if r.verdict.ComfortFirst? then 0.0 else -r.saving }

  /** Strictly better: verdict, then saving, then comfort cost. */
  predicate Better(a: Suggestion, b: Suggestion) {
    Rank(a.verdict) < Rank(b.verdict)
    || (Rank(a.verdict) == Rank(b.verdict)
        && (Money(a) < Money(b) || (Money(a) == Money(b) && a.hours.GetOr(0.0) < b.hours.GetOr(0.0))))
  }

  function Insert(r: Suggestion, rows: seq<Suggestion>): seq<Suggestion> {
    if |rows| == 0 || !Better(rows[0], r) then [r] + rows else [rows[0]] + Insert(r, rows[1..])
  }

  /** sorted(..., key=...), which is stable. */
  function Sorted(rows: seq<Suggestion>): seq<Suggestion> {
    if |rows| == 0 then [] else Insert(rows[0], Sorted(rows[1..]))
  }

  function Judgeable(rows: seq<Suggestion>): seq<Suggestion> {
    if |rows| == 0 then []
    else if rows[0].verdict.NotApplicable? then Judgeable(rows[1..])
    else [rows[0]] + Judgeable(rows[1..])
  }

  function FirstEligible(rv: Review, rows: seq<Suggestion>): Option<Suggestion> {
    if |rows| == 0 then None else if Eligible(rv, rows[0]) then Some(rows[0]) else FirstEligible(rv, rows[1..])
  }

  method EvaluateCandidates(rv: Review, suggestions: seq<Suggestion>)
    returns (chosen: Option<Suggestion>, considered: seq<(Suggestion, Option<Skip>)>)
    ensures chosen == FirstEligible(rv, Sorted(Judgeable(suggestions)))
    ensures |considered| == |Judgeable(suggestions)|
    ensures forall c :: c in considered ==> c.1 == CheckCandidate(rv, c.0)
    ensures chosen.Some? <==> exists c :: c in considered && c.1.None?
  {
    var rows := Sorted(Judgeable(suggestions));
    SortedLength(Judgeable(suggestions));
    chosen, considered := None, [];
    var i := 0;
    while i < |rows|
      invariant 0 <= i <= |rows| && |considered| == i
      invariant forall c :: c in considered ==> c.1 == CheckCandidate(rv, c.0)
      invariant FirstEligible(rv, rows) == if chosen.Some? then chosen else FirstEligible(rv, rows[i..])
      invariant chosen.Some? <==> exists c :: c in considered && c.1.None?
    {
      var why := CheckCandidate(rv, rows[i]);
      var entry := (rows[i], why);
      ghost var before := considered;
      considered := considered + [entry];
      assert entry in considered && (forall c :: c in before ==> c in considered);
      assert rows[i..][1..] == rows[i + 1..];
      if why.None? && chosen.None? { chosen := Some(rows[i]); }
      i := i + 1;
    }
  }

  lemma {:induction false} InsertLength(r: Suggestion, rows: seq<Suggestion>)
    ensures |Insert(r, rows)| == |rows| + 1 && (forall x :: x in Insert(r, rows) <==> x == r || x in rows)
  {
    if !(|rows| == 0 || !Better(rows[0], r)) { InsertLength(r, rows[1..]); }
  }

  lemma {:induction false} SortedLength(rows: seq<Suggestion>)
    ensures |Sorted(rows)| == |rows|
  {
    if |rows| > 0 { SortedLength(rows[1..]); InsertLength(rows[0], Sorted(rows[1..])); }
  }

  /** Position `i` holds the best eligible row, and the first of those that tie. */
  ghost predicate BestAt(rv: Review, rows: seq<Suggestion>, i: int) {
    0 <= i < |rows| && Eligible(rv, rows[i])
    && forall j :: 0 <= j < |rows| && Eligible(rv, rows[j]) ==>
         !Better(rows[j], rows[i]) && (j < i ==> Better(rows[i], rows[j]))
  }

  ghost predicate InOrder(rows: seq<Suggestion>) { forall i, j :: 0 <= i < j < |rows| ==> !Better(rows[j], rows[i]) }

  lemma {:induction false} InsertInOrder(r: Suggestion, rows: seq<Suggestion>)
    requires InOrder(rows)
    ensures InOrder(Insert(r, rows))
  {
    if !(|rows| == 0 || !Better(rows[0], r)) {
      InsertInOrder(r, rows[1..]);
      InsertLength(r, rows[1..]);
      var rest := Insert(r, rows[1..]);
      forall j | 0 <= j < |rest| ensures !Better(rest[j], rows[0]) { assert rest[j] in rest; }
    }
  }

  lemma {:induction false} SortedInOrder(rows: seq<Suggestion>)
    ensures InOrder(Sorted(rows))
  {
    if |rows| > 0 { SortedInOrder(rows[1..]); InsertInOrder(rows[0], Sorted(rows[1..])); }
  }

  lemma {:induction false} FirstEligibleMember(rv: Review, rows: seq<Suggestion>)
    ensures FirstEligible(rv, rows).Some? ==> FirstEligible(rv, rows).value in rows && Eligible(rv, FirstEligible(rv, rows).value)
  {
    if |rows| > 0 { FirstEligibleMember(rv, rows[1..]); }
  }

  lemma {:induction false} FirstAfterInsert(rv: Review, r: Suggestion, rows: seq<Suggestion>)
    requires InOrder(rows)
    ensures var f := FirstEligible(rv, rows);
            FirstEligible(rv, Insert(r, rows))
            == if Eligible(rv, r) && (f.None? || !Better(f.value, r)) then Some(r) else f
  {
    if |rows| == 0 || !Better(rows[0], r) {
      assert ([r] + rows)[1..] == rows;
      FirstEligibleMember(rv, rows);
      if FirstEligible(rv, rows).Some? {
        var k :| 0 <= k < |rows| && rows[k] == FirstEligible(rv, rows).value;
        assert !Better(rows[k], r);
      }
    } else {
      FirstAfterInsert(rv, r, rows[1..]);
      assert ([rows[0]] + Insert(r, rows[1..]))[1..] == Insert(r, rows[1..]);
    }
  }

  /** The chosen suggestion is the best eligible one of the review, ties going to the
      one listed first; none is chosen only when none is eligible. */
  lemma {:induction false} ChosenIsBest(rv: Review, rows: seq<Suggestion>)
    ensures match FirstEligible(rv, Sorted(Judgeable(rows)))
            case Some(r) => exists i :: BestAt(rv, rows, i) && rows[i] == r
            case None => forall i :: 0 <= i < |rows| ==> !Eligible(rv, rows[i])
  {
    if |rows| > 0 {
      var r, rest := rows[0], rows[1..];
      ChosenIsBest(rv, rest);
      var f := FirstEligible(rv, Sorted(Judgeable(rest)));
      if !r.verdict.NotApplicable? {
        assert Judgeable(rows)[1..] == Judgeable(rest);
        SortedInOrder(Judgeable(rest));
        FirstAfterInsert(rv, r, Sorted(Judgeable(rest)));
      }
      BestStep(rv, rows, f);
    }
  }

  lemma BestStep(rv: Review, rows: seq<Suggestion>, f: Option<Suggestion>)
    requires |rows| > 0
    requires match f
             case Some(r) => exists i :: BestAt(rv, rows[1..], i) && rows[1..][i] == r
             case None => forall i :: 0 <= i < |rows| - 1 ==> !Eligible(rv, rows[1..][i])
    ensures var r := rows[0];
            if Eligible(rv, r) && (f.None? || !Better(f.value, r)) then BestAt(rv, rows, 0)
            else if f.Some? then exists i :: BestAt(rv, rows, i) && rows[i] == f.value
            else forall i :: 0 <= i < |rows| ==> !Eligible(rv, rows[i])
  {
    var r, rest := rows[0], rows[1..];
    assert forall i :: 0 < i < |rows| ==> rows[i] == rest[i - 1];
    if f.Some? {
      var k :| BestAt(rv, rest, k) && rest[k] == f.value;
      if Eligible(rv, r) && !Better(f.value, r) {
        assert BestAt(rv, rows, 0);
      } else {
        assert BestAt(rv, rows, k + 1);
      }
    }
  }

  // ------------------------------------------- the choice in the review's own terms

  /** What the verdict asks of the week's feedback and of the numbers behind it. No cold
      report is compatible with a change that costs comfort. */
  predicate Deserves(comfort: Comfort, tolerance: real, r: Suggestion) {
    (comfort.cold == 0 || !CostsComfort(r))
    && match r.verdict
       case Recommended => true
       case ComfortFirst => comfort.cold > 0 && r.hoursBelow.Some? && r.hoursBelow.value > 0.0
       case TradeOffVerdict =>
         comfort.n > 0 && comfort.nDays > 1 && r.saving > 0.0 && CostsComfort(r)
         && r.hours.value <= 2.0 * tolerance + 0.000000001 && !WorseShowers(r)
       case NotApplicable => false
  }

  predicate CostsComfort(r: Suggestion) { r.hours.Some? && r.hours.value > 0.0 }

  predicate WorseShowers(r: Suggestion) {
    r.showerCurrent.Some? && r.showerSuggested.Some? && r.showerSuggested.value > r.showerCurrent.value
  }

  /** The value is still the one reviewed, and the suggested one is another, a step away,
      not against the direction of the comfort job, on a key that is not frozen. */
  ghost predicate StillOpen(rv: Review, r: Suggestion) {
    var live, want := InForce(rv.reg, rv.s, r.key), Asked(rv.reg, ProposalFor(r));
    r.key in rv.reg.schema && live.Some? && want.Some?
    && live == Validate(rv.reg.schema[r.key], r.current) && want != live
    && !Against(rv.comfort.job, r.key, live.value, want.value)
    && OneStep(rv.reg, r.key, live.value, want.value)
    && !FrozenPast(rv.s.rows, r.key, rv.now)
  }

  predicate Against(job: Option<JobProposal>, key: Key, live: Value, want: Value) {
    job.Some? && job.value.key == key && live.Num? && want.Num?
    && ((job.value.direction > 0.0 && want.x < live.x) || (job.value.direction < 0.0 && want.x > live.x))
  }

  /** A candidate is eligible exactly when its key may be tuned, its verdict fits the
      week, and it is still open. */
  lemma EligibleIff(rv: Review, r: Suggestion)
    ensures Eligible(rv, r) <==>
            r.key in rv.env.allow && r.key !in rv.reg.denied && Deserves(rv.comfort, rv.tolerance, r) && StillOpen(rv, r)
  {
    hide CheckLive, StillOpen;
    if r.key in rv.reg.schema { LiveIff(rv, r); } else { NotOpen(rv, r); }
  }

  lemma NotOpen(rv: Review, r: Suggestion)
    requires r.key !in rv.reg.schema
    ensures !StillOpen(rv, r)
  {}

  lemma LiveIff(rv: Review, r: Suggestion)
    requires r.key in rv.reg.schema
    ensures CheckLive(rv, r).None? <==> StillOpen(rv, r)
  {
    var live, want := InForce(rv.reg, rv.s, r.key), Asked(rv.reg, ProposalFor(r));
    FrozenMeans(rv.s.rows, r.key, rv.now);
    if live.Some? && want.Some? {
      StepIff(rv.reg, r.key, live.value, want.value, rv.s.settings[r.key], r.suggested);
      ConflictIff(rv.comfort, r.key, live.value, want.value);
    }
    hide Frozen, FrozenPast, CheckStep, OneStep, Conflicts, Against, Validate;
  }

  lemma StepIff(reg: Registry, key: Key, live: Value, want: Value, before: Value, asked: Value)
    requires key in reg.schema
    requires Validate(reg.schema[key], before) == Some(live) && Validate(reg.schema[key], asked) == Some(want)
    ensures CheckStep(reg, key, live, want).None? <==> OneStep(reg, key, live, want)
  {
    match reg.schema[key].kind {
      case EnumKind(options) =>
        AdjacentMeans(options, live.s, want.s);
        hide Adjacent, Neighbours;
      case _ =>
    }
  }

  lemma ConflictIff(comfort: Comfort, key: Key, live: Value, want: Value)
    ensures Conflicts(comfort, key, live, want) <==> Against(comfort.job, key, live, want)
  {
    if comfort.job.Some? && live.Num? && want.Num? { SignOfProduct(want.x - live.x, comfort.job.value.direction); }
  }

  lemma SignOfProduct(a: real, b: real)
    ensures a * b < 0.0 <==> (b > 0.0 && a < 0.0) || (b < 0.0 && a > 0.0)
  {
    if a > 0.0 && b > 0.0 { assert a * b > 0.0; }
    if a < 0.0 && b < 0.0 { assert a * b == (-a) * (-b) > 0.0; }
    if a > 0.0 && b < 0.0 { assert a * (-b) > 0.0; }
    if a < 0.0 && b > 0.0 { assert (-a) * b > 0.0; }
  }

  /** The order of the choice: recommendations before comfort before trade-offs; among
      comfort changes the fewest extra hours below the floor; among the others the larger
      saving, and for the same saving the fewest hours. */
  lemma BetterMeans(a: Suggestion, b: Suggestion)
    ensures a.verdict != b.verdict ==>
              (Better(a, b) <==> a.verdict == Recommended || b.verdict == NotApplicable
                                 || (a.verdict == ComfortFirst && b.verdict == TradeOffVerdict))
    ensures a.verdict == b.verdict == ComfortFirst ==> (Better(a, b) <==> a.hours.GetOr(0.0) < b.hours.GetOr(0.0))
    ensures a.verdict == b.verdict && a.verdict != ComfortFirst ==>
              (Better(a, b) <==> a.saving > b.saving || (a.saving == b.saving && a.hours.GetOr(0.0) < b.hours.GetOr(0.0)))
  {}

  // --------------------------------------------------------- choice and ledger

  function ReviewIntent(v: ReviewVerdict): Intent {
    match v case ComfortFirst => ComfortUp case TradeOffVerdict => TradeOff case _ => Saving
  }

  function ProposalFor(r: Suggestion): Proposal {
    Proposal(r.key, r.suggested, TuningReview, Some(ReviewIntent(r.verdict)),
             if r.verdict.TradeOffVerdict? then Some(r.hours.GetOr(0.0)) else None)
  }

  /** What the ledger can still say to a row the chooser found eligible. */
  predicate StillPossible(rv: Review, r: Suggestion, refusal: Refusal) {
    match refusal
    case Disabled => !rv.env.enabled
    case CronReload => r.key in rv.reg.schema && rv.reg.schema[r.key].cronReload
    case Pinned => r.key in rv.env.pinned
    case IsBusy => Busy(rv.s.rows)
    case Invalid => !Accepts(rv.reg, rv.s.settings, r.key, r.suggested)
    case DriftCap => MaxDrift(rv.reg, r.key).Some?
    case Away => rv.env.away
    case NoBaseline => true
    case LedgerError(_) => !rv.env.insertOk
    case _ => false
  }

  /** Selection implies proposability: seeing the same state at the same time, the
      ledger never refuses the chosen row as not allowlisted, denylisted, unchanged, a
      step too large, frozen or changed, and as busy only when a change is running. */
  lemma SelectionImpliesProposable(rv: Review, r: Suggestion)
    requires Eligible(rv, r)
    ensures r.key in rv.reg.schema
    ensures match Propose(rv.reg, rv.env, rv.s, ProposalFor(r), rv.now).1
            case Applied(_, _, _) => true
            case Refused(reason) => StillPossible(rv, r, reason)
  {
    var spec := rv.reg.schema[r.key];
    ValidateIdempotent(spec, r.suggested);
    ValidateIdempotent(spec, rv.s.settings[r.key]);
  }

  // --------------------------------------------------------------- weekly quota

  const QUOTA_LIMIT: nat := 200
  const AUTOMATED := Query(None, None, Some(Manual))

  predicate InWeek(r: Row, from: int, to: int) { from <= r.appliedAt < to }

  /** How many of the newest `limit` automated rows were applied in the week. */
  function QuotaUsed(rows: seq<Row>, limit: nat, from: int, to: int): nat {
    if |rows| == 0 || limit == 0 then 0
    else
      var last, rest := rows[|rows| - 1], rows[..|rows| - 1];
      if Matches(AUTOMATED, last)
      then QuotaUsed(rest, limit - 1, from, to) + if InWeek(last, from, to) then 1 else 0
      else QuotaUsed(rest, limit, from, to)
  }

  method WeeklyQuotaUsed(rows: seq<Row>, from: int, to: int) returns (n: nat)
    ensures n == QuotaUsed(rows, QUOTA_LIMIT, from, to)
  {
    n := 0;
    var i, left := |rows|, QUOTA_LIMIT;
    assert rows[..i] == rows;
    while i > 0 && left > 0
      invariant 0 <= i <= |rows|
      invariant QuotaUsed(rows, QUOTA_LIMIT, from, to) == n + QuotaUsed(rows[..i], left, from, to)
    {
      i := i - 1;
      assert rows[..i + 1][..i] == rows[..i];
      if Matches(AUTOMATED, rows[i]) {
        left := left - 1;
        if InWeek(rows[i], from, to) { n := n + 1; }
      }
    }
  }

  ghost predicate AppliedInOrder(rows: seq<Row>, now: int) {
    (forall i, j :: 0 <= i < j < |rows| ==> rows[i].appliedAt <= rows[j].appliedAt)
    && forall i :: 0 <= i < |rows| ==> rows[i].appliedAt <= now
  }

  /** The quota is spent exactly when some automated change of any source was applied
      this week, however long the ledger: the row limit of the query never hides one. */
  lemma {:induction false} QuotaSpentIff(rows: seq<Row>, limit: nat, from: int, to: int, now: int)
    requires AppliedInOrder(rows, now) && from <= now < to && limit > 0
    ensures QuotaUsed(rows, limit, from, to) > 0
            <==> exists i :: 0 <= i < |rows| && rows[i].status != Manual && InWeek(rows[i], from, to)
    decreases |rows|
  {
    if |rows| > 0 {
      var n := |rows| - 1;
      var last, rest := rows[n], rows[..n];
      if Matches(AUTOMATED, last) {
        if InWeek(last, from, to) {
          assert rows[n].status != Manual;
        } else {
          NoneInWeek(rest, limit - 1, from, to);
        }
      } else {
        QuotaSpentIff(rest, limit, from, to, now);
        assert forall i :: 0 <= i < n ==> rest[i] == rows[i];
      }
    }
  }

  lemma {:induction false} NoneInWeek(rows: seq<Row>, limit: nat, from: int, to: int)
    requires forall i :: 0 <= i < |rows| ==> !InWeek(rows[i], from, to)
    ensures QuotaUsed(rows, limit, from, to) == 0
    decreases |rows|
  {
    if |rows| > 0 && limit > 0 {
      NoneInWeek(rows[..|rows| - 1], limit, from, to);
      NoneInWeek(rows[..|rows| - 1], limit - 1, from, to);
    }
  }

  /** One weekly run. `ready` is whether a fresh, finished review is there to apply. */
  function WeeklyStep(rv: Review, suggestions: seq<Suggestion>, ready: bool, from: int, to: int): (State, bool) {
    var chosen := FirstEligible(rv, Sorted(Judgeable(suggestions)));
    if !rv.env.enabled || QuotaUsed(rv.s.rows, QUOTA_LIMIT, from, to) > 0 || !ready || Busy(rv.s.rows) || chosen.None?
    then (rv.s, false)
    else
      var (after, out) := Propose(rv.reg, rv.env, rv.s, ProposalFor(chosen.value), rv.now);
      (after, out.Applied?)
  }

  method ApplyWeekly(
    store: Store, reg: Registry, env: Env, comfort: Comfort, tolerance: real, now: int,
    suggestions: seq<Suggestion>, ready: bool, from: int, to: int) returns (applied: bool)
    requires Total(reg, store.Value()) && !store.lockHeld
    modifies store
    ensures !store.lockHeld
    ensures (store.Value(), applied)
            == WeeklyStep(Review(reg, env, old(store.Value()), comfort, tolerance, now), suggestions, ready, from, to)
  {
    if !env.enabled { return false; }
    var used := WeeklyQuotaUsed(store.rows, from, to);
    if used > 0 || !ready { return false; }
    var chosen, _ := EvaluateCandidates(Review(reg, env, store.Value(), comfort, tolerance, now), suggestions);
    if Newest(store.rows, ACTIVE).Some? || chosen.None? { return false; }
    var out := store.ProposeChange(reg, env, ProposalFor(chosen.value), now);
    return out.Applied?;
  }

  /** What a weekly run leaves behind: the suggested value in force, and on top a row that
      says who asked, why, and what comfort a trade-off is expected to cost. */
  predicate Records(rv: Review, r: Suggestion, after: State) {
    var n := |rv.s.rows|;
    r.key in rv.reg.schema && Validate(rv.reg.schema[r.key], r.suggested).Some?
    && var value := Validate(rv.reg.schema[r.key], r.suggested).value;
       after.settings == rv.s.settings[r.key := value] && |after.rows| == n + 1 && after.rows[..n] == rv.s.rows
       && var row := after.rows[n];
          row.key == r.key && row.newValue == value && row.source == TuningReview && row.status == Evaluating
          && row.appliedAt == rv.now
          && (r.verdict == Recommended ==> row.intent == Some(Saving) && row.evidence.expectedComfort.None?)
          && (r.verdict == ComfortFirst ==> row.intent == Some(ComfortUp) && row.evidence.expectedComfort.None?)
          && (r.verdict == TradeOffVerdict ==> row.intent == Some(TradeOff) && row.evidence.expectedComfort == r.hours)
  }

  predicate RunMayApply(rv: Review, ready: bool, from: int, to: int) {
    rv.env.enabled && ready && QuotaUsed(rv.s.rows, QUOTA_LIMIT, from, to) == 0
  }

  ghost predicate BestPasses(rv: Review, suggestions: seq<Suggestion>, i: int) {
    BestAt(rv, suggestions, i) && PassesAll(rv.reg, rv.env, rv.s, ProposalFor(suggestions[i]), rv.now)
  }

  /** A weekly run applies exactly when it is switched on and ready, the week is unspent,
      and its best suggestion passes every gate of the ledger; it then records that one.
      Otherwise, unless an insert failed, nothing has changed. */
  lemma WeeklyAppliesBest(rv: Review, suggestions: seq<Suggestion>, ready: bool, from: int, to: int)
    ensures var (after, applied) := WeeklyStep(rv, suggestions, ready, from, to);
            (applied <==> RunMayApply(rv, ready, from, to) && exists i :: BestPasses(rv, suggestions, i))
            && (applied ==> exists i :: BestPasses(rv, suggestions, i) && Records(rv, suggestions[i], after))
            && (!applied && rv.env.insertOk ==> after == rv.s)
  {
    ChosenIsBest(rv, suggestions);
    BusyMeans(rv.s.rows);
    var chosen := FirstEligible(rv, Sorted(Judgeable(suggestions)));
    hide PassesAll, Eligible, Propose, Sorted, FirstEligible, Judgeable, Busy, QuotaUsed;
    match chosen {
      case Some(r) =>
        var k :| BestAt(rv, suggestions, k) && suggestions[k] == r;
        BestIsRecorded(rv, r);
        if SomeEvaluating(rv.s.rows) { BusyFails(rv, r); }
        if WeeklyStep(rv, suggestions, ready, from, to).1 {
          assert BestPasses(rv, suggestions, k) && Records(rv, suggestions[k], WeeklyStep(rv, suggestions, ready, from, to).0);
        }
        if RunMayApply(rv, ready, from, to) && exists i :: BestPasses(rv, suggestions, i) {
          var i :| BestPasses(rv, suggestions, i);
          SoleBest(rv, suggestions, i, k);
        }
      case None =>
    }
  }

  lemma SoleBest(rv: Review, rows: seq<Suggestion>, i: int, k: int)
    requires BestAt(rv, rows, i) && BestAt(rv, rows, k)
    ensures i == k
  {}

  lemma BusyFails(rv: Review, r: Suggestion)
    requires SomeEvaluating(rv.s.rows)
    ensures !PassesAll(rv.reg, rv.env, rv.s, ProposalFor(r), rv.now)
  {
    assert Fails(rv.reg, rv.env, rv.s, ProposalFor(r), rv.now, Gate.Alone);
  }

  /** The ledger's answer to the chosen row. */
  lemma BestIsRecorded(rv: Review, r: Suggestion)
    requires Eligible(rv, r)
    ensures var (after, out) := Propose(rv.reg, rv.env, rv.s, ProposalFor(r), rv.now);
            (out.Applied? <==> PassesAll(rv.reg, rv.env, rv.s, ProposalFor(r), rv.now))
            && (out.Applied? ==> Records(rv, r, after))
            && (!out.Applied? && rv.env.insertOk ==> after == rv.s)
  {
    AppliedIff(rv.reg, rv.env, rv.s, ProposalFor(r), rv.now);
    EligibleIff(rv, r);
    if !Propose(rv.reg, rv.env, rv.s, ProposalFor(r), rv.now).1.Applied? {
      var g := RefusalIsFirstFailing(rv.reg, rv.env, rv.s, ProposalFor(r), rv.now);
    }
    hide Propose, PassesAll, Eligible, StillOpen, Validate;
  }

  ghost predicate ChangedInWeek(rows: seq<Row>, from: int, to: int) {
    exists i :: 0 <= i < |rows| && rows[i].status != Manual && InWeek(rows[i], from, to)
  }

  /** One change a week: a run applies only in a week without an automated change of any
      source, and what it applies spends the week; while the week is spent a run leaves
      the ledger untouched. */
  lemma OneChangeAWeek(rv: Review, suggestions: seq<Suggestion>, ready: bool, from: int, to: int)
    requires AppliedInOrder(rv.s.rows, rv.now) && from <= rv.now < to
    ensures var (after, applied) := WeeklyStep(rv, suggestions, ready, from, to);
            (applied ==> !ChangedInWeek(rv.s.rows, from, to) && ChangedInWeek(after.rows, from, to))
            && (ChangedInWeek(rv.s.rows, from, to) ==> !applied && after == rv.s)
            && AppliedInOrder(after.rows, rv.now)
  {
    QuotaSpentIff(rv.s.rows, QUOTA_LIMIT, from, to, rv.now);
    var (after, applied) := WeeklyStep(rv, suggestions, ready, from, to);
    if applied {
      var n := |rv.s.rows|;
      assert |after.rows| == n + 1 && after.rows[..n] == rv.s.rows;
      assert after.rows[n].status != Manual && InWeek(after.rows[n], from, to);
    }
  }

  // --------------------------------------------------------------- many weeks

  /** A weekly run, in the week [from, to) its clock is in, or any other ledger event. */
  datatype Occurrence =
    | WeeklyRun(
        env: Env, comfort: Comfort, tolerance: real, at: int, suggestions: seq<Suggestion>, ready: bool, from: int, to: int)
    | Other(e: Event)

  function TimeOf(o: Occurrence): Option<int> {
    match o
    case WeeklyRun(_, _, _, at, _, _, _, _) => Some(at)
    case Other(BatchCommits) => None
    case Other(Keeps(_, _)) => None
    case Other(Judges(_, _, _)) => None
    case Other(e) => Some(e.now)
  }

  function RunOf(reg: Registry, s: State, o: Occurrence): (State, bool)
    requires o.WeeklyRun?
  {
    WeeklyStep(Review(reg, o.env, s, o.comfort, o.tolerance, o.at), o.suggestions, o.ready, o.from, o.to)
  }

  function Occurs(reg: Registry, m: Machine, o: Occurrence): Machine {
    if o.WeeklyRun? then m.(s := RunOf(reg, m.s, o).0) else Step(reg, m, o.e)
  }

  function History(reg: Registry, m: Machine, os: seq<Occurrence>): Machine {
    if |os| == 0 then m else Occurs(reg, History(reg, m, os[..|os| - 1]), os[|os| - 1])
  }

  predicate AppliesIn(reg: Registry, s: State, o: Occurrence, from: int, to: int) {
    o.WeeklyRun? && from <= o.at < to && RunOf(reg, s, o).1
  }

  /** How many weekly runs applied a change in the week [from, to). */
  function AppliedRuns(reg: Registry, m: Machine, os: seq<Occurrence>, from: int, to: int): nat {
    if |os| == 0 then 0
    else
      var rest := os[..|os| - 1];
      AppliedRuns(reg, m, rest, from, to) + if AppliesIn(reg, History(reg, m, rest).s, os[|os| - 1], from, to) then 1 else 0
  }

  /** Every run knows the week it is in. */
  ghost predicate Calendar(os: seq<Occurrence>, from: int, to: int) {
    forall o :: o in os && o.WeeklyRun? ==>
      o.from <= o.at < o.to && (from <= o.at < to ==> o.from == from && o.to == to)
  }

  ghost predicate Chronological(os: seq<Occurrence>) {
    forall i, j :: 0 <= i < j < |os| && TimeOf(os[i]).Some? && TimeOf(os[j]).Some? ==> TimeOf(os[i]).value <= TimeOf(os[j]).value
  }

  ghost predicate By(os: seq<Occurrence>, now: int) {
    forall i :: 0 <= i < |os| && TimeOf(os[i]).Some? ==> TimeOf(os[i]).value <= now
  }

  /** The same rows as far as the quota can tell. */
  ghost predicate SameQuota(a: seq<Row>, b: seq<Row>) {
    |a| == |b| && forall i :: 0 <= i < |a| ==>
      a[i].appliedAt == b[i].appliedAt && (a[i].status == Manual <==> b[i].status == Manual)
  }

  /** What every event does to the quota: rows are added in order of time, and a week that
      has an automated change keeps it. */
  ghost predicate Spends(a: seq<Row>, b: seq<Row>, now: int) {
    AppliedInOrder(b, now) && forall from, to :: ChangedInWeek(a, from, to) ==> ChangedInWeek(b, from, to)
  }

  lemma SameSpends(a: seq<Row>, b: seq<Row>, now: int)
    requires AppliedInOrder(a, now) && SameQuota(a, b)
    ensures Spends(a, b, now)
  {
    forall from, to | ChangedInWeek(a, from, to) ensures ChangedInWeek(b, from, to) {
      var i :| 0 <= i < |a| && a[i].status != Manual && InWeek(a[i], from, to);
      assert b[i].status != Manual && InWeek(b[i], from, to);
    }
  }

  lemma AppendSpends(a: seq<Row>, r: Row, b: seq<Row>, now: int)
    requires AppliedInOrder(a, now) && r.appliedAt == now && SameQuota(a + [r], b)
    ensures Spends(a, b, now)
  {
    forall from, to | ChangedInWeek(a, from, to) ensures ChangedInWeek(b, from, to) {
      var i :| 0 <= i < |a| && a[i].status != Manual && InWeek(a[i], from, to);
      assert (a + [r])[i] == a[i];
      assert b[i].status != Manual && InWeek(b[i], from, to);
    }
  }

  lemma {:induction false} DeleteInOrder(a: seq<Row>, id: nat, now: int)
    requires AppliedInOrder(a, now)
    ensures AppliedInOrder(DeleteId(a, id), now) && forall r :: r in DeleteId(a, id) ==> r in a
  {
    if |a| > 0 {
      var rest, last := a[..|a| - 1], a[|a| - 1];
      DeleteInOrder(rest, id, now);
      var d := DeleteId(rest, id);
      forall i | 0 <= i < |d| ensures d[i].appliedAt <= last.appliedAt { assert d[i] in rest; }
    }
  }

  lemma {:induction false} DeleteKeepsRow(a: seq<Row>, id: nat, r: Row)
    requires r in a && r.id != id
    ensures r in DeleteId(a, id)
  {
    if a[|a| - 1] != r { DeleteKeepsRow(a[..|a| - 1], id, r); }
  }

  lemma DeleteSpends(a: seq<Row>, id: nat, now: int)
    requires AppliedInOrder(a, now) && forall i :: 0 <= i < |a| && a[i].id == id ==> a[i].status == Manual
    ensures Spends(a, DeleteId(a, id), now)
  {
    DeleteInOrder(a, id, now);
    var d := DeleteId(a, id);
    hide AppliedInOrder, DeleteId;
    forall from, to | ChangedInWeek(a, from, to) ensures ChangedInWeek(d, from, to) {
      var i :| 0 <= i < |a| && a[i].status != Manual && InWeek(a[i], from, to);
      DeleteKeepsRow(a, id, a[i]);
      var k :| 0 <= k < |d| && d[k] == a[i];
      assert d[k].status != Manual && InWeek(d[k], from, to);
    }
  }

  lemma SpendsTrans(a: seq<Row>, b: seq<Row>, c: seq<Row>, now: int)
    requires Spends(a, b, now) && Spends(b, c, now)
    ensures Spends(a, c, now)
  {
    forall from, to | ChangedInWeek(a, from, to) ensures ChangedInWeek(c, from, to) { assert ChangedInWeek(b, from, to); }
  }

  lemma SupersedeSameQuota(rows: seq<Row>, key: Key, mid: nat)
    ensures SameQuota(rows, SupersedeNewest(rows, key, SUPERSEDE_LIMIT, mid))
    ensures SameQuota(rows, ReopenNewest(rows, key, SUPERSEDE_LIMIT, mid))
  {}

  lemma TrailsSameQuota(a: seq<Row>, b: seq<Row>)
    requires SameTrails(a, b) && forall i :: 0 <= i < |a| ==> a[i].appliedAt == b[i].appliedAt
    ensures SameQuota(a, b)
  {
    forall i | 0 <= i < |a| ensures a[i].status == Manual <==> b[i].status == Manual { assert EntryOf(a[i]) == EntryOf(b[i]); }
  }

  lemma StoreSpends(reg: Registry, env: Env, s: State, key: Key, v: Value, name: string, now: int)
    requires WellFormed(reg, s) && AppliedInOrder(s.rows, now) && key in s.settings && IsDefault(reg, key, v)
    ensures Spends(s.rows, StoreValue(reg, env, s, key, v, Owner(name), now).rows, now)
  {
    var s' := StoreValue(reg, env, s, key, v, Owner(name), now);
    StoreEffect(reg, env, s, key, v, name, now);
    var r := ManualRow(env, s, key, v, name, now);
    SupersedeSameQuota(s.rows + [r], key, s.nextId);
    hide StoreValue, SupersedeNewest, ReopenNewest, WellFormed, IsDefault;
    if s'.rows == s.rows { SameSpends(s.rows, s'.rows, now); } else { AppendSpends(s.rows, r, s'.rows, now); }
  }

  lemma OwnerSpends(reg: Registry, env: Env, s: State, key: Key, v: Value, name: string, now: int)
    requires WellFormed(reg, s) && AppliedInOrder(s.rows, now)
    ensures Spends(s.rows, Write(reg, env, s, key, v, Owner(name), now).rows, now)
    ensures Spends(s.rows, Clear(reg, env, s, key, v, name, now).rows, now)
  {
    SameSpends(s.rows, s.rows, now);
    if key in s.settings && Accepts(reg, s.settings, key, v) {
      CoerceIdempotent(reg.schema[key].kind, v);
      StoreSpends(reg, env, s, key, Validate(reg.schema[key], v).value, name, now);
    }
    if key in s.settings && IsDefault(reg, key, v) { StoreSpends(reg, env, s, key, v, name, now); }
  }

  lemma UndoSpends(reg: Registry, env: Env, s: State, key: Key, v: Value, batch: string, now: int)
    requires WellFormed(reg, s) && AppliedInOrder(s.rows, now)
    ensures Spends(s.rows, Write(reg, env, s, key, v, BatchUndo(batch), now).rows, now)
  {
    SameSpends(s.rows, s.rows, now);
    if key in s.settings && Accepts(reg, s.settings, key, v) {
      UndoWriteEffect(reg, env, s, key, v, batch, now);
      var found := NewestManualBy(s.rows, key, batch, UNDO_LIMIT);
      if found.Some? {
        NewestManualByMember(s.rows, key, batch, UNDO_LIMIT);
        UndoneSpends(s, key, found.value, now);
      }
    }
  }

  lemma UndoneSpends(s: State, key: Key, m: Row, now: int)
    requires Ordered(s) && AppliedInOrder(s.rows, now) && m in s.rows && m.status == Manual
    ensures Spends(s.rows, DeleteId(ReopenNewest(s.rows, key, SUPERSEDE_LIMIT, m.id), m.id), now)
  {
    var r := ReopenNewest(s.rows, key, SUPERSEDE_LIMIT, m.id);
    var w :| 0 <= w < |s.rows| && s.rows[w] == m;
    forall i | 0 <= i < |r| && r[i].id == m.id ensures r[i].status == Manual { assert i == w; }
    SupersedeSameQuota(s.rows, key, m.id);
    hide ReopenNewest;
    SameSpends(s.rows, r, now);
    DeleteSpends(r, m.id, now);
    SpendsTrans(s.rows, r, DeleteId(r, m.id), now);
  }

  lemma ProposeSpends(reg: Registry, env: Env, s: State, p: Proposal, now: int)
    requires WellFormed(reg, s) && AppliedInOrder(s.rows, now)
    ensures Spends(s.rows, Propose(reg, env, s, p, now).0.rows, now)
  {
    ProposeEffect(reg, env, s, p, now);
    var (s', out) := Propose(reg, env, s, p, now);
    hide Propose, Moved, WellFormed;
    if out.Applied? {
      AppendSpends(s.rows, NewRow(reg, out.id, p, out.oldValue, out.newValue, now), s'.rows, now);
    } else {
      SameSpends(s.rows, s'.rows, now);
    }
  }

  lemma RelabelSpends(reg: Registry, m: Machine, e: Event, now: int)
    requires WellFormed(reg, m.s) && AppliedInOrder(m.s.rows, now)
    requires e.RollsBack? || e.Keeps? || e.FreezesRow? || e.Judges?
    ensures Spends(m.s.rows, Step(reg, m, e).s.rows, now)
  {
    if e.RollsBack? { RollbackKeeps(reg, e.env, m.s, e.id, e.ev, e.now); } else { QuietKeeps(reg, m, e); }
    TrailsSameQuota(m.s.rows, Step(reg, m, e).s.rows);
    SameSpends(m.s.rows, Step(reg, m, e).s.rows, now);
  }

  lemma PinSpends(reg: Registry, s: State, key: Key, days: int, now: int)
    requires WellFormed(reg, s) && AppliedInOrder(s.rows, now)
    ensures Spends(s.rows, FreezeKey(s, key, days, now).rows, now)
  {
    var s' := FreezeKey(s, key, days, now);
    var n := Newest(s.rows, OfKey(key));
    if n.Some? {
      FreezeKeeps(reg, s, n.value.id, days, now);
      TrailsSameQuota(s.rows, s'.rows);
      SameSpends(s.rows, s'.rows, now);
    } else {
      AppendSpends(s.rows, PinRow(s, key, days, now), s'.rows, now);
    }
  }

  lemma EventSpends(reg: Registry, m: Machine, e: Event, now: int)
    requires WellFormed(reg, m.s) && AppliedInOrder(m.s.rows, now) && TimeOf(Other(e)).GetOr(now) == now
    ensures Spends(m.s.rows, Step(reg, m, e).s.rows, now)
  {
    hide Spends, WellFormed, AppliedInOrder;
    match e {
      case Proposes(env, p, t) => ProposeSpends(reg, env, m.s, p, t);
      case OwnerWrites(env, key, v, name, t) => OwnerSpends(reg, env, m.s, key, v, name, t);
      case OwnerDeletes(env, key, v, name, t) => OwnerSpends(reg, env, m.s, key, v, name, t);
      case BatchWrites(env, key, v, name, t) =>
        SameSpends(m.s.rows, m.s.rows, now);
        OwnerSpends(reg, env, m.s, key, v, name, t);
      case BatchUndoes(env, key, t) =>
        SameSpends(m.s.rows, m.s.rows, now);
        if key in m.open { UndoSpends(reg, env, m.s, key, m.open[key].prior, m.open[key].name, t); }
      case BatchCommits => SameSpends(m.s.rows, m.s.rows, now);
      case FreezesKey(key, days, t) => PinSpends(reg, m.s, key, days, t);
      case _ => RelabelSpends(reg, m, e, now);
    }
  }

  lemma OccurrenceSpends(reg: Registry, m: Machine, o: Occurrence, now: int)
    requires WellFormed(reg, m.s) && AppliedInOrder(m.s.rows, now) && TimeOf(o).GetOr(now) == now
    ensures WellFormed(reg, Occurs(reg, m, o).s) && Spends(m.s.rows, Occurs(reg, m, o).s.rows, now)
  {
    SameSpends(m.s.rows, m.s.rows, now);
    hide Spends, WellFormed, AppliedInOrder, FirstEligible, Propose, Step;
    match o {
      case WeeklyRun(env, _, _, at, suggestions, _, _, _) =>
        var chosen := FirstEligible(Review(reg, env, m.s, o.comfort, o.tolerance, at), Sorted(Judgeable(suggestions)));
        if chosen.Some? {
          ProposeKeeps(reg, env, m.s, ProposalFor(chosen.value), at);
          ProposeSpends(reg, env, m.s, ProposalFor(chosen.value), at);
        }
      case Other(e) =>
        StepKeeps(reg, m, e);
        EventSpends(reg, m, e, now);
    }
  }

  /** Along a history with a clock that does not run backwards, rows are in order of time. */
  lemma {:induction false} HistoryInOrder(reg: Registry, settings: map<Key, Value>, os: seq<Occurrence>, now: int)
    requires Typed(reg, State(settings, [], 0)) && Chronological(os) && By(os, now)
    ensures WellFormed(reg, History(reg, Start(settings), os).s)
    ensures AppliedInOrder(History(reg, Start(settings), os).s.rows, now)
  {
    if |os| > 0 {
      var rest, o := os[..|os| - 1], os[|os| - 1];
      var at := TimeOf(o).GetOr(now);
      assert By(rest, at) by { if TimeOf(o).Some? { assert forall i :: 0 <= i < |rest| ==> rest[i] == os[i]; } }
      HistoryInOrder(reg, settings, rest, at);
      OccurrenceSpends(reg, History(reg, Start(settings), rest), o, at);
    }
  }

  /** One change a week. Over any history of weekly runs and ledger events, from any
      settings, at most one weekly run applies a change in a week; once it has, or once
      any other automated change was applied in the week, none does. */
  lemma {:induction false} OneChangeAWeekOnRuns(
    reg: Registry, settings: map<Key, Value>, os: seq<Occurrence>, from: int, to: int)
    requires Typed(reg, State(settings, [], 0)) && Chronological(os) && Calendar(os, from, to)
    ensures AppliedRuns(reg, Start(settings), os, from, to) <= 1
    ensures AppliedRuns(reg, Start(settings), os, from, to) == 1
            ==> ChangedInWeek(History(reg, Start(settings), os).s.rows, from, to)
  {
    if |os| > 0 {
      var rest, o := os[..|os| - 1], os[|os| - 1];
      var m := History(reg, Start(settings), rest);
      assert Calendar(rest, from, to) && o in os;
      OneChangeAWeekOnRuns(reg, settings, rest, from, to);
      assert exists now :: By(os, now) by { LatestTime(os); }
      var now :| By(os, now);
      var at := TimeOf(o).GetOr(now);
      assert By(rest, at) by { if TimeOf(o).Some? { assert forall i :: 0 <= i < |rest| ==> rest[i] == os[i]; } }
      HistoryInOrder(reg, settings, rest, at);
      OccurrenceSpends(reg, m, o, at);
      if AppliesIn(reg, m.s, o, from, to) { AppliedOnce(reg, m.s, o, from, to); }
    }
  }

  lemma AppliedOnce(reg: Registry, s: State, o: Occurrence, from: int, to: int)
    requires AppliesIn(reg, s, o, from, to) && o.from == from && o.to == to && AppliedInOrder(s.rows, o.at)
    ensures !ChangedInWeek(s.rows, from, to) && ChangedInWeek(RunOf(reg, s, o).0.rows, from, to)
  {
    OneChangeAWeek(Review(reg, o.env, s, o.comfort, o.tolerance, o.at), o.suggestions, o.ready, from, to);
  }

  lemma {:induction false} LatestTime(os: seq<Occurrence>)
    ensures exists now :: By(os, now)
  {
    if |os| == 0 {
      assert By(os, 0);
    } else {
      LatestTime(os[..|os| - 1]);
      var before :| By(os[..|os| - 1], before);
      var now := MaxI(before, TimeOf(os[|os| - 1]).GetOr(before));
      assert By(os, now) by {
        forall i | 0 <= i < |os| && TimeOf(os[i]).Some? ensures TimeOf(os[i]).value <= now {
          if i < |os| - 1 { assert os[..|os| - 1][i] == os[i]; }
        }
      }
    }
  }

  // ---------------------------------------------------------------- the schedule

  const WEEK_S: int := 7 * DAY_S

  /** apply_schedule(): (weekday, minute of the day) of the weekly run. */
  function ApplySlot(reviewDay: int, reviewHour: int, delay: int): (int, int) {
    var total := reviewHour * 60 + MaxI(0, delay);
    ((reviewDay + total / 1440) % 7, total % 1440)
  }

  /** The apply slot is the review slot plus the delay, carried over midnight and the
      end of the week. */
  lemma ApplySlotIsReviewPlusDelay(reviewDay: int, reviewHour: int, delay: int)
    requires 0 <= reviewDay < 7 && 0 <= reviewHour < 24 && delay >= 0
    ensures var (day, minute) := ApplySlot(reviewDay, reviewHour, delay);
            0 <= day < 7 && 0 <= minute < 1440
            && (day * 1440 + minute) % 10080 == (reviewDay * 1440 + reviewHour * 60 + delay) % 10080
  {
    var total := reviewHour * 60 + delay;
    var (day, minute) := ApplySlot(reviewDay, reviewHour, delay);
    var weeks := (reviewDay + total / 1440) / 7;
    assert reviewDay + total / 1440 == 7 * weeks + day;
    assert total == 1440 * (total / 1440) + minute;
    assert reviewDay * 1440 + total == 10080 * weeks + (day * 1440 + minute);
    ModShift(weeks, day * 1440 + minute);
  }

  lemma ModShift(weeks: int, rest: int)
    requires 0 <= rest < 10080
    ensures (10080 * weeks + rest) % 10080 == rest
  {}

  predicate IsApplyInstant(t: int, day: int, minute: int) {
    t % DAY_S == minute * 60 && (t / DAY_S) % 7 == day
  }

  /** next_apply_at on a fixed-offset clock, in seconds since a Monday midnight: the
      first apply instant after now, always within eight days, so the fall-through of
      the source cannot happen. */
  method NextApplyAt(now: int, day: int, minute: int) returns (at: int)
    requires 0 <= day < 7 && 0 <= minute < 1440
    ensures now < at <= now + WEEK_S && IsApplyInstant(at, day, minute)
    ensures forall t :: now < t < at ==> !IsApplyInstant(t, day, minute)
  {
    var today, add := now / DAY_S, 0;
    while add < 8
      invariant 0 <= add <= 8 && PassedUpTo(now, day, minute, today + add)
    {
      var cand := (today + add) * DAY_S + minute * 60;
      if (today + add) % 7 == day && cand > now {
        FirstInstant(now, day, minute, today + add);
        return cand;
      }
      add := add + 1;
    }
    SomeDayMatches(now, day, minute);
    assert false;
  }

  /** Every apply instant of the days from today up to `until` is in the past. */
  ghost predicate PassedUpTo(now: int, day: int, minute: int, until: int) {
    forall d :: now / DAY_S <= d < until && d % 7 == day ==> d * DAY_S + minute * 60 <= now
  }

  lemma FirstInstant(now: int, day: int, minute: int, d: int)
    requires 0 <= minute < 1440 && now / DAY_S <= d <= now / DAY_S + 7 && d % 7 == day
    requires PassedUpTo(now, day, minute, d) && d * DAY_S + minute * 60 > now
    ensures var at := d * DAY_S + minute * 60;
            IsApplyInstant(at, day, minute) && at <= now + WEEK_S
            && forall t :: now < t < at ==> !IsApplyInstant(t, day, minute)
  {
    var at := d * DAY_S + minute * 60;
    DayOf(at, d, minute * 60);
    assert at <= now + WEEK_S by { if d == now / DAY_S + 7 { assert (d - 7) % 7 == day; } }
    forall t | now < t < at ensures !IsApplyInstant(t, day, minute) { NoneBetween(now, day, minute, d, t); }
  }

  lemma NoneBetween(now: int, day: int, minute: int, d: int, t: int)
    requires 0 <= minute < 1440 && now < t < d * DAY_S + minute * 60 && PassedUpTo(now, day, minute, d)
    ensures !IsApplyInstant(t, day, minute)
  {
    var dt := t / DAY_S;
    assert now / DAY_S <= dt <= d;
    assert dt < d && dt % 7 == day ==> dt * DAY_S + minute * 60 <= now;
  }

  lemma DayOf(t: int, d: int, second: int)
    requires t == d * DAY_S + second && 0 <= second < DAY_S
    ensures t / DAY_S == d && t % DAY_S == second
  {}

  lemma SomeDayMatches(now: int, day: int, minute: int)
    requires 0 <= day < 7 && 0 <= minute
    ensures !PassedUpTo(now, day, minute, now / DAY_S + 8)
  {
    var today := now / DAY_S;
    var d := today + 1 + (day - today - 1) % 7;
    assert d % 7 == day;
    assert d * DAY_S + minute * 60 > now;
  }
}
