/** The judge's rules (src/auto_tune_judge.py): what a change loosens, and whether the
    replayed week says keep or roll back. */
module Judge {
  import opened Common
  import opened Ledger
  import opened AutoTune

  const VERDICT_DAYS: nat := 7
  const MIN_VERDICT_DAYS: nat := 4
  const MAX_DEFERRALS: nat := 3
  const LOOSE_QUANTILE := "p75"

  // ----------------------------------------------------------- classification

  datatype Class = ComfortLoosen | WarmSide | DhwLoosen | PlanPatternLoosen | LearnedClass | Tighten | NoClass

  function Classify(reg: Registry, key: Key, before: Option<Value>, after: Value): Class {
    if key in reg.planPattern then if after == Sym(LOOSE_QUANTILE) then PlanPatternLoosen else Tighten
    else if key in reg.learned then LearnedClass
    else if before.None? || !before.value.Num? || !after.Num? then NoClass
    else if key.CeilingC? && after.x > before.value.x then WarmSide
    else if key in reg.loosenDown then if after.x < before.value.x then ComfortLoosen else Tighten
    else if key in reg.loosenUp then if after.x > before.value.x then ComfortLoosen else Tighten
    else if key in reg.dhw then if after.x < before.value.x then DhwLoosen else Tighten
    else NoClass
  }

  /** The key classes of the source: five disjoint tables, the ceiling a comfort key. */
  ghost predicate ClassTables(reg: Registry) {
    reg.loosenDown !! reg.loosenUp !! reg.dhw !! reg.learned !! reg.planPattern && CeilingC in reg.loosenDown
  }

  /** The proposer and the judge agree: a comfort-feedback proposal gets the intent that
      is judged under the new, lower floors exactly when the judge arms a cold or shower
      tripwire for it; the two read the direction in separate code. */
  lemma IntentMatchesClass(reg: Registry, key: Key, before: Value, after: Value)
    requires ClassTables(reg) && key !in reg.learned && key !in reg.planPattern && before.Num? && after.Num?
    ensures DeriveIntent(reg, key, ComfortFeedback, before, after) == ComfortDown
            <==> Classify(reg, key, Some(before), after) in {ComfortLoosen, DhwLoosen}
  {
    assert key in reg.loosenDown ==> key !in reg.loosenUp && key !in reg.dhw;
    assert key in reg.loosenUp ==> key !in reg.dhw;
  }

  /** What a proposal is judged as when it does not say: learned parameters as learned,
      feedback on a number as comfort up or down, everything else as a saving. */
  lemma IntentBySource(reg: Registry, key: Key, source: Source, before: Value, after: Value)
    ensures var intent, numbers := DeriveIntent(reg, key, source, before, after), before.Num? && after.Num?;
            (intent == Learned <==> source == LearnedParam)
            && (intent in {ComfortUp, ComfortDown} <==> source == ComfortFeedback && numbers)
            && (intent == Saving <==> source != LearnedParam && !(source == ComfortFeedback && numbers))
  {}

  /** A loosening comfort or tank change undone is a tightening (for the ceiling, the warm
      side), a tightening or warm-side change undone is a loosening. */
  lemma UndoFlipsClass(reg: Registry, key: Key, before: Value, after: Value)
    requires ClassTables(reg) && before.Num? && after.Num? && before.x != after.x
    ensures var there := Classify(reg, key, Some(before), after);
            var back := Classify(reg, key, Some(after), before);
            (there in {ComfortLoosen, DhwLoosen} ==> back in {Tighten, WarmSide})
            && (there == WarmSide ==> back == ComfortLoosen)
            && (there == Tighten && key !in reg.planPattern ==> back in {ComfortLoosen, DhwLoosen})
  {}

  // --------------------------------------------------------------- the verdict

  datatype Arm = Arm(cost: real, hours: real, shower: real)

  datatype Cold = Cold(after: real, before: Option<real>)

  datatype PredErr = PredErr(before: Option<real>, after: Option<real>)

  /** A week of evidence: both arms, cold reports, prediction errors, days replayed,
      and the two configured allowances. */
  datatype Week = Week(
    oldArm: Arm, newArm: Arm, cold: Cold, predErr: PredErr, days: nat, expected: Option<real>, gain: real, tol: real)

  datatype Clause = CostClause | HoursClause | ShowerClause | ColdClause | PredErrClause

  function Scale(days: nat): (r: real)
    ensures 0.0 <= r <= 1.0 && (days >= VERDICT_DAYS <==> r == 1.0)
  {
    MaxR(0.0, MinR(1.0, days as real / VERDICT_DAYS as real))
  }

  /** The configured allowances for this many days. */
  function Gain(w: Week): real { w.gain * Scale(w.days) }
  function Tolerance(w: Week): real { w.tol * Scale(w.days) }

  /** The comfort hours a trade-off may cost. */
  function TradeOffHours(w: Week): real {
    MaxR(0.0, w.expected.GetOr(2.0 * Tolerance(w))) * Scale(w.days) + Tolerance(w)
  }

  function HalfHour(w: Week): real { 0.5 * Scale(w.days) }

  function WorstError(before: real): real { MaxR(before * 1.5, before + 0.2) }

  /** The allowance of each clause; None when the intent does not judge it. */
  function Allowance(w: Week, intent: Intent, c: Clause): Option<real> {
    match c
    case CostClause =>
      Some(match intent case TradeOff => -Gain(w) case ComfortUp => 2.0 * Gain(w) case ComfortDown => 0.000001
                        case _ => Gain(w))
    case HoursClause =>
      (match intent case TradeOff => Some(TradeOffHours(w)) case ComfortUp => Some(0.000001) case Learned => None
                    case _ => Some(HalfHour(w)))
    case ShowerClause => if intent.Learned? then None else Some(0.0)
    case ColdClause =>
      if intent.Learned? || w.cold.before.None? then None else Some(if intent.ComfortUp? then EPS else 1.0 + EPS)
    case PredErrClause =>
      if intent.Learned? && w.predErr.before.Some? && w.predErr.after.Some?
      then Some(WorstError(w.predErr.before.value)) else None
  }

  /** What the new value did, per clause. */
  function Observed(w: Week, c: Clause): real {
    match c
    case CostClause => w.newArm.cost - w.oldArm.cost
    case HoursClause => w.newArm.hours - w.oldArm.hours
    case ShowerClause => w.newArm.shower - w.oldArm.shower
    case ColdClause => w.cold.after - w.cold.before.GetOr(0.0)
    case PredErrClause => w.predErr.after.GetOr(0.0)
  }

  predicate Violated(w: Week, intent: Intent, c: Clause) {
    Allowance(w, intent, c).Some? && Observed(w, c) > Allowance(w, intent, c).value
  }

  /** decide(): the list of failed clauses is exactly the set of exceeded allowances. */
  method Decide(w: Week, intent: Intent) returns (keep: bool, fails: seq<Clause>)
    ensures forall c :: c in fails <==> Violated(w, intent, c)
    ensures keep <==> forall c :: !Violated(w, intent, c)
  {
    hide Scale, Gain, Tolerance, TradeOffHours, HalfHour, WorstError;
    var dShower := w.newArm.shower - w.oldArm.shower;
    fails := DecideCostAndHours(w, intent);
    if !intent.Learned? && dShower > 0.0 { fails := fails + [ShowerClause]; }
    if !intent.Learned? && ColdFails(w, if intent.ComfortUp? then 0.0 else 1.0) { fails := fails + [ColdClause]; }
    keep := fails == [];
    if !keep { assert fails[0] in fails; }
  }

  method DecideCostAndHours(w: Week, intent: Intent) returns (fails: seq<Clause>)
    ensures forall c :: c in fails <==> Violated(w, intent, c) && !c.ShowerClause? && !c.ColdClause?
  {
    hide Scale, Gain, Tolerance, TradeOffHours, HalfHour, WorstError;
    var dCost, dHours := w.newArm.cost - w.oldArm.cost, w.newArm.hours - w.oldArm.hours;
    var cost, hours, predErr := false, false, false;
    if intent.TradeOff? {
      cost, hours := dCost > -Gain(w), dHours > TradeOffHours(w);
    } else if intent.ComfortUp? {
      cost, hours := dCost > 2.0 * Gain(w), dHours > 0.000001;
    } else if intent.ComfortDown? {
      cost, hours := dCost > 0.000001, dHours > HalfHour(w);
    } else if intent.Learned? {
      var pe := w.predErr;
      cost := dCost > Gain(w);
      predErr := pe.before.Some? && pe.after.Some? && pe.after.value > WorstError(pe.before.value);
    } else {
      cost, hours := dCost > Gain(w), dHours > HalfHour(w);
    }
    assert cost == Violated(w, intent, CostClause) && hours == Violated(w, intent, HoursClause)
           && predErr == Violated(w, intent, PredErrClause);
    fails := (if cost then [CostClause] else []) + (if hours then [HoursClause] else []) + if predErr then [PredErrClause] else [];
  }

  predicate ColdFails(w: Week, band: real) {
    w.cold.before.Some? && w.cold.after - w.cold.before.value > band + EPS
  }

  ghost predicate Passes(w: Week, intent: Intent) { forall c :: !Violated(w, intent, c) }

  /** `better` differs from `w` only by doing at least as well on every measure. */
  ghost predicate NoWorse(better: Week, w: Week) {
    better == w.(newArm := better.newArm, cold := w.cold.(after := better.cold.after),
                 predErr := w.predErr.(after := better.predErr.after))
    && better.newArm.cost <= w.newArm.cost && better.newArm.hours <= w.newArm.hours
    && better.newArm.shower <= w.newArm.shower && better.cold.after <= w.cold.after
    && (better.predErr.after.Some? ==> w.predErr.after.Some? && better.predErr.after.value <= w.predErr.after.value)
  }

  /** Doing better on any measure never turns a keep into a rollback. */
  lemma BetterNeverRollsBack(w: Week, better: Week, intent: Intent)
    requires NoWorse(better, w) && Passes(w, intent)
    ensures Passes(better, intent)
  {
    forall c ensures !Violated(better, intent, c) { ClauseMonotone(w, better, intent, c); }
  }

  lemma ClauseMonotone(w: Week, better: Week, intent: Intent, c: Clause)
    requires NoWorse(better, w)
    ensures Violated(better, intent, c) ==> Violated(w, intent, c)
  {
    hide Scale, Gain, Tolerance, TradeOffHours, HalfHour, WorstError;
    SameAllowances(w, better);
  }

  lemma SameAllowances(w: Week, other: Week)
    requires other.days == w.days && other.gain == w.gain && other.tol == w.tol && other.expected == w.expected
    ensures Gain(w) == Gain(other) && TradeOffHours(w) == TradeOffHours(other) && HalfHour(w) == HalfHour(other)
  {
    hide Scale;
  }

  /** The same drift per day, over fewer days. */
  function Shortened(w: Week, days: nat): Week {
    var s := Scale(days);
    w.(days := days,
       newArm := Arm(w.oldArm.cost + s * (w.newArm.cost - w.oldArm.cost), w.oldArm.hours + s * (w.newArm.hours - w.oldArm.hours),
                     w.newArm.shower))
  }

  predicate ScaledClause(w: Week, intent: Intent, c: Clause) {
    match (c, intent)
    case (CostClause, ComfortDown) => false
    case (CostClause, _) => true
    case (HoursClause, TradeOff) => w.expected.Some?
    case (HoursClause, Learned) => false
    case (HoursClause, ComfortUp) => false
    case (HoursClause, _) => true
    case _ => false
  }

  /** A partial verdict is fair: a cost or comfort drift of the same size per day is
      judged the same over any 1..7 days as over the full week, for every clause that
      has a proportional allowance. */
  lemma BandsScale(w: Week, days: nat, intent: Intent, c: Clause)
    requires w.days == VERDICT_DAYS && 1 <= days <= VERDICT_DAYS && ScaledClause(w, intent, c)
    ensures Violated(Shortened(w, days), intent, c) <==> Violated(w, intent, c)
  {
    ObservedShrinks(w, days, c);
    AllowanceShrinks(w, days, intent, c);
    Proportional(Scale(days), Observed(w, c), Allowance(w, intent, c).value);
    hide Allowance, Observed, Shortened, Scale, Share;
  }

  lemma ObservedShrinks(w: Week, days: nat, c: Clause)
    requires c.CostClause? || c.HoursClause?
    ensures Observed(Shortened(w, days), c) == Share(Scale(days), Observed(w, c))
  {
    hide Scale;
  }

  lemma AllowanceShrinks(w: Week, days: nat, intent: Intent, c: Clause)
    requires w.days == VERDICT_DAYS && 1 <= days <= VERDICT_DAYS && ScaledClause(w, intent, c)
    ensures Scale(days) > 0.0 && Allowance(w, intent, c).Some?
    ensures Allowance(Shortened(w, days), intent, c) == Some(Share(Scale(days), Allowance(w, intent, c).value))
  {
    assert Scale(days) > 0.0;
    BandsShrink(w, Shortened(w, days), Scale(days));
    hide Scale, Gain, Tolerance, TradeOffHours, HalfHour, Share;
  }

  lemma BandsShrink(w: Week, part: Week, s: real)
    requires Scale(w.days) == 1.0 && Scale(part.days) == s && part == w.(days := part.days, newArm := part.newArm)
    ensures Gain(part) == Share(s, Gain(w)) && -Gain(part) == Share(s, -Gain(w)) && 2.0 * Gain(part) == Share(s, 2.0 * Gain(w))
    ensures HalfHour(part) == Share(s, HalfHour(w))
    ensures w.expected.Some? ==> TradeOffHours(part) == Share(s, TradeOffHours(w))
  {
    hide Scale;
    if w.expected.Some? {
      var e := MaxR(0.0, w.expected.value);
      assert TradeOffHours(part) == e * s + w.tol * s;
      assert TradeOffHours(w) == e * 1.0 + w.tol * 1.0;
    }
  }

  function Share(s: real, x: real): real { s * x }

  lemma Proportional(s: real, x: real, band: real)
    requires s > 0.0
    ensures Share(s, x) > Share(s, band) <==> x > band
  {
    assert s * x - s * band == s * (x - band);
    if x > band { assert s * (x - band) > 0.0; } else { assert s * (band - x) >= 0.0; }
  }

  /** The one allowance that does not scale with the days: a trade-off without an
      expected cost multiplies its default by the scale twice, so a partial week gets
      strictly less than its share of the full week's three tolerances. */
  lemma DefaultTradeOffBandShrinksTwice(w: Week, days: nat)
    requires w.days == VERDICT_DAYS && 1 <= days <= VERDICT_DAYS && w.expected.None? && w.tol > 0.0
    ensures var s, full := Scale(days), Allowance(w, TradeOff, HoursClause).value;
            full == 3.0 * w.tol
            && (Allowance(w.(days := days), TradeOff, HoursClause).value == s * full <==> days == VERDICT_DAYS)
            && Allowance(w.(days := days), TradeOff, HoursClause).value <= s * full
  {
    var s := Scale(days);
    var band := Allowance(w.(days := days), TradeOff, HoursClause).value;
    assert w.tol * s > 0.0;
    assert band == (2.0 * (w.tol * s)) * s + w.tol * s;
    assert s * (3.0 * w.tol) - band == (2.0 * (w.tol * s)) * (1.0 - s);
    if days < VERDICT_DAYS { assert (2.0 * (w.tol * s)) * (1.0 - s) > 0.0; }
  }

  // ------------------------------------------------- what each intent promises

  /** No dearer than `extra` pence more over the week. */
  predicate CostsAtMost(w: Week, extra: real) { w.newArm.cost <= w.oldArm.cost + extra }

  /** At most `extra` more hours below the comfort floor. */
  predicate HoursAtMost(w: Week, extra: real) { w.newArm.hours <= w.oldArm.hours + extra }

  /** No shower day lost, and at most `more` cold reports more than before. */
  predicate StillComfortable(w: Week, more: real) {
    w.newArm.shower <= w.oldArm.shower
    && (w.cold.before.Some? ==> w.cold.after <= w.cold.before.value + more + 0.000000001)
  }

  /** The prediction error grew by at most half, or by 0.2 degrees. */
  predicate PredictsAsWell(w: Week) {
    w.predErr.before.Some? && w.predErr.after.Some? ==>
      w.predErr.after.value <= w.predErr.before.value * 1.5 || w.predErr.after.value <= w.predErr.before.value + 0.2
  }

  /** Hours a trade-off expects to cost: what it said, never less than none, or else two
      tolerances. */
  function ExpectedHours(w: Week): real {
    match w.expected
    case Some(h) => if h > 0.0 then h else 0.0
    case None => 2.0 * w.tol
  }

  predicate GoodWeek(w: Week, intent: Intent) {
    match intent
    case TradeOff => CostsAtMost(w, -w.gain) && HoursAtMost(w, ExpectedHours(w) + w.tol) && StillComfortable(w, 1.0)
    case ComfortUp => CostsAtMost(w, 2.0 * w.gain) && HoursAtMost(w, 0.000001) && StillComfortable(w, 0.0)
    case ComfortDown => CostsAtMost(w, 0.000001) && HoursAtMost(w, 0.5) && StillComfortable(w, 1.0)
    case Learned => CostsAtMost(w, w.gain) && PredictsAsWell(w)
    case _ => CostsAtMost(w, w.gain) && HoursAtMost(w, 0.5) && StillComfortable(w, 1.0)
  }

  /** Over a full week no clause is violated exactly when the change did what its intent
      promises: a trade-off saves the minimum gain for at most the comfort it said it
      would cost, a warmer house may cost twice the gain but no comfort, a cooler one may
      cost comfort but no money, a learned value must predict as well. */
  lemma FullWeekRules(w: Week, intent: Intent)
    requires w.days >= 7 && w.tol >= 0.0
    ensures Passes(w, intent) <==> GoodWeek(w, intent)
  {
    assert Scale(w.days) == 1.0;
    FullBands(w);
    hide Scale, Gain, Tolerance, TradeOffHours, HalfHour;
    EachClause(w, intent);
  }

  lemma FullBands(w: Week)
    requires Scale(w.days) == 1.0 && w.tol >= 0.0
    ensures Gain(w) == w.gain && HalfHour(w) == 0.5 && TradeOffHours(w) == ExpectedHours(w) + w.tol
  {
    hide Scale;
  }

  lemma EachClause(w: Week, intent: Intent)
    ensures Passes(w, intent) <==>
              !Violated(w, intent, CostClause) && !Violated(w, intent, HoursClause) && !Violated(w, intent, ShowerClause)
              && !Violated(w, intent, ColdClause) && !Violated(w, intent, PredErrClause)
  {
    hide Violated;
    if !Passes(w, intent) {
      var c :| Violated(w, intent, c);
      assert c.CostClause? || c.HoursClause? || c.ShowerClause? || c.ColdClause? || c.PredErrClause?;
    }
  }
}
