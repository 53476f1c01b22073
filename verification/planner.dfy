/** The planning flow of the page: effective bottom time, table lookup,
    consumption, air budget and verdict, each step run only when the
    previous one succeeded. */
module Planner {
  import opened Wrappers
  import opened Decompression
  import opened Stops
  import opened Consumption
  import opened AirBudget

  /** The diver's settings, all whole numbers as the page collects them. */
  datatype DiveInputs = DiveInputs(
    profondeur: int,        // maximum depth, m
    duree: int,             // bottom time before the ascent, min
    majoration: int,        // time penalty of a repetitive dive, min
    vitesseRemontee: int,   // ascent speed, m/min
    sac: int,               // surface consumption, L/min
    capaciteBloc: int,      // tank capacity, L
    pressionGonflage: int,  // fill pressure, bar
    reserveSecurite: int)   // safety reserve, bar

  /** The ranges and steps of the page's settings. */
  predicate WithinSliders(i: DiveInputs) {
    && 5 <= i.profondeur <= 60
    && 1 <= i.duree <= 60
    && 0 <= i.majoration <= 196
    && 5 <= i.vitesseRemontee <= 20
    && 10 <= i.sac <= 30
    && 10 <= i.capaciteBloc <= 20
    && 150 <= i.pressionGonflage <= 300 && i.pressionGonflage % 10 == 0
    && 30 <= i.reserveSecurite <= 80 && i.reserveSecurite % 5 == 0
  }

  /** The bottom time the tables are read with: the planned time plus the
      repetitive-dive penalty. */
  function EffectiveDuration(i: DiveInputs): (d: int)
    ensures i.majoration >= 0 ==> d >= i.duree
    ensures d == i.duree <==> i.majoration == 0
  {
    i.duree + i.majoration
  }

  /** Everything a successful planning shows. */
  datatype Plan = Plan(schedule: Schedule, figures: Figures, budget: Budget, verdict: Verdict)

  /** How far the planning got. */
  datatype Outcome =
    | TablesMissing
    | NotCovered
    | ConsumptionFailed(error: ConsumptionError)
    | BudgetFailed(reason: AirError)
    | Planned(plan: Plan)

  /** One planning request against the loaded table. */
  function PlanDive(i: DiveInputs, t: Table): (o: Outcome)
    ensures o.TablesMissing? <==> |t| == 0
    ensures o.NotCovered? <==> |t| > 0 && !Covered(t, i.profondeur, EffectiveDuration(i))
    ensures o.ConsumptionFailed? <==>
      && |t| > 0 && Covered(t, i.profondeur, EffectiveDuration(i))
      && (!ValidParameters(i.profondeur as real, EffectiveDuration(i) as real, i.sac as real)
          || i.vitesseRemontee == 0)
    ensures o.BudgetFailed? <==>
      && |t| > 0 && Covered(t, i.profondeur, EffectiveDuration(i))
      && ValidParameters(i.profondeur as real, EffectiveDuration(i) as real, i.sac as real)
      && i.vitesseRemontee != 0 && i.capaciteBloc == 0
    ensures o.Planned? ==>
      && (exists k :: IsFirstMatch(t, k, i.profondeur, EffectiveDuration(i))
                      && o.plan.schedule == StopsOf(t[k]))
      && Compute(i.profondeur as real, EffectiveDuration(i) as real, i.sac as real,
                 i.vitesseRemontee as real, Items(o.plan.schedule)) == Success(o.plan.figures)
      && Remaining(i.capaciteBloc as real, i.pressionGonflage as real,
                   i.reserveSecurite as real, o.plan.figures.volumeTotal) == Success(o.plan.budget)
      && o.plan.verdict == Classify(o.plan.budget.barsRestantsReal, i.reserveSecurite as real)
      && o.plan.budget.airResteLitres + o.plan.figures.volumeTotal
         == i.capaciteBloc as real * i.pressionGonflage as real
      && (o.plan.verdict == Realisable <==> o.plan.budget.suffisant)
  {
    var duration := EffectiveDuration(i);
    if |t| == 0 then TablesMissing
    else
      var schedule := Lookup(i.profondeur, duration, t);
      if schedule.error then NotCovered
      else
        match Compute(i.profondeur as real, duration as real, i.sac as real,
                      i.vitesseRemontee as real, Items(schedule))
        case Failure(e) => ConsumptionFailed(e)
        case Success(figures) =>
          match Remaining(i.capaciteBloc as real, i.pressionGonflage as real,
                          i.reserveSecurite as real, figures.volumeTotal)
          case Failure(e) => BudgetFailed(e)
          case Success(budget) =>
            Planned(Plan(schedule, figures, budget,
                         Classify(budget.barsRestantsReal, i.reserveSecurite as real)))
  }

  /** Settings the page allows never fail the arithmetic: once the table
      covers the dive, a plan is produced, and its verdict partitions the
      pressure left at zero and at the reserve. */
  lemma SliderSettingsArePlanned(i: DiveInputs, t: Table)
    requires WithinSliders(i)
    requires Covered(t, i.profondeur, i.duree + i.majoration)
    ensures var o := PlanDive(i, t);
      && o.Planned?
      && var r := o.plan.budget.barsRestantsReal;
         && (o.plan.verdict == Realisable <==> r >= i.reserveSecurite as real)
         && (o.plan.verdict == ReserveInsuffisante <==> 0.0 < r < i.reserveSecurite as real)
         && (o.plan.verdict == Impossible <==> r <= 0.0)
  {
    SlidersReachPlan(i, t);
    PlanVerdict(PlanDive(i, t).plan, i.reserveSecurite as real);
  }

  /** The verdict of a plan classified against a positive reserve. */
  lemma PlanVerdict(p: Plan, reserve: real)
    requires reserve > 0.0
    requires p.verdict == Classify(p.budget.barsRestantsReal, reserve)
    ensures var r := p.budget.barsRestantsReal;
      && (p.verdict == Realisable <==> r >= reserve)
      && (p.verdict == ReserveInsuffisante <==> 0.0 < r < reserve)
      && (p.verdict == Impossible <==> r <= 0.0)
  {
    VerdictPartition(p.budget.barsRestantsReal, reserve);
  }

  /** The first half of SliderSettingsArePlanned: no step fails. */
  lemma SlidersReachPlan(i: DiveInputs, t: Table)
    requires WithinSliders(i)
    requires Covered(t, i.profondeur, i.duree + i.majoration)
    ensures PlanDive(i, t).Planned?
  {
  }

  /** The penalty only matters through the effective bottom time: planning
      with a penalty is planning the lengthened dive without one. */
  lemma PenaltyLengthensBottomTime(i: DiveInputs, t: Table)
    ensures PlanDive(i, t) == PlanDive(i.(duree := i.duree + i.majoration, majoration := 0), t)
  {
  }

  /** The page's default settings (20 m, 30 min, no penalty, 10 m/min,
      20 L/min, 15 L at 200 bar, 50 bar reserve) against a table whose first
      row for that dive prescribes no stop: 1880 L used, 2 minutes of
      ascent, 32 minutes of dive, 224/3 bar left, feasible. */
  lemma DefaultSettings(t: Table, k: int)
    requires IsFirstMatch(t, k, 20, 30)
    requires StopsOf(t[k]) == Schedule(0, 0, 0, 0, 0, false)
    ensures var o := PlanDive(DiveInputs(20, 30, 0, 10, 20, 15, 200, 50), t);
      && o.Planned?
      && o.plan.figures.volumeTotal == 1880.0
      && o.plan.figures.dtr == 2.0
      && o.plan.figures.tempsTotal == 32.0
      && o.plan.budget.barsRestantsReal == 224.0 / 3.0
      && o.plan.verdict == Realisable
  {
    LookupFirstMatch(t, k, 20, 30);
    NoStopDive();
    FifteenLitreTank();
  }
}
