/** The air budget: how much gas the tank holds, what is left after the
    dive, in litres and in bar, and the three-way verdict on the plan. */
module AirBudget {
  import opened Wrappers

  /** The only failure of the budget: a tank of zero capacity, whose
      pressure division fails. */
  datatype AirError = ZeroTankCapacity

  /** The figures of the budget. */
  datatype Budget = Budget(
    airDispoTotal: real,     // gas in the full tank, surface litres
    airResteLitres: real,    // gas left after the dive, litres
    barsRestants: real,      // pressure left, never shown below zero, bar
    barsRestantsReal: real,  // pressure left, possibly negative, bar
    suffisant: bool,         // the pressure left reaches the reserve
    margeOuDeficit: real)    // pressure left above (or below) the reserve, bar

  /** The budget of a tank of `capacity` litres filled to `pressure` bar,
      against a safety reserve of `reserve` bar, for a dive that uses
      `volume` surface litres. */
  function Remaining(capacity: real, pressure: real, reserve: real, volume: real)
    : (r: Result<Budget, AirError>)
    ensures r.Failure? <==> capacity == 0.0
    ensures r.Success? ==>
      var b := r.value;
      && b.airDispoTotal == capacity * pressure
      && b.airResteLitres + volume == b.airDispoTotal
      && b.barsRestantsReal * capacity == b.airResteLitres
      && b.barsRestants >= 0.0
      && (b.barsRestantsReal >= 0.0 ==> b.barsRestants == b.barsRestantsReal)
      && (b.barsRestantsReal <= 0.0 ==> b.barsRestants == 0.0)
      && (b.suffisant <==> b.barsRestantsReal >= reserve)
      && b.margeOuDeficit + reserve == b.barsRestantsReal
  {
    if capacity == 0.0 then Failure(ZeroTankCapacity)
    else
      var dispo := capacity * pressure;
      var reste := dispo - volume;
      var bars := reste / capacity;
      var display := if bars > 0.0 then bars else 0.0;
      Success(Budget(dispo, reste, display, bars, bars >= reserve, bars - reserve))
  }

  /** Using more gas never leaves more pressure in the tank. */
  lemma MoreGasLessPressure(capacity: real, pressure: real, reserve: real, v1: real, v2: real)
    requires capacity > 0.0 && v1 <= v2
    ensures Remaining(capacity, pressure, reserve, v2).value.barsRestantsReal
         <= Remaining(capacity, pressure, reserve, v1).value.barsRestantsReal
  {
  }

  /** The outcome shown to the diver. */
  datatype Verdict = Realisable | ReserveInsuffisante | Impossible

  /** The three-way classification of the pressure left, decided in the
      page's order: reserve reached, then pressure still positive. */
  function Classify(remaining: real, reserve: real): (v: Verdict)
    ensures v == Realisable <==> remaining >= reserve
    ensures v == ReserveInsuffisante <==> remaining < reserve && remaining > 0.0
    ensures v == Impossible <==> remaining < reserve && remaining <= 0.0
  {
    if remaining >= reserve then Realisable
    else if remaining > 0.0 then ReserveInsuffisante
    else Impossible
  }

  /** With a positive reserve the verdict partitions the pressure line at 0
      and at the reserve: exactly one of the three holds. */
  lemma VerdictPartition(remaining: real, reserve: real)
    requires reserve > 0.0
    ensures Classify(remaining, reserve) == Realisable <==> remaining >= reserve
    ensures Classify(remaining, reserve) == ReserveInsuffisante <==> 0.0 < remaining < reserve
    ensures Classify(remaining, reserve) == Impossible <==> remaining <= 0.0
  {
  }

  /** The plan is shown as feasible exactly when the budget says the air
      is sufficient. */
  lemma RealisableIffSuffisant(capacity: real, pressure: real, reserve: real, volume: real)
    requires capacity != 0.0
    ensures var b := Remaining(capacity, pressure, reserve, volume).value;
            Classify(b.barsRestantsReal, reserve) == Realisable <==> b.suffisant
  {
  }

  /** Severity of a verdict: the higher, the safer. */
  function Rank(v: Verdict): nat {
    match v
    case Impossible => 0
    case ReserveInsuffisante => 1
    case Realisable => 2
  }

  /** More pressure left never gives a worse verdict. */
  lemma VerdictMonotone(r1: real, r2: real, reserve: real)
    requires r1 <= r2
    ensures Rank(Classify(r1, reserve)) <= Rank(Classify(r2, reserve))
  {
  }

  /** A 15 L tank at 200 bar holds 3000 L; after a 1880 L dive 1120 L are
      left, 224/3 (about 74.67) bar, which clears a 50 bar reserve by 74/3. */
  lemma FifteenLitreTank()
    ensures Remaining(15.0, 200.0, 50.0, 1880.0)
         == Success(Budget(3000.0, 1120.0, 224.0 / 3.0, 224.0 / 3.0, true, 74.0 / 3.0))
    ensures Classify(224.0 / 3.0, 50.0) == Realisable
  {
  }
}
