/** The gas-consumption calculation: absolute pressures, consumption rates,
    the gas used at the bottom, during the free ascent and on the stops, the
    ascent and total dive times. All volumes are surface-equivalent litres. */
module Consumption {
  import opened Wrappers
  import opened Stops

  /** Why the calculation returned no figures: a non-positive depth,
      duration or consumption rate is rejected up front; a zero ascent speed
      fails the ascent-time division. */
  datatype ConsumptionError = InvalidParameters | ArithmeticFailure

  /** The figures of one calculation. */
  datatype Figures = Figures(
    pressureMax: real,     // absolute pressure at the maximum depth, bar
    consoMax: real,        // consumption rate at the maximum depth, L/min
    consoMiProf: real,     // consumption rate at half the depth (ascent), L/min
    dureePaliers: int,     // total stop time, min
    volumePaliers: real,   // gas used on the stops
    volumePlongee: real,   // gas used at the bottom
    dureeRemontee: real,   // free-ascent time, min
    volumeRemontee: real,  // gas used during the free ascent
    volumeTotal: real,     // gas used by the whole dive
    dtr: real,             // total ascent time (free ascent plus stops), min
    tempsTotal: real,      // total dive time, min
    details: seq<PalierDetail>)

  /** The inputs the calculation accepts. */
  predicate ValidParameters(depth: real, duration: real, sac: real) {
    depth > 0.0 && duration > 0.0 && sac > 0.0
  }

  /** The figures of a calculation whose inputs passed validation, given
      what the stop loop accumulated. */
  function FiguresOf(depth: real, duration: real, sac: real, ascentSpeed: real,
                     stops: StopTotals): (f: Figures)
    requires ascentSpeed != 0.0
    ensures f.pressureMax * 10.0 == depth + 10.0
    ensures f.volumeTotal == f.volumePlongee + f.volumeRemontee + f.volumePaliers
    ensures f.dtr == f.dureeRemontee + f.dureePaliers as real
    ensures f.tempsTotal == duration + f.dtr
    ensures f.dureePaliers == stops.minutes
    ensures f.volumePaliers == stops.volume
    ensures f.details == stops.details
  {
    var pressureMax := Pressure(depth);
    var consoMax := sac * pressureMax;
    var consoMiProf := sac * (depth / 20.0 + 1.0);
    var volumePlongee := duration * consoMax;
    var dureeRemontee := depth / ascentSpeed;
    var volumeRemontee := dureeRemontee * consoMiProf;
    var dtr := dureeRemontee + stops.minutes as real;
    var tempsTotal := duration + dtr;
    var volumeTotal := stops.volume + volumePlongee + volumeRemontee;
    Figures(pressureMax, consoMax, consoMiProf, stops.minutes, stops.volume,
            volumePlongee, dureeRemontee, volumeRemontee, volumeTotal, dtr,
            tempsTotal, stops.details)
  }

  /** The consumption calculation for a dive to `depth` metres lasting
      `duration` minutes before the ascent, for a diver breathing `sac`
      litres per minute at the surface and rising at `ascentSpeed` metres per
      minute, with the stops listed in `entries`: rejected inputs and a zero
      ascent speed give an error, anything else gives the figures. */
  function Compute(depth: real, duration: real, sac: real, ascentSpeed: real,
                   entries: seq<Entry>): (r: Result<Figures, ConsumptionError>)
    ensures r.Failure? <==> !ValidParameters(depth, duration, sac) || ascentSpeed == 0.0
    ensures r.Failure? ==> (r.error == InvalidParameters <==> !ValidParameters(depth, duration, sac))
    ensures r.Success? ==> r.value == FiguresOf(depth, duration, sac, ascentSpeed, Totals(sac, entries))
  {
    if depth <= 0.0 || duration <= 0.0 || sac <= 0.0 then Failure(InvalidParameters)
    else if ascentSpeed == 0.0 then Failure(ArithmeticFailure)
    else Success(FiguresOf(depth, duration, sac, ascentSpeed, Totals(sac, entries)))
  }

  /** The rates and phase volumes: the bottom rate is the surface rate times
      the absolute pressure at depth, the ascent rate is the surface rate at
      half the depth, the free ascent covers the depth at the ascent speed,
      and each phase volume is its rate times its duration. */
  lemma RatesAndPhaseVolumes(depth: real, duration: real, sac: real, ascentSpeed: real,
                             stops: StopTotals)
    requires ascentSpeed != 0.0
    ensures var f := FiguresOf(depth, duration, sac, ascentSpeed, stops);
      && f.consoMax == sac * f.pressureMax
      && f.consoMiProf * 20.0 == sac * (depth + 20.0)
      && f.dureeRemontee * ascentSpeed == depth
      && f.volumePlongee == duration * f.consoMax
      && f.volumeRemontee == f.dureeRemontee * f.consoMiProf
  {
    var f := FiguresOf(depth, duration, sac, ascentSpeed, stops);
    assert f.dureeRemontee == depth / ascentSpeed;
  }

  /** The per-stop report has one line per contributing stop, in input
      order, carrying that stop's depth and time. */
  lemma ReportFollowsStops(depth: real, duration: real, sac: real, ascentSpeed: real,
                           entries: seq<Entry>)
    requires ValidParameters(depth, duration, sac) && ascentSpeed != 0.0
    ensures var f := Compute(depth, duration, sac, ascentSpeed, entries).value;
      && |f.details| == |Contributing(entries)|
      && forall k :: 0 <= k < |f.details| ==>
           f.details[k].profondeur == Contributing(entries)[k].depth
           && f.details[k].duree == Contributing(entries)[k].minutes
           && f.details[k].duree > 0
  {
  }

  /** Stops at non-negative depths: every stop the table prescribes. */
  predicate StopsAtOrBelowSurface(entries: seq<Entry>) {
    forall k :: 0 <= k < |entries| && entries[k].Stop? ==> entries[k].depth >= 0
  }

  /** With a positive ascent speed, the total ascent time covers the free
      ascent plus the stops, the gas used exceeds what the bottom phase
      alone uses, and the dive lasts longer than its bottom phase. */
  lemma DiveOutlastsBottomPhase(depth: real, duration: real, sac: real, ascentSpeed: real,
                                entries: seq<Entry>)
    requires ValidParameters(depth, duration, sac) && ascentSpeed > 0.0
    requires StopsAtOrBelowSurface(entries)
    ensures var f := Compute(depth, duration, sac, ascentSpeed, entries).value;
      && f.dtr >= f.dureeRemontee > 0.0
      && f.tempsTotal > duration
      && f.volumeTotal > f.volumePlongee > 0.0
      && f.volumePaliers >= 0.0
  {
    StopVolumeSign(sac, entries);
    var f := Compute(depth, duration, sac, ascentSpeed, entries).value;
    assert f.dureeRemontee > 0.0;
    assert f.consoMiProf > 0.0;
    assert f.volumeRemontee > 0.0;
    assert f.consoMax > 0.0;
  }

  /** Staying longer at the bottom never uses less gas nor shortens the dive. */
  lemma LongerBottomTimeCostsMore(depth: real, d1: real, d2: real, sac: real, ascentSpeed: real,
                                  entries: seq<Entry>)
    requires ValidParameters(depth, d1, sac) && d1 <= d2 && ascentSpeed != 0.0
    ensures var f1 := Compute(depth, d1, sac, ascentSpeed, entries).value;
            var f2 := Compute(depth, d2, sac, ascentSpeed, entries).value;
            f1.volumeTotal <= f2.volumeTotal && f1.tempsTotal <= f2.tempsTotal
  {
    var f1 := Compute(depth, d1, sac, ascentSpeed, entries).value;
    var f2 := Compute(depth, d2, sac, ascentSpeed, entries).value;
    assert f1.consoMax == f2.consoMax > 0.0;
    assert f1.volumePlongee <= f2.volumePlongee;
  }

  /** `g` is `f` at `k` times the consumption rate: every gas volume is
      multiplied by `k`, the times are unchanged. */
  predicate ScaledFigures(f: Figures, g: Figures, k: real) {
    && g.volumeTotal == k * f.volumeTotal
    && g.volumePlongee == k * f.volumePlongee
    && g.volumeRemontee == k * f.volumeRemontee
    && g.volumePaliers == k * f.volumePaliers
    && g.tempsTotal == f.tempsTotal && g.dtr == f.dtr
  }

  /** Every gas volume is proportional to the surface consumption rate;
      the times do not depend on it. */
  lemma VolumesScaleWithSac(depth: real, duration: real, sac: real, k: real, ascentSpeed: real,
                            entries: seq<Entry>)
    requires ValidParameters(depth, duration, sac) && k > 0.0 && ascentSpeed != 0.0
    ensures ScaledFigures(Compute(depth, duration, sac, ascentSpeed, entries).value,
                          Compute(depth, duration, k * sac, ascentSpeed, entries).value, k)
  {
    PositiveProduct(k, sac);
    ComputeIsFigures(depth, duration, sac, ascentSpeed, entries);
    ComputeIsFigures(depth, duration, k * sac, ascentSpeed, entries);
    TotalsScale(k, sac, entries);
    FiguresScale(depth, duration, sac, k, ascentSpeed, Totals(sac, entries), Totals(k * sac, entries),
                 Compute(depth, duration, sac, ascentSpeed, entries).value,
                 Compute(depth, duration, k * sac, ascentSpeed, entries).value);
  }

  /** A calculation whose inputs pass validation returns the figures of
      what the stop loop accumulates. */
  lemma ComputeIsFigures(depth: real, duration: real, sac: real, ascentSpeed: real,
                         entries: seq<Entry>)
    requires ValidParameters(depth, duration, sac) && ascentSpeed != 0.0
    ensures Compute(depth, duration, sac, ascentSpeed, entries)
         == Success(FiguresOf(depth, duration, sac, ascentSpeed, Totals(sac, entries)))
  {
  }

  /** The step of VolumesScaleWithSac that concerns the figures alone:
      `f` and `g` are the figures at the rates `sac` and `k * sac`. */
  lemma FiguresScale(depth: real, duration: real, sac: real, k: real, ascentSpeed: real,
                     s: StopTotals, t: StopTotals, f: Figures, g: Figures)
    requires ascentSpeed != 0.0
    requires t.volume == k * s.volume && t.minutes == s.minutes
    requires f == FiguresOf(depth, duration, sac, ascentSpeed, s)
    requires g == FiguresOf(depth, duration, k * sac, ascentSpeed, t)
    ensures ScaledFigures(f, g, k)
  {
    PhaseVolumesScale(depth, duration, sac, k, ascentSpeed, s, t, f, g);
    Distribute(k, s.volume, f.volumePlongee, f.volumeRemontee);
  }

  /** The bottom and free-ascent volumes of FiguresScale. */
  lemma PhaseVolumesScale(depth: real, duration: real, sac: real, k: real, ascentSpeed: real,
                          s: StopTotals, t: StopTotals, f: Figures, g: Figures)
    requires ascentSpeed != 0.0
    requires f == FiguresOf(depth, duration, sac, ascentSpeed, s)
    requires g == FiguresOf(depth, duration, k * sac, ascentSpeed, t)
    ensures g.volumePlongee == k * f.volumePlongee
    ensures g.volumeRemontee == k * f.volumeRemontee
  {
    ScaleInside(duration, k, sac, Pressure(depth));
    ScaleInside(depth / ascentSpeed, k, sac, depth / 20.0 + 1.0);
  }

  lemma ScaleInside(a: real, k: real, b: real, c: real)
    ensures a * ((k * b) * c) == k * (a * (b * c))
  {
  }

  lemma Distribute(k: real, x: real, y: real, z: real)
    ensures k * x + k * y + k * z == k * (x + y + z)
  {
  }

  /** The items that do not contribute (zero stops, the error flag) have no
      effect: the calculation over the contributing items alone is identical. */
  lemma OnlyContributingStopsMatter(depth: real, duration: real, sac: real, ascentSpeed: real,
                                    entries: seq<Entry>)
    ensures Compute(depth, duration, sac, ascentSpeed, Contributing(entries))
         == Compute(depth, duration, sac, ascentSpeed, entries)
  {
    OnlyContributingCount(sac, entries);
    assert Totals(sac, Contributing(entries)) == Totals(sac, entries);
  }

  /** A 20 m dive of 30 minutes at 20 L/min, rising at 10 m/min with no stop:
      3 bar at depth, 60 L/min at the bottom, 40 L/min on the ascent, 1800 L
      at the bottom plus 80 L ascending, 1880 L in all; 2 minutes of ascent
      and 32 minutes of dive. */
  lemma NoStopDive()
    ensures var items := [Stop(15, 0), Stop(12, 0), Stop(9, 0), Stop(6, 0), Stop(3, 0),
                          ErrorFlag(false)];
            Compute(20.0, 30.0, 20.0, 10.0, items)
            == Success(Figures(3.0, 60.0, 40.0, 0, 0.0, 1800.0, 2.0, 80.0, 1880.0, 2.0, 32.0, []))
  {
    var items := [Stop(15, 0), Stop(12, 0), Stop(9, 0), Stop(6, 0), Stop(3, 0), ErrorFlag(false)];
    NothingContributes(20.0, items);
    assert StopMinutes(items) == 0;
  }
}
