# MN90 dive planner — calculation core in Dafny

A model of the calculation core of a single-page MN90 dive planner
(`planner.py`). A diver sets depth, bottom time, a repetitive-dive time
penalty (majoration), ascent speed, surface air consumption (SAC), tank
capacity, fill pressure and safety reserve. The planner then:

1. reads the bottom time as *effective duration* = bottom time + majoration;
2. looks the dive up in the MN90 decompression table: the first row, in
   table order, whose depth interval `(P1, P2]` and duration interval
   `(D1, D2]` both contain the dive; its 15/12/9/6/3 m stop cells give the
   stop times, an empty cell meaning 0; an empty table or an uncovered dive
   gives all-zero stops with the error flag;
3. computes gas consumption in surface litres: absolute pressure at depth,
   bottom and mid-depth rates, the gas of each stop with a positive time,
   the free-ascent time, DTR (total ascent time), total dive time and total
   volume;
4. computes the air budget: litres available, litres and bar left, a
   display value clamped at 0, whether the reserve is met and the margin;
5. classifies the plan as *réalisable*, *réserve insuffisante* or
   *impossible*.

Modules (one per stage):

- `wrappers.dfy` — `Option` (an empty table cell) and `Result`.
- `decompression.dfy` — table rows, the interval test, the first-match
  reference `FirstMatch`, the row filter `MatchingRows` and `Lookup`.
- `stops.dfy` — the lookup result as the consumption loop iterates it
  (`Items`: the five stops in order 15, 12, 9, 6, 3 m, then the error flag),
  the sums over contributing stops, the per-stop report, and the loop itself
  (`AccumulateStops`).
- `consumption.dfy` — `Compute` (validation, then `FiguresOf`).
- `air.dfy` — `Remaining` and the verdict `Classify`.
- `planner.dfy` — `PlanDive`, the page's sequence of steps, each run only
  when the previous one succeeded.

All arithmetic is exact over `real`. Depths and durations reach the lookup
as integers, as the page's settings produce them.

## Model

| member | source | states |
|---|---|---|
| Decompression.Matches | planner.py:138-143 | a row contains a dive only when both its intervals are non-empty; a dive at a row's lower depth or duration bound is never contained; one at both upper bounds is contained exactly when the intervals are non-empty |
| Decompression.FirstMatch | planner.py:139-151 | the chosen index exists iff some row contains the dive, and it is the first such row in table order |
| Decompression.MatchingRows | planner.py:138-145 | the masked rows all contain the dive, every containing row is kept, the mask is empty iff no row contains the dive, and its head is the first matching row |
| Decompression.StopsOf | planner.py:153-160 | each of the five stop times is the row's cell when present and 0 when the cell is empty; the error flag is clear |
| Decompression.Lookup | planner.py:132-160 | error iff the table is empty or no row contains the dive, and then all stops are 0; otherwise the stops are those of the first matching row |
| Decompression.LookupFirstMatch | planner.py:145-160 | for any row that is the first match, the lookup returns exactly that row's stops |
| Decompression.TooDeepNoMatch | planner.py:139-149 | a depth beyond every row's upper depth bound yields the all-zero error schedule |
| Decompression.BoundaryBelongsToUpperRow | planner.py:139-142 | a depth or duration equal to a row's upper bound lies in that row; one equal to its lower bound never does |
| Decompression.PickedRowLowerBoundsStrict | planner.py:139-151 | the row the lookup reports never has a lower bound equal to the dive's depth or duration |
| Decompression.LookupInWellFormedTable | planner.py:139-151 | in a table without overlapping rows, a matching row is the only one, and the lookup returns it whatever its position |
| Stops.DetailOf | planner.py:184-196 | a report line keeps the stop's depth and time; its pressure × 10 = depth + 10; its consoMin field = sac × pressure; its volume field = sac × pressure × time, i.e. consoMin × time |
| Stops.Items | planner.py:153-160 | the loop sees six items: stops at 15, 12, 9, 6 and 3 m, in that order, carrying the schedule's five stop times, then the error flag |
| Stops.Pressure | planner.py:173 | absolute pressure × 10 = depth + 10, so at least 1 bar at any non-negative depth |
| Stops.Contributing | planner.py:182-183 | the filtered items are all stops with positive time, and every such item of the input is kept |
| Stops.StopMinutes | planner.py:179-189 | the total stop time is non-negative, and zero exactly when no item contributes |
| Stops.StopDetails | planner.py:180-196 | the report has one line per contributing item, in input order, each the report line of that item |
| Stops.AccumulateStops | planner.py:178-196 | the loop's volume, time and report equal the sums and report over the contributing items |
| Stops.DetailsAddUp | planner.py:188-196 | the report lines' volumes sum to the stop volume and their times to the stop time |
| Stops.OnlyContributingCount | planner.py:182-183 | dropping zero stops and the error flag leaves the stop volume, time and report unchanged, and filtering twice equals filtering once |
| Stops.StopVolumeScales | planner.py:185-188 | the stop volume is proportional to the surface consumption rate |
| Stops.StopVolumeSign | planner.py:183-188 | with a positive rate and stops at non-negative depths, the stop volume is non-negative and positive exactly when the stop time is |
| Stops.NothingContributes | planner.py:182-196 | with no positive stop time the stop volume is 0 and the report is empty |
| Stops.HasDecompressionIffStopTime | planner.py:310 | some stop has positive time exactly when the total stop time is positive |
| Consumption.FiguresOf | planner.py:173-210 | pressure at depth is depth/10 + 1; total volume is bottom + ascent + stop volume; DTR is ascent time + stop time; total time is bottom time + DTR; the stop figures are those the loop accumulated |
| Consumption.Compute | planner.py:166-230 | error iff depth, duration or sac is non-positive (invalid parameters) or the ascent speed is zero (failed division); otherwise the figures |
| Consumption.RatesAndPhaseVolumes | planner.py:173-175 | bottom rate = sac × pressure, mid-depth rate × 20 = sac × (depth + 20), ascent time × speed = depth, each phase volume = rate × duration |
| Consumption.ReportFollowsStops | planner.py:182-196 | the report has exactly one line per contributing stop, in input order, with that stop's depth and positive time |
| Consumption.DiveOutlastsBottomPhase | planner.py:199-210 | with a positive ascent speed, DTR covers the free ascent, the dive outlasts its bottom phase, and the total volume exceeds the bottom volume |
| Consumption.LongerBottomTimeCostsMore | planner.py:199-210 | a longer bottom time never lowers the total volume or the total dive time |
| Consumption.VolumesScaleWithSac | planner.py:174-210 | every volume is proportional to sac; the times do not depend on it |
| Consumption.OnlyContributingStopsMatter | planner.py:182-183 | the calculation over the contributing items alone equals the calculation over all items, error flag included |
| Consumption.NoStopDive | planner.py:173-210 | 20 m, 30 min, 20 L/min, 10 m/min, no stops: 3 bar, 60 and 40 L/min, 1800 + 80 = 1880 L, DTR 2 min, 32 min in all |
| AirBudget.Remaining | planner.py:232-255 | error iff the capacity is zero; otherwise available = capacity × pressure, left + used = available, bar left × capacity = litres left, display ≥ 0 and equal to the real value when that is ≥ 0, sufficient iff bar left ≥ reserve, margin + reserve = bar left |
| AirBudget.MoreGasLessPressure | planner.py:235-237 | using more gas never leaves more pressure |
| AirBudget.Classify | planner.py:343-371 | réalisable iff left ≥ reserve; réserve insuffisante iff below the reserve but positive; impossible iff below the reserve and not positive |
| AirBudget.VerdictPartition | planner.py:343-371 | for a positive reserve: réalisable iff r ≥ reserve, réserve insuffisante iff 0 < r < reserve, impossible iff r ≤ 0 |
| AirBudget.RealisableIffSuffisant | planner.py:242 | the verdict is réalisable exactly when the budget reports the air as sufficient |
| AirBudget.VerdictMonotone | planner.py:343-371 | more pressure left never gives a worse verdict |
| AirBudget.FifteenLitreTank | planner.py:235-243 | 15 L at 200 bar minus 1880 L leaves 224/3 bar, sufficient against 50 bar with margin 74/3; réalisable |
| Planner.PlanDive | planner.py:279-371 | "tables missing" iff the table is empty; "not covered" iff the table is non-empty and no row contains the dive at the effective duration; "consumption failed" iff covered but the parameters are invalid or the ascent speed is zero; "budget failed" iff all that passes but the tank capacity is zero; a plan carries the first matching row's stops, figures equal to the consumption calculation at the effective duration over those stops, the budget of that total volume, the verdict of the exact pressure left against the reserve, litres left + litres used = tank contents, and réalisable iff sufficient |
| Planner.EffectiveDuration | planner.py:282 | the bottom time looked up is never shorter than the set one for a non-negative penalty, and equals it exactly when the penalty is 0 |
| Planner.SliderSettingsArePlanned | planner.py:266-273 | any settings within the page's ranges that the table covers produce a plan, whose verdict partitions the pressure left at 0 and at the reserve |
| Planner.PenaltyLengthensBottomTime | planner.py:282-291 | planning with a penalty equals planning the dive lengthened by the penalty without one |
| Planner.DefaultSettings | planner.py:266-298 | the default settings against a no-stop row give 1880 L, DTR 2 min, 32 min, 224/3 bar left, réalisable |

## Left out

- Page layout, styling, settings widgets, metrics, explanatory text,
  warnings and footer (planner.py:7-116, 261-498): presentation only. The
  settings' ranges appear as `Planner.WithinSliders`.
- Loading the MN90 CSV file and its caching (planner.py:118-130): the table
  is a parameter. An empty table stands for a missing or unreadable file.
- The warning and error messages of the exception handlers
  (planner.py:148, 162-164, 228-230, 254-255): only the returned error
  outcome is modelled. The caught exceptions that can occur on the modelled
  inputs are the two divisions by zero (ascent speed, tank capacity); they
  become `ArithmeticFailure` and `ZeroTankCapacity`.
- Rounding of reported values to 1 or 2 decimals (planner.py:217-223,
  247-251) and binary floating point: the model computes exactly. The page
  passes the rounded total volume to the budget (planner.py:297) and
  classifies the rounded remaining pressure (planner.py:249, 343), so the
  page's verdict can differ from the model's within 0.05 bar of 0 or of the
  reserve.
- Planner.PlanDive: classifies the exact remaining pressure, not the value
  rounded to one decimal, for the reason above.
- Conversion of table cells with `int()` and missing-value detection
  (planner.py:154-158): cells are `Option<int>`.
- The residual-nitrogen and time-penalty tables: the page has no lookup for
  them; the penalty is a setting added to the bottom time (planner.py:268,
  282).
- A negative ascent speed has no error path in the page and none in the
  model; the lemmas about ascent time assume a positive speed.
- Residual-nitrogen lookup, time-penalty lookup, repetitive-dive group
  letters and a takeoff pressure (pressure left when the ascent begins):
  `planner.py` computes none of them, so neither does the model.
- AirBudget.Remaining: rejects only a zero tank capacity, as `planner.py`
  does through its division (planner.py:237); a negative capacity is
  computed with, not rejected.
