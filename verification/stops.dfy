/** The decompression stops as the consumption calculation iterates over
    them, and the accumulation of their durations and gas volumes. */
module Stops {
  import opened Decompression

  /** One item of the lookup result as the consumption loop sees it: a stop
      (its depth in metres and its time in minutes) or the error flag. */
  datatype Entry = Stop(depth: int, minutes: int) | ErrorFlag(failed: bool)

  /** The lookup result's items in their insertion order: 15, 12, 9, 6 and
      3 metres, then the error flag. */
  function Items(s: Schedule): (items: seq<Entry>)
    ensures |items| == 6 && items[5] == ErrorFlag(s.error)
    ensures forall k :: 0 <= k < 5 ==> items[k].Stop? && items[k].depth == 15 - 3 * k
    ensures [items[0].minutes, items[1].minutes, items[2].minutes, items[3].minutes, items[4].minutes]
         == [s.m15, s.m12, s.m9, s.m6, s.m3]
  {
    [Stop(15, s.m15), Stop(12, s.m12), Stop(9, s.m9), Stop(6, s.m6), Stop(3, s.m3),
     ErrorFlag(s.error)]
  }

  /** An item the loop accounts for: a stop (not the error flag) with a
      positive time. */
  predicate Contributes(e: Entry) {
    e.Stop? && e.minutes > 0
  }

  /** Absolute pressure in bar at a depth in metres: one bar of atmosphere
      plus one bar per ten metres of water. */
  function Pressure(depth: real): (p: real)
    ensures p * 10.0 == depth + 10.0
    ensures depth >= 0.0 ==> p >= 1.0
  {
    depth / 10.0 + 1.0
  }

  /** One line of the per-stop report. */
  datatype PalierDetail = PalierDetail(profondeur: int, duree: int, pression: real,
                                       consoMin: real, volume: real)

  /** The report line of one stop for a diver consuming `sac` litres per
      minute at the surface. */
  function DetailOf(sac: real, e: Entry): (d: PalierDetail)
    requires e.Stop?
    ensures d.profondeur == e.depth && d.duree == e.minutes
    ensures d.pression * 10.0 == e.depth as real + 10.0
    ensures d.consoMin == sac * d.pression
    ensures d.volume == sac * d.pression * e.minutes as real
  {
    var p := Pressure(e.depth as real);
    var c := sac * p;
    PalierDetail(e.depth, e.minutes, p, c, c * e.minutes as real)
  }

  /** The items the loop accounts for, in input order. */
  function Contributing(entries: seq<Entry>): (c: seq<Entry>)
    ensures |c| <= |entries|
    ensures forall k :: 0 <= k < |c| ==> Contributes(c[k])
    ensures forall e :: e in entries && Contributes(e) ==> e in c
  {
    if |entries| == 0 then []
    else
      var init := entries[..|entries| - 1];
      var last := entries[|entries| - 1];
      assert forall e :: e in entries ==> e in init || e == last;
      if Contributes(last) then Contributing(init) + [last] else Contributing(init)
  }

  /** Total stop time in minutes: the sum of the contributing items' times. */
  function StopMinutes(entries: seq<Entry>): (n: int)
    ensures n >= 0
    ensures n == 0 <==> forall k :: 0 <= k < |entries| ==> !Contributes(entries[k])
  {
    if |entries| == 0 then 0
    else
      var init := entries[..|entries| - 1];
      var last := entries[|entries| - 1];
      assert forall k :: 0 <= k < |init| ==> init[k] == entries[k];
      if Contributes(last) then StopMinutes(init) + last.minutes else StopMinutes(init)
  }

  /** Total gas used on the stops, in surface litres: the sum over the
      contributing items of sac × pressure at the stop × stop time. */
  function StopVolume(sac: real, entries: seq<Entry>): real {
    if |entries| == 0 then 0.0
    else
      var init := entries[..|entries| - 1];
      var last := entries[|entries| - 1];
      if Contributes(last) then StopVolume(sac, init) + DetailOf(sac, last).volume
      else StopVolume(sac, init)
  }

  /** The per-stop report: one line per contributing item, in input order. */
  function StopDetails(sac: real, entries: seq<Entry>): (ds: seq<PalierDetail>)
    ensures |ds| == |Contributing(entries)|
    ensures forall k :: 0 <= k < |ds| ==> ds[k] == DetailOf(sac, Contributing(entries)[k])
  {
    if |entries| == 0 then []
    else
      var init := entries[..|entries| - 1];
      var last := entries[|entries| - 1];
      if Contributes(last) then StopDetails(sac, init) + [DetailOf(sac, last)]
      else StopDetails(sac, init)
  }

  /** What the stop loop accumulates: stop volume, stop time and report. */
  datatype StopTotals = StopTotals(volume: real, minutes: int, details: seq<PalierDetail>)

  /** The three accumulations over the same items. */
  function Totals(sac: real, entries: seq<Entry>): StopTotals {
    StopTotals(StopVolume(sac, entries), StopMinutes(entries), StopDetails(sac, entries))
  }

  /** Sum of the volumes of report lines. */
  function SumVolumes(ds: seq<PalierDetail>): real {
    if |ds| == 0 then 0.0 else SumVolumes(ds[..|ds| - 1]) + ds[|ds| - 1].volume
  }

  /** Sum of the durations of report lines. */
  function SumDurees(ds: seq<PalierDetail>): int {
    if |ds| == 0 then 0 else SumDurees(ds[..|ds| - 1]) + ds[|ds| - 1].duree
  }

  /** The stop loop of the consumption calculation: walks the items in
      order, skipping the error flag and zero stops, accumulating the stop
      volume, the stop time and the report lines. */
  method AccumulateStops(sac: real, entries: seq<Entry>)
    returns (volume: real, minutes: int, details: seq<PalierDetail>)
    ensures volume == StopVolume(sac, entries)
    ensures minutes == StopMinutes(entries)
    ensures details == StopDetails(sac, entries)
  {
    volume, minutes, details := 0.0, 0, [];
    var i := 0;
    while i < |entries|
      invariant 0 <= i <= |entries|
      invariant volume == StopVolume(sac, entries[..i])
      invariant minutes == StopMinutes(entries[..i])
      invariant details == StopDetails(sac, entries[..i])
    {
      var e := entries[i];
      assert entries[..i + 1][..i] == entries[..i];
      if e.Stop? && e.minutes > 0 {
        var pressure := Pressure(e.depth as real);
        var conso := sac * pressure;
        var v := conso * e.minutes as real;
        volume := volume + v;
        minutes := minutes + e.minutes;
        details := details + [PalierDetail(e.depth, e.minutes, pressure, conso, v)];
        assert details[|details| - 1] == DetailOf(sac, e);
      }
      i := i + 1;
    }
    assert entries[..i] == entries;
  }

  /** The report adds up: its volumes sum to the stop volume and its
      durations to the stop time. */
  lemma {:induction false} DetailsAddUp(sac: real, entries: seq<Entry>)
    ensures SumVolumes(StopDetails(sac, entries)) == StopVolume(sac, entries)
    ensures SumDurees(StopDetails(sac, entries)) == StopMinutes(entries)
  {
    if |entries| > 0 {
      var init := entries[..|entries| - 1];
      DetailsAddUp(sac, init);
      var ds := StopDetails(sac, entries);
      if Contributes(entries[|entries| - 1]) {
        assert ds[..|ds| - 1] == StopDetails(sac, init);
      }
    }
  }

  /** Dropping the items that do not contribute (zero stops, the error
      flag) changes neither total. */
  lemma {:induction false} OnlyContributingCount(sac: real, entries: seq<Entry>)
    ensures StopVolume(sac, Contributing(entries)) == StopVolume(sac, entries)
    ensures StopMinutes(Contributing(entries)) == StopMinutes(entries)
    ensures StopDetails(sac, Contributing(entries)) == StopDetails(sac, entries)
    ensures Contributing(Contributing(entries)) == Contributing(entries)
  {
    if |entries| > 0 {
      var init := entries[..|entries| - 1];
      OnlyContributingCount(sac, init);
      var c := Contributing(entries);
      if Contributes(entries[|entries| - 1]) {
        assert c[..|c| - 1] == Contributing(init);
      }
    }
  }

  /** Stop volume is proportional to the surface consumption rate. */
  lemma {:induction false} StopVolumeScales(k: real, sac: real, entries: seq<Entry>)
    ensures StopVolume(k * sac, entries) == k * StopVolume(sac, entries)
  {
    if |entries| > 0 {
      var init := entries[..|entries| - 1];
      StopVolumeScales(k, sac, init);
    }
  }

  /** The accumulated stop volume scales with the consumption rate; the
      stop time does not depend on it. */
  lemma TotalsScale(k: real, sac: real, entries: seq<Entry>)
    ensures Totals(k * sac, entries).volume == k * Totals(sac, entries).volume
    ensures Totals(k * sac, entries).minutes == Totals(sac, entries).minutes
  {
    StopVolumeScales(k, sac, entries);
    assert Totals(k * sac, entries).volume == StopVolume(k * sac, entries);
  }

  /** With a positive consumption rate and stops at non-negative depths the
      stop volume is non-negative, and positive exactly when some stop
      contributes. */
  lemma {:induction false} StopVolumeSign(sac: real, entries: seq<Entry>)
    requires sac > 0.0
    requires forall k :: 0 <= k < |entries| && entries[k].Stop? ==> entries[k].depth >= 0
    ensures StopVolume(sac, entries) >= 0.0
    ensures StopVolume(sac, entries) > 0.0 <==> StopMinutes(entries) > 0
  {
    if |entries| > 0 {
      var init := entries[..|entries| - 1];
      var last := entries[|entries| - 1];
      StopVolumeSign(sac, init);
      if Contributes(last) {
        DetailVolumePositive(sac, last);
      }
    }
  }

  /** A stop at or below the surface with a positive time costs gas. */
  lemma DetailVolumePositive(sac: real, e: Entry)
    requires sac > 0.0 && e.Stop? && e.depth >= 0 && e.minutes > 0
    ensures DetailOf(sac, e).volume > 0.0
  {
    var d := DetailOf(sac, e);
    PositiveProduct(sac, d.pression);
    PositiveProduct(sac * d.pression, e.minutes as real);
  }

  /** The product of two positive amounts is positive. */
  lemma PositiveProduct(a: real, b: real)
    requires a > 0.0 && b > 0.0
    ensures a * b > 0.0
  {
  }

  /** Items none of which contributes (no stop time at all) cost no gas and
      produce an empty report. */
  lemma {:induction false} NothingContributes(sac: real, entries: seq<Entry>)
    requires forall k :: 0 <= k < |entries| ==> !Contributes(entries[k])
    ensures StopVolume(sac, entries) == 0.0
    ensures StopDetails(sac, entries) == []
  {
    if |entries| > 0 {
      NothingContributes(sac, entries[..|entries| - 1]);
    }
  }

  /** The page shows the stop block only when some stop has a positive
      time; that is exactly when the total stop time is positive. */
  predicate HasDecompression(s: Schedule) {
    exists k :: 0 <= k < 5 && Items(s)[k].minutes > 0
  }

  lemma HasDecompressionIffStopTime(s: Schedule)
    ensures HasDecompression(s) <==> StopMinutes(Items(s)) > 0
  {
    var items := Items(s);
    assert StopMinutes(items) == 0 <==> forall k :: 0 <= k < |items| ==> !Contributes(items[k]);
  }
}
