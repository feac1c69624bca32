/** What every dataset the sensor generator produces satisfies: how many
    readings there are and in which order, the value band, the station
    fields, the timestamps and their formatting, and which fields do not
    depend on the random draws. */
module SensorProperties {
  import opened Wrappers
  import opened Calendar
  import opened IsoFormat
  import opened SensorData

  /** The reading's "utc" string read back as a date-time. */
  function UtcOf(rd: Reading): Option<DateTime> {
    Parse(rd.date.utc, UtcSuffix)
  }

  /** The reading's "local" string read back as a date-time. */
  function LocalTimeOf(rd: Reading): Option<DateTime> {
    Parse(rd.date.local, LocalSuffix)
  }

  // ---------------------------------------------------------------------
  // The value rule

  /** Rounding to one decimal keeps a value inside bounds that are whole
      numbers. */
  lemma RoundTenthsWithinWholeBounds(v: real, lo: int, hi: int)
    requires lo as real <= v <= hi as real
    ensures 10 * lo <= RoundTenths(v) <= 10 * hi
  {
    var n := RoundTenths(v);
    assert n as real >= 10.0 * lo as real - 0.5;
    assert n as real <= 10.0 * hi as real + 0.5;
  }

  /** The stored value is in [50, 300] and within 0.05 of the clamped value. */
  lemma SensorValueInBand(hour: int, base: real, noise: real)
    ensures ClampLow <= SensorValue(hour, base, noise) <= ClampHigh
    ensures var c := Clamp(Boosted(hour, base) + noise);
      -0.05 <= SensorValue(hour, base, noise) - c <= 0.05
  {
    RoundTenthsWithinWholeBounds(Clamp(Boosted(hour, base) + noise), 50, 300);
  }

  /** With draws in the ranges `random.uniform(100, 200)` and
      `random.uniform(-10, 10)` produce, the value before the clamp lies in
      [90, 270], so the clamp never changes it. */
  lemma DocumentedDrawsAreNeverClamped(hour: int, base: real, noise: real)
    requires 100.0 <= base <= 200.0 && -10.0 <= noise <= 10.0
    ensures 90.0 <= Boosted(hour, base) + noise <= 270.0
    ensures Clamp(Boosted(hour, base) + noise) == Boosted(hour, base) + noise
  {
  }

  /** At a rush hour the pre-noise value is 1.3 times what the same draw
      gives at any other hour, and at two non-rush hours it is the same. */
  lemma RushHourBoost(hour: int, other: int, base: real)
    requires other !in RushHours
    ensures hour in RushHours ==> Boosted(hour, base) == RushBoost * Boosted(other, base)
    ensures hour !in RushHours ==> Boosted(hour, base) == Boosted(other, base)
  {
  }

  // ---------------------------------------------------------------------
  // Size and order

  lemma DatasetSize(results: seq<Reading>, days: int, bases: seq<real>, noises: seq<real>)
    requires GeneratedFrom(results, days, bases, noises)
    ensures days <= 0 ==> results == []
    ensures days > 0 ==> |results| == 120 * days
  {
  }

  lemma BlockOf(k: nat, s: nat, days: int)
    requires days > 0
    ensures StationOf(k, days) == s <==> s * (HoursPerDay * days) <= k < (s + 1) * (HoursPerDay * days)
  {
    var m := HoursPerDay * days;
    assert (s + 1) * m == s * m + m;
    if StationOf(k, days) == s {
      assert k == s * m + k % m;
    }
    if s * m <= k < (s + 1) * m {
      DivModUnique(k, m, s, k - s * m);
    }
  }

  lemma StationNamesDistinct(i: nat, j: nat)
    requires i < |Stations| && j < |Stations| && Stations[i].name == Stations[j].name
    ensures i == j
  {
    assert Stations[i].name[0] == Stations[j].name[0];
  }

  /** Readings come station by station: the readings of station `s` are
      exactly the block of 24 * days readings starting at s * 24 * days, and
      each carries that station's coordinates. */
  lemma StationMajorOrder(results: seq<Reading>, days: int, bases: seq<real>, noises: seq<real>, k: nat, s: nat)
    requires GeneratedFrom(results, days, bases, noises)
    requires k < |results| && s < |Stations|
    ensures results[k].location == Stations[s].name <==>
      s * (HoursPerDay * days) <= k < (s + 1) * (HoursPerDay * days)
    ensures results[k].location == Stations[s].name ==>
      results[k].coordinates == Coordinates(Stations[s].lat, Stations[s].lon)
  {
    var st := StationOf(k, days);
    assert IsReadingFor(results[k], st, DayOf(k, days), HourOf(k), bases[k], noises[k]);
    BlockOf(k, s, days);
    if results[k].location == Stations[s].name {
      StationNamesDistinct(st, s);
    }
  }

  /** Every reading is a PM2.5 reading of one of the fixed stations. */
  lemma ReadingFields(results: seq<Reading>, days: int, bases: seq<real>, noises: seq<real>, k: nat)
    requires GeneratedFrom(results, days, bases, noises)
    requires k < |results|
    ensures results[k].parameter == "pm25"
    ensures ClampLow <= results[k].value <= ClampHigh
    ensures StationOf(k, days) < |Stations|
    ensures var st := Stations[StationOf(k, days)];
      results[k].location == st.name && results[k].coordinates == Coordinates(st.lat, st.lon)
    ensures results[k].value ==
      RoundTenths(Clamp(Boosted(HourOf(k), bases[k]) + noises[k])) as real / 10.0
  {
    assert IsReadingFor(results[k], StationOf(k, days), DayOf(k, days), HourOf(k), bases[k], noises[k]);
    SensorValueInBand(HourOf(k), bases[k], noises[k]);
  }

  // ---------------------------------------------------------------------
  // Timestamps

  /** Reading `k` is stamped 2023-10-01T00:00:00 plus (k mod 24*days) hours
      in UTC, on the hour, and its local stamp is 5 h 30 min later; both
      strings read back to those times. */
  lemma ReadingTimes(results: seq<Reading>, days: int, bases: seq<real>, noises: seq<real>, k: nat)
    requires GeneratedFrom(results, days, bases, noises)
    requires k < |results|
    ensures UtcOf(results[k]).Some? && LocalTimeOf(results[k]).Some?
    ensures var u := UtcOf(results[k]).value;
      && ValidDateTime(u)
      && Instant(u) == Instant(BaseTime) + (k % (HoursPerDay * days)) * 3600
      && u.hour == HourOf(k) && u.minute == 0 && u.second == 0
      && Ordinal(u.date) == BaseOrdinal + DayOf(k, days)
    ensures ValidDateTime(LocalTimeOf(results[k]).value)
    ensures Instant(LocalTimeOf(results[k]).value) == Instant(UtcOf(results[k]).value) + 19800
  {
    var d, h := DayOf(k, days), HourOf(k);
    assert IsReadingFor(results[k], StationOf(k, days), d, h, bases[k], noises[k]);
    var u := UtcAt(d, h).value;
    var l := LocalOf(u).value;
    ParseFormat(u, UtcSuffix);
    ParseFormat(l, LocalSuffix);
    SlotTimes(d, h);
    SlotDecompose(k, days);
  }

  /** Within one station the UTC times strictly increase. */
  lemma UtcIncreasesWithinStation(results: seq<Reading>, days: int, bases: seq<real>, noises: seq<real>, k1: nat, k2: nat)
    requires GeneratedFrom(results, days, bases, noises)
    requires k1 < k2 < |results| && StationOf(k1, days) == StationOf(k2, days)
    ensures UtcOf(results[k1]).Some? && UtcOf(results[k2]).Some?
    ensures ValidDateTime(UtcOf(results[k1]).value) && ValidDateTime(UtcOf(results[k2]).value)
    ensures Instant(UtcOf(results[k1]).value) < Instant(UtcOf(results[k2]).value)
  {
    ReadingTimes(results, days, bases, noises, k1);
    ReadingTimes(results, days, bases, noises, k2);
    var st := StationOf(k1, days);
    SlotDecompose(k1, days);
    SlotDecompose(k2, days);
    assert k1 == st * days * HoursPerDay + k1 % (HoursPerDay * days);
    assert k2 == st * days * HoursPerDay + k2 % (HoursPerDay * days);
  }

  /** Only the values depend on the draws: two runs over the same number of
      days agree on every other field. */
  lemma DrawIndependentFields(r1: seq<Reading>, r2: seq<Reading>, days: int,
                              b1: seq<real>, n1: seq<real>, b2: seq<real>, n2: seq<real>, k: nat)
    requires GeneratedFrom(r1, days, b1, n1) && GeneratedFrom(r2, days, b2, n2)
    requires k < |r1|
    ensures |r2| == |r1|
    ensures r1[k].location == r2[k].location && r1[k].parameter == r2[k].parameter
    ensures r1[k].date == r2[k].date && r1[k].coordinates == r2[k].coordinates
  {
    assert IsReadingFor(r1[k], StationOf(k, days), DayOf(k, days), HourOf(k), b1[k], n1[k]);
    assert IsReadingFor(r2[k], StationOf(k, days), DayOf(k, days), HourOf(k), b2[k], n2[k]);
  }

  /** The script's own call, five stations for one day: 120 readings and no
      overflow. */
  lemma OneDayScenario()
    ensures SlotCount(1) == 120 && !Overflows(1)
  {
    OverflowThreshold(1);
  }

  /** Local time rolls over midnight ... */
  lemma MidnightRollover()
    ensures UtcAt(0, 19) == Some(DateTime(Date(2023, 10, 1), 19, 0, 0))
    ensures LocalOf(DateTime(Date(2023, 10, 1), 19, 0, 0)) == Some(DateTime(Date(2023, 10, 2), 0, 30, 0))
  {
  }

  /** ... a month end ... */
  lemma MonthEndRollover()
    ensures UtcAt(30, 19) == Some(DateTime(Date(2023, 10, 31), 19, 0, 0))
    ensures LocalOf(DateTime(Date(2023, 10, 31), 19, 0, 0)) == Some(DateTime(Date(2023, 11, 1), 0, 30, 0))
  {
  }

  /** ... and a year end. */
  lemma YearEndRollover()
    ensures UtcAt(91, 23) == Some(DateTime(Date(2023, 12, 31), 23, 0, 0))
    ensures LocalOf(DateTime(Date(2023, 12, 31), 23, 0, 0)) == Some(DateTime(Date(2024, 1, 1), 4, 30, 0))
  {
    assert AddDays(Date(2023, 10, 1), 91) == AddDays(Date(2023, 11, 1), 60);
    assert AddDays(Date(2023, 11, 1), 60) == AddDays(Date(2023, 12, 1), 30);
  }
}
