/** The ground-sensor generator `generate_mock_sensor_data`: one PM2.5
    reading per station, per day, per hour, with a rush-hour boost, additive
    noise, a clamp to [50, 300], rounding to one decimal, and paired UTC and
    Indian Standard Time timestamps. The random draws are inputs: `bases[k]`
    and `noises[k]` are the two `random.uniform` results drawn for the k-th
    reading, in generation order. */
module SensorData {
  import opened Wrappers
  import opened Calendar
  import opened IsoFormat

  datatype Station = Station(name: string, lat: real, lon: real)

  /** The fixed station list of the generator. */
  const Stations: seq<Station> := [
    Station("US Embassy", 28.6, 77.2),
    Station("Anand Vihar", 28.65, 77.3),
    Station("Punjabi Bagh", 28.66, 77.12),
    Station("R K Puram", 28.56, 77.18),
    Station("Mandir Marg", 28.63, 77.2)
  ]

  const HoursPerDay := 24
  const DatasetName := "Delhi_PM25_Mock_Data"
  const Parameter := "pm25"
  const RushHours: set<int> := {8, 9, 17, 18}
  const RushBoost: real := 1.3
  const ClampLow: real := 50.0
  const ClampHigh: real := 300.0
  /** 2023-10-01 00:00:00, the first UTC timestamp. */
  const BaseTime := DateTime(Date(2023, 10, 1), 0, 0, 0)
  const BaseOrdinal := 738794
  /** Local time is UTC + 5 h 30 min. */
  const LocalOffsetMinutes := 330
  const UtcSuffix := "Z"
  const LocalSuffix := "+05:30"
  /** The largest day count for which no timestamp runs past 9999-12-31. */
  const MaxDays := 2913265

  datatype ReadingDate = ReadingDate(utc: string, local: string)
  datatype Coordinates = Coordinates(latitude: real, longitude: real)
  datatype Reading = Reading(location: string, parameter: string, value: real,
                             date: ReadingDate, coordinates: Coordinates)
  datatype Meta = Meta(name: string, dateGenerated: string, numSensors: int, days: int)
  datatype Dataset = Dataset(meta: Meta, results: seq<Reading>)
  /** `datetime + timedelta` raised OverflowError ("date value out of range"). */
  datatype Error = OverflowError

  // ---------------------------------------------------------------------
  // The value rule

  /** The base draw, multiplied by 1.3 at a rush hour. */
  function Boosted(hour: int, base: real): real {
    if hour in RushHours then base * RushBoost else base
  }

  /** `max(50, min(300, v))`. */
  function Clamp(v: real): (c: real)
    ensures ClampLow <= c <= ClampHigh
    ensures ClampLow <= v <= ClampHigh ==> c == v
    ensures v < ClampLow ==> c == ClampLow
    ensures v > ClampHigh ==> c == ClampHigh
  {
    var m := if v < ClampHigh then v else ClampHigh;
    if m > ClampLow then m else ClampLow
  }

  /** `round(v, 1)` as a count of tenths: the nearest tenth, ties to the
      even tenth, as Python rounds the exact value of a float. */
  function RoundTenths(v: real): (n: int)
    ensures -0.5 <= n as real - 10.0 * v <= 0.5
    ensures n as real - 10.0 * v == 0.5 || n as real - 10.0 * v == -0.5 ==> n % 2 == 0
  {
    var t := v * 10.0;
    var f := t.Floor;
    var frac := t - f as real;
    if frac < 0.5 then f
    else if frac > 0.5 then f + 1
    else if f % 2 == 0 then f
    else f + 1
  }

  /** The value stored in a reading: boost, add noise, clamp, round. */
  function SensorValue(hour: int, base: real, noise: real): real {
    RoundTenths(Clamp(Boosted(hour, base) + noise)) as real / 10.0
  }

  // ---------------------------------------------------------------------
  // Timestamps

  /** `base_date + timedelta(days=day, hours=hour)`. */
  function UtcAt(day: nat, hour: nat): Option<DateTime> {
    AddTime(BaseTime, day, hour * 60)
  }

  /** `utc + timedelta(hours=5, minutes=30)`. */
  function LocalOf(utc: DateTime): Option<DateTime>
    requires ValidDateTime(utc)
  {
    AddTime(utc, 0, LocalOffsetMinutes)
  }

  /** Both timestamps of slot (day, hour) are representable. */
  predicate HasTimes(day: nat, hour: nat) {
    var u := UtcAt(day, hour);
    u.Some? && ValidDateTime(u.value) && LocalOf(u.value).Some? && ValidDateTime(LocalOf(u.value).value)
  }

  /** The generator raises OverflowError: the last slot's local time is
      past the last representable date (earlier slots fail only if it does). */
  predicate Overflows(days: int) {
    days > 0 && !HasTimes(days - 1, HoursPerDay - 1)
  }

  // ---------------------------------------------------------------------
  // Order of the readings

  function SlotCount(days: int): nat {
    if days <= 0 then 0 else |Stations| * HoursPerDay * days
  }

  function StationOf(k: nat, days: int): nat
    requires days > 0
  {
    k / (HoursPerDay * days)
  }

  function DayOf(k: nat, days: int): nat
    requires days > 0
  {
    (k / HoursPerDay) % days
  }

  function HourOf(k: nat): nat {
    k % HoursPerDay
  }

  /** `rd` is the reading the generator builds for station `s` at slot
      (day, hour) from the draws `base` and `noise`. */
  predicate IsReadingFor(rd: Reading, s: nat, day: nat, hour: nat, base: real, noise: real) {
    && s < |Stations|
    && HasTimes(day, hour)
    && var utc := UtcAt(day, hour).value;
       var local := LocalOf(utc).value;
       rd == Reading(Stations[s].name, Parameter, SensorValue(hour, base, noise),
                     ReadingDate(Format(utc, UtcSuffix), Format(local, LocalSuffix)),
                     Coordinates(Stations[s].lat, Stations[s].lon))
  }

  /** `results` is the full reading list for `days` days and these draws. */
  predicate GeneratedFrom(results: seq<Reading>, days: int, bases: seq<real>, noises: seq<real>) {
    && |results| == SlotCount(days)
    && |bases| == |results| && |noises| == |results|
    && ReadingsUpTo(results, days, bases, noises)
  }

  // ---------------------------------------------------------------------
  // The generator

  method GenerateMockSensorData(numSensors: int, days: int, now: string, bases: seq<real>, noises: seq<real>)
    returns (r: Result<Dataset, Error>)
    requires |bases| == SlotCount(days) && |noises| == SlotCount(days)
    ensures r.Failure? <==> Overflows(days)
    ensures r.Failure? ==> r.error == OverflowError
    ensures r.Success? ==> r.value.meta == Meta(DatasetName, now, |Stations|, days)
    ensures r.Success? ==> GeneratedFrom(r.value.results, days, bases, noises)
  {
    // `range(days)` is empty when days <= 0.
    var nDays := if days < 0 then 0 else days;
    var results: seq<Reading> := [];
    var s := 0;
    while s < |Stations|
      invariant 0 <= s <= |Stations|
      invariant |results| == s * nDays * HoursPerDay
      invariant s > 0 ==> !Overflows(days)
      invariant ReadingsUpTo(results, days, bases, noises)
    {
      var station := AppendStation(results, s, days, bases, noises);
      if station.Failure? {
        return Failure(OverflowError);
      }
      results := station.value;
      s := s + 1;
    }
    r := Success(Dataset(Meta(DatasetName, now, |Stations|, days), results));
  }

  /** The loop `for day in range(days)` for station `s`. */
  method AppendStation(results: seq<Reading>, s: nat, days: int, bases: seq<real>, noises: seq<real>)
    returns (r: Result<seq<Reading>, Error>)
    requires s < |Stations| && |bases| == SlotCount(days) && |noises| == SlotCount(days)
    requires |results| == s * (if days < 0 then 0 else days) * HoursPerDay
    requires ReadingsUpTo(results, days, bases, noises)
    ensures r.Failure? <==> Overflows(days)
    ensures r.Failure? ==> r.error == OverflowError
    ensures r.Success? ==> |r.value| == (s + 1) * (if days < 0 then 0 else days) * HoursPerDay
    ensures r.Success? ==> ReadingsUpTo(r.value, days, bases, noises)
  {
    var nDays := if days < 0 then 0 else days;
    var acc := results;
    var day := 0;
    BlockArithmetic(s, nDays);
    while day < nDays
      invariant 0 <= day <= nDays
      invariant |acc| == (s * nDays + day) * HoursPerDay
      invariant day > 0 ==> HasTimes(day - 1, HoursPerDay - 1)
      invariant ReadingsUpTo(acc, days, bases, noises)
    {
      var next := AppendDay(acc, s, day, days, bases, noises);
      if next.Failure? {
        SlotOverflowIsFinal(day, HoursPerDay - 1, days);
        return Failure(OverflowError);
      }
      acc := next.value;
      day := day + 1;
    }
    r := Success(acc);
  }

  /** The loop `for hour in range(24)` for station `s` on day `day`. */
  method AppendDay(results: seq<Reading>, s: nat, day: nat, days: int, bases: seq<real>, noises: seq<real>)
    returns (r: Result<seq<Reading>, Error>)
    requires s < |Stations| && day < days && |bases| == SlotCount(days) && |noises| == SlotCount(days)
    requires |results| == (s * days + day) * HoursPerDay
    requires ReadingsUpTo(results, days, bases, noises)
    ensures r.Success? <==> HasTimes(day, HoursPerDay - 1)
    ensures r.Failure? ==> r.error == OverflowError
    ensures r.Success? ==> |r.value| == (s * days + day + 1) * HoursPerDay
    ensures r.Success? ==> ReadingsUpTo(r.value, days, bases, noises)
  {
    var acc := results;
    var hour := 0;
    while hour < HoursPerDay
      invariant 0 <= hour <= HoursPerDay
      invariant |acc| == (s * days + day) * HoursPerDay + hour
      invariant hour > 0 ==> HasTimes(day, hour - 1)
      invariant ReadingsUpTo(acc, days, bases, noises)
    {
      var k := |acc|;
      SlotBound(s, day, hour, days);
      var built := BuildReading(s, day, hour, bases[k], noises[k]);
      if built.Failure? {
        HasTimesEarlier(day, hour, day, HoursPerDay - 1);
        return Failure(OverflowError);
      }
      var extended := acc + [built.value];
      ExtendReadings(acc, days, bases, noises, s, day, hour, built.value, extended);
      acc := extended;
      hour := hour + 1;
    }
    r := Success(acc);
  }

  /** The body of the innermost loop: the value is boosted, noised and
      clamped step by step, then both timestamps are built; either timestamp
      can run past 9999-12-31. */
  method BuildReading(s: nat, day: nat, hour: nat, base: real, noise: real) returns (r: Result<Reading, Error>)
    requires s < |Stations| && hour < HoursPerDay
    ensures r.Success? <==> HasTimes(day, hour)
    ensures r.Success? ==> IsReadingFor(r.value, s, day, hour, base, noise)
    ensures r.Failure? ==> r.error == OverflowError
  {
    var station := Stations[s];
    var value := base;
    if hour in RushHours {
      value := base * RushBoost;
    }
    value := value + noise;
    value := Clamp(value);
    assert value == Clamp(Boosted(hour, base) + noise);
    var utc := UtcAt(day, hour);
    UtcValid(day, hour);
    if utc.None? {
      return Failure(OverflowError);
    }
    var local := LocalOf(utc.value);
    LocalValid(utc.value);
    if local.None? {
      return Failure(OverflowError);
    }
    var stamps := ReadingDate(Format(utc.value, UtcSuffix), Format(local.value, LocalSuffix));
    r := Success(Reading(station.name, Parameter, RoundTenths(value) as real / 10.0,
                         stamps, Coordinates(station.lat, station.lon)));
    assert HasTimes(day, hour);
  }

  /** Every reading built so far is the one for its slot. */
  predicate ReadingsUpTo(results: seq<Reading>, days: int, bases: seq<real>, noises: seq<real>) {
    && |results| <= |bases| && |results| <= |noises|
    && forall k {:trigger results[k]} :: 0 <= k < |results| ==>
         days > 0 && IsReadingFor(results[k], StationOf(k, days), DayOf(k, days), HourOf(k), bases[k], noises[k])
  }

  lemma ExtendReadings(results: seq<Reading>, days: int, bases: seq<real>, noises: seq<real>,
                        s: nat, day: nat, hour: nat, rd: Reading, ext: seq<Reading>)
    requires ReadingsUpTo(results, days, bases, noises)
    requires s < |Stations| && 0 <= day < days && hour < HoursPerDay
    requires |results| == (s * days + day) * HoursPerDay + hour
    requires |results| < |bases| && |results| < |noises|
    requires IsReadingFor(rd, s, day, hour, bases[|results|], noises[|results|])
    requires ext == results + [rd]
    ensures ReadingsUpTo(ext, days, bases, noises)
  {
    SlotFacts(s, day, hour, days, |results|);
    forall k | 0 <= k < |ext|
      ensures IsReadingFor(ext[k], StationOf(k, days), DayOf(k, days), HourOf(k), bases[k], noises[k])
    {
      if k < |results| {
        assert ext[k] == results[k];
      }
    }
  }

  // ---------------------------------------------------------------------
  // Index arithmetic

  lemma BlockArithmetic(s: int, n: int)
    ensures s * n * HoursPerDay == (s * n + 0) * HoursPerDay
    ensures (s * n + n) * HoursPerDay == (s + 1) * n * HoursPerDay
  {
  }

  lemma MulAtLeast(a: int, d: int)
    requires a >= 1 && d > 0
    ensures a * d >= d
  {
  }

  lemma DivModUnique(n: int, d: int, q: int, r: int)
    requires d > 0 && 0 <= r < d && n == q * d + r
    ensures n / d == q && n % d == r
  {
    var q', r' := n / d, n % d;
    assert n == q' * d + r' && 0 <= r' < d;
    assert (q - q') * d == r' - r;
    if q > q' {
      MulAtLeast(q - q', d);
    } else if q < q' {
      MulAtLeast(q' - q, d);
    }
  }

  /** Slot (s, day, hour) is reading number (s * days + day) * 24 + hour. */
  lemma SlotIndex(s: nat, day: nat, hour: nat, days: int)
    requires 0 <= day < days && hour < HoursPerDay
    ensures var k := (s * days + day) * HoursPerDay + hour;
      StationOf(k, days) == s && DayOf(k, days) == day && HourOf(k) == hour
  {
    var k := (s * days + day) * HoursPerDay + hour;
    DivModUnique(k, HoursPerDay, s * days + day, hour);
    DivModUnique(s * days + day, days, s, day);
    DivModUnique(k, HoursPerDay * days, s, day * HoursPerDay + hour);
  }

  lemma SlotFacts(s: nat, day: nat, hour: nat, days: int, k: nat)
    requires s < |Stations| && 0 <= day < days && hour < HoursPerDay
    requires k == (s * days + day) * HoursPerDay + hour
    ensures StationOf(k, days) == s && DayOf(k, days) == day && HourOf(k) == hour
    ensures k < SlotCount(days)
  {
    SlotIndex(s, day, hour, days);
    SlotBound(s, day, hour, days);
  }

  lemma SlotBound(s: nat, day: nat, hour: nat, days: int)
    requires s < |Stations| && 0 <= day < days && hour < HoursPerDay
    ensures (s * days + day) * HoursPerDay + hour < SlotCount(days)
  {
    assert s * days + day < (s + 1) * days;
    assert (s * days + day) * HoursPerDay + hour < (s * days + day + 1) * HoursPerDay;
    assert (s * days + day + 1) * HoursPerDay <= (s + 1) * days * HoursPerDay;
    assert (s + 1) * days * HoursPerDay <= |Stations| * days * HoursPerDay;
  }

  /** The reading number `k` is made of its station, day and hour. */
  lemma SlotDecompose(k: nat, days: int)
    requires days > 0
    ensures k == (StationOf(k, days) * days + DayOf(k, days)) * HoursPerDay + HourOf(k)
    ensures k % (HoursPerDay * days) == DayOf(k, days) * HoursPerDay + HourOf(k)
  {
    var q := k / HoursPerDay;
    assert k == q * HoursPerDay + HourOf(k);
    assert q == (q / days) * days + DayOf(k, days);
    DivModUnique(k, HoursPerDay * days, q / days, DayOf(k, days) * HoursPerDay + HourOf(k));
  }

  // ---------------------------------------------------------------------
  // Timestamp facts

  lemma UtcValid(day: nat, hour: nat)
    ensures UtcAt(day, hour).Some? ==> ValidDateTime(UtcAt(day, hour).value)
  {
    BaseTimeFacts();
    AddTimeInstant(BaseTime, day, hour * 60);
  }

  lemma LocalValid(utc: DateTime)
    requires ValidDateTime(utc)
    ensures LocalOf(utc).Some? ==> ValidDateTime(LocalOf(utc).value)
  {
    AddTimeInstant(utc, 0, LocalOffsetMinutes);
  }

  lemma BaseTimeFacts()
    ensures ValidDateTime(BaseTime) && Ordinal(BaseTime.date) == BaseOrdinal
  {
  }

  /** Slot (day, hour) has both timestamps exactly when the local one, the
      later of the two, stays within 9999-12-31; then the UTC time is
      day days and hour hours after the base time, and the local time is
      5 h 30 min after it. */
  lemma SlotTimes(day: nat, hour: nat)
    requires hour < HoursPerDay
    ensures HasTimes(day, hour) <==>
      BaseOrdinal + day + (hour * 60 + LocalOffsetMinutes) / MinutesPerDay <= MaxOrdinal
    ensures HasTimes(day, hour) ==>
      var u := UtcAt(day, hour).value;
      && Instant(u) == Instant(BaseTime) + day * SecondsPerDay + hour * 3600
      && u.hour == hour && u.minute == 0 && u.second == 0
      && Ordinal(u.date) == BaseOrdinal + day
      && Instant(LocalOf(u).value) == Instant(u) + LocalOffsetMinutes * 60
  {
    BaseTimeFacts();
    AddTimeInstant(BaseTime, day, hour * 60);
    assert (hour * 60) / MinutesPerDay == 0;
    if UtcAt(day, hour).Some? {
      var u := UtcAt(day, hour).value;
      assert Ordinal(u.date) == BaseOrdinal + day by {
        AddDaysOrdinal(BaseTime.date, day);
      }
      AddTimeInstant(u, 0, LocalOffsetMinutes);
    }
  }

  /** A slot whose timestamps exist has an earlier slot's timestamps too. */
  lemma HasTimesEarlier(d1: nat, h1: nat, d2: nat, h2: nat)
    requires h1 < HoursPerDay && h2 < HoursPerDay
    requires d1 < d2 || (d1 == d2 && h1 <= h2)
    ensures HasTimes(d2, h2) ==> HasTimes(d1, h1)
  {
    SlotTimes(d1, h1);
    SlotTimes(d2, h2);
  }

  /** A slot that overflows means the last slot overflows too. */
  lemma SlotOverflowIsFinal(day: nat, hour: nat, days: int)
    requires day < days && hour < HoursPerDay && !HasTimes(day, hour)
    ensures Overflows(days)
  {
    HasTimesEarlier(day, hour, days - 1, HoursPerDay - 1);
  }

  /** The generator fails exactly for more than 2913265 days. */
  lemma OverflowThreshold(days: int)
    ensures Overflows(days) <==> days > MaxDays
  {
    if days > 0 {
      SlotTimes(days - 1, HoursPerDay - 1);
    }
  }
}
