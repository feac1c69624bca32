# Smart pollution mapper: the mock-data generators, modelled in Dafny

The repository produces synthetic air-quality data for Delhi. Its one piece
of real logic is `generate_mock_sensor_data` in `generate_mock_data.py`.
It walks five fixed monitoring stations, then every day, then the 24 hours
of the day, and builds one PM2.5 reading per slot:

- the value is a base draw, boosted ×1.3 at the rush hours {8, 9, 17, 18}, plus a noise draw, clamped to [50, 300] and rounded to one decimal;
- the UTC timestamp is 2023-10-01 00:00 plus `day` days and `hour` hours;
- the local (Indian Standard Time) timestamp is that plus 5 h 30 min;
- both timestamps are written in ISO 8601 form with the suffixes `Z` and `+05:30`;
- the station's name and coordinates and the parameter `"pm25"` complete it.

The readings are wrapped in a metadata header. The header's `num_sensors`
is always the number of stations (5): the function's `num_sensors`
argument is never used.
The fill loop of `generate_mock_satellite_data` is modelled too. It writes
a 34 × 34 grid cell by cell, and each cell is a decay term plus noise,
floored at zero.

Files and modules:

- `wrappers.dfy` (`Wrappers`): `Option` and `Result`.
- `calendar.dfy` (`Calendar`): the date arithmetic of Python's `datetime` that the generator relies on. Dates are numbered by ordinal, with the same closed form for leap years. Adding a `timedelta` moves the ordinal. A result after 9999-12-31 raises `OverflowError`, modelled as `None`.
- `iso_format.dfy` (`IsoFormat`): the `strftime` layout `%Y-%m-%dT%H:%M:%S` plus a suffix, and a parser that inverts it.
- `sensor_data.dfy` (`SensorData`): the entities (station, reading, metadata, dataset), the value rule, the timestamps and the generator. The generator keeps the source's imperative form: one method per nested loop, appending to the result list.
- `sensor_properties.dfy` (`SensorProperties`): what every generated dataset satisfies.
- `satellite_data.dfy` (`SatelliteData`): the grid fill loop over an `array2`.

The random draws are inputs. `bases[k]` and `noises[k]` are the two
`random.uniform` results for reading `k`, in generation order. The grid
takes the decay as a function of a cell's squared distance from cell
(17, 17), and takes the Gaussian draws as a sequence. `datetime.now()` is
the string parameter `now`.

Every `datetime + timedelta` in the source can raise `OverflowError`. The
generator therefore returns a `Result`. It fails exactly when `days`
exceeds 2 913 265. At that point the local time of the last slot would lie
after 9999-12-31 (`SensorData.OverflowThreshold`).

## Model

| member | source | states |
|---|---|---|
| `Calendar.DaysBeforeYearStep` | generate_mock_data.py:43 | the closed-form day count before a year grows by 366 across a leap year (divisible by 4, not by 100 unless by 400) and by 365 otherwise |
| `Calendar.AddDaysOrdinal` | generate_mock_data.py:43 | adding n days succeeds exactly when the target ordinal is at most the ordinal of 9999-12-31, and it then gives a valid date whose ordinal is larger by exactly n, across month and year ends |
| `Calendar.AddTimeInstant` | generate_mock_data.py:43 | `datetime + timedelta(days, minutes)` fails exactly when the carried ordinal passes the last date; otherwise the result is a valid date-time whose instant is later by exactly the delta |
| `Calendar.NextMonthOrdinal` | generate_mock_data.py:43 | the first day of the following month is valid and lies exactly (days in month − day + 1) days later, also across a year end |
| `Calendar.OrdinalAtMostMax` | generate_mock_data.py:51 | no valid date has an ordinal past that of 9999-12-31 |
| `Calendar.InstantOfParts` | generate_mock_data.py:43 | moving a date-time to a date n days later and to a new hour and minute moves its instant by n days plus the change in minutes |
| `Calendar.OrdinalInjective` | generate_mock_data.py:43 | two valid dates with the same ordinal are equal, so the date reached is the unique one with the target ordinal |
| `Calendar.MaxDate` | generate_mock_data.py:51 | 9999-12-31 is a valid date whose ordinal is 3652059, the largest a local timestamp may reach |
| `Calendar.DaysInMonth` | generate_mock_data.py:43 | every month has between 28 and 31 days |
| `IsoFormat.Pad2` | generate_mock_data.py:50 | `%m`, `%d`, `%H`, `%M`, `%S` write two digits that read back as the number |
| `IsoFormat.Pad4` | generate_mock_data.py:50 | `%Y` writes four digits that read back as the year |
| `IsoFormat.DigitChar` | generate_mock_data.py:50 | each digit character is a decimal digit that reads back as its value |
| `IsoFormat.Format` | generate_mock_data.py:50-51 | a formatted timestamp is 19 characters followed by exactly the suffix (`Z` or `+05:30`) |
| `IsoFormat.ParseFormat` | generate_mock_data.py:50-51 | reading back a formatted timestamp gives the date-time that was formatted |
| `IsoFormat.FormatParse` | generate_mock_data.py:50-51 | every string of the layout that reads back is the formatting of what it reads as, so the format is a bijection |
| `IsoFormat.Pad2Number2` | generate_mock_data.py:50 | two digit characters are the padding of the number they spell |
| `IsoFormat.Pad4Number4` | generate_mock_data.py:50 | four digit characters are the padding of the number they spell |
| `SensorData.Clamp` | generate_mock_data.py:41 | `max(50, min(300, v))` lies in [50, 300], is `v` when `v` is in range, 50 below and 300 above |
| `SensorData.RoundTenths` | generate_mock_data.py:48 | `round(v, 1)` picks the tenth nearest `v`, and on a tie the even one |
| `SensorData.GenerateMockSensorData` | generate_mock_data.py:8-67 | fails with OverflowError exactly when the last slot's timestamps overflow; otherwise the header is name, now, 5 stations and `days`, and reading k is the reading for station k / (24·days), day (k / 24) mod days and hour k mod 24, built from draws k |
| `SensorData.AppendStation` | generate_mock_data.py:27 | the day loop of one station appends 24·days readings, each for its slot, and fails exactly when the run overflows |
| `SensorData.AppendDay` | generate_mock_data.py:28 | the hour loop appends 24 readings, each for its slot, and fails exactly when hour 23 of that day overflows |
| `SensorData.BuildReading` | generate_mock_data.py:29-57 | the loop body boosts, noises and clamps the value, then builds both timestamps; it fails exactly when they are not representable and otherwise yields the slot's reading |
| `SensorData.SlotIndex` | generate_mock_data.py:26-28 | the slot (s, day, hour) is reading number (s·days + day)·24 + hour, whose station, day and hour are s, day and hour |
| `SensorData.SlotBound` | generate_mock_data.py:26-28 | every slot's index is below 120·days |
| `SensorData.SlotDecompose` | generate_mock_data.py:26-28 | every reading number is made of its station, day and hour, and its offset within the station block is day·24 + hour |
| `SensorData.SlotFacts` | generate_mock_data.py:26-28 | the next reading's index names its own station, day and hour and lies within the draw sequences |
| `SensorData.ExtendReadings` | generate_mock_data.py:45-57 | appending the reading for the next slot keeps every reading the one for its slot |
| `SensorData.HasTimesEarlier` | generate_mock_data.py:43-51 | if a slot's timestamps are representable then so are those of every earlier slot |
| `SensorData.SlotTimes` | generate_mock_data.py:43-51 | a slot has both timestamps exactly when its local time stays within 9999-12-31; the UTC time is then day days and hour hours after 2023-10-01 00:00, on the hour, and the local time is 5 h 30 min later |
| `SensorData.SlotOverflowIsFinal` | generate_mock_data.py:43-51 | if any slot overflows, the last slot of the run overflows |
| `SensorData.OverflowThreshold` | generate_mock_data.py:43-51 | the generator overflows exactly for more than 2 913 265 days |
| `SensorData.BaseTimeFacts` | generate_mock_data.py:24 | the base date 2023-10-01 is valid and has ordinal 738794 |
| `SensorData.UtcValid` | generate_mock_data.py:43 | a UTC timestamp that is produced is a valid date-time |
| `SensorData.LocalValid` | generate_mock_data.py:51 | a local timestamp that is produced is a valid date-time |
| `SensorProperties.RoundTenthsWithinWholeBounds` | generate_mock_data.py:48 | rounding to one decimal keeps a value within whole-number bounds |
| `SensorProperties.SensorValueInBand` | generate_mock_data.py:41-48 | every stored value lies in [50, 300] and within 0.05 of the clamped value |
| `SensorProperties.DocumentedDrawsAreNeverClamped` | generate_mock_data.py:30-41 | with draws in [100, 200] and [-10, 10] the pre-clamp value lies in [90, 270], so the clamp never changes it |
| `SensorProperties.RushHourBoost` | generate_mock_data.py:32-35 | at a rush hour the pre-noise value is 1.3 times what the same draw gives at another hour; at any two other hours it is the same |
| `SensorProperties.DatasetSize` | generate_mock_data.py:26-28 | there are 120·days readings for positive days and none otherwise |
| `SensorProperties.StationMajorOrder` | generate_mock_data.py:26 | the readings of station s are exactly the indices in [s·24·days, (s+1)·24·days), and they carry that station's coordinates |
| `SensorProperties.ReadingFields` | generate_mock_data.py:45-57 | each reading has parameter "pm25", a value in [50, 300] computed from its own draws and hour, and the name and coordinates of one station entry |
| `SensorProperties.ReadingTimes` | generate_mock_data.py:43-51 | each reading's UTC string reads back to 2023-10-01 00:00 plus (k mod 24·days) hours, at hour k mod 24 of day (k / 24) mod days, and its local string reads back to 5 h 30 min later |
| `SensorProperties.UtcIncreasesWithinStation` | generate_mock_data.py:26-28 | within one station the UTC times strictly increase |
| `SensorProperties.DrawIndependentFields` | generate_mock_data.py:45-57 | two runs over the same days agree on location, parameter, timestamps and coordinates, whatever the draws |
| `SensorProperties.OneDayScenario` | generate_mock_data.py:107 | the script's own call (one day) yields 120 readings and cannot overflow |
| `SensorProperties.MidnightRollover` | generate_mock_data.py:51 | 2023-10-01 19:00 UTC is 2023-10-02 00:30 local |
| `SensorProperties.MonthEndRollover` | generate_mock_data.py:51 | day 30 at 19:00 UTC is 2023-10-31 19:00, which is 2023-11-01 00:30 local |
| `SensorProperties.YearEndRollover` | generate_mock_data.py:43-51 | day 91 at 23:00 UTC is 2023-12-31 23:00, which is 2024-01-01 04:30 local |
| `SatelliteData.SqDistFromCenter` | generate_mock_data.py:81 | the squared distance from cell (height/2, width/2) = (17, 17) is non-negative and zero only at that cell |
| `SatelliteData.FloorAtZero` | generate_mock_data.py:86 | `max(0, x)` is non-negative, is `x` when `x` is non-negative and 0 otherwise |
| `SatelliteData.GenerateMockSatelliteData` | generate_mock_data.py:71-86 | the grid is a fresh 34 × 34 array whose cell (i, j) holds max(0, decay + noise) for its own distance and its own draw, so every cell is at least 0 |
| `SatelliteData.CentreIsOffMiddle` | generate_mock_data.py:81 | the decay centre (17, 17) is half a cell off the middle of the grid: corner (0, 0) is farther from it than corner (33, 33) |

## Left out

- Random number generation (`random.uniform`, `np.random.normal`): the draws are inputs, and nothing constrains them. Only `SensorProperties.DocumentedDrawsAreNeverClamped` assumes their documented ranges.
- Floating-point arithmetic. Values are exact reals, so `base * 1.3` and the additions are exact. `RoundTenths` rounds the exact value to the nearest tenth with ties to even, which is how CPython rounds a float's exact binary value. Differences that come only from binary representation are not modelled.
- SensorData.Clamp: does not model that `min`/`max` return the integer constant 300 or 50 when the clamp bites, which makes the JSON show `300` rather than `300.0`; the number is the same.
- The satellite surface numerics (`np.sqrt`, `np.exp`, the constants 0.0002 and 10): the decay is an opaque function of the squared distance. The Gaussian draws are an input sequence.
- `datetime.now()` in `meta.date_generated`: an opaque string parameter.
- File output: the JSON dump, the `rasterio.open` write, `from_origin`, the affine transform, the CRS `EPSG:4326` and the fixed file paths. `print` calls are left out too.
- `visualize_data.py` (plotting and map rendering over library calls) and `read_geotiff.py` (a hard-coded raster read with a NaN filter): neither has logic of its own.
- The unused bounds `min_lat` to `max_lon`, and the unused `num_sensors` argument, which the model takes and ignores as the source does.
- Station coordinates are exact decimals rather than the nearest floats.
- Non-integer `days` (a `TypeError` in `range`) and the memory needed for very large `days` are not modelled.
- `IsoFormat.Pad4` zero-pads years below 1000, where `%Y` depends on the platform. The generator never reaches such years, since it starts in 2023.
