# Binance/Sumtyme tracker core, modelled in Dafny

The model covers the deterministic core of `BinanceSumtymeTracker` (file
`st-example-1/st-example-1.py`). The tracker keeps one candle series per
timeframe token ("1m", "15m", "1M", ...). For every closed kline that the
exchange stream delivers, it appends the kline as a row to that timeframe's
series. It then sends the newest 5000 rows, plus one synthetic zero-price row
at the next candle boundary, to the external forecaster. Finally it writes the
`chain_detected` labels returned by the forecaster back onto the stored rows
whose timestamps match.

The model has four modules:

- `Wrappers` (`wrappers.dfy`): `Option`, `Result` and `Min`.
- `Timeframes` (`timeframes.dfy`): `parse_timeframe` and `get_binance_interval`.
  - `ParseTimeframe` models the anchored regular expression `(\d+)([smhdMY])`:
    a greedy run of digits, one unit letter, and the rest of the token ignored.
  - Parsing and formatting are proved to round-trip both ways.
- `Calendar` (`calendar.dfy`): `calculate_next_timestamp`.
  - Instants are integer milliseconds since 1970-01-01T00:00:00.
  - The civil form of an instant (`DateTime`: year, month, day, millisecond of
    the day) is computed in the proleptic Gregorian calendar.
  - `CivilFromMs` and `MsFromCivil` are proved to be inverse bijections between
    instants and valid civil dates.
  - The month unit is modelled on the civil form (`AddMonths`), the other units
    as fixed millisecond durations.
  - Proved: the advance is strictly later for magnitude ≥ 1 and is the identity
    for magnitude 0.
- `Tracker` (`tracker.dfy`): the class `Tracker`.
  - Its field `dataframes` is a map from timeframe token to a sequence of `Row`s
    (the source's `self.dataframes`).
  - `Append` rebinds that map entry, and `Merge` is a loop over the
    forecaster's items that rewrites the entry one item at a time.
  - `ProcessForecast` appends and then calls `DispatchForecast`, which builds
    the payload, calls the forecaster and merges. Both methods, and
    `HandleMessage`, are proved against the specification functions
    `AfterProcess` and `Dispatched`.
  - `Relabel` (the effect of a whole merge) is proved idempotent, composable,
    distributive over append, and insensitive to keys that match no row.

Modelling choices:

- Prices are `real` values that the model never computes with. Timestamps are
  integers, and forecast keys are integers already (no date-string parsing).
- The forecaster is a total function parameter. It receives the payload, the
  magnitude and the long unit name. It returns either the items of its
  dictionary in iteration order, or `None` when the call raises.
  - Python dictionaries iterate in insertion order, so the items are a sequence.
  - Two forecast keys may denote the same instant. The model allows this, and
    the later item wins (`ForecastMap`).
  - For distinct keys the order is immaterial (`ForecastMapDistinct`).
- The history fetch is a function parameter of `SeedHistory`.
- Exceptions become outcomes of `process_forecast` taken on its own.
  - `MissingSeries` is the `KeyError` at line 146, and changes nothing.
  - `InvalidTimeframe` is the `ValueError` raised by `calculate_next_timestamp`
    at line 158, outside the `try`. The appended row stays and nothing is
    dispatched.
  - Both of these propagate out of `process_forecast`. When it is called from
    `handle_websocket`, that method's `except` (lines 228-229) logs them and
    moves on to the next message.
  - Neither can occur once `run` has started the streams. `run` seeds every
    configured timeframe first (lines 237-240). For an unparsable token,
    `get_binance_interval` already raises inside `fetch_historical_data`
    (line 72, outside any `try`), which aborts `run`. `handle_websocket` would
    raise at line 197 as well, before any message is received.
  - `ForecastFailed` is a failing forecaster call, which is caught by
    `process_forecast`'s own `except` (lines 192-193). That method then
    returns normally, having applied no labels.
- Units are a `Unit` enumeration with `UnitName` for the long names. The
  fall-through `return last_datetime` at line 142 is therefore unreachable and
  has no counterpart.

The model follows the code, which does not keep a bounded, duplicate-free
window:

- The stored series is never trimmed to 5000 rows. Only the payload is
  limited to the newest 5000 rows.
- Rows with duplicate or decreasing timestamps are appended like any other.
- Lowercase `y` is rejected. Only `Y` denotes years.
- A magnitude of `0` is accepted. The advance is then the identity.
- There is no reconnection, supervision or restart logic.

## Model

| member | source | states |
|---|---|---|
| Wrappers.Min | st-example-1/st-example-1.py:137 | the minimum of two integers is one of them and no larger than either (the day clamp) |
| Timeframes.LeadingDigits | st-example-1/st-example-1.py:36 | the greedy `\d+` run: every character before it is a digit and the next one, if any, is not |
| Timeframes.UnitOfLetter | st-example-1/st-example-1.py:36-51 | exactly the letters `s m h d M Y` name a unit, and the unit's letter is the letter read |
| Timeframes.ExchangeUnit | st-example-1/st-example-1.py:53-61 | the exchange unit of every unit is that unit's own letter |
| Timeframes.UnitName | st-example-1/st-example-1.py:44-51 | the long name of every unit is one of "seconds", "minutes", "hours", "days", "months", "years" |
| Timeframes.UnitNameInjective | st-example-1/st-example-1.py:44-51 | distinct units have distinct long names, so the name handed to the forecaster determines the unit |
| Timeframes.ParseTimeframe | st-example-1/st-example-1.py:34-63 | parsing succeeds exactly when the token begins with one or more digits followed by a unit letter; the magnitude is the decimal value of those digits and the unit is that letter's; otherwise it fails with the token |
| Timeframes.GetBinanceInterval | st-example-1/st-example-1.py:65-68 | the interval exists exactly for the tokens parsing accepts |
| Timeframes.NatToStringDigits | st-example-1/st-example-1.py:68 | the decimal rendering of a magnitude is a non-empty digit string whose value is the magnitude |
| Timeframes.NatToStringCanonical | st-example-1/st-example-1.py:68 | the decimal rendering of a magnitude has no superfluous leading zero |
| Timeframes.FormatInterval | st-example-1/st-example-1.py:68 | the interval string is a canonical token: digits without superfluous leading zero, whose value is the magnitude, followed by the unit's letter as its last character |
| Timeframes.LeadingNonZeroIsPositive | st-example-1/st-example-1.py:40 | a digit run that starts with a non-zero digit has a value of at least 1 |
| Timeframes.CanonicalDigitsRoundTrip | st-example-1/st-example-1.py:40-68 | rendering the value of a digit run without superfluous leading zero gives the run back |
| Timeframes.ParseFormatRoundTrip | st-example-1/st-example-1.py:36-68 | parsing a formatted interval gives back the magnitude and unit that were formatted |
| Timeframes.CanonicalIntervalRoundTrip | st-example-1/st-example-1.py:65-68 | a token made of digits without leading zero and one unit letter comes back from the interval conversion unchanged |
| Timeframes.ParseIgnoresSuffix | st-example-1/st-example-1.py:36 | characters after the unit letter do not change the parse (the match is anchored at the start only) |
| Timeframes.ParsedUnitNames | st-example-1/st-example-1.py:41-63 | the long unit name is the one the mapping gives for the parsed letter, and the exchange unit is that same letter |
| Timeframes.ZeroMagnitudeAccepted | st-example-1/st-example-1.py:36-40 | "0m" parses, with magnitude 0 and unit minute |
| Timeframes.LowercaseYearRejected | st-example-1/st-example-1.py:36-38 | "1y" is rejected |
| Timeframes.FifteenMinutesRoundTrip | st-example-1/st-example-1.py:65-68 | "15m" converts to "15m" |
| Timeframes.TrailingCharactersIgnored | st-example-1/st-example-1.py:36 | "5mx" parses as five minutes |
| Calendar.DaysInMonth | st-example-1/st-example-1.py:137 | month lengths are 28 to 31 days, and a month has 29 days exactly when it is February of a leap year |
| Calendar.YearLengthIsMonthSum | st-example-1/st-example-1.py:137 | the twelve month lengths of a year add up to 366 days in a leap year and 365 otherwise |
| Calendar.DaysBeforeYearGrows | st-example-1/st-example-1.py:111 | about the millisecond representation of instants: a later year begins at least one full year length after an earlier one |
| Calendar.DaysBeforeMonthGrows | st-example-1/st-example-1.py:111 | about the millisecond representation of instants: a later month of a year begins at least the length of an earlier month after it |
| Calendar.YearAndOffset | st-example-1/st-example-1.py:215 | any day count splits into a year and an offset inside that year's length, with the same total |
| Calendar.MonthAndDay | st-example-1/st-example-1.py:215 | an offset inside a year splits into a month and a valid day of that month, with the same total |
| Calendar.CivilFromMs | st-example-1/st-example-1.py:215 | every millisecond instant has a valid civil date and time of day, which converts back to the same instant |
| Calendar.DayOfYearBounds | st-example-1/st-example-1.py:137 | the day of a valid date lies inside its year |
| Calendar.DayNumberMonotone | st-example-1/st-example-1.py:215 | about the millisecond representation of instants: a later calendar date has a larger day number |
| Calendar.MsFromCivilMonotone | st-example-1/st-example-1.py:215 | about the millisecond representation of instants: a later calendar date is a later instant, whatever the times of day |
| Calendar.MsFromCivilInjective | st-example-1/st-example-1.py:215 | about the millisecond representation of instants: two valid civil dates and times that denote the same instant are equal |
| Calendar.CivilRoundTrip | st-example-1/st-example-1.py:132-138 | converting a valid civil date and time to an instant and back gives it back unchanged |
| Calendar.AddMonths | st-example-1/st-example-1.py:132-138 | the target month is in 1..12 and lies exactly `value` months after the original month, counting across years; the day is the original day clamped to the target month's length in the target year; the time of day is unchanged; valid dates stay valid |
| Calendar.CalculateNextTimestamp | st-example-1/st-example-1.py:120-122 | the advance exists exactly for tokens parsing accepts, and otherwise fails with the parse error |
| Calendar.FixedDurationAdvance | st-example-1/st-example-1.py:124-131 | seconds, minutes, hours and days add `value` × 1 000 / 60 000 / 3 600 000 / 86 400 000 ms |
| Calendar.YearAdvance | st-example-1/st-example-1.py:139-140 | the year unit adds exactly `value` × 365 days |
| Calendar.MonthAdvance | st-example-1/st-example-1.py:132-138 | on the civil form of the result: month in 1..12, year increased by `(month - 1 + value) div 12`, day clamped to the target month of the target year, time of day unchanged |
| Calendar.NextTimestamp | st-example-1/st-example-1.py:124-142 | the advance by a parsed timeframe, dispatched on its unit: for every unit the next boundary is strictly later than the input when the magnitude is at least 1, and equal to it when it is 0 |
| Calendar.MonthAdvanceOrder | st-example-1/st-example-1.py:132-138 | adding at least one month to a valid date gives a strictly later instant; adding zero months gives the date back unchanged |
| Calendar.IsLeapYear | st-example-1/st-example-1.py:137 | the Gregorian rule: not a multiple of 4 is common; a multiple of 4 but not of 100 is leap; a multiple of 100 but not of 400 is common; a multiple of 400 is leap |
| Calendar.LeapRule | st-example-1/st-example-1.py:137 | 2024 and 2000 are leap years; 2023 and 1900 are not |
| Calendar.EndOfJanuaryLeap | st-example-1/st-example-1.py:132-138 | 31 January 2024 plus one month is 29 February 2024 at the same time of day |
| Calendar.EndOfJanuaryCommon | st-example-1/st-example-1.py:132-138 | 31 January 2023 plus one month is 28 February 2023 at the same time of day |
| Calendar.DecemberRollsIntoNextYear | st-example-1/st-example-1.py:134-136 | 15 December 2023 plus one month is 15 January 2024 |
| Calendar.FiveMinutesAfterNoon | st-example-1/st-example-1.py:126-127 | with "5m", 12:00:00 advances to 12:05:00 of the same day |
| Tracker.RowOfKline | st-example-1/st-example-1.py:213-221 | a message yields a row exactly when its closed flag is set; the row carries the open time and the four prices, with no label |
| Tracker.SyntheticRow | st-example-1/st-example-1.py:161-168 | the prediction row lies at the given next timestamp, with zero open, high, low and close and no label |
| Tracker.Payload | st-example-1/st-example-1.py:153-170 | the payload has `min(n, 5000) + 1` rows; all but its last row are the newest rows of the series; the last row has zero prices, no label and the given next timestamp |
| Tracker.PayloadAfterAppend | st-example-1/st-example-1.py:154-170 | after an append, the payload has `min(n + 1, 5000) + 1` rows, its last real row is the appended row, and the synthetic row lies at that row's calendar advance, strictly later for a positive magnitude |
| Tracker.ApplyLabel | st-example-1/st-example-1.py:187-189 | one item's assignment gives its label to every row with that timestamp; every other row, and every timestamp and price, is unchanged |
| Tracker.ForecastMap | st-example-1/st-example-1.py:185 | every item's timestamp is a key, and each key holds the label of the last item with that timestamp |
| Tracker.ForecastMapStep | st-example-1/st-example-1.py:185 | one more item adds its own timestamp with its own label and keeps every other key's label |
| Tracker.ForecastMapDistinct | st-example-1/st-example-1.py:185-189 | when the items have distinct timestamps, each item's own label is the one merged |
| Tracker.Relabel | st-example-1/st-example-1.py:185-189 | the merge keeps the length, every timestamp and price; rows whose timestamp is a key get that key's label, all other rows keep theirs |
| Tracker.Dispatched | st-example-1/st-example-1.py:153-193 | dispatching a non-empty series keeps its length and every candle; a token that does not parse leaves the series exactly as it was |
| Tracker.AfterProcess | st-example-1/st-example-1.py:144-193 | processing a row grows the series by exactly one row; the old rows keep their candles and the last row is the new candle; a token that does not parse leaves exactly the appended series |
| Tracker.RelabelIdempotent | st-example-1/st-example-1.py:185-189 | merging the same labels twice gives the same series as merging them once |
| Tracker.RelabelCompose | st-example-1/st-example-1.py:185-189 | merging one map after another equals merging their union, with the later map winning on shared keys |
| Tracker.RelabelIgnoresUnmatchedKey | st-example-1/st-example-1.py:188 | a key that matches no stored timestamp has no effect |
| Tracker.RelabelNoMatch | st-example-1/st-example-1.py:188 | a map none of whose keys is a stored timestamp leaves the series unchanged |
| Tracker.RelabelAppend | st-example-1/st-example-1.py:150-189 | merging distributes over appending one row |
| Tracker.ApplyLabelExtendsMerge | st-example-1/st-example-1.py:185-189 | applying one more item to a merged series is merging the map updated at that item's key |
| Tracker.Tracker.constructor | st-example-1/st-example-1.py:13-24 | a new tracker has the configured timeframes and no series |
| Tracker.Tracker.SeedHistory | st-example-1/st-example-1.py:237-240 | every configured timeframe gets its historical series; other entries are unchanged |
| Tracker.Tracker.Append | st-example-1/st-example-1.py:146-151 | only the timeframe's entry changes; it becomes the old series followed by the new row, with nothing trimmed or rejected |
| Tracker.Tracker.Merge | st-example-1/st-example-1.py:185-189 | iterating over the items leaves the timeframe's series equal to `Relabel` of the old series with the items' map; other timeframes are unchanged |
| Tracker.Tracker.DispatchForecast | st-example-1/st-example-1.py:153-193 | the series becomes `Dispatched` of the old one and other timeframes are unchanged; an unparsable token gives `InvalidTimeframe` with no payload; otherwise the payload is `Payload` of the series at its last row's advance, and the outcome reports whether the forecaster answered |
| Tracker.Tracker.ProcessForecast | st-example-1/st-example-1.py:144-193 | a missing series changes nothing; otherwise the series becomes `AfterProcess` of the old one; for a parsable token the payload is `Payload` of the appended series at the new row's advance; the outcome reports whether the forecaster answered |
| Tracker.Tracker.HandleMessage | st-example-1/st-example-1.py:207-229 | a message that is not closed changes nothing; a closed one is processed as its row, with `ProcessForecast`'s state and outcome: `MissingSeries`, `InvalidTimeframe` for an unparsable token, otherwise whether the forecaster answered the payload |

## Left out

- `fetch_historical_data` (lines 70-118): HTTP paging, DataFrame construction and float casting. `SeedHistory` takes the fetched series as a function parameter. It also treats the fetch as total, so an HTTP error aborting `run` is not modelled.
- The websocket connection, the `async for` receive loop, JSON decoding and the stream URL built from `get_binance_interval` (lines 195-211). A message is given as an already decoded `Kline`. A malformed message, which the source logs and skips, has no counterpart.
- `run`'s `asyncio.gather` over timeframes and the `async` nature of `process_forecast` (lines 231-251). One timeframe's messages are processed sequentially. The map-update frame conditions state that the other timeframes are untouched.
- `EIPClient.ohlc_forecast` (lines 176-181) is a function parameter. Its constant `reasoning_mode='reactive'` argument is not passed.
- `float(...)` price parsing of the kline (lines 216-219) and `pd.to_datetime` of the forecast keys (line 187). Prices are opaque reals and forecast keys are integer instants. The kline open time (line 215) is an integer millisecond count in the source already. An exception part-way through the merge loop, for example from an unparsable key, is therefore not modelled.
- The `mask.any()` test (line 188) guards both the assignment at line 189 and the log line at line 190. An empty mask assigns nothing, so the test's only observable effect is the log line. The model therefore assigns unconditionally.
- All `print` logging, and `main` (lines 254-273).
- CalculateNextTimestamp: the pandas Timestamp range (about 1677 to 2262), `datetime.replace`'s year limit and `timedelta`'s own range are not modelled. For a very large magnitude, `timedelta(...)` at lines 125-131 and `timedelta(days=value * 365)` at line 140 raise `OverflowError`, which escapes at line 158, outside the `try`. The calendar is unbounded, so advances that would raise `OutOfBoundsDatetime`, `OverflowError` or `ValueError` in the source succeed in the model.
- ParseTimeframe: Python's `\d` also matches non-ASCII decimal digits, and `int()` refuses digit strings longer than its default 4300-digit limit. The model accepts exactly the ASCII digits `0`-`9`, with no length limit.
- Sub-millisecond precision of pandas timestamps: every instant in the model is a whole number of milliseconds, as kline open times are.
