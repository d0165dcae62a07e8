# AlertLogger price-deviation alerts, modelled in Dafny

AlertLogger watches a trading pair on the Gemini exchange. It does three things:

- It fetches the pair's hourly candles and keeps the closing prices of the first `TOTAL_HOURS` = 48.
- For every hour from `WINDOW_SIZE` = 24 on, it compares that hour's price with the window of the 24 hours before it. It computes the window's mean, its sample standard deviation and the deviation value `|price - mean| / std`.
- It logs an alert, as a JSON record, for every hour whose deviation value is strictly above `STD_THRESHOLD` = 1.0.

The model works over mathematical reals. The modules are:

- `Settings` (`settings.dfy`): the three constants.
- `Optional` (`optional.dfy`): `Option`, standing for Python's `None` or a value.
- `Stats` (`stats.dfy`):
  - the sum, the mean and the Bessel-corrected sample variance that `statistics.stdev` takes the root of;
  - the predicate `IsSquareRoot`, which a square-root function must satisfy;
  - the lemmas about these.
- `Candles` (`candles.dfy`): the candle record and the projection of closing prices from the first 48 candles.
- `Detector` (`detector.dfy`):
  - the alert loop `CalculateAlert`, an imperative method that appends each alert to the sequence of logged records;
  - its specification `Scan` / `CalculateAlertOutcome`;
  - the lemmas saying which hours are evaluated, which are logged, in what order, and how a run ends.
- `AlertLog` (`alert_log.dfy`): the record `log_info` prints, with its derived log level and price change.

A run of `calculate_alert` ends in one of three ways (`Detector.AlertOutcome`):

- `InsufficientPrices`: no prices, or fewer than 24. The "Insufficient prices fetched" error is logged.
- `Completed(alerts)`: every hour was evaluated.
- `ZeroStdDev(hour, alerts)`: the window before `hour` has a standard deviation of zero. The division at line 67 then raises `ZeroDivisionError`. The handler at line 79 catches only `ValueError`, so this exception leaves `calculate_alert` and ends the run. The alerts logged before that hour stay logged.

Two edge cases of the code are modelled as they are written:

- A window with zero standard deviation does not skip its hour. The division at line 67 raises `ZeroDivisionError`, which the `except ValueError` at line 79 does not catch, so the run ends there (`ZeroStdDev`).
- Exactly 24 prices pass the guard `len(prices) < WINDOW_SIZE` at line 59. The loop from 24 to 24 then evaluates no hour, so the run logs nothing and no error (`Detector.CalculateAlertOutcome`).

The square root inside `statistics.stdev` is a parameter `sqrt: real -> real`. Every lemma that needs it requires `IsSquareRoot(sqrt)`, meaning that `sqrt(x)` is non-negative and squares back to `x`. The wall-clock timestamp of a log record is a parameter too.

## Model

| member | source | states |
|---|---|---|
| `Candles.Closes` | Gemini.py:41 | one price per candle, and price k is field 4 (the close) of candle k |
| `Candles.HourlyPrices` | Gemini.py:40-41 | the prices number min(len(candles), 48), and price k is the close of candle k |
| `Candles.FetchHourlyPrices` | Gemini.py:37-47 | a failed request or parse yields None, and only then; otherwise at most 48 prices, the closes of the kept candles |
| `Candles.HourlyPricesIgnoresLaterCandles` | Gemini.py:40 | candles after the first 48 do not change the prices |
| `Stats.Mean` | Gemini.py:64 | the average of a window of equal prices is that price; `Stats.MeanWithinRange` bounds it in general |
| `Stats.MeanWithinRange` | Gemini.py:64 | the average of a window lies between its smallest and its largest price |
| `Stats.SampleVariance` | Gemini.py:65 | the sample variance (squared deviations over n - 1) is never negative; `Stats.VarianceZeroIffFlat` says when it is zero |
| `Stats.VarianceZeroIffFlat` | Gemini.py:65 | the sample variance is zero exactly when every price of the window is the same |
| `Stats.StdDevZeroIffVarianceZero` | Gemini.py:65 | the standard deviation is non-negative, and zero exactly when the variance is |
| `Detector.Window` | Gemini.py:63 | the window for hour i has exactly 24 prices, prices[i-24] .. prices[i-1] in order |
| `Detector.Observe` | Gemini.py:63-66 | the observation for hour i is of hour i and carries prices[i]; through a true square root its standard deviation is non-negative; `Detector.ObservationMeaning` states its average and deviation |
| `Detector.DeviationValue` | Gemini.py:67 | the deviation value is zero when the price equals the average and non-negative when std > 0; `Detector.DeviationScalesBack` gives its meaning |
| `Detector.DeviationScalesBack` | Gemini.py:67 | the deviation value times the standard deviation is the distance of the price from the average |
| `Detector.IsAlert` | Gemini.py:68 | only a price away from the average alerts; `Detector.AlertRule` states the rule |
| `Detector.AlertRecord` | Gemini.py:70-78 | the record is for the given hour and pair, with message "Alert generated", and an alert in it is for a price away from the average |
| `Detector.CalculateAlertOutcome` | Gemini.py:58-80 | insufficient prices are reported iff the prices are missing or fewer than 24; exactly 24 prices complete with no alerts; `Detector.CalculateAlert` computes it and the Scan lemmas below state its alerts |
| `Detector.Scan` | Gemini.py:62-78 | the scan over the hours never reports insufficient prices |
| `Detector.CalculateAlert` | Gemini.py:49-80 | the loop ends with exactly the outcome and the logged alerts of `CalculateAlertOutcome` |
| `Detector.ScanStaysStopped` | Gemini.py:67-80 | after a zero standard deviation the run is over: no later hour changes the outcome |
| `Detector.ObservationMeaning` | Gemini.py:63-65 | the hour's average lies within the window's range; the standard deviation is non-negative, and zero exactly when the window is flat |
| `Detector.ObservationUsesOnlyEarlierPrices` | Gemini.py:63-66 | the average and standard deviation for hour i depend only on prices before i; the current price is never in its window |
| `Detector.AlertRule` | Gemini.py:67-68 | with std > 0, an hour alerts iff its distance from the average exceeds 1.0 * std; a deviation value of exactly 1.0 or less does not alert |
| `Detector.ScanLogsOnlyAlerts` | Gemini.py:62-78 | each logged record is the record of a scored hour in 24 .. n-1; it has alert = true, message "Alert generated" and the run's pair; records are in strictly increasing hour order; there are at most n - 24 of them |
| `Detector.ScanLogsEveryAlert` | Gemini.py:62-78 | the run completes iff no window has zero standard deviation, and then every alerting hour is logged |
| `Detector.ScanStopsAtFirstZeroStdDev` | Gemini.py:62-67 | a run that stops does so at the first hour with zero standard deviation, with exactly the alerts of the hours before it |
| `Detector.FetchedPricesBoundAlerts` | Gemini.py:40-62 | on fetched prices a run logs at most 48 - 24 = 24 alerts, all for hours 24 .. 47 |
| `Detector.FlatFirstWindowStopsRun` | Gemini.py:63-67 | 24 identical prices followed by any price stop the run at hour 24 with nothing logged |
| `AlertLog.LogInfo` | Gemini.py:97-110 | the level is "INFO" exactly for alerts and "DEBUG" otherwise, and the record carries the given timestamp |
| `AlertLog.LogInfoKeepsInfo` | Gemini.py:97-110 | the printed record keeps every field of the alert record, so the record can be read back from it |
| `AlertLog.PriceChangeIsDistanceFromAverage` | Gemini.py:107 | price_change_value = deviation_value * std_dev equals the distance of the price from the window average |
| `AlertLog.LoggedAlertsPrintAsInfo` | Gemini.py:69-110 | every record a run logs prints at level "INFO", with a price change equal to its distance from the average |

## Left out

- HTTP and JSON: the requests and `raise_for_status` (Gemini.py:21-22, 38-39) and the JSON decoding of the response. A failed request or parse is the `None` response of `Candles.FetchHourlyPrices`.
- `get_all_symbols` (Gemini.py:14-27): network I/O only.
- Candles with fewer than five fields: `candle[4]` would raise `IndexError` there, but the candle is modelled as a record of its six named fields.
- `print`, `json.dumps` and `datetime.now().isoformat()` (Gemini.py:98, 111). The printed record is the `AlertLog.LogRecord` value, and the timestamp is a parameter.
- `log_error` (Gemini.py:113-132). Its only role is the error printout; the model represents the error as the outcome `InsufficientPrices`.
- `main` (Gemini.py:134-146): a driver over a fixed list of pairs.
- IEEE-754 floating point: prices and statistics are exact reals, so rounding, infinities and NaN are not modelled.
- The square root inside `statistics.stdev` is a parameter constrained by `Stats.IsSquareRoot`, not a computed function.
- `Detector.AlertInfo` adds the hour index to the fields of the source's dictionary, so that ordering can be stated. `AlertLog.InfoOf` reads a record back with that hour supplied, because `log_info` does not print it.
