# Weather-prediction game: scoring, daily high/low and countdown, in Dafny

Players of the game forecast tomorrow's high temperature, wind speed, wind
direction and precipitation for three airports (KATL, KORD, KDFW). A script
pulls METAR observations and keeps one `actual_weather` row per (station, date)
with a running daily high and low. The leaderboard scores every forecast against
that row, the profile page lists a player's history with a simpler error, and a
clock counts down to the 20:00 submission cut-off.

This project models those four pieces of logic and proves their properties:

- `records.dfy` (`Records`): the `predictions` and `actual_weather` rows and `Option`.
- `scoring.dfy` (`Scoring`): `calculateScore` with its circular wind-direction term,
  the station-keyed weather dictionary, the distinct user ids and the empty-board exit
  of the leaderboard.
- `aggregator.dfy` (`Aggregator`): the update script. It applies the field defaults and
  folds a reading into the high/low. The `actual_weather` table is a class holding a map
  keyed by (station, date), with `UpdateStation` and `Run` as methods.
- `profile.dfy` (`Profile`): the one pass over a player's predictions that builds
  the history rows and the totals. The page state is a class.
- `countdown.dfy` (`Countdown`): the next 20:00 deadline and the h/m/s split,
  on whole milliseconds.

All measurements are whole numbers. Precipitation is held in hundredths of an inch,
so the scoring's `× 100` term is the plain distance of two values, and
`Math.round` of a whole-number sum changes nothing.

A missing prediction or observation scores 0 in `calculateScore`. That is the
same value as a perfect forecast, although the game's design asks for "pending"
to be distinguishable from zero. The model follows the code: see the contract
of `Scoring.CalculateScore`. The profile page does keep them apart: a row with no
observation has no error (shown `--`) and counts in neither the total error nor the completed count.

## Model

| member | source | states |
|---|---|---|
| `Scoring.WindDirError` | frontend/src/components/Leaderboard.jsx:17-19 | the direction term lies in [0, 180] and is 0 exactly when the bearings agree modulo 360 |
| `Scoring.WindDirIsShorterArc` | frontend/src/components/Leaderboard.jsx:17-19 | the direction term is the shorter of the clockwise and counter-clockwise arcs between the bearings |
| `Scoring.WindDirSymmetric` | frontend/src/components/Leaderboard.jsx:18-19 | the direction term does not depend on which bearing is the forecast |
| `Scoring.WindDirExamples` | frontend/src/components/Leaderboard.jsx:17-19 | 350° against 10° gives 20 (either way round); 0° against 180° gives the maximum 180 |
| `Scoring.PrecipError` | frontend/src/components/Leaderboard.jsx:22-23 | the precipitation term is 0 exactly when both amounts are equal |
| `Scoring.PrecipErrorIsHundredTimesInches` | frontend/src/components/Leaderboard.jsx:22-23 | read in inches, the precipitation term is 100 × the absolute difference, one point per 0.01 |
| `Scoring.Error` | frontend/src/components/Leaderboard.jsx:8-25 | the score is non-negative, at least the direction term, and 0 exactly when temperature, wind speed and precipitation are equal and the directions agree modulo 360 |
| `Scoring.ErrorSymmetric` | frontend/src/components/Leaderboard.jsx:12-23 | swapping every predicted value with the observed one leaves the score unchanged |
| `Scoring.CalculateScore` | frontend/src/components/Leaderboard.jsx:5-26 | a missing prediction or observation scores 0, indistinguishable from a perfect forecast; otherwise the score is non-negative and 0 exactly when the forecast agrees with the daily high, wind and precipitation |
| `Scoring.ScoreExample` | frontend/src/components/Leaderboard.jsx:5-26 | a forecast 72/10/270°/0.00 against 70/12/260°/0.05 scores 2 + 2 + 10 + 5 = 19 |
| `Scoring.WeatherMapKeys` | frontend/src/components/Leaderboard.jsx:44-47 | the weather dictionary's keys are exactly the stations of the fetched rows |
| `Scoring.WeatherMapHoldsLastRow` | frontend/src/components/Leaderboard.jsx:44-47 | each station maps to the last fetched row with that station, later rows overwriting earlier ones |
| `Scoring.BuildWeatherMap` | frontend/src/components/Leaderboard.jsx:44-47 | the forEach loop builds the dictionary the fold over the rows defines; a null result leaves it empty |
| `Scoring.UniqueUserIds` | frontend/src/components/Leaderboard.jsx:63 | the id list has no repeats, holds exactly the user ids of the predictions, and lists them in order of first appearance |
| `Scoring.PrepareLeaderboard` | frontend/src/components/Leaderboard.jsx:44-63 | the board is cleared exactly when the predictions are null or empty; otherwise grouping starts from the weather dictionary and the distinct user ids |
| `Aggregator.OrZero` | scripts/update_weather.js:33-35 | a missing precipitation, wind speed or wind direction reads as 0, a present one as itself |
| `Aggregator.Fold` | scripts/update_weather.js:49-57 | with no row today, high = low = the reading; otherwise the high is the larger of the old high and the reading, and the low is the reading when the old low is null, else the smaller of the old low and the reading; always low ≤ reading ≤ high |
| `Aggregator.FoldKeepsOrder` | scripts/update_weather.js:49-56 | low ≤ high holds after every fold, whatever the row held before |
| `Aggregator.FoldIdempotent` | scripts/update_weather.js:49-56 | folding the same reading twice in a row gives the same high and low as folding it once |
| `Aggregator.FoldAllIsHighLow` | scripts/update_weather.js:49-56 | folding a day's readings from no row gives a high that is their maximum and a low that is their minimum |
| `Aggregator.FoldAllOrderIndependent` | scripts/update_weather.js:49-56 | any reordering of the same readings gives the same high and low |
| `Aggregator.FoldAllFromRow` | scripts/update_weather.js:49-56 | folding into an existing ordered row is folding from nothing with its high and low as the first two readings |
| `Aggregator.UpsertRow` | scripts/update_weather.js:60-70 | the upserted row is keyed by the reading's station and today, carries the reading's temperature as current, its defaulted wind and precipitation, the run's timestamp, and the folded high and low |
| `Aggregator.Existing` | scripts/update_weather.js:42-47 | the lookup yields today's row exactly when one exists and the lookup did not fail; a failed lookup's error is discarded and reads as no row |
| `Aggregator.StepExtremes` | scripts/update_weather.js:42-70 | one reading changes a tracked station's high/low only if it is that station's and its upsert succeeds; it then folds into the old row, or into nothing (high = low = reading) when its lookup failed |
| `Aggregator.UpsertIdempotent` | scripts/update_weather.js:49-70 | upserting the identical reading again, at any later time, writes back the identical row except for its new update timestamp |
| `Aggregator.RunTouchesOnlyTrackedToday` | scripts/update_weather.js:80-85 | rows of other dates and of stations outside STATIONS are neither added, removed nor changed by a run |
| `Aggregator.RunFoldsStation` | scripts/update_weather.js:76-87 | after a run in which no lookup failed for a reading of the station that was then written, a tracked station's high/low for today is the fold, in input order, of its successfully upserted readings into the row it started with, and the row exists exactly when it did before or a reading reached it |
| `Aggregator.RunGivesDailyHighLow` | scripts/update_weather.js:49-87 | starting from no row today, and with no failed lookup for a reading of the station that was then written, a run leaves it with the maximum and minimum of its successfully upserted readings |
| `Aggregator.RunKeepsLatestReading` | scripts/update_weather.js:60-87 | current temperature, wind and precipitation of a tracked station's row come from its last successfully upserted reading |
| `Aggregator.WeatherTable.UpdateStation` | scripts/update_weather.js:30-74 | only the (station, today) row is replaced, by the upsert row built from the looked-up one; a failed lookup reads as no row, so the high and low reset to the reading; a failed upsert changes nothing |
| `Aggregator.WeatherTable.Run` | scripts/update_weather.js:76-87 | the readings are processed in input order, only those of STATIONS, each with its lookup and upsert outcome, and an empty fetch result changes nothing |
| `Profile.DailyError` | frontend/src/components/Profile.jsx:37-40 | a row's error is null exactly when no observation exists; otherwise it is non-negative and 0 exactly when high and wind speed were forecast exactly |
| `Profile.DailyErrorIsPartOfScore` | frontend/src/components/Profile.jsx:39-40 | the profile error is the leaderboard score without its direction and precipitation terms, so it never exceeds that score |
| `Profile.RowOf` | frontend/src/components/Profile.jsx:45-51 | a history row carries the date, station and forecast; the actual temperature (else "Pending...") and the error (else "--") are present exactly when the day was observed |
| `Profile.CompletedBounds` | frontend/src/components/Profile.jsx:41-42 | the completed count is at most the number of predictions, equal to it exactly when all are observed and 0 exactly when none are; the total error is non-negative and 0 when nothing is observed |
| `Profile.AvgError` | frontend/src/components/Profile.jsx:57 | the average times the completed count gives the total error; with nothing completed the average is 0 |
| `Profile.ComputeHistory` | frontend/src/components/Profile.jsx:31-52 | the history has one row per prediction in the same order, and the accumulators end as the sum of the observed errors and the number of observed predictions |
| `Profile.ProfileView.constructor` | frontend/src/components/Profile.jsx:5-7 | the page starts loading with total 0, average 0, best station "--" and an empty history |
| `Profile.ProfileView.FetchProfileData` | frontend/src/components/Profile.jsx:27-59 | with a failed query or no predictions, stats and history are untouched; otherwise the history is built and the stats hold the prediction count, the average error and "TBD"; loading ends either way |
| `Countdown.NextDeadlineIsEarliest` | frontend/src/components/CountdownClock.jsx:10-16 | the deadline falls at 20:00 and no 20:00 at or after now comes earlier |
| `Countdown.Target` | frontend/src/components/CountdownClock.jsx:10-16 | the target is 20:00 today unless now is strictly later, then 20:00 tomorrow; it is the next deadline and lies less than a day ahead |
| `Countdown.Decompose` | frontend/src/components/CountdownClock.jsx:19-21 | h ∈ [0, 23], m ∈ [0, 59], s ∈ [0, 59] |
| `Countdown.DecomposeIsExact` | frontend/src/components/CountdownClock.jsx:18-21 | for a remaining time under a day, h·3600 + m·60 + s equals the whole seconds remaining |
| `Countdown.TimeLeft` | frontend/src/components/CountdownClock.jsx:8-23 | the displayed h/m/s add up to the whole seconds until the next deadline |

## Left out

- All reads and writes of the hosted database are foreign calls. The update script's lookup and upsert become map operations on `WeatherTable.rows`. Whether each lookup and each upsert fails is a parameter (`lookupFails`/`upsertFails`, or the index sets of `Outcomes` for a run). The reason a call fails is not modelled.
- The observation fetch is an HTTP call. Its result, or the empty list it yields on failure, is the `metars` parameter of `Run`.
- The fatal exit when credentials are missing is process configuration and is not modelled.
- Logging is not modelled.
- The leaderboard's profile lookup, per-user grouping, summing and ranking (after `frontend/src/components/Leaderboard.jsx:72`) are not modelled; the model stops at `Scoring.PrepareLeaderboard`.
- Floating point is not modelled: values are whole numbers (precipitation in hundredths). `Math.round` is exact on them, and the one-decimal `toFixed(1)` of the average is left abstract, so `Profile.AvgError` is an exact real.
- The display strings are left abstract: the history's `°F`/`kt` text, "Pending...", "--" and the countdown's `${h}h ${m}m ${s}s`. They are represented by `Option` fields and the `Clock` value.
- JavaScript coercions are not modelled: `Math.max(null, x)` on a null daily high, string inputs, `NaN`. Fields are well-typed integers, and a null daily low is `None`.
- No unit conversion is modelled. Scores compare the values as given, and the daily high is in the unit the script stores.
- Overlapping runs of the update script could lose an update, because lookup and upsert are not atomic. The model is a single sequential run.
- `WeatherTable.Run` uses one `today` and one update timestamp for the whole run. The script reads the clock twice per station, once for the date and once for the timestamp. So a run that crosses midnight is not modelled, and neither are distinct timestamps per station.
- Countdown instants are milliseconds on a local clock with a fixed offset. Daylight-saving days of 23 or 25 hours are not modelled, and `now` and the target are taken from one clock reading instead of two.
- Countdown.Decompose: requires a non-negative remaining time. The callback only computes one as the target minus now, which `Countdown.Target` shows is never negative, so JavaScript's sign behaviour of `%` on negative values is not modelled.
- The other pages are not part of this model: the prediction form, comments, user search, current weather, the app layout, and the two backend Python scripts. They are forms and database calls without logic of their own.
