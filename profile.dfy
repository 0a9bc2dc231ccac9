/** The statistics and history table of a user's profile page. */
module Profile {
  import opened Records
  import Scoring

  /** The joined `actual_weather` columns of a prediction, when the day has been observed. */
  datatype ActualWeather = ActualWeather(temp: int, windSpeed: int, precip: int)

  /** One of the user's predictions, newest first as the query orders them. */
  datatype UserPrediction = UserPrediction(
    predictionDate: Date,
    stationId: StationId,
    pHigh: int,
    pWindSpeed: int,
    actualWeather: Option<ActualWeather>)

  /**
   * One line of the history table. A None `actual` is shown as "Pending..." and a
   * None `error` as "--".
   */
  datatype HistoryRow = HistoryRow(
    date: Date,
    station: StationId,
    pHigh: int,
    pWindSpeed: int,
    actual: Option<int>,
    error: Option<int>)

  /** The header figures; `avgError` before its one-decimal formatting. */
  datatype Stats = Stats(total: nat, avgError: real, bestStation: string)

  const INITIAL_STATS := Stats(0, 0.0, "--")

  /** A row's error: temperature and wind-speed terms only, and only once observed. */
  function DailyError(p: UserPrediction): (e: Option<int>)
    ensures e.None? <==> p.actualWeather.None?
    ensures e.Some? ==> e.value >= 0
    ensures e.Some? ==>
              (e.value == 0 <==>
                 p.pHigh == p.actualWeather.value.temp && p.pWindSpeed == p.actualWeather.value.windSpeed)
  {
    if p.actualWeather.None? then None
    else
      var a := p.actualWeather.value;
      Some(Scoring.Abs(p.pHigh - a.temp) + Scoring.Abs(p.pWindSpeed - a.windSpeed))
  }

  /**
   * The profile error is the leaderboard score with the direction and
   * precipitation terms dropped, so it never exceeds the leaderboard score.
   */
  lemma DailyErrorIsPartOfScore(p: UserPrediction, pDir: int, pPrecip: int, dir: int)
    requires p.actualWeather.Some?
    ensures var a := p.actualWeather.value;
            var full := Scoring.Error(Scoring.Conditions(p.pHigh, p.pWindSpeed, pDir, pPrecip),
                                      Scoring.Conditions(a.temp, a.windSpeed, dir, a.precip));
            DailyError(p).value == full - Scoring.WindDirError(pDir, dir) - Scoring.PrecipError(pPrecip, a.precip) &&
            DailyError(p).value <= full
  {
  }

  function RowOf(p: UserPrediction): (row: HistoryRow)
    ensures row.date == p.predictionDate && row.station == p.stationId
    ensures row.pHigh == p.pHigh && row.pWindSpeed == p.pWindSpeed
    ensures row.actual.None? <==> p.actualWeather.None?
    ensures row.actual.Some? ==> row.actual.value == p.actualWeather.value.temp
    ensures row.error == DailyError(p)
  {
    HistoryRow(p.predictionDate, p.stationId, p.pHigh, p.pWindSpeed,
               if p.actualWeather.None? then None else Some(p.actualWeather.value.temp),
               DailyError(p))
  }

  /** The number of predictions that have been observed. */
  function Completed(preds: seq<UserPrediction>): nat
  {
    if preds == [] then 0
    else Completed(preds[..|preds| - 1]) + (if preds[|preds| - 1].actualWeather.Some? then 1 else 0)
  }

  /** The sum of the errors of the observed predictions. */
  function TotalError(preds: seq<UserPrediction>): int
  {
    if preds == [] then 0
    else
      var e := DailyError(preds[|preds| - 1]);
      TotalError(preds[..|preds| - 1]) + (if e.Some? then e.value else 0)
  }

  /**
   * The count lies between 0 and the number of predictions, reaching each bound
   * exactly when none or all are observed; the total is non-negative and is 0
   * when nothing is observed.
   */
  lemma {:induction false} CompletedBounds(preds: seq<UserPrediction>)
    ensures Completed(preds) <= |preds|
    ensures Completed(preds) == |preds| <==> forall i :: 0 <= i < |preds| ==> preds[i].actualWeather.Some?
    ensures Completed(preds) == 0 <==> forall i :: 0 <= i < |preds| ==> preds[i].actualWeather.None?
    ensures TotalError(preds) >= 0
    ensures Completed(preds) == 0 ==> TotalError(preds) == 0
  {
    if preds != [] {
      var n := |preds| - 1;
      CompletedBounds(preds[..n]);
      assert forall i :: 0 <= i < n ==> preds[..n][i] == preds[i];
    }
  }

  /** totalError / completedCount, or 0 when nothing has been observed. */
  function AvgError(totalError: int, completedCount: nat): (avg: real)
    ensures completedCount > 0 ==> avg * completedCount as real == totalError as real
    ensures completedCount == 0 ==> avg == 0.0
  {
    if completedCount > 0 then totalError as real / completedCount as real else 0.0
  }

  /** The history and the two accumulators, built in one pass over the predictions. */
  method ComputeHistory(preds: seq<UserPrediction>)
    returns (history: seq<HistoryRow>, totalError: int, completedCount: nat)
    ensures |history| == |preds|
    ensures forall i :: 0 <= i < |preds| ==> history[i] == RowOf(preds[i])
    ensures totalError == TotalError(preds) && completedCount == Completed(preds)
  {
    history, totalError, completedCount := [], 0, 0;
    var i := 0;
    while i < |preds|
      invariant 0 <= i <= |preds|
      invariant |history| == i
      invariant forall k :: 0 <= k < i ==> history[k] == RowOf(preds[k])
      invariant totalError == TotalError(preds[..i]) && completedCount == Completed(preds[..i])
    {
      assert preds[..i + 1][..i] == preds[..i];
      var p := preds[i];
      var dailyError: Option<int> := None;
      if p.actualWeather.Some? {
        dailyError := Some(Scoring.Abs(p.pHigh - p.actualWeather.value.temp) +
                           Scoring.Abs(p.pWindSpeed - p.actualWeather.value.windSpeed));
        totalError := totalError + dailyError.value;
        completedCount := completedCount + 1;
      }
      history := history + [HistoryRow(p.predictionDate, p.stationId, p.pHigh, p.pWindSpeed,
                                        if p.actualWeather.None? then None else Some(p.actualWeather.value.temp),
                                        dailyError)];
      i := i + 1;
    }
    assert preds[..|preds|] == preds;
  }

  /** The component state that fetchProfileData fills in. */
  class ProfileView {
    var loading: bool
    var stats: Stats
    var history: seq<HistoryRow>

    constructor ()
      ensures loading && stats == INITIAL_STATS && history == []
    {
      loading, stats, history := true, INITIAL_STATS, [];
    }

    /**
     * fetchProfileData after its query: `preds` is None when the query failed.
     * With no predictions the stats and history stay as they were; loading ends
     * either way.
     */
    method FetchProfileData(preds: Option<seq<UserPrediction>>)
      modifies this
      ensures !loading
      ensures preds.None? || |preds.value| == 0 ==>
                stats == old(stats) && history == old(history)
      ensures preds.Some? && |preds.value| > 0 ==>
                |history| == |preds.value| &&
                (forall i :: 0 <= i < |history| ==> history[i] == RowOf(preds.value[i])) &&
                stats == Stats(|preds.value|,
                               AvgError(TotalError(preds.value), Completed(preds.value)), "TBD")
    {
      if preds.Some? && |preds.value| > 0 {
        var formattedHistory, totalError, completedCount := ComputeHistory(preds.value);
        history := formattedHistory;
        stats := Stats(|preds.value|, AvgError(totalError, completedCount), "TBD");
      }
      loading := false;
    }
  }
}
