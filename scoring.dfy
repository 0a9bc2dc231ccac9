/** The leaderboard's scoring helper and the data preparation in front of it. */
module Scoring {
  import opened Records

  function Abs(x: int): (r: nat)
    ensures r == x || r == -x
  {
    if x < 0 then -x else x
  }

  function Min(a: int, b: int): int
  {
    if a <= b then a else b
  }

  /**
   * Circular wind-direction error: the distance between two bearings folded
   * into [0, 180], so that 350 and 10 are 20 apart.
   */
  function WindDirError(pDir: int, dir: int): (r: int)
    ensures 0 <= r <= 180
    ensures r == 0 <==> (pDir - dir) % 360 == 0
  {
    var windDiff := Abs(pDir - dir) % 360;
    if windDiff > 180 then 360 - windDiff else windDiff
  }

  /** The wind-direction error is the shorter of the two arcs between the bearings. */
  lemma WindDirIsShorterArc(pDir: int, dir: int)
    ensures WindDirError(pDir, dir) == Min((pDir - dir) % 360, (dir - pDir) % 360)
  {
    if (pDir - dir) % 360 != 0 {
      assert (dir - pDir) % 360 == 360 - (pDir - dir) % 360;
    }
  }

  lemma WindDirSymmetric(pDir: int, dir: int)
    ensures WindDirError(pDir, dir) == WindDirError(dir, pDir)
  {
  }

  lemma WindDirExamples()
    ensures WindDirError(350, 10) == 20
    ensures WindDirError(10, 350) == 20
    ensures WindDirError(0, 180) == 180
  {
  }

  /** The four scored quantities of one forecast or one observation. */
  datatype Conditions = Conditions(temp: int, windSpeed: int, windDir: int, precip: int)

  function Predicted(p: Prediction): Conditions
  {
    Conditions(p.pHigh, p.pWindSpeed, p.pWindDir, p.pPrecip)
  }

  /** The observed side uses the daily high (`temp`), not the current temperature. */
  function Observed(a: Observation): Conditions
  {
    Conditions(a.temp, a.windSpeed, a.windDir, a.precip)
  }

  /** Both sides describe the same weather: the bearings agree modulo a full turn. */
  predicate Agree(p: Conditions, a: Conditions)
  {
    p.temp == a.temp && p.windSpeed == a.windSpeed &&
    (p.windDir - a.windDir) % 360 == 0 && p.precip == a.precip
  }

  /**
   * Precipitation term: one point per hundredth of an inch. With precipitation
   * held in hundredths this is the plain distance of the two values.
   */
  function PrecipError(pPrecip: int, precip: int): (r: nat)
    ensures r == 0 <==> pPrecip == precip
  {
    Abs(pPrecip - precip)
  }

  function RealAbs(x: real): real
  {
    if x < 0.0 then -x else x
  }

  /** Read back in inches, the precipitation term is 100 times the difference. */
  lemma PrecipErrorIsHundredTimesInches(pPrecip: int, precip: int)
    ensures PrecipError(pPrecip, precip) as real ==
            100.0 * RealAbs(pPrecip as real / 100.0 - precip as real / 100.0)
  {
  }

  /** The error score of a forecast against an observation: lower is better. */
  function Error(p: Conditions, a: Conditions): (r: int)
    ensures r >= 0
    ensures r == 0 <==> Agree(p, a)
    ensures r >= WindDirError(p.windDir, a.windDir)
  {
    Abs(p.temp - a.temp) + Abs(p.windSpeed - a.windSpeed)
    + WindDirError(p.windDir, a.windDir) + PrecipError(p.precip, a.precip)
  }

  /** Swapping the predicted and the observed values leaves the score unchanged. */
  lemma ErrorSymmetric(p: Conditions, a: Conditions)
    ensures Error(p, a) == Error(a, p)
  {
  }

  /**
   * calculateScore: 0 when either side is missing, which is the same value a
   * perfect forecast earns; otherwise the error score, whose rounding is exact on
   * whole numbers.
   */
  function CalculateScore(prediction: Option<Prediction>, actual: Option<Observation>): (r: int)
    ensures r >= 0
    ensures prediction.None? || actual.None? ==> r == 0
    ensures prediction.Some? && actual.Some? ==>
              (r == 0 <==> Agree(Predicted(prediction.value), Observed(actual.value)))
  {
    if prediction.None? || actual.None? then 0
    else Error(Predicted(prediction.value), Observed(actual.value))
  }

  /** A forecast with 2, 2, 10 and 5 points of error in each term scores 19. */
  lemma ScoreExample()
    ensures CalculateScore(
              Some(Prediction("u", "KATL", "2024-05-01", 72, 10, 270, 0)),
              Some(Observation("KATL", "2024-05-01", 68, 70, Some(55), 12, 260, 5, 0))) == 19
  {
  }

  /** The row whose station is `s` and that no later row with station `s` follows. */
  ghost predicate IsLastRowFor(rows: seq<Observation>, s: StationId, i: int)
  {
    0 <= i < |rows| && rows[i].stationId == s &&
    forall j :: i < j < |rows| ==> rows[j].stationId != s
  }

  /** weatherData folded into a station-keyed dictionary; later rows overwrite earlier ones. */
  function WeatherMapOf(rows: seq<Observation>): map<StationId, Observation>
  {
    if rows == [] then map[]
    else WeatherMapOf(rows[..|rows| - 1])[rows[|rows| - 1].stationId := rows[|rows| - 1]]
  }

  /** Every station seen is a key, and nothing else is. */
  lemma {:induction false} WeatherMapKeys(rows: seq<Observation>, s: StationId)
    ensures s in WeatherMapOf(rows) <==> exists i :: 0 <= i < |rows| && rows[i].stationId == s
  {
    if rows != [] {
      var n := |rows| - 1;
      var front := rows[..n];
      WeatherMapKeys(front, s);
      if s in WeatherMapOf(front) {
        var i :| 0 <= i < |front| && front[i].stationId == s;
        assert rows[i] == front[i];
      }
      if exists i :: 0 <= i < |rows| && rows[i].stationId == s {
        var i :| 0 <= i < |rows| && rows[i].stationId == s;
        if i < n {
          assert front[i] == rows[i];
        }
      }
    }
  }

  /** Each key maps to the last row carrying that station. */
  lemma {:induction false} WeatherMapHoldsLastRow(rows: seq<Observation>, s: StationId)
    requires s in WeatherMapOf(rows)
    ensures exists i :: IsLastRowFor(rows, s, i) && WeatherMapOf(rows)[s] == rows[i]
  {
    var n := |rows| - 1;
    var front := rows[..n];
    if rows[n].stationId == s {
      assert IsLastRowFor(rows, s, n);
    } else {
      WeatherMapHoldsLastRow(front, s);
      var i :| IsLastRowFor(front, s, i) && WeatherMapOf(front)[s] == front[i];
      assert rows[i] == front[i];
      assert IsLastRowFor(rows, s, i);
    }
  }

  /** The forEach over weatherData (a null result leaves the dictionary empty). */
  method BuildWeatherMap(weatherData: Option<seq<Observation>>) returns (weatherMap: map<StationId, Observation>)
    ensures weatherData.None? ==> weatherMap == map[]
    ensures weatherData.Some? ==> weatherMap == WeatherMapOf(weatherData.value)
  {
    weatherMap := map[];
    if weatherData.Some? {
      var rows := weatherData.value;
      var i := 0;
      while i < |rows|
        invariant 0 <= i <= |rows|
        invariant weatherMap == WeatherMapOf(rows[..i])
      {
        assert rows[..i + 1][..i] == rows[..i];
        weatherMap := weatherMap[rows[i].stationId := rows[i]];
        i := i + 1;
      }
      assert rows[..|rows|] == rows;
    }
  }

  /** Some prediction of user `a` comes before every prediction of user `b`. */
  ghost predicate FirstSeenBefore(preds: seq<Prediction>, a: UserId, b: UserId)
  {
    exists k :: 0 <= k < |preds| && preds[k].userId == a &&
      forall l :: 0 <= l <= k ==> preds[l].userId != b
  }

  /** The distinct user ids of the predictions, in order of first appearance. */
  function UniqueUserIds(preds: seq<Prediction>): (ids: seq<UserId>)
    ensures forall i, j :: 0 <= i < j < |ids| ==> ids[i] != ids[j]
    ensures forall u :: u in ids <==> exists k :: 0 <= k < |preds| && preds[k].userId == u
    ensures forall i, j :: 0 <= i < j < |ids| ==> FirstSeenBefore(preds, ids[i], ids[j])
  {
    if preds == [] then []
    else
      var n := |preds| - 1;
      var front := preds[..n];
      var u := preds[n].userId;
      var ids := UniqueUserIds(front);
      assert forall k :: 0 <= k < |front| ==> front[k] == preds[k];
      assert forall a, b :: FirstSeenBefore(front, a, b) ==> FirstSeenBefore(preds, a, b);
      if u in ids then ids
      else
        assert forall a :: a in ids ==> FirstSeenBefore(preds, a, u);
        ids + [u]
  }

  /** What fetchData has prepared before grouping, or the cleared board. */
  datatype Board =
    | Cleared
    | Grouping(weatherMap: map<StationId, Observation>, userIds: seq<UserId>)

  /**
   * The first steps of fetchData: build the weather dictionary, clear the board
   * when there are no predictions, otherwise collect the distinct user ids.
   */
  method PrepareLeaderboard(weatherData: Option<seq<Observation>>, preds: Option<seq<Prediction>>)
    returns (board: Board)
    ensures board.Cleared? <==> preds.None? || |preds.value| == 0
    ensures board.Grouping? ==>
              board.weatherMap == (if weatherData.None? then map[] else WeatherMapOf(weatherData.value)) &&
              board.userIds == UniqueUserIds(preds.value)
  {
    var weatherMap := BuildWeatherMap(weatherData);
    if preds.None? || |preds.value| == 0 {
      return Cleared;
    }
    board := Grouping(weatherMap, UniqueUserIds(preds.value));
  }
}
