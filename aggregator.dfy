/**
 * The update script: each METAR reading of one of the tracked stations is folded
 * into that station's running daily high/low row of `actual_weather`.
 */
module Aggregator {
  import opened Records

  /** The only stations the script updates. */
  const STATIONS: seq<StationId> := ["KATL", "KORD", "KDFW"]

  /** One record of the aviation-weather JSON response; absent fields are None. */
  datatype Metar = Metar(
    icaoId: StationId,
    temp: int,
    precip24Hr: Option<int>,
    wspd: Option<int>,
    wdir: Option<int>)

  /** `field || 0`: a missing field reads as 0 (a present 0 is 0 either way). */
  function OrZero(field: Option<int>): (r: int)
    ensures field.None? ==> r == 0
    ensures field.Some? ==> r == field.value
  {
    if field.Some? then field.value else 0
  }

  /** The daily high and the daily low (possibly still null) of one row. */
  datatype Extremes = Extremes(high: int, low: Option<int>)

  /** The low, when present, does not exceed the high. */
  predicate Ordered(e: Extremes)
  {
    e.low.Some? ==> e.low.value <= e.high
  }

  function ExtremesOf(o: Observation): Extremes
  {
    Extremes(o.temp, o.minTemp)
  }

  /**
   * newHigh/newLow: the first reading of the day sets both to the reading; later
   * readings keep the larger high and the smaller low, and a null low is replaced
   * by the reading.
   */
  function Fold(existing: Option<Extremes>, tempC: int): (e: Extremes)
    ensures e.low.Some? && e.low.value <= tempC <= e.high
    ensures existing.None? ==> e == Extremes(tempC, Some(tempC))
    ensures existing.Some? ==>
              existing.value.high <= e.high &&
              (e.high == existing.value.high || e.high == tempC)
    ensures existing.Some? && existing.value.low.None? ==> e.low.value == tempC
    ensures existing.Some? && existing.value.low.Some? ==>
              e.low.value <= existing.value.low.value &&
              (e.low.value == existing.value.low.value || e.low.value == tempC)
  {
    if existing.None? then Extremes(tempC, Some(tempC))
    else
      var high := if existing.value.high >= tempC then existing.value.high else tempC;
      var low :=
        if existing.value.low.None? then tempC
        else if existing.value.low.value <= tempC then existing.value.low.value
        else tempC;
      Extremes(high, Some(low))
  }

  /** A fold always leaves low <= high, whatever the row held before. */
  lemma FoldKeepsOrder(existing: Option<Extremes>, tempC: int)
    ensures Ordered(Fold(existing, tempC))
  {
  }

  /** Folding the same reading again leaves high and low as they were. */
  lemma FoldIdempotent(existing: Option<Extremes>, tempC: int)
    ensures Fold(Some(Fold(existing, tempC)), tempC) == Fold(existing, tempC)
  {
  }

  /** The high/low after folding the readings `temps` in order into `start`. */
  function FoldAll(start: Option<Extremes>, temps: seq<int>): (r: Option<Extremes>)
    ensures r.None? <==> start.None? && temps == []
  {
    if temps == [] then start
    else Some(Fold(FoldAll(start, temps[..|temps| - 1]), temps[|temps| - 1]))
  }

  /** `m` is the largest and `l` the smallest of the readings. */
  ghost predicate IsHighLow(temps: seq<int>, m: int, l: int)
  {
    m in temps && l in temps && forall t :: t in temps ==> l <= t <= m
  }

  /** Folding a day's readings from nothing gives their maximum and their minimum. */
  lemma {:induction false} FoldAllIsHighLow(temps: seq<int>)
    requires temps != []
    ensures FoldAll(None, temps).value.low.Some?
    ensures IsHighLow(temps, FoldAll(None, temps).value.high, FoldAll(None, temps).value.low.value)
  {
    var n := |temps| - 1;
    var front := temps[..n];
    assert temps == front + [temps[n]];
    if front != [] {
      FoldAllIsHighLow(front);
    }
  }

  /** The readings of one day may arrive in any order: the high and low do not change. */
  lemma FoldAllOrderIndependent(temps: seq<int>, others: seq<int>)
    requires multiset(temps) == multiset(others)
    ensures FoldAll(None, temps) == FoldAll(None, others)
  {
    if temps != [] {
      assert others != [] by {
        assert |others| == |multiset(others)| == |multiset(temps)| == |temps|;
      }
      FoldAllIsHighLow(temps);
      FoldAllIsHighLow(others);
      forall t ensures t in temps <==> t in others {
        assert t in temps <==> t in multiset(temps);
        assert t in others <==> t in multiset(others);
      }
      var a, b := FoldAll(None, temps).value, FoldAll(None, others).value;
      assert a.high <= b.high && b.high <= a.high;
      assert a.low.value <= b.low.value && b.low.value <= a.low.value;
    }
  }

  /**
   * An ordered row with a low behaves as if its high and its low had been the day's
   * first two readings.
   */
  lemma {:induction false} FoldAllFromRow(e: Extremes, temps: seq<int>)
    requires e.low.Some? && Ordered(e)
    ensures FoldAll(Some(e), temps) == FoldAll(None, [e.high, e.low.value] + temps)
  {
    if temps == [] {
      assert [e.high, e.low.value] + temps == [e.high, e.low.value];
      assert [e.high, e.low.value][..1] == [e.high];
    } else {
      var n := |temps| - 1;
      FoldAllFromRow(e, temps[..n]);
      var all := [e.high, e.low.value] + temps;
      assert all[..|all| - 1] == [e.high, e.low.value] + temps[..n];
    }
  }

  /** The row upserted for one reading: `existing` is today's row of the station, if any. */
  function UpsertRow(metar: Metar, existing: Option<Observation>, today: Date, now: int): (o: Observation)
    ensures o.stationId == metar.icaoId && o.date == today && o.updatedAt == now
    ensures o.currentTemp == metar.temp
    ensures o.windSpeed == OrZero(metar.wspd) && o.windDir == OrZero(metar.wdir)
    ensures o.precip == OrZero(metar.precip24Hr)
    ensures ExtremesOf(o) == Fold(if existing.None? then None else Some(ExtremesOf(existing.value)), metar.temp)
  {
    var e := Fold(if existing.None? then None else Some(ExtremesOf(existing.value)), metar.temp);
    Observation(metar.icaoId, today, metar.temp, e.high, e.low,
                OrZero(metar.wspd), OrZero(metar.wdir), OrZero(metar.precip24Hr), now)
  }

  /**
   * Upserting the identical reading a second time writes back the same row, apart
   * from its update timestamp.
   */
  lemma UpsertIdempotent(metar: Metar, existing: Option<Observation>, today: Date, now: int, later: int)
    ensures var first := UpsertRow(metar, existing, today, now);
            UpsertRow(metar, Some(first), today, later) == first.(updatedAt := later)
  {
  }

  function Lookup(rows: map<(StationId, Date), Observation>, key: (StationId, Date)): Option<Observation>
  {
    if key in rows then Some(rows[key]) else None
  }

  /**
   * How the database answered the calls of one run, by index of the reading: a
   * failed lookup reads as no row (its error is discarded), a failed upsert
   * writes nothing.
   */
  datatype Outcomes = Outcomes(lookupFails: set<nat>, upsertFails: set<nat>)

  /** The row the lookup of updateStation returns: none when the lookup fails. */
  function Existing(rows: map<(StationId, Date), Observation>, key: (StationId, Date), lookupFails: bool): (o: Option<Observation>)
    ensures o.Some? <==> key in rows && !lookupFails
    ensures o.Some? ==> o.value == rows[key]
  {
    if lookupFails then None else Lookup(rows, key)
  }

  /**
   * One iteration of run's loop: readings of other stations are skipped, and a
   * failed upsert leaves the table as it was.
   */
  function Step(rows: map<(StationId, Date), Observation>, metar: Metar, index: nat,
                today: Date, now: int, outcomes: Outcomes): map<(StationId, Date), Observation>
  {
    var key := (metar.icaoId, today);
    if metar.icaoId in STATIONS && index !in outcomes.upsertFails
    then rows[key := UpsertRow(metar, Existing(rows, key, index in outcomes.lookupFails), today, now)]
    else rows
  }

  /**
   * One step on today's high/low of a tracked station: a reading of that station
   * whose upsert goes through folds into the old row, or into nothing when its
   * lookup failed; any other step leaves them alone.
   */
  lemma StepExtremes(rows: map<(StationId, Date), Observation>, metar: Metar, index: nat,
                     today: Date, now: int, outcomes: Outcomes, s: StationId)
    requires s in STATIONS
    ensures ExtremesAt(Step(rows, metar, index, today, now, outcomes), (s, today)) ==
            if metar.icaoId == s && index !in outcomes.upsertFails
            then Some(Fold(if index in outcomes.lookupFails then None else ExtremesAt(rows, (s, today)), metar.temp))
            else ExtremesAt(rows, (s, today))
  {
  }

  /** The table after run has processed `metars` in order. */
  function RunAll(rows: map<(StationId, Date), Observation>, metars: seq<Metar>,
                  today: Date, now: int, outcomes: Outcomes): map<(StationId, Date), Observation>
  {
    if metars == [] then rows
    else
      var n := |metars| - 1;
      Step(RunAll(rows, metars[..n], today, now, outcomes), metars[n], n, today, now, outcomes)
  }

  /** Rows of other dates and of untracked stations are never touched. */
  lemma {:induction false} RunTouchesOnlyTrackedToday(
    rows: map<(StationId, Date), Observation>, metars: seq<Metar>,
    today: Date, now: int, outcomes: Outcomes, key: (StationId, Date))
    requires key.1 != today || key.0 !in STATIONS
    ensures key in RunAll(rows, metars, today, now, outcomes) <==> key in rows
    ensures key in rows ==> RunAll(rows, metars, today, now, outcomes)[key] == rows[key]
  {
    if metars != [] {
      RunTouchesOnlyTrackedToday(rows, metars[..|metars| - 1], today, now, outcomes, key);
    }
  }

  /** The readings of station `s` whose upsert went through, in input order. */
  function ReadingsFor(metars: seq<Metar>, s: StationId, outcomes: Outcomes): (rs: seq<Metar>)
    ensures forall m :: m in rs ==> m in metars && m.icaoId == s
  {
    if metars == [] then []
    else
      var n := |metars| - 1;
      var front := ReadingsFor(metars[..n], s, outcomes);
      if metars[n].icaoId == s && n !in outcomes.upsertFails then front + [metars[n]] else front
  }

  /** No lookup for station `s` failed for a reading whose upsert then went through. */
  predicate LookupsSucceed(metars: seq<Metar>, s: StationId, outcomes: Outcomes)
  {
    forall i :: 0 <= i < |metars| && metars[i].icaoId == s && i !in outcomes.upsertFails ==>
      i !in outcomes.lookupFails
  }

  function Temps(rs: seq<Metar>): (ts: seq<int>)
    ensures |ts| == |rs|
    ensures forall i :: 0 <= i < |rs| ==> ts[i] == rs[i].temp
  {
    if rs == [] then [] else Temps(rs[..|rs| - 1]) + [rs[|rs| - 1].temp]
  }

  function ExtremesAt(rows: map<(StationId, Date), Observation>, key: (StationId, Date)): Option<Extremes>
  {
    if key in rows then Some(ExtremesOf(rows[key])) else None
  }

  /**
   * After a run in which no lookup for it failed, today's high/low of a tracked
   * station is the fold of the readings that reached it into the row it started
   * from; the row exists exactly when it did before or some reading reached it.
   */
  lemma {:induction false} RunFoldsStation(
    rows: map<(StationId, Date), Observation>, metars: seq<Metar>,
    today: Date, now: int, outcomes: Outcomes, s: StationId)
    requires s in STATIONS && LookupsSucceed(metars, s, outcomes)
    ensures ExtremesAt(RunAll(rows, metars, today, now, outcomes), (s, today)) ==
            FoldAll(ExtremesAt(rows, (s, today)), Temps(ReadingsFor(metars, s, outcomes)))
  {
    if metars != [] {
      var n := |metars| - 1;
      var prev := RunAll(rows, metars[..n], today, now, outcomes);
      var rs := ReadingsFor(metars[..n], s, outcomes);
      assert LookupsSucceed(metars[..n], s, outcomes) by {
        forall i | 0 <= i < n && metars[..n][i].icaoId == s && i !in outcomes.upsertFails
          ensures i !in outcomes.lookupFails
        {
          assert metars[..n][i] == metars[i];
        }
      }
      RunFoldsStation(rows, metars[..n], today, now, outcomes, s);
      StepExtremes(prev, metars[n], n, today, now, outcomes, s);
      if metars[n].icaoId == s && n !in outcomes.upsertFails {
        var m := metars[n];
        assert (rs + [m])[..|rs|] == rs;
        assert Temps(rs + [m]) == Temps(rs) + [m.temp];
        assert (Temps(rs) + [m.temp])[..|rs|] == Temps(rs);
      }
    }
  }

  /**
   * Starting from no row for today, a run leaves a tracked station with the
   * maximum and the minimum of the readings that reached it.
   */
  lemma RunGivesDailyHighLow(
    rows: map<(StationId, Date), Observation>, metars: seq<Metar>,
    today: Date, now: int, outcomes: Outcomes, s: StationId)
    requires s in STATIONS && (s, today) !in rows && LookupsSucceed(metars, s, outcomes)
    requires ReadingsFor(metars, s, outcomes) != []
    ensures var r := RunAll(rows, metars, today, now, outcomes);
            (s, today) in r && r[(s, today)].minTemp.Some? &&
            IsHighLow(Temps(ReadingsFor(metars, s, outcomes)), r[(s, today)].temp, r[(s, today)].minTemp.value)
  {
    RunFoldsStation(rows, metars, today, now, outcomes, s);
    FoldAllIsHighLow(Temps(ReadingsFor(metars, s, outcomes)));
  }

  /** The last reading of station `s` whose upsert went through sets the current values. */
  lemma {:induction false} RunKeepsLatestReading(
    rows: map<(StationId, Date), Observation>, metars: seq<Metar>,
    today: Date, now: int, outcomes: Outcomes, s: StationId)
    requires s in STATIONS && ReadingsFor(metars, s, outcomes) != []
    ensures var rs := ReadingsFor(metars, s, outcomes);
            var latest := rs[|rs| - 1];
            var r := RunAll(rows, metars, today, now, outcomes);
            (s, today) in r &&
            r[(s, today)].currentTemp == latest.temp &&
            r[(s, today)].windSpeed == OrZero(latest.wspd) &&
            r[(s, today)].windDir == OrZero(latest.wdir) &&
            r[(s, today)].precip == OrZero(latest.precip24Hr) &&
            r[(s, today)].updatedAt == now
  {
    var n := |metars| - 1;
    if !(metars[n].icaoId == s && n !in outcomes.upsertFails) {
      RunKeepsLatestReading(rows, metars[..n], today, now, outcomes, s);
    }
  }

  /** The `actual_weather` table, keyed by (station, date). */
  class WeatherTable {
    var rows: map<(StationId, Date), Observation>

    constructor (initial: map<(StationId, Date), Observation>)
      ensures rows == initial
    {
      rows := initial;
    }

    /**
     * updateStation: look up today's row of the station, fold the reading into it
     * and upsert the result. A failed lookup reads as no row, so the upsert then
     * resets the high and low to the reading; a failed upsert changes nothing.
     */
    method UpdateStation(metar: Metar, today: Date, now: int, lookupFails: bool, upsertFails: bool)
      modifies this
      ensures upsertFails ==> rows == old(rows)
      ensures !upsertFails ==>
                rows == old(rows)[(metar.icaoId, today) :=
                                  UpsertRow(metar, Existing(old(rows), (metar.icaoId, today), lookupFails), today, now)]
      ensures !upsertFails && lookupFails ==>
                rows[(metar.icaoId, today)].temp == metar.temp &&
                rows[(metar.icaoId, today)].minTemp == Some(metar.temp)
    {
      var key := (metar.icaoId, today);
      var existing := if !lookupFails && key in rows then Some(rows[key]) else None;
      var row := UpsertRow(metar, existing, today, now);
      if !upsertFails {
        rows := rows[key := row];
      }
    }

    /**
     * run: for each reading in input order, update its station when it is one of
     * the tracked ones; `outcomes` says which lookups and upserts fail. An empty
     * fetch result changes nothing.
     */
    method Run(metars: seq<Metar>, today: Date, now: int, outcomes: Outcomes)
      modifies this
      ensures rows == RunAll(old(rows), metars, today, now, outcomes)
      ensures metars == [] ==> rows == old(rows)
    {
      var i := 0;
      while i < |metars|
        invariant 0 <= i <= |metars|
        invariant rows == RunAll(old(rows), metars[..i], today, now, outcomes)
      {
        assert metars[..i + 1][..i] == metars[..i];
        if metars[i].icaoId in STATIONS {
          UpdateStation(metars[i], today, now, i in outcomes.lookupFails, i in outcomes.upsertFails);
        }
        i := i + 1;
      }
      assert metars[..|metars|] == metars;
    }
  }
}
