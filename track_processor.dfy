/**
 * `process_dataframe`: convert, drop, sort, then derive per-row distance,
 * elapsed time and speed, reset the speed at every track start, and project to
 * the five output columns.
 */
module TrackProcessor {
  import opened Wrappers
  import opened StringOrder
  import opened TrackPoints
  import opened TrackSort
  import opened Speeds

  /** A great-circle distance in kilometres: never negative. */
  type Km = r: real | 0.0 <= r

  /** `haversine(lat1, lon1, lat2, lon2)`; its trigonometry is not modelled. */
  type Haversine = (real, real, real, real) -> Km

  /** An output row: the columns `AdID, DTG, Latitude, Longitude, Speed (mph)`, in that order. */
  datatype TrackPoint = TrackPoint(
    adId: string, dtg: int, latitude: real, longitude: real, speed: Speed)

  /**
   * The returned table. `MissingRow` is what comes back when no row survives the
   * drop: assigning the one-element distance list to the empty frame gives the
   * frame a single row in which every other column is missing, and that row's
   * speed is NaN as well.
   */
  datatype Table = Rows(points: seq<TrackPoint>) | MissingRow

  /** The exception `process_dataframe` raises: an empty table cannot be unpacked into two columns. */
  datatype Error = EmptyInput

  /** The distance of the leg from `p` to `q`, in kilometres. */
  function Leg(haversine: Haversine, p: Point, q: Point): (km: Km)
  {
    haversine(p.latitude, p.longitude, q.latitude, q.longitude)
  }

  /** The four columns of an output row that come unchanged from the sorted row. */
  function Located(tp: TrackPoint): (p: Point)
  {
    Point(tp.adId, tp.dtg, tp.latitude, tp.longitude)
  }

  /** Row `i` starts a track: it is the first row, or its identifier differs from the previous row's. */
  predicate IsTrackStart(s: seq<Point>, i: nat)
    requires i < |s|
  {
    i == 0 || s[i].adId != s[i - 1].adId
  }

  /**
   * The speed of row `i` of the sorted rows: undefined at a track start,
   * otherwise the leg's length in miles divided by the elapsed time in hours.
   */
  function SpeedAt(s: seq<Point>, i: nat, haversine: Haversine): (v: Speed)
    requires i < |s|
  {
    if IsTrackStart(s, i) then NaN
    else MilesPerHour(Leg(haversine, s[i - 1], s[i]) * KmToMiles, s[i].dtg - s[i - 1].dtg)
  }

  /** The output rows for the sorted rows `s`: the four columns unchanged, and the speed by `SpeedAt`. */
  function Enriched(s: seq<Point>, haversine: Haversine): (r: seq<TrackPoint>)
  {
    seq(|s|, i requires 0 <= i < |s| =>
      TrackPoint(s[i].adId, s[i].dtg, s[i].latitude, s[i].longitude, SpeedAt(s, i, haversine)))
  }

  /** What `process_dataframe` returns, stated row by row. */
  function Process(data: seq<RawRow>, toLatLon: Converter, haversine: Haversine)
    : (result: Result<Table, Error>)
  {
    if data == [] then Failure(EmptyInput)
    else
      var s := SortByKey(Survivors(data, toLatLon));
      if s == [] then Success(MissingRow)
      else Success(Rows(Enriched(s, haversine)))
  }

  /**
   * The distance loop: entry 0 is 0 and entry `i` is the leg from row `i - 1` to
   * row `i`, across the whole sequence (not restarted per identifier). On an
   * empty sequence the list is still `[0]`.
   */
  method PairwiseDistances(data: seq<Point>, haversine: Haversine) returns (distances: seq<real>)
    ensures |distances| == if data == [] then 1 else |data|
    ensures distances[0] == 0.0
    ensures forall i :: 1 <= i < |data| ==> distances[i] == Leg(haversine, data[i - 1], data[i])
    ensures forall i :: 0 <= i < |distances| ==> distances[i] >= 0.0
  {
    distances := [0.0];
    var i := 1;
    while i < |data|
      invariant 1 <= i <= if data == [] then 1 else |data|
      invariant |distances| == i
      invariant distances[0] == 0.0
      invariant forall k :: 1 <= k < i ==> distances[k] == Leg(haversine, data[k - 1], data[k])
      invariant forall k :: 0 <= k < i ==> distances[k] >= 0.0
    {
      distances := distances + [Leg(haversine, data[i - 1], data[i])];
      i := i + 1;
    }
  }

  /**
   * The `TimeDifference` and first `Speed (mph)` columns of the sorted rows,
   * given their distance column: elapsed seconds (0 for the first row), and the
   * distance in miles divided by the elapsed hours, for every row.
   */
  method RawSpeedColumn(sorted: seq<Point>, distances: seq<real>, ghost haversine: Haversine)
    returns (speed: seq<Speed>)
    requires |distances| == |sorted| > 0 && distances[0] == 0.0
    requires forall i :: 1 <= i < |sorted| ==> distances[i] == Leg(haversine, sorted[i - 1], sorted[i])
    ensures |speed| == |sorted|
    ensures speed[0] == NaN
    ensures forall i :: 1 <= i < |sorted| ==>
      speed[i] == MilesPerHour(Leg(haversine, sorted[i - 1], sorted[i]) * KmToMiles,
                               sorted[i].dtg - sorted[i - 1].dtg)
  {
    var n := |sorted|;
    // `diff()` with the first entry filled as 0
    var timeDifference := seq(n, i requires 0 <= i < n =>
      if i == 0 then 0 else sorted[i].dtg - sorted[i - 1].dtg);
    var miles := seq(n, i requires 0 <= i < n => distances[i] * KmToMiles);
    speed := seq(n, i requires 0 <= i < n => MilesPerHour(miles[i], timeDifference[i]));
    assert speed[0] == MilesPerHour(0.0, 0);
    forall i | 1 <= i < n
      ensures speed[i] == MilesPerHour(Leg(haversine, sorted[i - 1], sorted[i]) * KmToMiles,
                                       sorted[i].dtg - sorted[i - 1].dtg)
    {
      assert speed[i] == MilesPerHour(miles[i], timeDifference[i]);
      assert miles[i] == Leg(haversine, sorted[i - 1], sorted[i]) * KmToMiles;
      assert timeDifference[i] == sorted[i].dtg - sorted[i - 1].dtg;
    }
  }

  /**
   * `speed.loc[AdID != AdID.shift()] = NaN`: the speed becomes NaN at every track
   * start and is kept elsewhere; the shifted first entry is NaN, so row 0 is
   * always selected.
   */
  method ResetTrackStarts(sorted: seq<Point>, speed: seq<Speed>) returns (reset: seq<Speed>)
    requires |speed| == |sorted|
    ensures |reset| == |sorted|
    ensures forall i :: 0 <= i < |sorted| ==> reset[i] == if IsTrackStart(sorted, i) then NaN else speed[i]
  {
    var n := |sorted|;
    var changed := seq(n, i requires 0 <= i < n => i == 0 || sorted[i].adId != sorted[i - 1].adId);
    reset := seq(n, i requires 0 <= i < n => if changed[i] then NaN else speed[i]);
  }

  /** The pipeline as `process_dataframe` runs it, column by column. */
  method ProcessDataframe(data: seq<RawRow>, toLatLon: Converter, haversine: Haversine)
    returns (result: Result<Table, Error>)
    ensures result == Process(data, toLatLon, haversine)
  {
    if data == [] {
      return Failure(EmptyInput);
    }
    var rows := DropNa(AttachLatLon(data, toLatLon));
    var sorted := SortByKey(rows);
    var distances := PairwiseDistances(sorted, haversine);
    if |distances| != |sorted| {
      return Success(MissingRow);
    }
    var n := |sorted|;
    var speed := RawSpeedColumn(sorted, distances, haversine);
    speed := ResetTrackStarts(sorted, speed);
    assert forall i :: 0 <= i < n ==> speed[i] == SpeedAt(sorted, i, haversine);
    var points := seq(n, i requires 0 <= i < n =>
      TrackPoint(sorted[i].adId, sorted[i].dtg, sorted[i].latitude, sorted[i].longitude, speed[i]));
    assert points == Enriched(sorted, haversine);
    result := Success(Rows(points));
  }
}
