/**
 * What the output of `process_dataframe` satisfies, proved from its row-by-row
 * description `Process`: which rows survive, their order, where the speed is
 * undefined, and the speed of every other row.
 */
module TrackProperties {
  import opened Wrappers
  import opened StringOrder
  import opened TrackPoints
  import opened TrackSort
  import opened Speeds
  import opened TrackProcessor

  /** The `AdID, DTG, Latitude, Longitude` part of every output row. */
  function Locations(pts: seq<TrackPoint>): (r: seq<Point>)
    ensures |r| == |pts|
  {
    seq(|pts|, i requires 0 <= i < |pts| => Located(pts[i]))
  }

  /** The output rows carry the sorted surviving rows' values, unchanged and in sorted order. */
  lemma RowsAreSortedSurvivors(
    data: seq<RawRow>, toLatLon: Converter, haversine: Haversine, pts: seq<TrackPoint>)
    requires Process(data, toLatLon, haversine) == Success(Rows(pts))
    ensures Locations(pts) == SortByKey(Survivors(data, toLatLon))
    ensures forall i :: 0 <= i < |pts| ==> pts[i].speed == SpeedAt(Locations(pts), i, haversine)
  {
  }

  /**
   * The three outcomes: an empty table raises, a table whose every coordinate
   * fails to convert gives the single all-missing row, and otherwise the rows
   * come back.
   */
  lemma {:induction false} Outcomes(data: seq<RawRow>, toLatLon: Converter, haversine: Haversine)
    ensures Process(data, toLatLon, haversine) == Failure(EmptyInput) <==> data == []
    ensures Process(data, toLatLon, haversine) == Success(MissingRow) <==>
      data != [] && FailedCount(data, toLatLon) == |data|
    ensures (exists pts: seq<TrackPoint> :: Process(data, toLatLon, haversine) == Success(Rows(pts))) <==>
      FailedCount(data, toLatLon) < |data|
  {
    SurvivorsAreConvertedRows(data, toLatLon);
    if FailedCount(data, toLatLon) < |data| {
      var s := SortByKey(Survivors(data, toLatLon));
      assert Process(data, toLatLon, haversine) == Success(Rows(Enriched(s, haversine)));
    }
  }

  /**
   * Only converted rows come back, each exactly once: the output is a permutation
   * of the rows whose conversion succeeded, sorted by `(AdID, DTG)`, one row
   * fewer for every failed conversion.
   */
  lemma {:induction false} OnlyConvertedRowsSortedByKey(
    data: seq<RawRow>, toLatLon: Converter, haversine: Haversine, pts: seq<TrackPoint>)
    requires Process(data, toLatLon, haversine) == Success(Rows(pts))
    ensures 0 < |pts| == |data| - FailedCount(data, toLatLon) <= |data|
    ensures multiset(Locations(pts)) == multiset(Survivors(data, toLatLon))
    ensures SortedByKey(Locations(pts))
    ensures forall i :: 0 <= i < |pts| ==>
      exists j :: 0 <= j < |data| && ConvertsTo(toLatLon, data[j], Located(pts[i]))
  {
    RowsAreSortedSurvivors(data, toLatLon, haversine, pts);
    SurvivorsAreConvertedRows(data, toLatLon);
    var locs := Locations(pts);
    forall i | 0 <= i < |pts|
      ensures exists j :: 0 <= j < |data| && ConvertsTo(toLatLon, data[j], Located(pts[i]))
    {
      assert locs[i] in multiset(locs);
      assert Located(pts[i]) in Survivors(data, toLatLon);
    }
  }

  /** Of two output rows of one identifier, the one with the earlier timestamp comes first. */
  lemma {:induction false} EarlierTimestampFirst(
    data: seq<RawRow>, toLatLon: Converter, haversine: Haversine, pts: seq<TrackPoint>, a: nat, b: nat)
    requires Process(data, toLatLon, haversine) == Success(Rows(pts))
    requires a < |pts| && b < |pts|
    requires pts[a].adId == pts[b].adId && pts[a].dtg < pts[b].dtg
    ensures a < b
  {
    RowsAreSortedSurvivors(data, toLatLon, haversine, pts);
    var locs := Locations(pts);
    assert locs[a].adId == locs[b].adId && locs[a].dtg < locs[b].dtg;
    EarlierObservationFirst(locs, a, b);
  }

  /**
   * The speed is undefined at row 0 and wherever the identifier changes; these
   * rows are exactly the first row of each identifier, so the first sighting of
   * every object has undefined speed.
   */
  lemma {:induction false} TrackStartsHaveUndefinedSpeed(
    data: seq<RawRow>, toLatLon: Converter, haversine: Haversine, pts: seq<TrackPoint>, i: nat)
    requires Process(data, toLatLon, haversine) == Success(Rows(pts))
    requires i < |pts|
    ensures (i == 0 || pts[i].adId != pts[i - 1].adId) ==> pts[i].speed == NaN
    ensures (i == 0 || pts[i].adId != pts[i - 1].adId) <==>
      forall j :: 0 <= j < i ==> pts[j].adId != pts[i].adId
  {
    OnlyConvertedRowsSortedByKey(data, toLatLon, haversine, pts);
    RowsAreSortedSurvivors(data, toLatLon, haversine, pts);
    var locs := Locations(pts);
    if i > 0 && pts[i].adId != pts[i - 1].adId {
      forall j | 0 <= j < i ensures pts[j].adId != pts[i].adId {
        TracksAreContiguous(locs, i, j);
      }
    }
    if i > 0 && pts[i].adId == pts[i - 1].adId {
      assert pts[i - 1].adId == pts[i].adId;
    }
  }

  /**
   * Rows with equal `(AdID, DTG)` come back in the order they were read: for
   * every key, the output rows with that key are the surviving input rows with
   * that key, in input order (`SurvivorsOfConcat` and `SurvivorOfRow` give that
   * order). Which of them is the previous row, and so the speed of the rows
   * after them, depends on it.
   */
  lemma {:induction false} TiedRowsKeepInputOrder(
    data: seq<RawRow>, toLatLon: Converter, haversine: Haversine, pts: seq<TrackPoint>,
    adId: string, dtg: int)
    requires Process(data, toLatLon, haversine) == Success(Rows(pts))
    ensures WithKey(Locations(pts), adId, dtg) == WithKey(Survivors(data, toLatLon), adId, dtg)
  {
    RowsAreSortedSurvivors(data, toLatLon, haversine, pts);
    SortKeepsTieOrder(Survivors(data, toLatLon), adId, dtg);
  }

  /**
   * Within a track (row `i` has the previous row's identifier) the elapsed time
   * is never negative, because of the sort, and the speed is the leg in miles
   * over the elapsed time, by `MilesPerHour` (whose cases `MilesPerHourCases`
   * gives: finite and non-negative when time passed, otherwise infinite, or NaN
   * for a zero-length leg). A finite speed within a track is never negative.
   */
  lemma {:induction false} SpeedWithinTrack(
    data: seq<RawRow>, toLatLon: Converter, haversine: Haversine, pts: seq<TrackPoint>, i: nat)
    requires Process(data, toLatLon, haversine) == Success(Rows(pts))
    requires 0 < i < |pts| && pts[i].adId == pts[i - 1].adId
    ensures pts[i - 1].dtg <= pts[i].dtg
    ensures pts[i].speed ==
      MilesPerHour(Leg(haversine, Located(pts[i - 1]), Located(pts[i])) * KmToMiles,
                   pts[i].dtg - pts[i - 1].dtg)
    ensures pts[i].speed.Finite? ==> pts[i].speed.mph >= 0.0
  {
    RowsAreSortedSurvivors(data, toLatLon, haversine, pts);
    var locs := Locations(pts);
    assert locs[i - 1] == Located(pts[i - 1]) && locs[i] == Located(pts[i]);
    SortedSpeedWithinTrack(locs, i, haversine);
  }

  /** `SpeedWithinTrack` for row `i` of any sorted sequence. */
  lemma {:induction false} SortedSpeedWithinTrack(s: seq<Point>, i: nat, haversine: Haversine)
    requires SortedByKey(s)
    requires 0 < i < |s| && s[i].adId == s[i - 1].adId
    ensures s[i - 1].dtg <= s[i].dtg
    ensures SpeedAt(s, i, haversine) ==
      MilesPerHour(Leg(haversine, s[i - 1], s[i]) * KmToMiles, s[i].dtg - s[i - 1].dtg)
    ensures SpeedAt(s, i, haversine).Finite? ==> SpeedAt(s, i, haversine).mph >= 0.0
  {
    assert KeyLe(s[i - 1], s[i]);
    SameTrackInTimeOrder(s[i - 1], s[i]);
    MilesPerHourCases(Leg(haversine, s[i - 1], s[i]) * KmToMiles, s[i].dtg - s[i - 1].dtg);
  }

  /** Two rows that both convert both survive, in input order. */
  lemma SurvivorsOfTwo(data: seq<RawRow>, toLatLon: Converter, p1: Point, p2: Point)
    requires |data| == 2 && ConvertsTo(toLatLon, data[0], p1) && ConvertsTo(toLatLon, data[1], p2)
    ensures Survivors(data, toLatLon) == [p1, p2]
  {
    var rows := AttachLatLon(data, toLatLon);
    assert rows[1..][1..] == [];
    assert DropNa(rows[1..]) == [p2];
  }

  /**
   * Two sightings of one object an hour apart, both converted: the first has
   * undefined speed and the second the leg's length in miles per hour; for two
   * sightings at the same spot (a leg of length 0) that speed is 0.
   */
  lemma {:induction false} TwoSightingsOneHourApart(
    toLatLon: Converter, haversine: Haversine, id: string, m1: string, m2: string, t: int,
    lat1: real, lon1: real, lat2: real, lon2: real)
    requires toLatLon(m1) == Some((lat1, lon1)) && toLatLon(m2) == Some((lat2, lon2))
    ensures var data := [RawRow(id, m1, t), RawRow(id, m2, t + 3600)];
            var speed := Finite(haversine(lat1, lon1, lat2, lon2) * KmToMiles);
            Process(data, toLatLon, haversine) == Success(Rows([
              TrackPoint(id, t, lat1, lon1, NaN),
              TrackPoint(id, t + 3600, lat2, lon2, speed)]))
    ensures haversine(lat1, lon1, lat2, lon2) == 0.0 ==>
            Process([RawRow(id, m1, t), RawRow(id, m2, t + 3600)], toLatLon, haversine)
              .value.points[1].speed == Finite(0.0)
  {
    var data := [RawRow(id, m1, t), RawRow(id, m2, t + 3600)];
    var p1, p2 := Point(id, t, lat1, lon1), Point(id, t + 3600, lat2, lon2);
    SurvivorsOfTwo(data, toLatLon, p1, p2);
    PairOfOneTrackIsSorted(p1, p2);
    var s := [p1, p2];
    var miles := haversine(lat1, lon1, lat2, lon2) * KmToMiles;
    assert Leg(haversine, s[0], s[1]) * KmToMiles == miles;
    OneHour(miles);
    assert SpeedAt(s, 1, haversine) == Finite(miles);
    assert Enriched(s, haversine) == [
      TrackPoint(id, t, lat1, lon1, NaN), TrackPoint(id, t + 3600, lat2, lon2, Finite(miles))];
  }

  /** Two rows of one object in time order are already sorted. */
  lemma PairOfOneTrackIsSorted(p1: Point, p2: Point)
    requires p1.adId == p2.adId && p1.dtg <= p2.dtg
    ensures SortByKey([p1, p2]) == [p1, p2]
  {
    assert [p1, p2][1..] == [p2];
    assert SortByKey([p2]) == [p2];
    assert SortByKey([p1, p2]) == Insert(p1, [p2]) == [p1, p2];
  }

  /** Over exactly one hour the speed in miles per hour is the distance in miles. */
  lemma OneHour(miles: real)
    ensures MilesPerHour(miles, 3600) == Finite(miles)
  {
  }

  /** Two converted sightings of two different objects: each starts its own track, so neither has a speed. */
  lemma {:induction false} TwoObjectsBothUndefined(
    toLatLon: Converter, haversine: Haversine, id1: string, id2: string, m1: string, m2: string,
    t1: int, t2: int, lat1: real, lon1: real, lat2: real, lon2: real)
    requires id1 != id2
    requires toLatLon(m1) == Some((lat1, lon1)) && toLatLon(m2) == Some((lat2, lon2))
    ensures var data := [RawRow(id1, m1, t1), RawRow(id2, m2, t2)];
            exists pts: seq<TrackPoint> :: Process(data, toLatLon, haversine) == Success(Rows(pts)) &&
              |pts| == 2 && pts[0].speed == NaN && pts[1].speed == NaN
  {
    var data := [RawRow(id1, m1, t1), RawRow(id2, m2, t2)];
    var p1, p2 := Point(id1, t1, lat1, lon1), Point(id2, t2, lat2, lon2);
    SurvivorsOfTwo(data, toLatLon, p1, p2);
    var s := SortByKey([p1, p2]);
    assert [p1, p2][1..] == [p2];
    assert SortByKey([p2]) == [p2];
    assert s == Insert(p1, [p2]);
    if KeyLe(p1, p2) {
      assert s == [p1, p2];
    } else {
      assert s == [p2] + Insert(p1, []);
    }
    assert s[0].adId != s[1].adId;
    var pts := Enriched(s, haversine);
    assert Process(data, toLatLon, haversine) == Success(Rows(pts));
    assert IsTrackStart(s, 1);
  }
}
