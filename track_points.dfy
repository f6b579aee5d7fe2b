/**
 * The rows of the track table and the first two steps of `process_dataframe`:
 * attaching latitude/longitude to every row through the grid-coordinate
 * converter, and dropping the rows whose conversion failed.
 */
module TrackPoints {
  import opened Wrappers

  /**
   * The grid-coordinate converter (`mgrs.MGRS().toLatLon`): a partial map from a
   * coordinate string to (latitude, longitude). `None` is an exception.
   */
  type Converter = string -> Option<(real, real)>

  /** An input row: the `AdID`, `MGRS` and (already parsed, in seconds) `DTG` columns. */
  datatype RawRow = RawRow(adId: string, mgrs: string, dtg: int)

  /** A row after the two converted columns are attached; a missing cell is `None`. */
  datatype Annotated = Annotated(
    adId: string, mgrs: string, dtg: int, latitude: Option<real>, longitude: Option<real>)

  /** A row that survived `dropna`: both coordinate cells are present. */
  datatype Point = Point(adId: string, dtg: int, latitude: real, longitude: real)

  /** `mgrs_to_latlon`: the converter's pair, or `(None, None)` when it raises. */
  function MgrsToLatLon(toLatLon: Converter, data: string): (r: (Option<real>, Option<real>))
    ensures r.0.Some? == r.1.Some?
    ensures r.0.Some? <==> toLatLon(data).Some?
    ensures r.0.Some? ==> toLatLon(data) == Some((r.0.value, r.1.value))
  {
    match toLatLon(data)
    case Some((lat, lon)) => (Some(lat), Some(lon))
    case None => (None, None)
  }

  /** The `Latitude` and `Longitude` columns are assigned from the converter, row by row. */
  function AttachLatLon(data: seq<RawRow>, toLatLon: Converter): (r: seq<Annotated>)
    ensures |r| == |data|
    ensures forall i :: 0 <= i < |data| ==>
      r[i].adId == data[i].adId && r[i].mgrs == data[i].mgrs && r[i].dtg == data[i].dtg
    ensures forall i :: 0 <= i < |data| ==>
      (r[i].latitude.None? <==> toLatLon(data[i].mgrs).None?) &&
      (r[i].longitude.None? <==> toLatLon(data[i].mgrs).None?)
    ensures forall i :: 0 <= i < |data| && toLatLon(data[i].mgrs).Some? ==>
      toLatLon(data[i].mgrs) == Some((r[i].latitude.value, r[i].longitude.value))
  {
    seq(|data|, i requires 0 <= i < |data| =>
      var (lat, lon) := MgrsToLatLon(toLatLon, data[i].mgrs);
      Annotated(data[i].adId, data[i].mgrs, data[i].dtg, lat, lon))
  }

  /** `dropna`: keep, in order, the rows in which no coordinate cell is missing. */
  function DropNa(rows: seq<Annotated>): (r: seq<Point>)
  {
    if rows == [] then []
    else
      var tail := DropNa(rows[1..]);
      match (rows[0].latitude, rows[0].longitude)
      case (Some(lat), Some(lon)) => [Point(rows[0].adId, rows[0].dtg, lat, lon)] + tail
      case _ => tail
  }

  /** The rows that reach the sort: converted rows only, in input order. */
  function Survivors(data: seq<RawRow>, toLatLon: Converter): (r: seq<Point>)
  {
    DropNa(AttachLatLon(data, toLatLon))
  }

  /** Input row `row` converts successfully and becomes point `p`. */
  predicate ConvertsTo(toLatLon: Converter, row: RawRow, p: Point)
  {
    toLatLon(row.mgrs) == Some((p.latitude, p.longitude)) && row.adId == p.adId && row.dtg == p.dtg
  }

  /** Number of input rows whose coordinate the converter rejects. */
  function FailedCount(data: seq<RawRow>, toLatLon: Converter): (n: nat)
    ensures n <= |data|
  {
    if data == [] then 0
    else (if toLatLon(data[0].mgrs).None? then 1 else 0) + FailedCount(data[1..], toLatLon)
  }

  /**
   * Every surviving row comes from an input row that converted successfully,
   * every successfully converted row survives, and exactly the failed rows are
   * dropped, so the result is never longer than the input.
   */
  lemma {:induction false} SurvivorsAreConvertedRows(data: seq<RawRow>, toLatLon: Converter)
    ensures |Survivors(data, toLatLon)| == |data| - FailedCount(data, toLatLon)
    ensures |Survivors(data, toLatLon)| <= |data|
    ensures forall p :: p in Survivors(data, toLatLon) ==>
      exists j :: 0 <= j < |data| && ConvertsTo(toLatLon, data[j], p)
    ensures forall j, lat, lon :: 0 <= j < |data| && toLatLon(data[j].mgrs) == Some((lat, lon)) ==>
      Point(data[j].adId, data[j].dtg, lat, lon) in Survivors(data, toLatLon)
  {
    if data != [] {
      var rows := AttachLatLon(data, toLatLon);
      assert rows[1..] == AttachLatLon(data[1..], toLatLon);
      SurvivorsAreConvertedRows(data[1..], toLatLon);
      var tail := Survivors(data[1..], toLatLon);
      assert DropNa(rows[1..]) == tail;
      var here := data[0];
      forall p | p in Survivors(data, toLatLon)
        ensures exists j :: 0 <= j < |data| && ConvertsTo(toLatLon, data[j], p)
      {
        if p in tail {
          var k :| 0 <= k < |data[1..]| && ConvertsTo(toLatLon, data[1..][k], p);
          assert ConvertsTo(toLatLon, data[k + 1], p);
        } else {
          assert ConvertsTo(toLatLon, data[0], p);
        }
      }
      forall j, lat, lon | 0 <= j < |data| && toLatLon(data[j].mgrs) == Some((lat, lon))
        ensures Point(data[j].adId, data[j].dtg, lat, lon) in Survivors(data, toLatLon)
      {
        if j > 0 {
          assert data[1..][j - 1] == data[j];
        }
      }
    }
  }

  /** `dropna` works row by row: dropping from two parts is dropping from each, in order. */
  lemma {:induction false} DropNaConcat(x: seq<Annotated>, y: seq<Annotated>)
    ensures DropNa(x + y) == DropNa(x) + DropNa(y)
  {
    if x == [] {
      assert x + y == y;
    } else {
      assert (x + y)[0] == x[0] && (x + y)[1..] == x[1..] + y;
      DropNaConcat(x[1..], y);
    }
  }

  /**
   * The survivors of a table are the survivors of its parts, in input order; with
   * `SurvivorOfRow` this fixes each survivor's multiplicity and position.
   */
  lemma SurvivorsOfConcat(a: seq<RawRow>, b: seq<RawRow>, toLatLon: Converter)
    ensures Survivors(a + b, toLatLon) == Survivors(a, toLatLon) + Survivors(b, toLatLon)
  {
    assert AttachLatLon(a + b, toLatLon) == AttachLatLon(a, toLatLon) + AttachLatLon(b, toLatLon);
    DropNaConcat(AttachLatLon(a, toLatLon), AttachLatLon(b, toLatLon));
  }

  /** A single row survives, once, as its converted point exactly when it converts. */
  lemma SurvivorOfRow(row: RawRow, toLatLon: Converter)
    ensures Survivors([row], toLatLon) ==
      match toLatLon(row.mgrs)
      case Some((lat, lon)) => [Point(row.adId, row.dtg, lat, lon)]
      case None => []
  {
    var rows := AttachLatLon([row], toLatLon);
    assert rows[1..] == [] && DropNa(rows[1..]) == [];
    match toLatLon(row.mgrs)
    case Some((lat, lon)) =>
      assert rows[0] == Annotated(row.adId, row.mgrs, row.dtg, Some(lat), Some(lon));
    case None =>
      assert rows[0] == Annotated(row.adId, row.mgrs, row.dtg, None, None);
  }
}
