# Track processing of impossible-journey, modelled in Dafny

The application reads a table of sightings: an object identifier (`AdID`), a
military grid reference (`MGRS`) and a date-time group (`DTG`). It converts each
grid reference to latitude and longitude, drops the rows that do not convert,
sorts by identifier and time, and derives for every row the speed from the
previous row. The speed is undefined (NaN) at the first sighting of each object.
A colour chain then bands the speeds for display.

This project models `process_dataframe` and the speed-colour chain of
`highlight_cells`, both in `app.py`.

- `wrappers.dfy`: `Option` and `Result`.
- `string_order.dfy`: Python's string order, used to sort `AdID`s, with its order lemmas.
- `track_points.dfy`: the row types, the coordinate columns attached through the
  converter (failure gives `(None, None)`), and `dropna`.
- `track_sort.dfy`: `sort_values(by=['AdID', 'DTG'])` as a stable insertion sort,
  proved to return a sorted permutation of its input that keeps rows with equal
  keys in input order.
- `speeds.dfy`: the speed values (finite, NaN, plus or minus infinity), numpy's
  division, and the constants 0.621371 and 3600.
- `track_processor.dfy`: the distance loop, the speed columns, the reset at track starts, and the pipeline
  method `ProcessDataframe`. The method is proved equal to `Process`, a row-by-row
  description of the output. `SpeedAt`, inside it, gives each row's speed: NaN at
  a track start, otherwise the leg in miles over the elapsed hours.
- `track_properties.dfy`: what the output satisfies, proved from `Process`.
- `speed_bands.dfy`: the five-branch colour chain.

The pipeline has three outcomes:

- An empty table raises, because unpacking `zip(*...)` into the two coordinate
  columns finds no values. This is `Failure(EmptyInput)`.
- A non-empty table in which no coordinate converts does not raise. `dropna`
  leaves an empty frame, but the distance list is still `[0]`. Pandas gives an
  empty frame that is assigned a one-element list a single row, with every other
  column missing, so the result is one row of missing values with NaN speed.
  This is `Success(MissingRow)`. So `process_dataframe` can return more rows
  than there are converted rows: one row when none converts.
- Otherwise, one row for each converted input row.

The grid-reference converter and the haversine distance are parameters. The
converter is a partial function from a string to a coordinate pair. The
distance is any function of two positions whose result is a non-negative number
of kilometres. Timestamps are whole seconds.

## Model

| member | source | states |
|---|---|---|
| `TrackPoints.MgrsToLatLon` | app.py:26-33 | both cells are present or both missing; they are present exactly when the converter succeeds, and then hold its pair |
| `TrackPoints.AttachLatLon` | app.py:26-36 | one annotated row per input row, with its identifier, reference and time; both coordinate cells are missing exactly when the converter fails, and otherwise hold the converted pair |
| `TrackPoints.SurvivorsOfConcat` | app.py:36-37 | the survivors of a table are the survivors of its first part followed by those of the rest, so `dropna` keeps input order |
| `TrackPoints.SurvivorOfRow` | app.py:26-37 | a single row survives exactly once, as its converted point, when its reference converts, and not at all otherwise |
| `TrackPoints.SurvivorsAreConvertedRows` | app.py:26-37 | every surviving row comes from an input row that converted to its coordinates; every converted row survives; exactly one row is lost per failed conversion, so the output is never longer than the input |
| `StringOrder.StrLessIrreflexive` | app.py:40 | no identifier sorts before itself |
| `StringOrder.StrLessTransitive` | app.py:40 | the identifier order is transitive |
| `StringOrder.StrLessTotal` | app.py:40 | two different identifiers are always ordered one way or the other |
| `StringOrder.StrLessAsymmetric` | app.py:40 | two identifiers are never ordered both ways |
| `TrackSort.Insert` | app.py:40 | inserting a row adds exactly that row (as a multiset) and keeps a sorted sequence sorted |
| `TrackSort.SortByKey` | app.py:40 | the sort returns a permutation of its input, sorted ascending by (AdID, DTG); its stability is `TrackSort.SortKeepsTieOrder` |
| `TrackSort.SortKeepsTieOrder` | app.py:40 | the sort is stable: for every key (AdID, DTG), the rows with that key come out in the order they went in |
| `TrackSort.InsertKeepsTieOrder` | app.py:40 | inserting a row puts it before every row with the same key and does not reorder any key's rows |
| `TrackSort.SameTrackInTimeOrder` | app.py:40 | two rows in key order with one identifier are in timestamp order |
| `TrackSort.EarlierObservationFirst` | app.py:40 | in a sorted sequence, of two rows of one identifier the earlier timestamp comes first |
| `TrackSort.TracksAreContiguous` | app.py:40-54 | in a sorted sequence, a row whose identifier differs from its predecessor's has no earlier row with its identifier |
| `TrackProcessor.PairwiseDistances` | app.py:42-47 | the distance list has one entry per row (and `[0]` for no rows); entry 0 is 0; entry i is the leg from row i-1 to row i across the whole sequence, not restarted per identifier; every entry is non-negative |
| `TrackProcessor.RawSpeedColumn` | app.py:49-51 | from the time differences (the first filled as 0) and the distances in miles (km times 0.621371), row 0's speed is NaN (0/0) and row i's is the leg from row i-1 in miles over the elapsed hours |
| `TrackProcessor.ResetTrackStarts` | app.py:53-54 | the speed becomes NaN at row 0 and at every row whose identifier differs from the previous row's, and is unchanged elsewhere |
| `TrackProcessor.ProcessDataframe` | app.py:35-56 | the column-by-column pipeline returns exactly `Process`: the error on an empty table, the single missing row when nothing converts, otherwise the five projected columns with `SpeedAt` speeds |
| `TrackProperties.RowsAreSortedSurvivors` | app.py:40-56 | the output rows' AdID, DTG, Latitude and Longitude are the sorted surviving rows' values, unchanged, and each speed is `SpeedAt` of those rows |
| `TrackProperties.Outcomes` | app.py:35-47 | the pipeline raises exactly on an empty table, returns the single missing row exactly when every conversion fails, and returns rows exactly when some row converts |
| `TrackProperties.OnlyConvertedRowsSortedByKey` | app.py:36-40 | the output is a permutation of the converted rows sorted by (AdID, DTG); it is one row shorter per failed conversion; every output row comes from an input row that converted to its coordinates |
| `TrackProperties.EarlierTimestampFirst` | app.py:40 | of two output rows of one identifier, the one with the earlier timestamp comes first |
| `TrackProperties.TiedRowsKeepInputOrder` | app.py:37-40 | for every key (AdID, DTG), the output rows with that key are the surviving input rows with that key, in input order |
| `TrackProperties.TrackStartsHaveUndefinedSpeed` | app.py:53-54 | the speed is NaN at row 0 and wherever the identifier changes; these are exactly the rows with no earlier row of their identifier, that is the first sighting of each object |
| `TrackProperties.SpeedWithinTrack` | app.py:40-51 | within a track the elapsed time is non-negative and the speed is `MilesPerHour` of the leg in miles (haversine km times 0.621371) and the elapsed seconds, with no clamping or rounding (the cases of that quotient are `Speeds.MilesPerHourCases`); a finite speed is never negative |
| `TrackProperties.TwoSightingsOneHourApart` | app.py:35-56 | two sightings of one object an hour apart give an undefined first speed and the leg in miles as the second; for a zero-length leg the second speed is 0 |
| `TrackProperties.TwoObjectsBothUndefined` | app.py:35-56 | two sightings of different objects both have undefined speed |
| `Speeds.MilesPerHourCases` | app.py:50-51 | for a non-negative leg and elapsed time, the speed is finite and non-negative when time passed, and infinite or NaN (0/0) when it did not |
| `SpeedBands.Classify` | app.py:85-95 | green below 75 (and minus infinity); orange from 75 to under 100; red from 100 to under 350; blue from 350 to under 575; everything else (575 and up, plus infinity, NaN) takes the final branch |
| `SpeedBands.NonFiniteSpeedsAreRed` | app.py:94-95 | an undefined or positive-infinite speed takes the final branch and is coloured red |
| `SpeedBands.ColourBySpeed` | app.py:85-95 | the cell colour by speed range: green below 75, orange from 75 to under 100, blue from 350 to under 575, red from 100 to under 350 and for 575 and up, infinity and NaN |

## Left out

- Haversine trigonometry, the 6371.0 km radius and floating-point rounding (app.py:10-24): the distance is a parameter returning a non-negative real. Speeds are exact reals, not doubles.
- MGRS decoding (app.py:27-29): the `mgrs` library is foreign code. The converter is a parameter returning `None` where the library raises. The logging of the failure (app.py:32) is output only.
- Timestamp parsing with format `%Y%m%d %H:%M%z` (app.py:39): this is a library call. Timestamps are given already parsed, as integer seconds. An unparseable timestamp raises out of the pipeline, and app.py:141 only displays the error.
- A table without an `MGRS`, `DTG` or `AdID` column raises `KeyError` (app.py:36, app.py:39, app.py:40), which ends the batch. `RawRow` always has the three columns, so that error is not modelled.
- `dropna` also drops rows that have a missing value in some other column (app.py:37). The model drops only rows whose coordinates are missing.
- `AdID` is modelled as a string compared in Python's string order. A CSV whose `AdID` column is all numeric is read as numbers and sorted numerically; that case is not modelled.
- The in-place changes `process_dataframe` makes to the caller's frame (the added coordinate columns and the dropped rows) are not modelled. The caller does not use that frame again.
- The HTML strings in `highlight_cells` (app.py:70-104), the two legend texts (app.py:60-68, app.py:117-125) and the Streamlit page, upload, selection and filter (app.py:8, app.py:107-142) are presentation only. The legends disagree with each other and with the colour chain; the model follows the chain.
