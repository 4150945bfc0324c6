# tilesmapaqi: the sample-to-grid pipeline, in Dafny

This project models the three programs at the core of tilesmapaqi. Each one
turns point samples read from a database into a regular grid for a web map.

- **main.py, the AQI overlay service.** It keeps rows whose latitude lies in
  [-90, 90] and normalises their longitude into [-180, 180). It converts
  PM2.5 to the AQI with a six-band breakpoint table and interpolates the AQI
  onto a north-up 500 x 500 grid. The bounds are the sample extrema, and a
  longitude span wider than 180 degrees is clamped to the whole globe. Each
  cell is coloured by band, or left transparent where the interpolation
  gives NaN. The result is cached under a key that changes once per UTC hour
  (`airqo:aqi_overlay:%Y-%m-%dT%H`, ten-minute TTL). A failing cache read is
  treated as a miss and a failing cache write is ignored. A failing query answers 500, no valid rows 404.
- **manage.py, the map script.** It builds the same overlay on a south-first
  grid with plain extrema bounds. It repeats the rendered image three times
  horizontally and widens the overlay bounds by one image width on each side.
- **app.py, the wind API.** It drops rows off the globe or with a negative
  speed. It rounds coordinates to 0.1 degree and keeps the last (u, v) per
  rounded point, the distinct latitudes (north first) and longitudes (west
  first), and the latest timestamp. It flattens the field row by row into
  the u and v arrays of two GRIB2-style records. The shared header carries
  the grid size, the corner coordinates, the spacing and the reference time.

Modules:

- `Wrappers`: Option and Result.
- `Aqi`: longitude normalisation, PM2.5 to AQI and the colour table. These
  are shared, because main.py and manage.py carry identical copies.
- `Raster`: numpy's min/max, `linspace`, and the colour loop over a 2-D
  array.
- `AqiService`: main.py.
- `AqiMap`: manage.py.
- `Wind`: app.py.

Modelling choices:

- Reals are exact.
- Python's `int()` is truncation toward zero.
- Python's float `%` is the floored remainder, over exact reals: the result
  has the divisor's sign.
- `round(x, 1)` is round-half-even of 10x, kept as an integer count of
  tenths.
- `round(x, 2)` is round-half-even of 100x, divided by 100.
- scipy's `griddata` is a parameter: a pure function from the samples and
  one grid point to `Option<real>`, where `None` stands for NaN.
- The wind conversion `(speed, direction) -> (u, v)` is a parameter.
- The database rows, the clock readings and whether each cache call raises
  are inputs; the cache read and the cache write can fail independently.

The AQI conversion follows the code as written:

- Its breakpoints are those of the pre-2024 US EPA PM2.5 table (first band
  0-12.0), with the EPA's two top bands merged into 250.5-500.4 -> 301-500.
- It does not clamp at 500.
- main.py reads the `pm10` column but converts it with the PM2.5 table. The
  model takes the value as given.

## Model

| member | source | states |
|---|---|---|
| Aqi.FloorMod360 | main.py:76 | over exact reals, `% 360` lies in [0, 360) and differs from its argument by a whole number of turns |
| Aqi.NormalizeLongitude | main.py:75-76 | the result lies in [-180, 180) and differs from the input by a whole number of turns |
| Aqi.NormalizeLongitudeUnique | main.py:75-76 | any value in [-180, 180) that is a whole number of turns from the input is the normalised longitude: the result is unique |
| Aqi.NormalizeLongitudeIdentity | main.py:75-76 | a longitude already in [-180, 180) is left unchanged |
| Aqi.NormalizeLongitudeIdempotent | main.py:75-76 | normalising twice gives the same as normalising once |
| Aqi.RawAqi | main.py:62-73 | the band formula before `int()`: each band's values lie above the previous band's top index and at most its own (<= 50, (50, 100], ..., > 300) |
| Aqi.Trunc | main.py:63 | `int()` truncates toward zero: for x >= 0, n <= x < n+1; for x < 0, n-1 < x <= n |
| Aqi.Pm25ToAqi | main.py:61-73 | a non-negative concentration gives a non-negative index and a negative one a non-positive index |
| Aqi.RawAqiMonotone | main.py:61-73 | the six-band linear formula never decreases, including across the band boundaries |
| Aqi.Pm25ToAqiMonotone | manage.py:46-58 | pm25_to_aqi is monotone: a <= b implies aqi(a) <= aqi(b) |
| Aqi.Pm25ToAqiBreakpoints | main.py:61-73 | 0 maps to 0 and each band's upper breakpoint to the band's top index: 12 to 50, 35.4 to 100, 55.4 to 150, 150.4 to 200, 250.4 to 300, 500.4 to 500 |
| Aqi.Pm25ToAqiNoClamp | main.py:72-73 | the last band is not capped: 502 gives more than 500, and any bound is exceeded by a large enough concentration |
| Aqi.AqiToColor | main.py:47-59 | each of the six colours is returned exactly on its band (<= 50 green, (50, 100] yellow, ..., > 300 maroon), always opaque |
| Aqi.CellColour | main.py:126-129 | a cell is transparent exactly when the interpolation is NaN, and otherwise gets its band colour |
| Raster.Lats | main.py:105 | one latitude per sample |
| Raster.Lons | main.py:106 | one longitude per sample |
| Raster.Aqis | main.py:108 | one AQI per sample |
| Raster.SeqMin | main.py:110-111 | `.min()` is an element of the array and not above any element |
| Raster.SeqMax | main.py:110-111 | `.max()` is an element of the array and not below any element |
| Raster.Linspace | main.py:116-119 | `np.linspace` yields exactly n values |
| Raster.FractionInUnit | main.py:117 | step k of d is a fraction in [0, 1], and step d is exactly 1 |
| Raster.LerpWithin | main.py:117 | a point a fraction in [0, 1] along a span lies inside that span |
| Raster.LinspaceWithin | main.py:116-119 | the first value is `start`, the last is `stop` (n >= 2), and every value lies between them |
| Raster.LinspaceReversed | manage.py:70 | a linspace from stop to start is the one from start to stop read backwards |
| Raster.Pixels | main.py:131-136 | the image as rows of pixels, as it goes into the response; every pixel is the image's pixel at that row and column |
| Raster.Colourise | main.py:123-129 | the RGBA image has the field's shape and every cell is written with the cell's colour |
| AqiService.Validate | main.py:96-98 | one row yields at most one output row, and exactly one when its latitude is in [-90, 90]; properties of the whole loop in ValidDataSingle |
| AqiService.ValidData | main.py:94-99 | never more rows than fetched; every kept row has a valid latitude and a longitude in [-180, 180) |
| AqiService.ValidDataConcat | main.py:95-98 | rows are judged one at a time: filtering a concatenation concatenates the filtered parts in order |
| AqiService.ValidDataSingle | main.py:96-98 | one row survives exactly when its latitude is in [-90, 90], with the longitude normalised and pm unchanged |
| AqiService.ValidDataIdempotent | main.py:94-99 | validated data pass a second validation unchanged |
| AqiService.FetchAqiData | main.py:94-99 | the loop returns exactly the specified filtered, normalised rows |
| AqiService.MainBounds | main.py:110-114 | the latitude bounds are the sample extrema; the longitude bounds are the extrema when no two samples lie more than 180 degrees apart, and [-180, 180] otherwise |
| AqiService.LatAxis | main.py:118 | one latitude per grid row, from lat_max down to lat_min; endpoints and containment in MainGridOrientation |
| AqiService.LonAxis | main.py:117 | one longitude per grid column, from lon_min to lon_max; endpoints and containment in MainGridOrientation |
| AqiService.MainGridOrientation | main.py:116-119 | row 0 of the grid lies on lat_max and the last row on lat_min; column 0 on lon_min and the last on lon_max; every grid point is inside the bounds |
| AqiService.CreateInterpolatedOverlay | main.py:101-129 | empty data gives None; otherwise a resolution x resolution image with MainBounds whose every pixel is the colour of the interpolated AQI at its grid point |
| AqiService.Pad | main.py:157 | a zero-padded field has exactly `width` characters |
| AqiService.PadInjective | main.py:157 | zero-padding is one-to-one on numbers that fit the width |
| AqiService.HourStamp | main.py:157 | `%Y-%m-%dT%H` is 13 characters long |
| AqiService.HourStampFields | main.py:157 | year, month, day and hour sit at fixed positions of the stamp |
| AqiService.HourStampInjective | main.py:157 | different hours give different stamps |
| AqiService.CacheKey | main.py:157-158 | the key is the fixed prefix followed by the 13-character stamp |
| AqiService.CacheKeyPerHour | main.py:157-158 | two requests share a cache key exactly when they fall in the same UTC hour |
| AqiService.CacheStore.constructor | main.py:38-43 | a store starts with the given entries |
| AqiService.CacheStore.Get | main.py:161-166 | a call that does not raise returns the entry for the key or nothing; one that raises gives an error |
| AqiService.CacheStore.SetEx | main.py:178-181 | a call that does not raise maps the key to the new value and keeps every other entry; one that raises gives an error and changes nothing |
| AqiService.GetAqiData | main.py:154-186 | a cache hit returns the cached artifact without fetching; otherwise the query runs; a query error answers 500 and no valid row 404; else the artifact has MainBounds and the band colour of every interpolated cell, and is stored under the hour's key unless the cache write raises; the cache read and the cache write fail or succeed independently; nothing is stored unless an overlay was built |
| AqiMap.MapBounds | manage.py:67-68 | both latitude and longitude bounds are the sample extrema, with no clamp |
| AqiMap.LatAxis | manage.py:70 | one latitude per grid row, from lat_min up to lat_max; relation to main.py's axis in MapGridOrientation |
| AqiMap.MapGridOrientation | manage.py:70 | the mgrid rows run south to north: row k here is row n-1-k of main.py's grid; the first row is lat_min and the last lat_max |
| AqiMap.CreateInterpolatedOverlay | manage.py:61-82 | a resolution x resolution image with MapBounds whose every pixel is the colour of the interpolated AQI on the south-first grid |
| AqiMap.Paste | manage.py:101 | the source's pixels land at columns xoff.., clipped to the destination; every other pixel is kept |
| AqiMap.TileColumn | manage.py:100-101 | a column of the k-th tile shows column (x mod w) of the original |
| AqiMap.RepeatHorizontally | manage.py:97-101 | the result is three times as wide and every column x shows column x mod w of the original |
| AqiMap.ExtendedBounds | manage.py:110-114 | latitude is unchanged; the longitude span triples, with the middle tile exactly on the original bounds and one tile-width strip on each side |
| AqiMap.AddImageOverlay | manage.py:85-122 | the overlay is the tiled image placed on the extended bounds |
| AqiMap.RunScript | manage.py:125-135 | no data gives no overlay; otherwise the 500 x 500 overlay of the data |
| Wind.Kept | app.py:71-72 | definition: a row is kept when its latitude is in [-90, 90], its longitude in [-180, 180] and its speed is not negative; used by CellsKeys and CreateGrid |
| Wind.RoundHalfEven | app.py:74 | `round` lands within half a unit of its argument, and on the even integer at a tie |
| Wind.Tenths | app.py:74 | `round(x, 1)` counted in tenths lies within 0.05 degree of x |
| Wind.KeyOf | app.py:71-74 | a kept row's rounded key stays within +-90 degrees latitude and +-180 degrees longitude |
| Wind.Cells | app.py:70-82 | the dictionary after the loop; every key lies within +-90 degrees latitude and +-180 degrees longitude; membership in CellsKeys, values in CellsLastWriteWins |
| Wind.NextRefTime | app.py:84-85 | one update of ref_time: it is the old value or the new timestamp, an unset ref_time takes the new timestamp, once set it is never None again and never decreases, and it is at least a non-NULL new timestamp |
| Wind.RefTime | app.py:68-85 | definition: ref_time after the loop; properties in RefTimeIsLatest |
| Wind.CellsKeys | app.py:70-82 | a key is in the grid exactly when some kept row rounds to it |
| Wind.CellsLastWriteWins | app.py:80 | a key holds the velocity of the last kept row that rounds to it |
| Wind.RefTimeIsLatest | app.py:84-85 | ref_time is None exactly when no kept row has a time; otherwise it is the time of a kept row and no kept row's time is later |
| Wind.FirstExists | app.py:87 | a non-empty set has a first element in either sort order |
| Wind.Sorted | app.py:87 | `sorted` lists every element of the set once, strictly ascending or strictly descending |
| Wind.KeptRowsFillAxes | app.py:88-92 | the axes are both non-empty exactly when some row was kept |
| Wind.CreateGrid | app.py:65-94 | None exactly when no row is kept; otherwise the last-write-wins map, the latest time, and axes that list the keys' latitudes north to south and longitudes west to east, each once, with nx and ny their lengths |
| Wind.At | app.py:101 | definition: the stored velocity, or (0, 0) when the point has none; used by FlatAt |
| Wind.Row | app.py:100-101 | one value per longitude |
| Wind.Us | app.py:102 | one u per point |
| Wind.Vs | app.py:103 | one v per point |
| Wind.Flat | app.py:99-103 | definition: the rows of the field in the order of the latitudes; length in FlatLength, layout in FlatAt |
| Wind.ProjectAppend | app.py:102-103 | appending a point appends its u and its v |
| Wind.FlatLength | app.py:99-103 | the flattened field has |lats| x |lons| entries |
| Wind.FlatAt | app.py:99-103 | entry i*|lons|+j is the velocity stored at (lats[i], lons[j]), zero when there is none |
| Wind.FlattenField | app.py:97-103 | the nested loops produce the u and v values of the field in row-major order |
| Wind.Hundredths | app.py:109-110 | round(_, 2): within half a hundredth of its argument, and not negative for a non-negative argument |
| Wind.Spacing | app.py:109-110 | definition: dx and dy, the span over n-1 steps rounded to two decimals; properties in SpacingSpan |
| Wind.Slack | app.py:109-110 | the most that n-1 rounded steps can miss the span by, (n-1) x 0.005, never negative and 0 for a single point |
| Wind.SpacingSpan | app.py:109-110 | n-1 steps of dx/dy cover the span up to the slack, in both directions; the spacing of an ordered span is not negative; a single point gives 0.1 |
| Wind.RoundedSpacingOverruns | app.py:109-110 | longitudes 0.0 .. 0.5 over 4 columns give dx = 0.17, so the last announced column (0.51) lies past lo2 |
| Wind.UnevenAxisMisplaced | app.py:109-118 | longitudes 0.0, 0.1, 0.5 give dx = 0.25, so a reader places column 1 at 0.25 and not at 0.1: the header assumes an evenly spaced axis |
| Wind.StepWithin | app.py:109-110 | every step of the spacing stays within the span, up to the slack |
| Wind.AxisSteps | app.py:109-122 | along one axis: the spacing is not negative, every step stays in the span up to the slack, and the last step reaches the far end up to the slack |
| Wind.CreateVelocityComponents | app.py:96-136 | Some exactly when |lats| x |lons| = nx x ny; the data are the flattened field; the two headers differ only in parameterNumber (2 and 3, category 2, unit m.s-1); the corners are the axes' ends; dx/dy are the rounded even spacing; refTime is the grid's time, or the clock when there is none |
| Wind.SpacedHeaderCoversGrid | app.py:109-122 | with these corners and rounded spacings, every point of the announced nx x ny grid lies inside the corners up to the slack, and the last column and row reach the far corners up to the slack |
| Wind.BuildWindField | app.py:148-163 | no rows gives "No wind data found", no kept row "Failed to generate grid"; success exactly when some row is kept. Then both axes are non-empty, the data are the flattened field, the headers differ only in parameterNumber, the unit is m.s-1, the corners are the axes' first and last entries, dx/dy are the rounded even spacing, refTime is the latest time or the clock, and the header covers the grid up to the rounding slack |

## Left out

- The database connections and queries. The fetched rows are inputs.
- `fetch_wind_data` swallows database errors into an empty list. Its empty
  result is the `rows == []` case of BuildWindField.
- main.py's generic exception handler is partly modelled. Only a failing
  query, the `Err` input of GetAqiData, answers 500. Exceptions raised inside
  griddata (for example Qhull's on degenerate inputs) are not modelled.
- scipy's cubic `griddata` is a parameter, applied one grid point at a time.
- matplotlib's `to_rgba` is modelled as the six hex colours, as exact
  fractions of 255.
- These encodings are left out: the conversion of the RGBA image to `uint8`,
  PNG and base64 data URLs, JSON serialisation, and `isoformat` of the
  generation time.
- matplotlib rendering (`imshow` and `savefig` at 1000 dpi with a tight bounding
  box). AddImageOverlay takes the rendered image as its input. The folium map
  and HTML output are left out too.
- The Redis TTL (600 s is passed but expiry is not modelled), the connection
  setup and the logging of errors.
- The HTTP layer: FastAPI and Flask routing, CORS headers, the OPTIONS
  preflight answer and status codes on app.py's error responses.
- IEEE-754 floating point: rounding of the band formulas and of `linspace`,
  NaN comparisons in filters, and binary representation effects in
  `round(x, 1)`.
- Aqi.NormalizeLongitude: the model works over exact reals. Python's float
  `%` rounds `360 - tiny` up to `360.0`, so `normalize_longitude` can return
  `180.0` (for example, for `-180.00000000000003`). The model's result is
  always in [-180, 180).
- Wind.CreateVelocityComponents: the header's `refTime` is the timestamp as
  a number; its `strftime` formatting is not modelled.
- Wind.Spacing: dx and dy are rounded to two decimals over exact reals, so
  the model promises coverage of the announced grid only up to
  (n-1) x 0.005 degrees (Slack), not exactly: for longitudes 0.0, 0.1, 0.3,
  0.5, dx is 0.17 and the last announced column is 0.51, past lo2 = 0.5
  (RoundedSpacingOverruns).
- Wind.BuildWindField: the header covers the grid only up to that slack
  (SpacingSpan, SpacedHeaderCoversGrid). The announced columns and rows sit
  at the data's own coordinates only when the axes are evenly spaced; the
  program does not check this, and the model does not promise it
  (UnevenAxisMisplaced).
- Wind's conversion from speed and direction to (u, v) uses `math.radians`,
  `sin`, `cos` and `round(_, 2)`. It is a parameter.
- AqiService.HourStamp: strftime is modelled only for years 1000-9999 and
  in-range month, day and hour (ValidBucket).
- AqiService.GetAqiData: the "Could not generate overlay" branch is kept in
  the body, but it cannot be taken, because the data are non-empty at that
  point.
- manage.py's `fetch_aqi_data` only repackages the query's rows. Its output
  is the `data` input of RunScript.
- manage.py's default resolution of 1000 is not used: the script calls with
  500, ScriptResolution.
