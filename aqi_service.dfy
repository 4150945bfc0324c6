/**
 * The AQI overlay service of main.py: validation of the fetched rows,
 * the raster overlay with its antimeridian clamp, the hour-bucket cache
 * key and the cache-then-generate request flow of get_aqi_data.
 *
 * The database query, scipy's griddata, PNG/base64 encoding, JSON
 * serialisation and the wall clock are outside the model: the fetched
 * rows, an interpolator and the current time are parameters.
 */
module AqiService {
  import opened Wrappers
  import opened Aqi
  import opened Raster

  /** create_interpolated_overlay's default resolution. */
  const Resolution: nat := 500

  // ---------------------------------------------------------------------
  // fetch_aqi_data: the validation loop over the fetched rows
  // ---------------------------------------------------------------------

  predicate ValidLatitude(lat: real)
  {
    -90.0 <= lat <= 90.0
  }

  /** What the loop appends for one fetched row. */
  function Validate(row: PmRow): (kept: seq<PmRow>)
    ensures |kept| <= 1
    ensures |kept| == 1 <==> ValidLatitude(row.lat)
  {
    if ValidLatitude(row.lat) then [PmRow(row.lat, NormalizeLongitude(row.lon), row.pm)] else []
  }

  /** The rows the loop keeps, in their original order. */
  function ValidData(rows: seq<PmRow>): (valid: seq<PmRow>)
    ensures |valid| <= |rows|
    ensures forall k :: 0 <= k < |valid| ==>
      ValidLatitude(valid[k].lat) && -180.0 <= valid[k].lon < 180.0
  {
    if rows == [] then []
    else ValidData(rows[..|rows| - 1]) + Validate(rows[|rows| - 1])
  }

  /** Filtering distributes over concatenation: rows are judged one at a
      time and the survivors keep their relative order. */
  lemma {:induction false} ValidDataConcat(a: seq<PmRow>, b: seq<PmRow>)
    ensures ValidData(a + b) == ValidData(a) + ValidData(b)
    decreases |b|
  {
    if b == [] {
      assert a + b == a;
    } else {
      var b' := b[..|b| - 1];
      assert (a + b)[..|a + b| - 1] == a + b';
      assert (a + b)[|a + b| - 1] == b[|b| - 1];
      ValidDataConcat(a, b');
    }
  }

  /** A row survives exactly when its latitude is valid; it then carries the
      normalised longitude and its measured value unchanged. */
  lemma ValidDataSingle(row: PmRow)
    ensures ValidData([row]) == Validate(row)
  {
    assert [row][..0] == [];
  }

  /** Already validated rows pass through unchanged. */
  lemma {:induction false} ValidDataIdempotent(rows: seq<PmRow>)
    ensures ValidData(ValidData(rows)) == ValidData(rows)
    decreases |rows|
  {
    if rows != [] {
      var init := rows[..|rows| - 1];
      var last := rows[|rows| - 1];
      ValidDataIdempotent(init);
      ValidDataConcat(ValidData(init), Validate(last));
      if ValidLatitude(last.lat) {
        var kept := PmRow(last.lat, NormalizeLongitude(last.lon), last.pm);
        NormalizeLongitudeIdempotent(last.lon);
        ValidDataSingle(kept);
      } else {
        assert ValidData([]) == [];
      }
    }
  }

  /** The loop at main.py:94-99 over the rows the query returned. */
  method FetchAqiData(rows: seq<PmRow>) returns (valid: seq<PmRow>)
    ensures valid == ValidData(rows)
  {
    valid := [];
    for i := 0 to |rows|
      invariant valid == ValidData(rows[..i])
    {
      assert rows[..i + 1][..i] == rows[..i];
      var row := rows[i];
      if -90.0 <= row.lat <= 90.0 {
        var normLon := NormalizeLongitude(row.lon);
        valid := valid + [PmRow(row.lat, normLon, row.pm)];
      }
    }
    assert rows[..|rows|] == rows;
  }

  // ---------------------------------------------------------------------
  // create_interpolated_overlay
  // ---------------------------------------------------------------------

  /** No two samples are more than 180 degrees of longitude apart. */
  predicate SpanWithin180(s: seq<real>)
  {
    forall i, j :: 0 <= i < |s| && 0 <= j < |s| ==> s[i] - s[j] <= 180.0
  }

  /** The raster bounds: the sample extrema, except that a longitude span
      wider than 180 degrees is taken as wrapping the antimeridian and
      replaced by the whole [-180, 180]. */
  function MainBounds(data: seq<PmRow>): (b: Box)
    requires |data| > 0
    ensures b.latMin <= b.latMax && b.lonMin <= b.lonMax
    ensures Extremes(b.latMin, b.latMax, Lats(data))
    ensures SpanWithin180(Lons(data)) ==> Extremes(b.lonMin, b.lonMax, Lons(data))
    ensures !SpanWithin180(Lons(data)) ==> b.lonMin == -180.0 && b.lonMax == 180.0
  {
    var lons := Lons(data);
    var lonMin, lonMax := SeqMin(lons), SeqMax(lons);
    assert SpanWithin180(lons) <==> lonMax - lonMin <= 180.0 by {
      if !SpanWithin180(lons) {
        var i, j :| 0 <= i < |lons| && 0 <= j < |lons| && lons[i] - lons[j] > 180.0;
        assert lons[i] <= lonMax && lonMin <= lons[j];
      }
    }
    var b := Box(SeqMin(Lats(data)), SeqMax(Lats(data)), lonMin, lonMax);
    if b.lonMax - b.lonMin > 180.0 then b.(lonMin := -180.0, lonMax := 180.0) else b
  }

  /** The overlay before encoding: the colour image and its bounds. */
  datatype Overlay = Overlay(image: array2<Rgba>, bounds: Box)

  /** Row i of main.py's grid is at latitude LatAxis[i]: north (lat_max) first. */
  function LatAxis(b: Box, resolution: nat): (axis: seq<real>)
    ensures |axis| == resolution
  {
    Linspace(b.latMax, b.latMin, resolution)
  }

  /** Column j of the grid is at longitude LonAxis[j]: west (lon_min) first. */
  function LonAxis(b: Box, resolution: nat): (axis: seq<real>)
    ensures |axis| == resolution
  {
    Linspace(b.lonMin, b.lonMax, resolution)
  }

  /** The grid is north-up: row 0 lies on lat_max, the last row on lat_min,
      column 0 on lon_min, the last column on lon_max, and every grid
      point lies inside the bounds. */
  lemma MainGridOrientation(b: Box, resolution: nat)
    requires b.latMin <= b.latMax && b.lonMin <= b.lonMax
    requires 2 <= resolution
    ensures LatAxis(b, resolution)[0] == b.latMax
    ensures LatAxis(b, resolution)[resolution - 1] == b.latMin
    ensures LonAxis(b, resolution)[0] == b.lonMin
    ensures LonAxis(b, resolution)[resolution - 1] == b.lonMax
    ensures forall i :: 0 <= i < resolution ==>
      b.latMin <= LatAxis(b, resolution)[i] <= b.latMax &&
      b.lonMin <= LonAxis(b, resolution)[i] <= b.lonMax
  {
    LinspaceWithin(b.latMax, b.latMin, resolution);
    LinspaceWithin(b.lonMin, b.lonMax, resolution);
  }

  /** Interpolated AQI of cell (i, j). */
  function GridValue(data: seq<PmRow>, griddata: Interpolator, b: Box, resolution: nat, i: nat, j: nat): Option<real>
    requires i < resolution && j < resolution
  {
    griddata(Lats(data), Lons(data), Aqis(data), LatAxis(b, resolution)[i], LonAxis(b, resolution)[j])
  }

  /** Empty input gives None; otherwise every cell of the
      resolution x resolution image is written: transparent where the
      interpolation is NaN, the band colour of the interpolated AQI
      elsewhere. */
  method CreateInterpolatedOverlay(data: seq<PmRow>, resolution: nat, griddata: Interpolator)
    returns (r: Option<Overlay>)
    ensures r.None? <==> data == []
    ensures r.Some? ==>
      && fresh(r.value.image)
      && r.value.bounds == MainBounds(data)
      && r.value.image.Length0 == resolution && r.value.image.Length1 == resolution
      && forall i, j :: 0 <= i < resolution && 0 <= j < resolution ==>
           r.value.image[i, j] == CellColour(GridValue(data, griddata, r.value.bounds, resolution, i, j))
  {
    if |data| == 0 {
      return None;
    }
    var lats, lons, aqis := Lats(data), Lons(data), Aqis(data);
    var b := MainBounds(data);
    var gridLat, gridLon := LatAxis(b, resolution), LonAxis(b, resolution);
    var field := new Option<real>[resolution, resolution](
      (i: int, j: int) requires 0 <= i < resolution && 0 <= j < resolution =>
        griddata(lats, lons, aqis, gridLat[i], gridLon[j]));
    var img := Colourise(field);
    r := Some(Overlay(img, b));
  }

  // ---------------------------------------------------------------------
  // The hour-bucket cache key
  // ---------------------------------------------------------------------

  /** A UTC wall-clock reading, as datetime.utcnow() gives it. */
  datatype UtcTime = UtcTime(year: nat, month: nat, day: nat, hour: nat, minute: nat, second: nat)

  /** The part of a time that survives strftime("%Y-%m-%dT%H"). */
  datatype HourBucket = HourBucket(year: nat, month: nat, day: nat, hour: nat)

  function HourOf(t: UtcTime): HourBucket
  {
    HourBucket(t.year, t.month, t.day, t.hour)
  }

  /** A four-digit year and in-range month, day and hour. */
  predicate ValidBucket(h: HourBucket)
  {
    1000 <= h.year <= 9999 && 1 <= h.month <= 12 && 1 <= h.day <= 31 && h.hour <= 23
  }

  function Pow10(w: nat): (p: nat)
    ensures p >= 1
  {
    if w == 0 then 1 else 10 * Pow10(w - 1)
  }

  function DigitChar(d: nat): char
    requires d < 10
  {
    ('0' as int + d) as char
  }

  /** n in decimal, zero-padded to `width` digits (the strftime fields). */
  function Pad(n: nat, width: nat): (s: string)
    ensures |s| == width
  {
    if width == 0 then "" else Pad(n / 10, width - 1) + [DigitChar(n % 10)]
  }

  /** Zero-padding is one-to-one on numbers that fit the width. */
  lemma {:induction false} PadInjective(n: nat, m: nat, width: nat)
    requires n < Pow10(width) && m < Pow10(width)
    requires Pad(n, width) == Pad(m, width)
    ensures n == m
  {
    if width > 0 {
      var pn, pm := Pad(n, width), Pad(m, width);
      assert pn[width - 1] == DigitChar(n % 10) && pm[width - 1] == DigitChar(m % 10);
      assert n % 10 == m % 10;
      assert pn[..width - 1] == Pad(n / 10, width - 1);
      assert pm[..width - 1] == Pad(m / 10, width - 1);
      PadInjective(n / 10, m / 10, width - 1);
    }
  }

  /** strftime("%Y-%m-%dT%H"). */
  function HourStamp(h: HourBucket): (s: string)
    requires ValidBucket(h)
    ensures |s| == 13
  {
    Pad(h.year, 4) + "-" + Pad(h.month, 2) + "-" + Pad(h.day, 2) + "T" + Pad(h.hour, 2)
  }

  const KeyPrefix: string := "airqo:aqi_overlay:"

  function CacheKey(t: UtcTime): (key: string)
    requires ValidBucket(HourOf(t))
    ensures |key| == |KeyPrefix| + 13 && key[..|KeyPrefix|] == KeyPrefix
  {
    KeyPrefix + HourStamp(HourOf(t))
  }

  /** Where each field sits in the stamp. */
  lemma HourStampFields(h: HourBucket)
    requires ValidBucket(h)
    ensures HourStamp(h)[0..4] == Pad(h.year, 4) && HourStamp(h)[5..7] == Pad(h.month, 2)
    ensures HourStamp(h)[8..10] == Pad(h.day, 2) && HourStamp(h)[11..13] == Pad(h.hour, 2)
  {
    var y, mo, d, hr := Pad(h.year, 4), Pad(h.month, 2), Pad(h.day, 2), Pad(h.hour, 2);
    var s := HourStamp(h);
    assert s == y + "-" + mo + "-" + d + "T" + hr;
    assert s[0..4] == y;
    assert s[5..7] == mo;
    assert s[8..10] == d;
    assert s[11..13] == hr;
  }

  /** Distinct hours give distinct stamps. */
  lemma HourStampInjective(h1: HourBucket, h2: HourBucket)
    requires ValidBucket(h1) && ValidBucket(h2)
    requires HourStamp(h1) == HourStamp(h2)
    ensures h1 == h2
  {
    HourStampFields(h1);
    HourStampFields(h2);
    assert Pow10(4) == 10000 && Pow10(2) == 100;
    PadInjective(h1.year, h2.year, 4);
    PadInjective(h1.month, h2.month, 2);
    PadInjective(h1.day, h2.day, 2);
    PadInjective(h1.hour, h2.hour, 2);
  }

  /** Two requests share a cache key exactly when they fall in the same
      UTC hour. */
  lemma CacheKeyPerHour(t1: UtcTime, t2: UtcTime)
    requires ValidBucket(HourOf(t1)) && ValidBucket(HourOf(t2))
    ensures CacheKey(t1) == CacheKey(t2) <==> HourOf(t1) == HourOf(t2)
  {
    if CacheKey(t1) == CacheKey(t2) {
      var k1, k2 := CacheKey(t1), CacheKey(t2);
      assert HourStamp(HourOf(t1)) == k1[|KeyPrefix|..];
      assert HourStamp(HourOf(t2)) == k2[|KeyPrefix|..];
      HourStampInjective(HourOf(t1), HourOf(t2));
    }
  }

  // ---------------------------------------------------------------------
  // The cache store and get_aqi_data
  // ---------------------------------------------------------------------

  /** The cached payload: the image (PNG/base64 encoding not modelled), its
      bounds and the generation time. */
  datatype Artifact = Artifact(image: seq<seq<Rgba>>, bounds: Box, generatedAt: UtcTime)

  /** A key-value store. Whether a call raises (the server is down, the
      connection drops, a replica refuses writes) is decided per call by
      the environment and is passed to each operation as `fails`. */
  class CacheStore {
    var entries: map<string, Artifact>

    constructor (entries: map<string, Artifact>)
      ensures this.entries == entries
    {
      this.entries := entries;
    }

    /** get(key): the stored value or nothing; Err when the call raises. */
    method Get(key: string, fails: bool) returns (r: Result<Option<Artifact>, string>)
      ensures !fails ==> r == Ok(if key in entries then Some(entries[key]) else None)
      ensures fails ==> r.Err?
    {
      if fails {
        return Err("connection refused");
      }
      r := Ok(if key in entries then Some(entries[key]) else None);
    }

    /** setex(key, ttl, value); expiry is not modelled. A call that raises
        stores nothing. */
    method SetEx(key: string, ttl: nat, value: Artifact, fails: bool) returns (r: Result<(), string>)
      modifies this`entries
      ensures !fails ==> r.Ok? && entries == old(entries)[key := value]
      ensures fails ==> r.Err? && entries == old(entries)
    {
      if fails {
        return Err("connection refused");
      }
      entries := entries[key := value];
      r := Ok(());
    }
  }

  /** The HTTP outcome: a 200 with the artifact, or a status with a message. */
  datatype Response = Success(artifact: Artifact) | Failure(status: int, message: string)

  const CacheTtl: nat := 600

  /** get_aqi_data. `fetched` is what the database query returned (Err when
      it raised), `requestTime` and `generatedAt` the two readings of the
      clock, `getFails` and `setFails` whether the cache read and the cache
      write raise. `didFetch` and `didInterpolate` record whether the query
      and the interpolation ran. */
  method GetAqiData(store: CacheStore, requestTime: UtcTime, getFails: bool,
                    fetched: Result<seq<PmRow>, string>, griddata: Interpolator,
                    generatedAt: UtcTime, setFails: bool)
    returns (resp: Response, didFetch: bool, didInterpolate: bool)
    requires ValidBucket(HourOf(requestTime))
    modifies store`entries
    ensures var key := CacheKey(requestTime);
      var hit := !getFails && key in old(store.entries);
      && (hit ==> resp == Success(old(store.entries)[key]) && !didFetch && !didInterpolate)
      && (!hit ==> didFetch)
      && (didFetch && fetched.Err? ==> resp == Failure(500, fetched.error) && !didInterpolate)
      && (didFetch && fetched.Ok? && ValidData(fetched.value) == [] ==>
            resp == Failure(404, "No valid data available") && !didInterpolate)
      && (didFetch && fetched.Ok? && ValidData(fetched.value) != [] ==>
            var data := ValidData(fetched.value);
            var b := MainBounds(data);
            && didInterpolate && resp.Success?
            && resp.artifact.bounds == b && resp.artifact.generatedAt == generatedAt
            && |resp.artifact.image| == Resolution
            && (forall i, j :: 0 <= i < Resolution && 0 <= j < Resolution ==>
                  |resp.artifact.image[i]| == Resolution &&
                  resp.artifact.image[i][j] == CellColour(GridValue(data, griddata, b, Resolution, i, j)))
            && store.entries == if setFails then old(store.entries)
                                else old(store.entries)[key := resp.artifact])
      && (!didInterpolate ==> store.entries == old(store.entries))
  {
    didFetch, didInterpolate := false, false;
    var key := CacheKey(requestTime);

    // A failing cache read is swallowed and treated as a miss.
    var cached := store.Get(key, getFails);
    if cached.Ok? && cached.value.Some? {
      return Success(cached.value.value), didFetch, didInterpolate;
    }

    didFetch := true;
    if fetched.Err? {
      return Failure(500, fetched.error), didFetch, didInterpolate;
    }
    var data := FetchAqiData(fetched.value);
    if |data| == 0 {
      return Failure(404, "No valid data available"), didFetch, didInterpolate;
    }

    didInterpolate := true;
    var overlay := CreateInterpolatedOverlay(data, Resolution, griddata);
    if overlay.None? {
      return Failure(404, "Could not generate overlay"), didFetch, didInterpolate;
    }
    var result := Artifact(Pixels(overlay.value.image), overlay.value.bounds, generatedAt);

    // A failing cache write is swallowed too.
    var _ := store.SetEx(key, CacheTtl, result, setFails);
    resp := Success(result);
  }
}
