/**
 * The scalar air-quality helpers shared by main.py and manage.py:
 * longitude normalisation, the PM2.5 -> AQI breakpoint conversion and the
 * AQI colour scale. The two scripts carry textually identical copies of
 * pm25_to_aqi and aqi_to_color; they are defined once here.
 *
 * Arithmetic is over exact reals; the IEEE-754 behaviour of the source's
 * floats is not modelled.
 */
module Aqi {
  import opened Wrappers

  // ---------------------------------------------------------------------
  // Longitude normalisation: ((lon + 180) % 360) - 180 with Python's
  // floored float modulo.
  // ---------------------------------------------------------------------

  /** True when `d` is an integer multiple of 360 degrees. */
  predicate IsTurns(d: real)
  {
    (d / 360.0).Floor as real == d / 360.0
  }

  /** Python's `x % 360.0` over exact reals: the remainder in [0, 360)
      (the divisor's sign) that differs from x by whole turns. */
  function FloorMod360(x: real): (m: real)
    ensures 0.0 <= m < 360.0
    ensures IsTurns(x - m)
  {
    var k := (x / 360.0).Floor;
    var m := x - 360.0 * (k as real);
    assert (x - m) / 360.0 == k as real;
    m
  }

  function NormalizeLongitude(lon: real): (r: real)
    ensures -180.0 <= r < 180.0
    ensures IsTurns(lon - r)
  {
    var m := FloorMod360(lon + 180.0);
    assert lon - (m - 180.0) == (lon + 180.0) - m;
    m - 180.0
  }

  /** Two longitudes in [-180, 180) that differ by whole turns are equal. */
  lemma SameTurnsInRange(x: real, y: real)
    requires -180.0 <= x < 180.0 && -180.0 <= y < 180.0
    requires IsTurns(x - y)
    ensures x == y
  {
    var k := ((x - y) / 360.0).Floor;
    assert x - y == 360.0 * (k as real);
  }

  /** The normalised longitude is the unique value in [-180, 180) that
      differs from the input by a whole number of turns. */
  lemma NormalizeLongitudeUnique(lon: real, y: real)
    requires -180.0 <= y < 180.0
    requires IsTurns(lon - y)
    ensures NormalizeLongitude(lon) == y
  {
    var r := NormalizeLongitude(lon);
    var a := ((lon - r) / 360.0).Floor;
    var b := ((lon - y) / 360.0).Floor;
    assert lon - r == 360.0 * (a as real);
    assert lon - y == 360.0 * (b as real);
    assert r - y == 360.0 * ((b - a) as real);
    assert (r - y) / 360.0 == (b - a) as real;
    SameTurnsInRange(r, y);
  }

  /** Normalisation leaves a longitude already in [-180, 180) unchanged. */
  lemma NormalizeLongitudeIdentity(lon: real)
    requires -180.0 <= lon < 180.0
    ensures NormalizeLongitude(lon) == lon
  {
    assert (lon - lon) / 360.0 == 0.0;
    NormalizeLongitudeUnique(lon, lon);
  }

  lemma NormalizeLongitudeIdempotent(lon: real)
    ensures NormalizeLongitude(NormalizeLongitude(lon)) == NormalizeLongitude(lon)
  {
    NormalizeLongitudeIdentity(NormalizeLongitude(lon));
  }

  // ---------------------------------------------------------------------
  // PM2.5 -> AQI
  // ---------------------------------------------------------------------

  /** Python's `int(x)` on a float: truncation toward zero. */
  function Trunc(x: real): (n: int)
    ensures 0.0 <= x ==> 0 <= n && n as real <= x < n as real + 1.0
    ensures x < 0.0 ==> n <= 0 && n as real - 1.0 < x <= n as real
  {
    if x >= 0.0 then x.Floor else -((-x).Floor)
  }

  lemma TruncMonotone(x: real, y: real)
    requires x <= y
    ensures Trunc(x) <= Trunc(y)
  {
  }

  /** The six-band linear formula of pm25_to_aqi before `int(...)`. The
      band limits are those of the pre-2024 US EPA PM2.5 table, except
      that the top two EPA bands are merged into 250.5..500.4 -> 301..500. */
  function RawAqi(pm: real): (r: real)
    ensures pm <= 12.0 ==> r <= 50.0
    ensures 12.0 < pm <= 35.4 ==> 50.0 < r <= 100.0
    ensures 35.4 < pm <= 55.4 ==> 100.0 < r <= 150.0
    ensures 55.4 < pm <= 150.4 ==> 150.0 < r <= 200.0
    ensures 150.4 < pm <= 250.4 ==> 200.0 < r <= 300.0
    ensures 250.4 < pm ==> 300.0 < r
  {
    if pm <= 12.0 then (50.0 / 12.0) * pm
    else if pm <= 35.4 then ((100.0 - 51.0) / (35.4 - 12.1)) * (pm - 12.1) + 51.0
    else if pm <= 55.4 then ((150.0 - 101.0) / (55.4 - 35.5)) * (pm - 35.5) + 101.0
    else if pm <= 150.4 then ((200.0 - 151.0) / (150.4 - 55.5)) * (pm - 55.5) + 151.0
    else if pm <= 250.4 then ((300.0 - 201.0) / (250.4 - 150.5)) * (pm - 150.5) + 201.0
    else ((500.0 - 301.0) / (500.4 - 250.5)) * (pm - 250.5) + 301.0
  }

  function Pm25ToAqi(pm: real): (aqi: int)
    ensures 0.0 <= pm ==> 0 <= aqi
    ensures pm < 0.0 ==> aqi <= 0
  {
    Trunc(RawAqi(pm))
  }

  /** The band formula never decreases: within a band it is a line of
      positive slope, and every band starts above where the previous one
      ended (the band ranges of RawAqi). */
  lemma RawAqiMonotone(a: real, b: real)
    requires a <= b
    ensures RawAqi(a) <= RawAqi(b)
  {
  }

  /** pm25_to_aqi never decreases as the concentration grows, including
      across band boundaries. */
  lemma Pm25ToAqiMonotone(a: real, b: real)
    requires a <= b
    ensures Pm25ToAqi(a) <= Pm25ToAqi(b)
  {
    RawAqiMonotone(a, b);
    TruncMonotone(RawAqi(a), RawAqi(b));
  }

  /** The upper breakpoint of every band maps exactly to that band's top
      index, and zero concentration to zero. */
  lemma Pm25ToAqiBreakpoints()
    ensures Pm25ToAqi(0.0) == 0
    ensures Pm25ToAqi(12.0) == 50
    ensures Pm25ToAqi(35.4) == 100
    ensures Pm25ToAqi(55.4) == 150
    ensures Pm25ToAqi(150.4) == 200
    ensures Pm25ToAqi(250.4) == 300
    ensures Pm25ToAqi(500.4) == 500
  {
    assert RawAqi(12.0) == 50.0;
    assert RawAqi(35.4) == 100.0;
    assert RawAqi(55.4) == 150.0;
    assert RawAqi(150.4) == 200.0;
    assert RawAqi(250.4) == 300.0;
    assert RawAqi(500.4) == 500.0;
  }

  /** No clamp: above 500.4 the index keeps rising past 500, and it exceeds
      any bound for a large enough concentration. */
  lemma Pm25ToAqiNoClamp(bound: nat)
    ensures Pm25ToAqi(500.4) == 500 && 500 < Pm25ToAqi(502.0)
    ensures bound < Pm25ToAqi(250.5 + 2.0 * bound as real)
  {
    assert RawAqi(500.4) == 500.0;
    var pm := 250.5 + 2.0 * bound as real;
    assert RawAqi(pm) == (199.0 / 249.9) * (2.0 * bound as real) + 301.0;
  }

  // ---------------------------------------------------------------------
  // Colour scale: matplotlib's to_rgba of the six named colours
  // ---------------------------------------------------------------------

  datatype Rgba = Rgba(r: real, g: real, b: real, a: real)

  const Green: Rgba := Rgba(0.0, 128.0 / 255.0, 0.0, 1.0)    // #008000
  const Yellow: Rgba := Rgba(1.0, 1.0, 0.0, 1.0)             // #FFFF00
  const Orange: Rgba := Rgba(1.0, 165.0 / 255.0, 0.0, 1.0)   // #FFA500
  const Red: Rgba := Rgba(1.0, 0.0, 0.0, 1.0)                // #FF0000
  const Purple: Rgba := Rgba(128.0 / 255.0, 0.0, 128.0 / 255.0, 1.0)  // #800080
  const Maroon: Rgba := Rgba(128.0 / 255.0, 0.0, 0.0, 1.0)   // #800000
  /** The cell value written for a NaN cell: (0, 0, 0, 0). */
  const Transparent: Rgba := Rgba(0.0, 0.0, 0.0, 0.0)

  /** First-match threshold table; every band is inclusive at its upper end. */
  function AqiToColor(aqi: real): (c: Rgba)
    ensures c.a == 1.0
    ensures c == Green <==> aqi <= 50.0
    ensures c == Yellow <==> 50.0 < aqi <= 100.0
    ensures c == Orange <==> 100.0 < aqi <= 150.0
    ensures c == Red <==> 150.0 < aqi <= 200.0
    ensures c == Purple <==> 200.0 < aqi <= 300.0
    ensures c == Maroon <==> 300.0 < aqi
  {
    if aqi <= 50.0 then Green
    else if aqi <= 100.0 then Yellow
    else if aqi <= 150.0 then Orange
    else if aqi <= 200.0 then Red
    else if aqi <= 300.0 then Purple
    else Maroon
  }

  /** The colour of one interpolated cell; `None` stands for NaN. */
  function CellColour(cell: Option<real>): (c: Rgba)
    ensures c.a == 0.0 <==> cell.None?
    ensures cell.None? ==> c == Transparent
    ensures cell.Some? ==> c == AqiToColor(cell.value)
  {
    match cell
    case None => Transparent
    case Some(v) => AqiToColor(v)
  }
}
