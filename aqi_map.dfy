/**
 * The map script of manage.py: the overlay on a south-first grid with
 * plain sample-extrema bounds, the horizontal 3x repetition of the
 * rendered image and the matching widened bounds.
 *
 * Rendering through matplotlib (imshow/savefig), PNG and base64 encoding
 * and the folium map are outside the model; the rendered image is an
 * input of AddImageOverlay.
 */
module AqiMap {
  import opened Wrappers
  import opened Aqi
  import opened Raster
  import AqiService

  /** The bounds: plain sample extrema, no antimeridian clamp, returned as
      (lat_min, lat_max, lon_min, lon_max). */
  function MapBounds(data: seq<PmRow>): (b: Box)
    requires |data| > 0
    ensures b.latMin <= b.latMax && b.lonMin <= b.lonMax
    ensures Extremes(b.latMin, b.latMax, Lats(data))
    ensures Extremes(b.lonMin, b.lonMax, Lons(data))
  {
    Box(SeqMin(Lats(data)), SeqMax(Lats(data)), SeqMin(Lons(data)), SeqMax(Lons(data)))
  }

  /** Row i of np.mgrid[lat_min:lat_max:resolution j, ...]: south first. */
  function LatAxis(b: Box, resolution: nat): (axis: seq<real>)
    ensures |axis| == resolution
  {
    Linspace(b.latMin, b.latMax, resolution)
  }

  /** The grid runs south to north, the reverse of main.py's: row k here is
      row resolution-1-k there, which is what imshow(origin='lower')
      undoes when the image is drawn. The columns are main.py's, west
      first (AqiService.LonAxis). */
  lemma MapGridOrientation(b: Box, resolution: nat)
    requires b.latMin <= b.latMax && b.lonMin <= b.lonMax
    requires 2 <= resolution
    ensures LatAxis(b, resolution)[0] == b.latMin
    ensures LatAxis(b, resolution)[resolution - 1] == b.latMax
    ensures forall k :: 0 <= k < resolution ==>
      LatAxis(b, resolution)[resolution - 1 - k] == AqiService.LatAxis(b, resolution)[k]
  {
    LinspaceWithin(b.latMin, b.latMax, resolution);
    forall k | 0 <= k < resolution
      ensures LatAxis(b, resolution)[resolution - 1 - k] == AqiService.LatAxis(b, resolution)[k]
    {
      LinspaceReversed(b.latMin, b.latMax, resolution, k);
    }
  }

  /** Interpolated AQI of cell (i, j) of the south-first grid. */
  function GridValue(data: seq<PmRow>, griddata: Interpolator, b: Box, resolution: nat, i: nat, j: nat): Option<real>
    requires i < resolution && j < resolution
  {
    griddata(Lats(data), Lons(data), Aqis(data), LatAxis(b, resolution)[i], AqiService.LonAxis(b, resolution)[j])
  }

  /** create_interpolated_overlay: every cell is written, transparent for
      NaN and the band colour elsewhere. `min()` of no samples raises, so
      the data must not be empty; the script checks this before calling. */
  method CreateInterpolatedOverlay(data: seq<PmRow>, resolution: nat, griddata: Interpolator)
    returns (image: array2<Rgba>, b: Box)
    requires |data| > 0
    ensures fresh(image)
    ensures b == MapBounds(data)
    ensures image.Length0 == resolution && image.Length1 == resolution
    ensures forall i, j :: 0 <= i < resolution && 0 <= j < resolution ==>
      image[i, j] == CellColour(GridValue(data, griddata, b, resolution, i, j))
  {
    var lats, lons, aqis := Lats(data), Lons(data), Aqis(data);
    b := MapBounds(data);
    var gridLat, gridLon := LatAxis(b, resolution), AqiService.LonAxis(b, resolution);
    var field := new Option<real>[resolution, resolution](
      (i: int, j: int) requires 0 <= i < resolution && 0 <= j < resolution =>
        griddata(lats, lons, aqis, gridLat[i], gridLon[j]));
    image := Colourise(field);
  }

  // ---------------------------------------------------------------------
  // add_image_overlay: horizontal repetition and widened bounds
  // ---------------------------------------------------------------------

  /** Image.paste(src, (xoff, 0)): src's pixels land at columns
      xoff .. xoff+width-1 of the rows they cover; whatever falls outside
      dst is clipped; every other pixel is kept. Images are indexed
      [row, column]. */
  method Paste(dst: array2<Rgba>, src: array2<Rgba>, xoff: nat)
    requires dst != src
    modifies dst
    ensures forall r, x :: 0 <= r < dst.Length0 && 0 <= x < dst.Length1 ==>
      dst[r, x] == if r < src.Length0 && xoff <= x < xoff + src.Length1 then src[r, x - xoff]
                   else old(dst[r, x])
  {
    var rows := if src.Length0 < dst.Length0 then src.Length0 else dst.Length0;
    var stop := if xoff + src.Length1 < dst.Length1 then xoff + src.Length1 else dst.Length1;
    for r := 0 to rows
      invariant forall r', x :: 0 <= r' < dst.Length0 && 0 <= x < dst.Length1 ==>
        dst[r', x] == if r' < r && xoff <= x < stop then src[r', x - xoff] else old(dst[r', x])
    {
      for x := xoff to if xoff < stop then stop else xoff
        invariant forall r', x' :: 0 <= r' < dst.Length0 && 0 <= x' < dst.Length1 ==>
          dst[r', x'] == if (r' < r || (r' == r && x' < x)) && xoff <= x' < stop then src[r', x' - xoff]
                         else old(dst[r', x'])
      {
        dst[r, x] := src[r, x - xoff];
      }
    }
  }

  /** A column inside the k-th tile of width w is (column mod w) of the tile. */
  lemma TileColumn(k: nat, w: nat, x: nat)
    requires k * w <= x < k * w + w
    ensures x % w == x - k * w
  {
    var q := x / w;
    assert q * w + x % w == x;
    assert q * w < (k + 1) * w by {
      assert (k + 1) * w == k * w + w;
    }
    MulCancelLt(q, k + 1, w);
    assert k * w < (q + 1) * w by {
      assert (q + 1) * w == q * w + w;
    }
    MulCancelLt(k, q + 1, w);
  }

  lemma MulCancelLt(a: int, b: int, w: nat)
    requires a * w < b * w
    ensures a < b
  {
    assert (b - a) * w == b * w - a * w;
  }

  /** The repeated image: width three times the original, same height;
      tiles at x-offsets 0, w and 2w, so every column x shows column
      x mod w of the original, with no overlap and no gap. */
  method RepeatHorizontally(original: array2<Rgba>) returns (repeated: array2<Rgba>)
    ensures fresh(repeated)
    ensures repeated.Length0 == original.Length0 && repeated.Length1 == 3 * original.Length1
    ensures forall r, x :: 0 <= r < repeated.Length0 && 0 <= x < repeated.Length1 ==>
      repeated[r, x] == original[r, x % original.Length1]
  {
    var w, h := original.Length1, original.Length0;
    // Image.new('RGBA', ...) starts fully transparent.
    repeated := new Rgba[h, 3 * w]((r, x) => Transparent);
    for k := 0 to 3
      invariant forall r, x :: 0 <= r < h && 0 <= x < 3 * w ==>
        repeated[r, x] == if x < k * w then original[r, x % w] else Transparent
    {
      Paste(repeated, original, k * w);
      forall x: nat | k * w <= x < k * w + w
        ensures x % w == x - k * w
      {
        TileColumn(k, w, x);
      }
      assert (k + 1) * w == k * w + w;
    }
  }

  /** The bounds of the repeated image: latitude unchanged, longitude
      widened by one image width on each side, so that the middle tile sits
      exactly on the original bounds and its neighbours on the strips just
      west and east of it. */
  function ExtendedBounds(b: Box): (e: Box)
    ensures e.latMin == b.latMin && e.latMax == b.latMax
    ensures e.lonMax - e.lonMin == 3.0 * (b.lonMax - b.lonMin)
    ensures var w := b.lonMax - b.lonMin;
      && [e.lonMin, e.lonMin + w] == [b.lonMin - w, b.lonMin]
      && [e.lonMin + w, e.lonMin + 2.0 * w] == [b.lonMin, b.lonMax]
      && [e.lonMin + 2.0 * w, e.lonMax] == [b.lonMax, b.lonMax + w]
  {
    var widthDeg := b.lonMax - b.lonMin;
    Box(b.latMin, b.latMax, b.lonMin - widthDeg, b.lonMax + widthDeg)
  }

  /** add_image_overlay after rendering: the tiled image and the bounds it
      is placed at. */
  method AddImageOverlay(rendered: array2<Rgba>, bounds: Box) returns (repeated: array2<Rgba>, extended: Box)
    ensures fresh(repeated)
    ensures repeated.Length0 == rendered.Length0 && repeated.Length1 == 3 * rendered.Length1
    ensures forall r, x :: 0 <= r < repeated.Length0 && 0 <= x < repeated.Length1 ==>
      repeated[r, x] == rendered[r, x % rendered.Length1]
    ensures extended == ExtendedBounds(bounds)
  {
    repeated := RepeatHorizontally(rendered);
    extended := ExtendedBounds(bounds);
  }

  /** The script's resolution for the overlay. */
  const ScriptResolution: nat := 500

  /** The script body: it exits when nothing was fetched, so the overlay is
      only built on non-empty data. */
  method RunScript(data: seq<PmRow>, griddata: Interpolator) returns (r: Option<(array2<Rgba>, Box)>)
    ensures r.None? <==> data == []
    ensures r.Some? ==>
      && fresh(r.value.0)
      && r.value.1 == MapBounds(data)
      && r.value.0.Length0 == ScriptResolution && r.value.0.Length1 == ScriptResolution
      && forall i, j :: 0 <= i < ScriptResolution && 0 <= j < ScriptResolution ==>
           r.value.0[i, j] == CellColour(GridValue(data, griddata, r.value.1, ScriptResolution, i, j))
  {
    if |data| == 0 {
      return None;
    }
    var image, bounds := CreateInterpolatedOverlay(data, ScriptResolution, griddata);
    r := Some((image, bounds));
  }
}
