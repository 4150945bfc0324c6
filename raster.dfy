/**
 * Raster pieces shared by create_interpolated_overlay in main.py and in
 * manage.py: sample extrema, the evenly spaced grid axes numpy builds
 * (linspace, and mgrid with a complex step, which is the same thing), and
 * the per-cell colour loop over the interpolated field.
 */
module Raster {
  import opened Wrappers
  import opened Aqi

  /** A bounding box in degrees. main.py reports it as
      [[lat_min, lon_min], [lat_max, lon_max]], manage.py as the tuple
      (lat_min, lat_max, lon_min, lon_max). */
  datatype Box = Box(latMin: real, latMax: real, lonMin: real, lonMax: real)

  /** One fetched sample: (latitude, longitude, measured value). */
  datatype PmRow = PmRow(lat: real, lon: real, pm: real)

  /** griddata((lats, lons), aqis, (lat, lon)) at one query point; None is NaN
      (a point outside the convex hull of the samples). */
  type Interpolator = (seq<real>, seq<real>, seq<int>, real, real) -> Option<real>

  function Lats(data: seq<PmRow>): (s: seq<real>)
    ensures |s| == |data|
  {
    seq(|data|, k requires 0 <= k < |data| => data[k].lat)
  }

  function Lons(data: seq<PmRow>): (s: seq<real>)
    ensures |s| == |data|
  {
    seq(|data|, k requires 0 <= k < |data| => data[k].lon)
  }

  function Aqis(data: seq<PmRow>): (s: seq<int>)
    ensures |s| == |data|
  {
    seq(|data|, k requires 0 <= k < |data| => Pm25ToAqi(data[k].pm))
  }

  /** lo and hi are the smallest and the largest value of s. */
  predicate Extremes(lo: real, hi: real, s: seq<real>)
  {
    lo in s && hi in s && forall k :: 0 <= k < |s| ==> lo <= s[k] <= hi
  }

  /** numpy's `.min()` of a non-empty array. */
  function SeqMin(s: seq<real>): (m: real)
    requires |s| > 0
    ensures m in s
    ensures forall k :: 0 <= k < |s| ==> m <= s[k]
  {
    if |s| == 1 then s[0]
    else
      var rest := SeqMin(s[1..]);
      assert forall k :: 1 <= k < |s| ==> s[k] == s[1..][k - 1];
      if s[0] <= rest then s[0] else rest
  }

  /** numpy's `.max()` of a non-empty array. */
  function SeqMax(s: seq<real>): (m: real)
    requires |s| > 0
    ensures m in s
    ensures forall k :: 0 <= k < |s| ==> s[k] <= m
  {
    if |s| == 1 then s[0]
    else
      var rest := SeqMax(s[1..]);
      assert forall k :: 1 <= k < |s| ==> s[k] == s[1..][k - 1];
      if rest <= s[0] then s[0] else rest
  }

  /** k steps out of d, as a fraction of the whole span. */
  function Fraction(k: nat, d: nat): real
    requires 0 < d
  {
    (k as real) / (d as real)
  }

  /** The point a fraction t of the way from `start` to `stop`. */
  function Lerp(start: real, stop: real, t: real): real
  {
    start + (stop - start) * t
  }

  /** `np.linspace(start, stop, n)`: n evenly spaced values, both ends
      included; with n == 1 only `start`. */
  function Linspace(start: real, stop: real, n: nat): (xs: seq<real>)
    ensures |xs| == n
  {
    seq(n, k requires 0 <= k < n =>
      if n == 1 then start else Lerp(start, stop, Fraction(k, n - 1)))
  }

  lemma FractionInUnit(k: nat, d: nat)
    requires 0 < d && k <= d
    ensures 0.0 <= Fraction(k, d) <= 1.0
    ensures k == d ==> Fraction(k, d) == 1.0
  {
    var r, t := d as real, Fraction(k, d);
    QuotientSign(k as real, r);
    QuotientSign(r - k as real, r);
    assert t * r == k as real;
    DivideBack(r - k as real, r, 1.0 - t);
  }

  lemma ScaleBetween(t: real, w: real)
    requires 0.0 <= t <= 1.0
    ensures 0.0 <= w ==> 0.0 <= w * t <= w
    ensures w <= 0.0 ==> w <= w * t <= 0.0
  {
    if 0.0 <= w {
      assert w * t <= w * 1.0;
    } else {
      assert w * 1.0 <= w * t;
    }
  }

  lemma LerpWithin(start: real, stop: real, t: real)
    requires 0.0 <= t <= 1.0
    ensures start <= stop ==> start <= Lerp(start, stop, t) <= stop
    ensures stop <= start ==> stop <= Lerp(start, stop, t) <= start
  {
    var w := stop - start;
    ScaleBetween(t, w);
    assert Lerp(start, stop, t) == start + w * t;
  }

  /** The first axis value is `start`, the last one `stop` (for n >= 2), and
      every value lies between them: grid coordinates never leave the box. */
  lemma LinspaceWithin(start: real, stop: real, n: nat)
    ensures n >= 1 ==> Linspace(start, stop, n)[0] == start
    ensures n >= 2 ==> Linspace(start, stop, n)[n - 1] == stop
    ensures forall k :: 0 <= k < n ==>
      (start <= stop ==> start <= Linspace(start, stop, n)[k] <= stop) &&
      (stop <= start ==> stop <= Linspace(start, stop, n)[k] <= start)
  {
    var xs := Linspace(start, stop, n);
    if n >= 2 {
      FractionInUnit(n - 1, n - 1);
    }
    forall k | 0 <= k < n
      ensures start <= stop ==> start <= xs[k] <= stop
      ensures stop <= start ==> stop <= xs[k] <= start
    {
      if n >= 2 {
        FractionInUnit(k, n - 1);
        LerpWithin(start, stop, Fraction(k, n - 1));
      }
    }
  }

  /** An axis from `stop` to `start` is the axis from `start` to `stop` read
      backwards: a south-first grid shown with origin='lower' has the same
      rows, top to bottom, as a north-first grid. */
  lemma LinspaceReversed(start: real, stop: real, n: nat, k: nat)
    requires 2 <= n && k < n
    ensures Linspace(start, stop, n)[n - 1 - k] == Linspace(stop, start, n)[k]
  {
    var m: nat := n - 1 - k;
    var t := Fraction(k, n - 1);
    FractionComplement(k, n - 1);
    assert Linspace(start, stop, n)[m] == Lerp(start, stop, 1.0 - t);
    assert Linspace(stop, start, n)[k] == Lerp(stop, start, t);
  }

  lemma FractionComplement(k: nat, d: nat)
    requires k <= d && 0 < d
    ensures Fraction(d - k, d) == 1.0 - Fraction(k, d)
  {
    var r := d as real;
    var t := Fraction(k, d);
    assert t * r == k as real;
    assert ((d - k) as real) == (1.0 - t) * r;
    DivideBack(((d - k) as real), r, 1.0 - t);
  }

  lemma QuotientSign(x: real, r: real)
    requires 0.0 < r
    ensures 0.0 <= x ==> 0.0 <= x / r
  {
  }

  lemma DivideBack(x: real, d: real, y: real)
    requires d != 0.0 && x == y * d
    ensures x / d == y
  {
  }

  /** The rows of an image, as values: the picture that main.py:131-136
      encodes as a PNG data URL for the response (the encoding itself is
      not modelled). */
  function Pixels<T>(img: array2<T>): (rows: seq<seq<T>>)
    reads img
    ensures |rows| == img.Length0
    ensures forall i, j :: 0 <= i < img.Length0 && 0 <= j < img.Length1 ==>
      |rows[i]| == img.Length1 && rows[i][j] == img[i, j]
  {
    seq(img.Length0, i requires 0 <= i < img.Length0 reads img =>
      seq(img.Length1, j requires 0 <= j < img.Length1 reads img => img[i, j]))
  }

  /** The colour loop: every cell of the result is written, a NaN cell
      (None) becomes (0, 0, 0, 0) and any other cell its band colour. */
  method Colourise(field: array2<Option<real>>) returns (img: array2<Rgba>)
    ensures fresh(img)
    ensures img.Length0 == field.Length0 && img.Length1 == field.Length1
    ensures forall i, j :: 0 <= i < img.Length0 && 0 <= j < img.Length1 ==>
      img[i, j] == CellColour(field[i, j])
  {
    img := new Rgba[field.Length0, field.Length1]((i, j) => Transparent);
    for i := 0 to field.Length0
      invariant forall i', j :: 0 <= i' < i && 0 <= j < img.Length1 ==>
        img[i', j] == CellColour(field[i', j])
    {
      for j := 0 to field.Length1
        invariant forall i', j' :: 0 <= i' < i && 0 <= j' < img.Length1 ==>
          img[i', j'] == CellColour(field[i', j'])
        invariant forall j' :: 0 <= j' < j ==> img[i, j'] == CellColour(field[i, j'])
      {
        match field[i, j]
        case None =>
          img[i, j] := Transparent;
        case Some(v) =>
          img[i, j] := AqiToColor(v);
      }
    }
  }
}
