/**
 * The wind vector-field builder of app.py: create_grid folds the fetched
 * rows into a map keyed by coordinates rounded to 0.1 degree, collects
 * the distinct latitudes and longitudes and the latest timestamp;
 * create_velocity_components flattens the map row by row over the sorted
 * axes into the u and v arrays of two GRIB2-style records.
 *
 * Coordinates after rounding are integers in tenths of a degree. The
 * conversion of (speed, direction) into rounded (u, v), which uses sin,
 * cos and round(_, 2), is a parameter.
 */
module Wind {
  import opened Wrappers
  import Raster

  datatype Velocity = Velocity(u: real, v: real)

  /** One fetched row: latitude, longitude, wind speed, wind direction and
      the observation time (None for a NULL time). */
  datatype WindRow = WindRow(lat: real, lon: real, speed: real, direction: real, time: Option<int>)

  /** (speed, direction) -> (u, v), rounded to two decimals. */
  type WindConversion = (real, real) -> Velocity

  /** A grid key: (latitude, longitude) in tenths of a degree. */
  type Key = (int, int)

  // ---------------------------------------------------------------------
  // create_grid, as a specification
  // ---------------------------------------------------------------------

  /** The rows create_grid does not skip. */
  predicate Kept(row: WindRow)
  {
    -90.0 <= row.lat <= 90.0 && -180.0 <= row.lon <= 180.0 && !(row.speed < 0.0)
  }

  /** Python's round(y) on an exact value: nearest integer, ties to even. */
  function RoundHalfEven(y: real): (n: int)
    ensures (n as real) - 0.5 <= y <= (n as real) + 0.5
    ensures (n as real) - y == 0.5 || y - (n as real) == 0.5 ==> n % 2 == 0
  {
    var f := y.Floor;
    var d := y - f as real;
    if d < 0.5 then f
    else if d > 0.5 then f + 1
    else if f % 2 == 0 then f else f + 1
  }

  /** round(x, 1), counted in tenths. */
  function Tenths(x: real): (n: int)
    ensures (n as real) / 10.0 - 0.05 <= x <= (n as real) / 10.0 + 0.05
  {
    RoundHalfEven(10.0 * x)
  }

  /** round(x, 2): the nearest hundredth, ties to the even hundredth. */
  function Hundredths(x: real): (r: real)
    ensures r - 0.005 <= x <= r + 0.005
    ensures 0.0 <= x ==> 0.0 <= r
  {
    RoundHalfEven(100.0 * x) as real / 100.0
  }

  /** The key a row is stored under; a kept row's key stays on the globe. */
  function KeyOf(row: WindRow): (k: Key)
    ensures Kept(row) ==> -900 <= k.0 <= 900 && -1800 <= k.1 <= 1800
  {
    (Tenths(row.lat), Tenths(row.lon))
  }

  /** The dictionary after the loop: a left fold over the rows in which a
      later row with the same key overwrites an earlier one. */
  function Cells(rows: seq<WindRow>, wind: WindConversion): (cells: map<Key, Velocity>)
    ensures forall k :: k in cells ==> -900 <= k.0 <= 900 && -1800 <= k.1 <= 1800
  {
    if rows == [] then map[]
    else
      var g := Cells(rows[..|rows| - 1], wind);
      var row := rows[|rows| - 1];
      if Kept(row) then g[KeyOf(row) := wind(row.speed, row.direction)] else g
  }

  /** `if not ref_time or (timestamp and timestamp > ref_time)`. */
  function NextRefTime(refTime: Option<int>, time: Option<int>): (r: Option<int>)
    ensures r == refTime || r == time
    ensures refTime.None? ==> r == time
    ensures refTime.Some? ==> r.Some? && refTime.value <= r.value
    ensures refTime.Some? && time.Some? ==> time.value <= r.value
  {
    if refTime.None? || (time.Some? && time.value > refTime.value) then time else refTime
  }

  /** ref_time after the loop. */
  function RefTime(rows: seq<WindRow>): Option<int>
  {
    if rows == [] then None
    else
      var t := RefTime(rows[..|rows| - 1]);
      var row := rows[|rows| - 1];
      if Kept(row) then NextRefTime(t, row.time) else t
  }

  function LatSet(cells: map<Key, Velocity>): set<int>
  {
    set k | k in cells :: k.0
  }

  function LonSet(cells: map<Key, Velocity>): set<int>
  {
    set k | k in cells :: k.1
  }

  function Elements(xs: seq<int>): set<int>
  {
    set x | x in xs
  }

  predicate StrictlyDescending(xs: seq<int>)
  {
    forall i, j :: 0 <= i < j < |xs| ==> xs[i] > xs[j]
  }

  predicate StrictlyAscending(xs: seq<int>)
  {
    forall i, j :: 0 <= i < j < |xs| ==> xs[i] < xs[j]
  }

  lemma {:induction false} CellsKeys(rows: seq<WindRow>, wind: WindConversion, k: Key)
    ensures k in Cells(rows, wind) <==> exists i :: 0 <= i < |rows| && Kept(rows[i]) && KeyOf(rows[i]) == k
    decreases |rows|
  {
    if rows != [] {
      var init := rows[..|rows| - 1];
      CellsKeys(init, wind, k);
      if exists i :: 0 <= i < |rows| && Kept(rows[i]) && KeyOf(rows[i]) == k {
        var i :| 0 <= i < |rows| && Kept(rows[i]) && KeyOf(rows[i]) == k;
        if i < |rows| - 1 {
          assert init[i] == rows[i];
        }
      }
      if exists i :: 0 <= i < |init| && Kept(init[i]) && KeyOf(init[i]) == k {
        var i :| 0 <= i < |init| && Kept(init[i]) && KeyOf(init[i]) == k;
        assert rows[i] == init[i];
      }
    }
  }

  /** Last write wins: a key holds the velocity of the last kept row that
      rounds to it. */
  lemma {:induction false} CellsLastWriteWins(rows: seq<WindRow>, wind: WindConversion, i: nat)
    requires i < |rows| && Kept(rows[i])
    requires forall j :: i < j < |rows| && Kept(rows[j]) ==> KeyOf(rows[j]) != KeyOf(rows[i])
    ensures KeyOf(rows[i]) in Cells(rows, wind)
    ensures Cells(rows, wind)[KeyOf(rows[i])] == wind(rows[i].speed, rows[i].direction)
    decreases |rows|
  {
    if i < |rows| - 1 {
      var init := rows[..|rows| - 1];
      assert init[i] == rows[i];
      forall j | i < j < |init| && Kept(init[j])
        ensures KeyOf(init[j]) != KeyOf(init[i])
      {
        assert init[j] == rows[j];
      }
      CellsLastWriteWins(init, wind, i);
    }
  }

  /** ref_time is the latest non-NULL time among the kept rows, and None
      only when every kept row has a NULL time. */
  lemma {:induction false} RefTimeIsLatest(rows: seq<WindRow>)
    ensures RefTime(rows).None? <==>
      forall i :: 0 <= i < |rows| && Kept(rows[i]) ==> rows[i].time.None?
    ensures RefTime(rows).Some? ==>
      && (exists i :: 0 <= i < |rows| && Kept(rows[i]) && rows[i].time == RefTime(rows))
      && (forall i :: 0 <= i < |rows| && Kept(rows[i]) && rows[i].time.Some? ==>
            rows[i].time.value <= RefTime(rows).value)
    decreases |rows|
  {
    if rows != [] {
      var init := rows[..|rows| - 1];
      var last := rows[|rows| - 1];
      RefTimeIsLatest(init);
      assert forall i :: 0 <= i < |init| ==> init[i] == rows[i];
      if RefTime(rows).Some? && RefTime(rows) == RefTime(init) {
        var i :| 0 <= i < |init| && Kept(init[i]) && init[i].time == RefTime(init);
        assert rows[i] == init[i];
      }
    }
  }

  // ---------------------------------------------------------------------
  // create_grid, the loop
  // ---------------------------------------------------------------------

  /** create_grid's six results when the grid is not empty. */
  datatype WindGrid = WindGrid(cells: map<Key, Velocity>, lats: seq<int>, lons: seq<int>,
                               nx: nat, ny: nat, refTime: Option<int>)

  /** The axes list exactly the latitudes and longitudes that occur in the
      keys, latitudes north to south and longitudes west to east, each once. */
  predicate AxesConsistent(g: WindGrid)
  {
    && StrictlyDescending(g.lats) && StrictlyAscending(g.lons)
    && Elements(g.lats) == LatSet(g.cells) && Elements(g.lons) == LonSet(g.cells)
    && g.nx == |g.lons| && g.ny == |g.lats|
  }

  /** True when m comes first in `sorted(s, reverse=reverse)`. */
  predicate IsFirst(m: int, s: set<int>, reverse: bool)
  {
    m in s && forall x :: x in s ==> if reverse then x <= m else m <= x
  }

  lemma NoMemberEmpty(s: set<int>)
    requires forall y :: y !in s
    ensures s == {}
  {
    assert forall y :: y in s <==> y in {};
  }

  lemma MemberExists(s: set<int>)
    requires s != {}
    ensures exists y :: y in s
  {
    if forall y :: y !in s {
      NoMemberEmpty(s);
      assert false;
    }
  }

  lemma FirstExists(s: set<int>, reverse: bool)
    requires s != {}
    ensures exists m :: IsFirst(m, s, reverse)
    decreases |s|
  {
    MemberExists(s);
    var y :| y in s;
    var rest := s - {y};
    forall x | x in s
      ensures x == y || x in rest
    {
    }
    if rest == {} {
      assert IsFirst(y, s, reverse);
    } else {
      FirstExists(rest, reverse);
      var m :| IsFirst(m, rest, reverse);
      var first := if reverse then (if y <= m then m else y) else (if m <= y then m else y);
      assert IsFirst(first, s, reverse);
    }
  }

  /** a is placed before b by sorted(..., reverse=reverse). */
  predicate Before(a: int, b: int, reverse: bool)
  {
    if reverse then a > b else a < b
  }

  /** sorted(s) or sorted(s, reverse=True) of a set of numbers: each element
      once, in strict order. */
  method Sorted(s: set<int>, reverse: bool) returns (xs: seq<int>)
    ensures Elements(xs) == s && |xs| == |s|
    ensures reverse ==> StrictlyDescending(xs)
    ensures !reverse ==> StrictlyAscending(xs)
  {
    xs := [];
    var rest := s;
    while rest != {}
      invariant forall x :: x in s <==> x in xs || x in rest
      invariant forall x :: x in rest ==> x !in xs
      invariant |xs| + |rest| == |s|
      invariant forall i, j :: 0 <= i < j < |xs| ==> Before(xs[i], xs[j], reverse)
      invariant forall i, y :: 0 <= i < |xs| && y in rest ==> Before(xs[i], y, reverse)
      decreases |rest|
    {
      FirstExists(rest, reverse);
      var m :| IsFirst(m, rest, reverse);
      xs := xs + [m];
      rest := rest - {m};
    }
    assert forall x :: x in Elements(xs) <==> x in s;
  }

  /** The axes are empty exactly when no row was kept. */
  lemma KeptRowsFillAxes(rows: seq<WindRow>, wind: WindConversion)
    ensures (exists i :: 0 <= i < |rows| && Kept(rows[i])) <==>
      (|LatSet(Cells(rows, wind))| > 0 && |LonSet(Cells(rows, wind))| > 0)
  {
    var cells := Cells(rows, wind);
    if exists i :: 0 <= i < |rows| && Kept(rows[i]) {
      var i :| 0 <= i < |rows| && Kept(rows[i]);
      CellsKeys(rows, wind, KeyOf(rows[i]));
      assert KeyOf(rows[i]).0 in LatSet(cells) && KeyOf(rows[i]).1 in LonSet(cells);
    } else {
      forall k: Key
        ensures k !in cells
      {
        CellsKeys(rows, wind, k);
      }
      assert forall x :: x in LatSet(cells) <==> x in {};
      assert forall x :: x in LonSet(cells) <==> x in {};
    }
  }

  /** create_grid: None when no row survives the filter; otherwise the map
      of the kept rows, the consistent axes and the latest timestamp. */
  method CreateGrid(rows: seq<WindRow>, wind: WindConversion) returns (r: Option<WindGrid>)
    ensures r.None? <==> forall i :: 0 <= i < |rows| ==> !Kept(rows[i])
    ensures r.Some? ==>
      && r.value.cells == Cells(rows, wind)
      && r.value.refTime == RefTime(rows)
      && AxesConsistent(r.value)
      && r.value.nx >= 1 && r.value.ny >= 1
  {
    var grid: map<Key, Velocity> := map[];
    var latSet: set<int>, lonSet: set<int> := {}, {};
    var refTime: Option<int> := None;
    for i := 0 to |rows|
      invariant grid == Cells(rows[..i], wind)
      invariant latSet == LatSet(grid) && lonSet == LonSet(grid)
      invariant refTime == RefTime(rows[..i])
    {
      assert rows[..i + 1][..i] == rows[..i];
      var row := rows[i];
      if !(-90.0 <= row.lat <= 90.0 && -180.0 <= row.lon <= 180.0) || row.speed < 0.0 {
        continue;
      }
      var key := KeyOf(row);
      grid := grid[key := wind(row.speed, row.direction)];
      latSet := latSet + {key.0};
      lonSet := lonSet + {key.1};
      if refTime.None? || (row.time.Some? && row.time.value > refTime.value) {
        refTime := row.time;
      }
    }
    assert rows[..|rows|] == rows;

    var lats := Sorted(latSet, true);
    var lons := Sorted(lonSet, false);
    var nx, ny := |lons|, |lats|;
    KeptRowsFillAxes(rows, wind);
    if nx == 0 || ny == 0 {
      return None;
    }
    r := Some(WindGrid(grid, lats, lons, nx, ny, refTime));
  }

  // ---------------------------------------------------------------------
  // create_velocity_components
  // ---------------------------------------------------------------------

  /** grid.get((lat, lon), {"u": 0.0, "v": 0.0}). */
  function At(cells: map<Key, Velocity>, lat: int, lon: int): Velocity
  {
    if (lat, lon) in cells then cells[(lat, lon)] else Velocity(0.0, 0.0)
  }

  /** One latitude's row, west to east. */
  function Row(cells: map<Key, Velocity>, lat: int, lons: seq<int>): (row: seq<Velocity>)
    ensures |row| == |lons|
  {
    seq(|lons|, j requires 0 <= j < |lons| => At(cells, lat, lons[j]))
  }

  /** The flattened field: rows in the order of `lats`. */
  function Flat(cells: map<Key, Velocity>, lats: seq<int>, lons: seq<int>): seq<Velocity>
  {
    if lats == [] then [] else Flat(cells, lats[..|lats| - 1], lons) + Row(cells, lats[|lats| - 1], lons)
  }

  function Us(vs: seq<Velocity>): (us: seq<real>)
    ensures |us| == |vs|
  {
    seq(|vs|, k requires 0 <= k < |vs| => vs[k].u)
  }

  function Vs(vs: seq<Velocity>): (us: seq<real>)
    ensures |us| == |vs|
  {
    seq(|vs|, k requires 0 <= k < |vs| => vs[k].v)
  }

  lemma ProjectAppend(vs: seq<Velocity>, p: Velocity)
    ensures Us(vs + [p]) == Us(vs) + [p.u] && Vs(vs + [p]) == Vs(vs) + [p.v]
  {
    assert forall k :: 0 <= k < |vs| ==> (vs + [p])[k] == vs[k];
  }

  /** dx and dy: the span shared evenly between n - 1 steps and rounded
      to two decimals, 0.1 degree (the 0.1-degree bucket) when there is a
      single point. */
  function Spacing(first: real, last: real, n: nat): real
  {
    if n > 1 then Hundredths((last - first) / (n - 1) as real) else 0.1
  }

  /** How far n - 1 steps of a spacing rounded to two decimals can miss the
      span: half a hundredth per step. */
  function Slack(n: nat): (e: real)
    ensures 0.0 <= e
    ensures n <= 1 ==> e == 0.0
  {
    if n > 1 then 0.005 * (n - 1) as real else 0.0
  }

  /** n - 1 steps of the rounded spacing cover the span up to the slack,
      the spacing of an ascending span is not negative, and a single point
      gets 0.1. */
  lemma SpacingSpan(first: real, last: real, n: nat)
    ensures n > 1 ==> last - first - Slack(n) <= Spacing(first, last, n) * (n - 1) as real <= last - first + Slack(n)
    ensures first <= last ==> 0.0 <= Spacing(first, last, n)
    ensures n <= 1 ==> Spacing(first, last, n) == 0.1
  {
    if n > 1 {
      var r := (n - 1) as real;
      var q := (last - first) / r;
      var d := Hundredths(q);
      Raster.QuotientSign(last - first, r);
      assert q * r == last - first;
      NonnegProduct(d - q + 0.005, r);
      NonnegProduct(q + 0.005 - d, r);
      assert (d - q + 0.005) * r == d * r - q * r + 0.005 * r;
      assert (q + 0.005 - d) * r == q * r + 0.005 * r - d * r;
    }
  }

  /** The rounding at work: four longitudes from 0.0 to 0.5 get dx = 0.17,
      and the fourth announced column, at 0.51, lies past lo2. */
  lemma RoundedSpacingOverruns()
    ensures Spacing(Degrees(0), Degrees(5), 4) == 0.17
    ensures Degrees(0) + 3.0 * Spacing(Degrees(0), Degrees(5), 4) > Degrees(5)
  {
    assert (0.5 / 3.0) * 100.0 == 50.0 / 3.0;
    assert (50.0 / 3.0).Floor == 16;
  }

  /** The header assumes evenly spaced axes: longitudes 0.0, 0.1 and 0.5
      give dx = 0.25, so a reader places column 1 at 0.25, not at 0.1. */
  lemma UnevenAxisMisplaced()
    ensures Spacing(Degrees(0), Degrees(5), 3) == 0.25
    ensures Degrees(0) + 1.0 * Spacing(Degrees(0), Degrees(5), 3) != Degrees(1)
  {
    assert (25.0).Floor == 25;
  }

  lemma MulStep(i: nat, w: nat, j: nat)
    requires j < w
    ensures i * w + j < (i + 1) * w
  {
  }

  lemma MulMono(a: nat, b: nat, w: nat)
    requires a <= b
    ensures a * w <= b * w
  {
  }

  lemma {:induction false} FlatLength(cells: map<Key, Velocity>, lats: seq<int>, lons: seq<int>)
    ensures |Flat(cells, lats, lons)| == |lats| * |lons|
    decreases |lats|
  {
    if lats != [] {
      var n, w := |lats|, |lons|;
      FlatLength(cells, lats[..n - 1], lons);
      assert (n - 1) * w + w == n * w;
    }
  }

  /** Row-major layout: entry i * |lons| + j of the flat field is the value at
      (lats[i], lons[j]), zero when that pair has no entry. */
  lemma {:induction false} FlatAt(cells: map<Key, Velocity>, lats: seq<int>, lons: seq<int>, i: nat, j: nat)
    requires i < |lats| && j < |lons|
    ensures i * |lons| + j < |Flat(cells, lats, lons)|
    ensures Flat(cells, lats, lons)[i * |lons| + j] == At(cells, lats[i], lons[j])
    decreases |lats|
  {
    var n, w := |lats|, |lons|;
    var init := lats[..n - 1];
    var front := Flat(cells, init, lons);
    FlatLength(cells, init, lons);
    FlatLength(cells, lats, lons);
    MulStep(i, w, j);
    MulMono(i + 1, n, w);
    if i < n - 1 {
      MulMono(i + 1, n - 1, w);
      FlatAt(cells, init, lons, i, j);
      assert init[i] == lats[i];
    } else {
      assert i * w + j == |front| + j;
    }
  }

  /** The two nested loops of create_velocity_components: the u- and
      v-values of the grid in row-major order. */
  method FlattenField(cells: map<Key, Velocity>, lats: seq<int>, lons: seq<int>)
    returns (uData: seq<real>, vData: seq<real>)
    ensures uData == Us(Flat(cells, lats, lons)) && vData == Vs(Flat(cells, lats, lons))
  {
    uData, vData := [], [];
    ghost var flat: seq<Velocity> := [];
    for i := 0 to |lats|
      invariant flat == Flat(cells, lats[..i], lons)
      invariant uData == Us(flat) && vData == Vs(flat)
    {
      ghost var row: seq<Velocity> := [];
      for j := 0 to |lons|
        invariant row == Row(cells, lats[i], lons[..j])
        invariant uData == Us(flat + row) && vData == Vs(flat + row)
      {
        var point := At(cells, lats[i], lons[j]);
        ProjectAppend(flat + row, point);
        assert Row(cells, lats[i], lons[..j + 1]) == row + [point];
        assert flat + (row + [point]) == (flat + row) + [point];
        row := row + [point];
        uData := uData + [point.u];
        vData := vData + [point.v];
      }
      assert lons[..|lons|] == lons;
      assert lats[..i + 1][..i] == lats[..i];
      flat := flat + row;
    }
    assert lats[..|lats|] == lats;
  }

  /** The record header; longitudes and latitudes in degrees. */
  datatype Header = Header(parameterUnit: string, parameterCategory: int, parameterNumber: int,
                           nx: nat, ny: nat, lo1: real, la1: real, lo2: real, la2: real,
                           dx: real, dy: real, refTime: int)

  datatype Component = Component(header: Header, data: seq<real>)

  /** GRIB2 code table 4.2, discipline 0: category 2 is momentum,
      parameters 2 and 3 the u- and v-components of wind. */
  const Momentum: int := 2
  const UComponent: int := 2
  const VComponent: int := 3

  function Degrees(tenths: int): real
  {
    tenths as real / 10.0
  }

  /** create_velocity_components. The axes must not be empty (the header
      reads their first and last entries); the length check returns None
      exactly when nx * ny disagrees with the axes. `now` is the clock
      reading used when no row had a time. */
  method CreateVelocityComponents(cells: map<Key, Velocity>, lats: seq<int>, lons: seq<int>,
                                  nx: nat, ny: nat, refTime: Option<int>, now: int)
    returns (r: Option<(Component, Component)>)
    requires |lats| >= 1 && |lons| >= 1
    ensures r.Some? <==> |lats| * |lons| == nx * ny
    ensures r.Some? ==>
      var (u, v) := r.value;
      && u.data == Us(Flat(cells, lats, lons)) && v.data == Vs(Flat(cells, lats, lons))
      && |u.data| == nx * ny && |v.data| == nx * ny
      && u.header.parameterNumber == UComponent && v.header.parameterNumber == VComponent
      && v.header == u.header.(parameterNumber := VComponent)
      && u.header.parameterCategory == Momentum && u.header.parameterUnit == "m.s-1"
      && u.header.nx == nx && u.header.ny == ny
      && u.header.lo1 == Degrees(lons[0]) && u.header.lo2 == Degrees(lons[|lons| - 1])
      && u.header.la1 == Degrees(lats[0]) && u.header.la2 == Degrees(lats[|lats| - 1])
      && u.header.dx == Spacing(u.header.lo1, u.header.lo2, nx)
      && u.header.dy == Spacing(u.header.la2, u.header.la1, ny)
      && u.header.refTime == (if refTime.Some? then refTime.value else now)
  {
    var uData, vData := FlattenField(cells, lats, lons);
    FlatLength(cells, lats, lons);
    if |uData| != nx * ny || |vData| != nx * ny {
      return None;
    }

    var last, top := |lons| - 1, |lats| - 1;
    var dx := Spacing(Degrees(lons[0]), Degrees(lons[last]), nx);
    var dy := Spacing(Degrees(lats[top]), Degrees(lats[0]), ny);
    var stamp := if refTime.Some? then refTime.value else now;
    var base := Header("m.s-1", Momentum, 0, nx, ny, Degrees(lons[0]), Degrees(lats[0]),
                       Degrees(lons[last]), Degrees(lats[top]), dx, dy, stamp);
    var uComponent := Component(base.(parameterNumber := UComponent), uData);
    var vComponent := Component(base.(parameterNumber := VComponent), vData);
    r := Some((uComponent, vComponent));
  }

  // ---------------------------------------------------------------------
  // The /api/wind pipeline
  // ---------------------------------------------------------------------

  lemma ScaleWithin(j: nat, n: nat, d: real)
    requires j < n && 0.0 <= d
    ensures 0.0 <= (j as real) * d <= d * (n - 1) as real
  {
    NonnegProduct(j as real, d);
    NonnegProduct((n - 1 - j) as real, d);
    assert d * (n - 1) as real - (j as real) * d == ((n - 1 - j) as real) * d;
  }

  lemma NonnegProduct(a: real, b: real)
    requires 0.0 <= a && 0.0 <= b
    ensures 0.0 <= a * b
  {
  }

  /** j steps of size d. */
  function Step(j: nat, d: real): real
  {
    (j as real) * d
  }

  /** The longitude a reader of the header gives to column j. */
  function GridLon(h: Header, j: nat): real
  {
    h.lo1 + Step(j, h.dx)
  }

  /** The latitude a reader of the header gives to row i (north first). */
  function GridLat(h: Header, i: nat): real
  {
    h.la1 - Step(i, h.dy)
  }

  /** The header's corners and spacing are those of the axes: spacing never
      negative, lo1 <= lo2, la1 >= la2, every point of the announced grid
      lies inside the corners up to the rounding slack, and the last column
      and row reach the far corners up to that slack. */
  predicate HeaderCoversGrid(h: Header)
  {
    && 0.0 <= h.dx && 0.0 <= h.dy
    && h.lo1 <= h.lo2 && h.la2 <= h.la1
    && (forall j: nat :: j < h.nx ==> h.lo1 <= GridLon(h, j) <= h.lo2 + Slack(h.nx))
    && (forall i: nat :: i < h.ny ==> h.la2 - Slack(h.ny) <= GridLat(h, i) <= h.la1)
    && (h.nx > 1 ==> h.lo2 - Slack(h.nx) <= GridLon(h, h.nx - 1))
    && (h.ny > 1 ==> GridLat(h, h.ny - 1) <= h.la2 + Slack(h.ny))
  }

  /** Step j of n along a spaced axis stays inside its span, up to the
      rounding slack. */
  lemma StepWithin(first: real, last: real, n: nat, j: nat)
    requires first <= last && j < n
    ensures 0.0 <= Step(j, Spacing(first, last, n)) <= last - first + Slack(n)
  {
    if n > 1 {
      SpacingSpan(first, last, n);
      StepBound(j, n, Spacing(first, last, n), last - first + Slack(n));
    }
  }

  lemma StepBound(j: nat, n: nat, d: real, bound: real)
    requires j < n && 0.0 <= d && d * (n - 1) as real <= bound
    ensures 0.0 <= Step(j, d) <= bound
  {
    ScaleWithin(j, n, d);
  }

  /** Every step of a spaced axis stays inside its span, and the last one
      reaches the far end, both up to the rounding slack. */
  lemma AxisSteps(first: real, last: real, n: nat, d: real)
    requires first <= last && d == Spacing(first, last, n)
    ensures 0.0 <= d
    ensures forall j: nat :: j < n ==> 0.0 <= Step(j, d) <= last - first + Slack(n)
    ensures n > 1 ==> last - first - Slack(n) <= Step(n - 1, d)
  {
    SpacingSpan(first, last, n);
    forall j: nat | j < n
      ensures 0.0 <= Step(j, d) <= last - first + Slack(n)
    {
      StepWithin(first, last, n, j);
    }
  }

  /** A header whose spacing shares its corners' span covers the announced
      grid up to the rounding slack. */
  lemma SpacedHeaderCoversGrid(h: Header)
    requires h.lo1 <= h.lo2 && h.la2 <= h.la1
    requires h.dx == Spacing(h.lo1, h.lo2, h.nx) && h.dy == Spacing(h.la2, h.la1, h.ny)
    ensures HeaderCoversGrid(h)
  {
    AxisSteps(h.lo1, h.lo2, h.nx, h.dx);
    AxisSteps(h.la2, h.la1, h.ny, h.dy);
  }

  /** The request pipeline of app.py without HTTP: no rows, no kept row and
      a failed length check each give their error; otherwise the two
      records. `grid` is create_grid's result. */
  method BuildWindField(rows: seq<WindRow>, wind: WindConversion, now: int)
    returns (r: Result<(Component, Component), string>, grid: Option<WindGrid>)
    ensures rows == [] ==> r == Err("No wind data found")
    ensures rows != [] && (forall i :: 0 <= i < |rows| ==> !Kept(rows[i])) ==>
      r == Err("Failed to generate grid")
    ensures r.Ok? <==> exists i :: 0 <= i < |rows| && Kept(rows[i])
    ensures r.Ok? ==>
      && grid.Some?
      && var g := grid.value;
      var (u, v) := r.value;
      && g.cells == Cells(rows, wind) && g.refTime == RefTime(rows) && AxesConsistent(g)
      && g.nx >= 1 && g.ny >= 1
      && |u.data| == g.nx * g.ny && |v.data| == g.nx * g.ny
      && u.data == Us(Flat(g.cells, g.lats, g.lons)) && v.data == Vs(Flat(g.cells, g.lats, g.lons))
      && v.header == u.header.(parameterNumber := VComponent)
      && u.header.parameterNumber == UComponent && u.header.parameterCategory == Momentum
      && u.header.nx == g.nx && u.header.ny == g.ny && u.header.parameterUnit == "m.s-1"
      && u.header.lo1 == Degrees(g.lons[0]) && u.header.lo2 == Degrees(g.lons[g.nx - 1])
      && u.header.la1 == Degrees(g.lats[0]) && u.header.la2 == Degrees(g.lats[g.ny - 1])
      && u.header.dx == Spacing(u.header.lo1, u.header.lo2, g.nx)
      && u.header.dy == Spacing(u.header.la2, u.header.la1, g.ny)
      && u.header.refTime == (if RefTime(rows).Some? then RefTime(rows).value else now)
      && HeaderCoversGrid(u.header)
  {
    grid := None;
    if rows == [] {
      return Err("No wind data found"), grid;
    }
    grid := CreateGrid(rows, wind);
    if grid.None? {
      return Err("Failed to generate grid"), grid;
    }
    var g := grid.value;
    assert |g.lats| * |g.lons| == g.nx * g.ny;
    var components := CreateVelocityComponents(g.cells, g.lats, g.lons, g.nx, g.ny, g.refTime, now);
    if components.None? {
      return Err("Failed to generate wind components"), grid;
    }
    var h := components.value.0.header;
    var n, m := |g.lons|, |g.lats|;
    assert h.lo1 <= h.lo2 && h.la2 <= h.la1 by {
      if n > 1 { assert g.lons[0] < g.lons[n - 1]; }
      if m > 1 { assert g.lats[0] > g.lats[m - 1]; }
    }
    SpacedHeaderCoversGrid(h);
    r := Ok(components.value);
  }
}
