/**
 * The dense grid generator: a bounding box around a city centre, scanned
 * on a regular latitude/longitude lattice, keeping every lattice point whose
 * great-circle distance from the centre is within the radius.
 *
 * `CreateDenseGrid` is the scan as the program runs it, two nested loops
 * that add a step to a running coordinate; `DenseGrid` is the reference
 * definition it is proved against, which names the k-th lattice coordinate
 * directly as `min + k * step`. With exact real arithmetic the two agree.
 *
 * The scan and filter are stated for any distance-from-the-centre function
 * `dist`; the grid around a centre instantiates it with the haversine
 * distance from that centre (`DistanceFrom`).
 */
module GridGenerator {
  import opened GreatCircle

  /** Radius around each city, in kilometres. */
  const CityRadiusKm: real := 20.0
  /** Distance between neighbouring grid points, in kilometres. */
  const GridSpacingKm: real := 1.0
  /** The fixed approximation: one degree of latitude is 111 km everywhere. */
  const KmPerDegreeLat: real := 111.0

  /** A kept lattice point and its distance from the centre. */
  datatype GridPoint = GridPoint(lat: real, lon: real, distanceKm: real)

  /** Step sizes and bounding box of one scan, all in degrees. */
  datatype Box = Box(latStep: real, lonStep: real, minLat: real, maxLat: real, minLon: real, maxLon: real)

  /** Kilometres per degree of longitude at a latitude: shrinks with cos(latitude). */
  function KmPerDegreeLon(t: Trig, lat: real): real
  {
    KmPerDegreeLat * t.cos(t.radians(lat))
  }

  /** What a scan needs to terminate: a positive spacing, and a centre away from the poles. */
  predicate Scannable(t: Trig, lat: real, spacingKm: real)
  {
    spacingKm > 0.0 && t.cos(t.radians(lat)) > 0.0
  }

  /** The haversine distance from the centre (lat, lon) to a point. */
  function DistanceFrom(t: Trig, lat: real, lon: real): (real, real) -> real
  {
    (pointLat: real, pointLon: real) => Haversine(t, lat, lon, pointLat, pointLon)
  }

  /**
   * The steps and the box, computed as the program does: through the
   * reciprocal of km-per-degree.
   */
  function GridBox(t: Trig, lat: real, lon: real, radiusKm: real, spacingKm: real): (box: Box)
    requires t.cos(t.radians(lat)) > 0.0
    ensures spacingKm > 0.0 ==> box.latStep > 0.0 && box.lonStep > 0.0
  {
    var degreesPerKmLat := 1.0 / KmPerDegreeLat;
    var degreesPerKmLon := 1.0 / KmPerDegreeLon(t, lat);
    var latStep := degreesPerKmLat * spacingKm;
    var lonStep := degreesPerKmLon * spacingKm;
    var latRadius := radiusKm * degreesPerKmLat;
    var lonRadius := radiusKm * degreesPerKmLon;
    Box(latStep, lonStep, lat - latRadius, lat + latRadius, lon - lonRadius, lon + lonRadius)
  }

  /**
   * The step sizes are the spacing in degrees, the longitude one scaled by
   * 1/cos(latitude), and the box reaches the radius, in degrees, on each
   * side of the centre.
   */
  lemma GridBoxShape(t: Trig, lat: real, lon: real, radiusKm: real, spacingKm: real)
    requires t.cos(t.radians(lat)) > 0.0
    ensures var box := GridBox(t, lat, lon, radiusKm, spacingKm);
      && box.latStep == spacingKm / 111.0
      && box.lonStep == spacingKm / (111.0 * t.cos(t.radians(lat)))
      && box.maxLat - lat == lat - box.minLat == radiusKm / 111.0
      && box.maxLon - lon == lon - box.minLon == radiusKm / (111.0 * t.cos(t.radians(lat)))
  {
  }

  lemma MulMonotone(x: real, y: real, s: real)
    requires s > 0.0
    ensures x <= y <==> x * s <= y * s
    ensures x < y <==> x * s < y * s
  {
    assert (y - x) * s == y * s - x * s;
  }

  /** Number of lattice offsets k >= 0 with k * step <= span. */
  function LatticeCount(span: real, step: real): nat
    requires step > 0.0
  {
    if span < 0.0 then 0 else (span / step).Floor + 1
  }

  /** Offset k is inside the span exactly when k is below the lattice count. */
  lemma LatticeCountBound(span: real, step: real, k: nat)
    requires step > 0.0
    ensures (k as real) * step <= span <==> k < LatticeCount(span, step)
  {
    var x := k as real;
    if span < 0.0 {
      assert x * step >= 0.0;
    } else {
      var q := span / step;
      assert q * step == span;
      assert k < LatticeCount(span, step) <==> x <= q;
      MulMonotone(x, q, step);
    }
  }

  function Rows(box: Box): nat
    requires box.latStep > 0.0
  {
    LatticeCount(box.maxLat - box.minLat, box.latStep)
  }

  function Cols(box: Box): nat
    requires box.lonStep > 0.0
  {
    LatticeCount(box.maxLon - box.minLon, box.lonStep)
  }

  /** Latitude of the i-th row of the lattice. */
  function LatAt(box: Box, i: int): real
  {
    box.minLat + (i as real) * box.latStep
  }

  /** Longitude of the j-th column of the lattice. */
  function LonAt(box: Box, j: int): real
  {
    box.minLon + (j as real) * box.lonStep
  }

  /** Row i is inside the box exactly when i is below the row count. */
  lemma RowBound(box: Box, i: nat)
    requires box.latStep > 0.0
    ensures LatAt(box, i) <= box.maxLat <==> i < Rows(box)
  {
    LatticeCountBound(box.maxLat - box.minLat, box.latStep, i);
  }

  /** Column j is inside the box exactly when j is below the column count. */
  lemma ColumnBound(box: Box, j: nat)
    requires box.lonStep > 0.0
    ensures LonAt(box, j) <= box.maxLon <==> j < Cols(box)
  {
    LatticeCountBound(box.maxLon - box.minLon, box.lonStep, j);
  }

  /** One more step along either axis reaches the next lattice coordinate. */
  lemma LatticeStep(box: Box, k: int)
    ensures LatAt(box, k + 1) == LatAt(box, k) + box.latStep
    ensures LonAt(box, k + 1) == LonAt(box, k) + box.lonStep
  {
    assert ((k + 1) as real) * box.latStep == (k as real) * box.latStep + box.latStep;
    assert ((k + 1) as real) * box.lonStep == (k as real) * box.lonStep + box.lonStep;
  }

  /** A lattice point with its distance from the centre. */
  function Candidate(dist: (real, real) -> real, pointLat: real, pointLon: real): GridPoint
  {
    GridPoint(pointLat, pointLon, dist(pointLat, pointLon))
  }

  /** The filter: the candidate alone if it is within the radius, nothing otherwise. */
  function Keep(dist: (real, real) -> real, radiusKm: real, pointLat: real, pointLon: real): seq<GridPoint>
  {
    var p := Candidate(dist, pointLat, pointLon);
    if p.distanceKm <= radiusKm then [p] else []
  }

  /** The kept points among the first `cols` columns of the row at `pointLat`. */
  function ScanRow(dist: (real, real) -> real, radiusKm: real, box: Box, pointLat: real, cols: nat): seq<GridPoint>
  {
    if cols == 0 then []
    else ScanRow(dist, radiusKm, box, pointLat, cols - 1) + Keep(dist, radiusKm, pointLat, LonAt(box, cols - 1))
  }

  /** The kept points among the first `rows` rows of the lattice, row after row. */
  function ScanGrid(dist: (real, real) -> real, radiusKm: real, box: Box, rows: nat): seq<GridPoint>
    requires box.lonStep > 0.0
  {
    if rows == 0 then []
    else ScanGrid(dist, radiusKm, box, rows - 1) + ScanRow(dist, radiusKm, box, LatAt(box, rows - 1), Cols(box))
  }

  /** Reference definition of the grid around (lat, lon). */
  function DenseGrid(t: Trig, lat: real, lon: real, radiusKm: real, spacingKm: real): seq<GridPoint>
    requires Scannable(t, lat, spacingKm)
  {
    var box := GridBox(t, lat, lon, radiusKm, spacingKm);
    ScanGrid(DistanceFrom(t, lat, lon), radiusKm, box, Rows(box))
  }

  /** A point lies in the closed bounding box. */
  predicate InBox(box: Box, p: GridPoint)
  {
    box.minLat <= p.lat <= box.maxLat && box.minLon <= p.lon <= box.maxLon
  }

  /** Scan order: latitude-major, longitude-minor, strictly increasing. */
  predicate Before(p: GridPoint, q: GridPoint)
  {
    p.lat < q.lat || (p.lat == q.lat && p.lon < q.lon)
  }

  predicate ScanOrdered(s: seq<GridPoint>)
  {
    forall k, l :: 0 <= k < l < |s| ==> Before(s[k], s[l])
  }

  /** p is the candidate at lattice position (i, j) of the box, and it passes the filter. */
  ghost predicate KeptAt(dist: (real, real) -> real, radiusKm: real, box: Box, p: GridPoint, i: int, j: int)
  {
    p == Candidate(dist, LatAt(box, i), LonAt(box, j)) && p.distanceKm <= radiusKm
  }

  /** Concatenating two scan-ordered runs, the first wholly before the second, is scan-ordered. */
  lemma OrderedConcat(a: seq<GridPoint>, b: seq<GridPoint>)
    requires ScanOrdered(a) && ScanOrdered(b)
    requires forall p, q :: p in a && q in b ==> Before(p, q)
    ensures ScanOrdered(a + b)
  {
    var s := a + b;
    forall k, l | 0 <= k < l < |s| ensures Before(s[k], s[l]) {
      if l < |a| {
        assert s[k] == a[k] && s[l] == a[l];
      } else if k >= |a| {
        assert s[k] == b[k - |a|] && s[l] == b[l - |a|];
      } else {
        assert s[k] in a && s[l] in b;
      }
    }
  }

  /**
   * Scanning one more column appends that column's point, with its
   * distance, when it is within the radius, and nothing otherwise. The
   * prefix `before` stands for the points of earlier rows: it has no
   * counterpart in the program and is there so the lemma matches the loop
   * invariant of `ScanLatitudeRow` as written.
   */
  lemma ScanRowExtend(dist: (real, real) -> real, radiusKm: real, box: Box, pointLat: real, cols: nat,
                      distance: real, before: seq<GridPoint>)
    requires distance == dist(pointLat, LonAt(box, cols))
    ensures distance <= radiusKm ==>
      (before + ScanRow(dist, radiusKm, box, pointLat, cols + 1) ==
       before + ScanRow(dist, radiusKm, box, pointLat, cols) + [GridPoint(pointLat, LonAt(box, cols), distance)])
    ensures distance > radiusKm ==>
      (before + ScanRow(dist, radiusKm, box, pointLat, cols + 1) ==
       before + ScanRow(dist, radiusKm, box, pointLat, cols))
  {
  }

  /** Exactly the kept candidates of the row's first `cols` columns are in ScanRow. */
  lemma {:induction false} ScanRowMembers(dist: (real, real) -> real, radiusKm: real, box: Box, pointLat: real, cols: nat)
    ensures forall p :: p in ScanRow(dist, radiusKm, box, pointLat, cols) <==>
      exists j :: 0 <= j < cols && p == Candidate(dist, pointLat, LonAt(box, j)) && p.distanceKm <= radiusKm
  {
    if cols > 0 {
      ScanRowMembers(dist, radiusKm, box, pointLat, cols - 1);
      assert ScanRow(dist, radiusKm, box, pointLat, cols)
        == ScanRow(dist, radiusKm, box, pointLat, cols - 1) + Keep(dist, radiusKm, pointLat, LonAt(box, cols - 1));
    }
  }

  /** A row is scan-ordered, and all of it lies strictly west of column `cols`. */
  lemma {:induction false} ScanRowOrdered(dist: (real, real) -> real, radiusKm: real, box: Box, pointLat: real, cols: nat)
    requires box.lonStep > 0.0
    ensures ScanOrdered(ScanRow(dist, radiusKm, box, pointLat, cols))
    ensures forall p :: p in ScanRow(dist, radiusKm, box, pointLat, cols) ==> p.lat == pointLat && p.lon < LonAt(box, cols)
  {
    if cols > 0 {
      ScanRowOrdered(dist, radiusKm, box, pointLat, cols - 1);
      var front := ScanRow(dist, radiusKm, box, pointLat, cols - 1);
      var last := Keep(dist, radiusKm, pointLat, LonAt(box, cols - 1));
      assert forall q :: q in last ==> q.lat == pointLat && q.lon == LonAt(box, cols - 1);
      LonAtMonotone(box, cols - 1, cols);
      OrderedConcat(front, last);
    }
  }

  /** A column's longitude is strictly increasing in the column index. */
  lemma LonAtMonotone(box: Box, j: int, j': int)
    requires box.lonStep > 0.0 && j < j'
    ensures LonAt(box, j) < LonAt(box, j')
  {
    MulMonotone(j as real, j' as real, box.lonStep);
  }

  /** A row's latitude is strictly increasing in the row index. */
  lemma LatAtMonotone(box: Box, i: int, i': int)
    requires box.latStep > 0.0 && i < i'
    ensures LatAt(box, i) < LatAt(box, i')
  {
    MulMonotone(i as real, i' as real, box.latStep);
  }

  /** Exactly the kept candidates of the first `rows` rows are in ScanGrid. */
  lemma {:induction false} ScanGridMembers(dist: (real, real) -> real, radiusKm: real, box: Box, rows: nat)
    requires box.lonStep > 0.0
    ensures forall p :: p in ScanGrid(dist, radiusKm, box, rows) <==>
      exists i, j :: 0 <= i < rows && 0 <= j < Cols(box) && KeptAt(dist, radiusKm, box, p, i, j)
  {
    if rows > 0 {
      var front := ScanGrid(dist, radiusKm, box, rows - 1);
      var row := ScanRow(dist, radiusKm, box, LatAt(box, rows - 1), Cols(box));
      ScanGridMembers(dist, radiusKm, box, rows - 1);
      ScanRowMembers(dist, radiusKm, box, LatAt(box, rows - 1), Cols(box));
      forall p ensures p in front + row <==>
        exists i, j :: 0 <= i < rows && 0 <= j < Cols(box) && KeptAt(dist, radiusKm, box, p, i, j)
      {
        if p in row {
          var j :| 0 <= j < Cols(box) && p == Candidate(dist, LatAt(box, rows - 1), LonAt(box, j)) && p.distanceKm <= radiusKm;
          assert KeptAt(dist, radiusKm, box, p, rows - 1, j);
        }
        if exists i, j :: 0 <= i < rows && 0 <= j < Cols(box) && KeptAt(dist, radiusKm, box, p, i, j) {
          var i, j :| 0 <= i < rows && 0 <= j < Cols(box) && KeptAt(dist, radiusKm, box, p, i, j);
          if i == rows - 1 {
            assert p in row;
          } else {
            assert p in front;
          }
        }
      }
    }
  }

  /** The grid is scan-ordered, and all of it lies strictly south of row `rows`. */
  lemma {:induction false} ScanGridOrdered(dist: (real, real) -> real, radiusKm: real, box: Box, rows: nat)
    requires box.latStep > 0.0 && box.lonStep > 0.0
    ensures ScanOrdered(ScanGrid(dist, radiusKm, box, rows))
    ensures forall p :: p in ScanGrid(dist, radiusKm, box, rows) ==> p.lat < LatAt(box, rows)
  {
    if rows > 0 {
      ScanGridOrdered(dist, radiusKm, box, rows - 1);
      var front := ScanGrid(dist, radiusKm, box, rows - 1);
      var row := ScanRow(dist, radiusKm, box, LatAt(box, rows - 1), Cols(box));
      ScanRowOrdered(dist, radiusKm, box, LatAt(box, rows - 1), Cols(box));
      LatAtMonotone(box, rows - 1, rows);
      OrderedConcat(front, row);
    }
  }

  /**
   * Membership in the grid: a point is returned exactly when it is the
   * candidate at some lattice position of the box and passes the filter.
   */
  lemma DenseGridMembers(t: Trig, lat: real, lon: real, radiusKm: real, spacingKm: real, p: GridPoint)
    requires Scannable(t, lat, spacingKm)
    ensures var box := GridBox(t, lat, lon, radiusKm, spacingKm);
      p in DenseGrid(t, lat, lon, radiusKm, spacingKm) <==>
      exists i, j :: 0 <= i < Rows(box) && 0 <= j < Cols(box) && KeptAt(DistanceFrom(t, lat, lon), radiusKm, box, p, i, j)
  {
    var box := GridBox(t, lat, lon, radiusKm, spacingKm);
    ScanGridMembers(DistanceFrom(t, lat, lon), radiusKm, box, Rows(box));
  }

  /** Every returned point is within the radius, with its true distance from the centre. */
  lemma DenseGridWithinRadius(t: Trig, lat: real, lon: real, radiusKm: real, spacingKm: real)
    requires Scannable(t, lat, spacingKm)
    ensures forall p :: p in DenseGrid(t, lat, lon, radiusKm, spacingKm) ==>
      p.distanceKm <= radiusKm && p.distanceKm == Haversine(t, lat, lon, p.lat, p.lon)
  {
    forall p | p in DenseGrid(t, lat, lon, radiusKm, spacingKm)
      ensures p.distanceKm <= radiusKm && p.distanceKm == Haversine(t, lat, lon, p.lat, p.lon)
    {
      DenseGridMembers(t, lat, lon, radiusKm, spacingKm, p);
    }
  }

  /** Every returned point lies in the bounding box. */
  lemma DenseGridInBox(t: Trig, lat: real, lon: real, radiusKm: real, spacingKm: real)
    requires Scannable(t, lat, spacingKm)
    ensures forall p :: p in DenseGrid(t, lat, lon, radiusKm, spacingKm) ==>
      InBox(GridBox(t, lat, lon, radiusKm, spacingKm), p)
  {
    var box := GridBox(t, lat, lon, radiusKm, spacingKm);
    forall p | p in DenseGrid(t, lat, lon, radiusKm, spacingKm) ensures InBox(box, p) {
      DenseGridMembers(t, lat, lon, radiusKm, spacingKm, p);
      var i, j :| 0 <= i < Rows(box) && 0 <= j < Cols(box) && KeptAt(DistanceFrom(t, lat, lon), radiusKm, box, p, i, j);
      RowBound(box, i);
      ColumnBound(box, j);
      MulMonotone(0.0, i as real, box.latStep);
      MulMonotone(0.0, j as real, box.lonStep);
    }
  }

  /** Every lattice point of the box that is within the radius is returned. */
  lemma DenseGridComplete(t: Trig, lat: real, lon: real, radiusKm: real, spacingKm: real, i: nat, j: nat)
    requires Scannable(t, lat, spacingKm)
    requires var box := GridBox(t, lat, lon, radiusKm, spacingKm);
      i < Rows(box) && j < Cols(box) && Haversine(t, lat, lon, LatAt(box, i), LonAt(box, j)) <= radiusKm
    ensures var box := GridBox(t, lat, lon, radiusKm, spacingKm);
      GridPoint(LatAt(box, i), LonAt(box, j), Haversine(t, lat, lon, LatAt(box, i), LonAt(box, j)))
        in DenseGrid(t, lat, lon, radiusKm, spacingKm)
  {
    var box := GridBox(t, lat, lon, radiusKm, spacingKm);
    var p := Candidate(DistanceFrom(t, lat, lon), LatAt(box, i), LonAt(box, j));
    assert KeptAt(DistanceFrom(t, lat, lon), radiusKm, box, p, i, j);
    DenseGridMembers(t, lat, lon, radiusKm, spacingKm, p);
  }

  /** The grid is in scan order, so it also holds no point twice. */
  lemma DenseGridOrdered(t: Trig, lat: real, lon: real, radiusKm: real, spacingKm: real)
    requires Scannable(t, lat, spacingKm)
    ensures ScanOrdered(DenseGrid(t, lat, lon, radiusKm, spacingKm))
  {
    var box := GridBox(t, lat, lon, radiusKm, spacingKm);
    ScanGridOrdered(DistanceFrom(t, lat, lon), radiusKm, box, Rows(box));
  }

  /** With a zero radius the box collapses to the centre, which is the one point kept. */
  lemma DenseGridZeroRadius(t: Trig, lat: real, lon: real, spacingKm: real)
    requires Scannable(t, lat, spacingKm) && ZeroLaws(t)
    ensures DenseGrid(t, lat, lon, 0.0, spacingKm) == [GridPoint(lat, lon, 0.0)]
  {
    var box := GridBox(t, lat, lon, 0.0, spacingKm);
    var dist := DistanceFrom(t, lat, lon);
    assert Rows(box) == 1 && Cols(box) == 1;
    assert LatAt(box, 0) == lat && LonAt(box, 0) == lon;
    HaversineSelfZero(t, lat, lon);
    assert ScanRow(dist, 0.0, box, lat, 1) == [GridPoint(lat, lon, 0.0)];
    assert ScanGrid(dist, 0.0, box, 1) == ScanGrid(dist, 0.0, box, 0) + ScanRow(dist, 0.0, box, lat, 1);
  }

  /** With a negative radius the box is empty, so the scan keeps nothing. */
  lemma DenseGridNegativeRadius(t: Trig, lat: real, lon: real, radiusKm: real, spacingKm: real)
    requires Scannable(t, lat, spacingKm) && radiusKm < 0.0
    ensures DenseGrid(t, lat, lon, radiusKm, spacingKm) == []
  {
    var box := GridBox(t, lat, lon, radiusKm, spacingKm);
    assert box.maxLat - box.minLat < 0.0;
    assert Rows(box) == 0;
  }

  /**
   * Moving the centre to another latitude scales the longitude step by the
   * ratio of the cosines, and leaves the latitude step and row count alone.
   */
  lemma GridAcrossLatitudes(t: Trig, lat: real, lon: real, lat': real, lon': real, radiusKm: real, spacingKm: real)
    requires Scannable(t, lat, spacingKm) && Scannable(t, lat', spacingKm)
    ensures var box, box' := GridBox(t, lat, lon, radiusKm, spacingKm), GridBox(t, lat', lon', radiusKm, spacingKm);
      box.latStep == box'.latStep && Rows(box) == Rows(box') &&
      box.lonStep * t.cos(t.radians(lat)) == box'.lonStep * t.cos(t.radians(lat'))
  {
  }

  /**
   * One row of the scan: walk the longitudes of the box from its western
   * edge, adding a step each time, and append each point of the row at
   * `currentLat` that is within the radius of (lat, lon), with its distance.
   */
  method ScanLatitudeRow(t: Trig, lat: real, lon: real, radiusKm: real, box: Box, currentLat: real,
                         gridPoints: seq<GridPoint>)
    returns (extended: seq<GridPoint>)
    requires box.lonStep > 0.0
    ensures extended == gridPoints + ScanRow(DistanceFrom(t, lat, lon), radiusKm, box, currentLat, Cols(box))
  {
    ghost var dist := DistanceFrom(t, lat, lon);
    extended := gridPoints;
    var currentLon := box.minLon;
    ghost var j: nat := 0;
    while currentLon <= box.maxLon
      invariant j <= Cols(box)
      invariant currentLon == LonAt(box, j)
      invariant extended == gridPoints + ScanRow(dist, radiusKm, box, currentLat, j)
      decreases Cols(box) - j
    {
      ColumnBound(box, j);
      var distance := Haversine(t, lat, lon, currentLat, currentLon);
      ScanRowExtend(dist, radiusKm, box, currentLat, j, distance, gridPoints);
      if distance <= radiusKm {
        extended := extended + [GridPoint(currentLat, currentLon, distance)];
      }
      LatticeStep(box, j);
      currentLon := currentLon + box.lonStep;
      j := j + 1;
    }
    ColumnBound(box, j);
  }

  /**
   * The scan as the program runs it: walk the box from its south-west
   * corner, row by row, adding a step to the running latitude, and keep each
   * lattice point within the radius together with its distance.
   */
  method CreateDenseGrid(t: Trig, lat: real, lon: real, radiusKm: real := CityRadiusKm, spacingKm: real := GridSpacingKm)
    returns (gridPoints: seq<GridPoint>)
    requires Scannable(t, lat, spacingKm)
    ensures gridPoints == DenseGrid(t, lat, lon, radiusKm, spacingKm)
    ensures forall p :: p in gridPoints ==>
      p.distanceKm <= radiusKm && p.distanceKm == Haversine(t, lat, lon, p.lat, p.lon)
    ensures forall p :: p in gridPoints ==> InBox(GridBox(t, lat, lon, radiusKm, spacingKm), p)
    ensures ScanOrdered(gridPoints)
  {
    var box := GridBox(t, lat, lon, radiusKm, spacingKm);
    gridPoints := [];
    var currentLat := box.minLat;
    ghost var i: nat := 0;
    while currentLat <= box.maxLat
      invariant i <= Rows(box)
      invariant currentLat == LatAt(box, i)
      invariant gridPoints == ScanGrid(DistanceFrom(t, lat, lon), radiusKm, box, i)
      decreases Rows(box) - i
    {
      RowBound(box, i);
      gridPoints := ScanLatitudeRow(t, lat, lon, radiusKm, box, currentLat, gridPoints);
      LatticeStep(box, i);
      currentLat := currentLat + box.latStep;
      i := i + 1;
    }
    RowBound(box, i);
    DenseGridWithinRadius(t, lat, lon, radiusKm, spacingKm);
    DenseGridInBox(t, lat, lon, radiusKm, spacingKm);
    DenseGridOrdered(t, lat, lon, radiusKm, spacingKm);
  }
}
