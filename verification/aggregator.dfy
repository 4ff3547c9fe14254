/**
 * Per-city aggregation: run the grid generator once per city of the
 * catalogue, in catalogue order, and flatten the results into one table of
 * rows, each row the join of the city's metadata with one grid point.
 */
module Aggregator {
  import opened GreatCircle
  import opened GridGenerator

  /** One catalogue entry, as the city loader delivers it. */
  datatype CityRecord = CityRecord(
    id: int,
    name: string,
    country: string,
    lat: real,
    lon: real,
    population: int)

  /** One output row: a city's metadata stamped onto one of its grid points. */
  datatype OutputRow = OutputRow(
    cityId: int,
    cityName: string,
    country: string,
    population: int,
    cityLat: real,
    cityLon: real,
    pointLat: real,
    pointLon: real,
    distanceKm: real)

  /** The city a row was stamped with. */
  function CityOf(r: OutputRow): CityRecord
  {
    CityRecord(r.cityId, r.cityName, r.country, r.cityLat, r.cityLon, r.population)
  }

  /** The grid point a row carries. */
  function PointOf(r: OutputRow): GridPoint
  {
    GridPoint(r.pointLat, r.pointLon, r.distanceKm)
  }

  /** Stamp a city's metadata onto a grid point; the city and the point can both be read back. */
  function StampRow(c: CityRecord, p: GridPoint): (r: OutputRow)
    ensures CityOf(r) == c && PointOf(r) == p
  {
    OutputRow(c.id, c.name, c.country, c.population, c.lat, c.lon, p.lat, p.lon, p.distanceKm)
  }

  /** The rows of one city: its grid points in order, each stamped with the city. */
  function Stamp(c: CityRecord, points: seq<GridPoint>): seq<OutputRow>
  {
    if points == [] then [] else Stamp(c, points[..|points| - 1]) + [StampRow(c, points[|points| - 1])]
  }

  /** Every city of the catalogue can be scanned: positive spacing, no centre at a pole. */
  predicate AllScannable(t: Trig, cities: seq<CityRecord>, spacingKm: real)
  {
    forall k :: 0 <= k < |cities| ==> Scannable(t, cities[k].lat, spacingKm)
  }

  /** The grid of one city, at the fixed city radius. */
  function CityGrid(t: Trig, c: CityRecord, spacingKm: real): seq<GridPoint>
    requires Scannable(t, c.lat, spacingKm)
  {
    DenseGrid(t, c.lat, c.lon, CityRadiusKm, spacingKm)
  }

  /** The grids of all cities, one per city, in catalogue order. */
  function CityGrids(t: Trig, cities: seq<CityRecord>, spacingKm: real): seq<seq<GridPoint>>
    requires AllScannable(t, cities, spacingKm)
  {
    seq(|cities|, k requires 0 <= k < |cities| && Scannable(t, cities[k].lat, spacingKm) => CityGrid(t, cities[k], spacingKm))
  }

  /** The table built from per-city grids: each city's grid stamped with the city, city after city. */
  function Flatten(cities: seq<CityRecord>, grids: seq<seq<GridPoint>>): seq<OutputRow>
    requires |cities| == |grids|
  {
    if cities == [] then []
    else Flatten(cities[..|cities| - 1], grids[..|grids| - 1]) + Stamp(cities[|cities| - 1], grids[|grids| - 1])
  }

  /** Total number of points over a list of grids. */
  function GridSizeSum(grids: seq<seq<GridPoint>>): nat
  {
    if grids == [] then 0 else GridSizeSum(grids[..|grids| - 1]) + |grids[|grids| - 1]|
  }

  /** Stamping keeps every point, in order, and changes none of its fields. */
  lemma {:induction false} StampShape(c: CityRecord, points: seq<GridPoint>)
    ensures |Stamp(c, points)| == |points|
    ensures forall k :: 0 <= k < |points| ==>
      CityOf(Stamp(c, points)[k]) == c && PointOf(Stamp(c, points)[k]) == points[k]
  {
    if points != [] {
      StampShape(c, points[..|points| - 1]);
    }
  }

  /** Stamping one more point appends its row. */
  lemma StampAppend(c: CityRecord, points: seq<GridPoint>, p: GridPoint)
    ensures Stamp(c, points + [p]) == Stamp(c, points) + [StampRow(c, p)]
  {
    assert (points + [p])[..|points|] == points;
  }

  /** The table's rows are the cities' rows, city by city: splitting the catalogue splits the table. */
  lemma {:induction false} FlattenAppend(a: seq<CityRecord>, ga: seq<seq<GridPoint>>, b: seq<CityRecord>, gb: seq<seq<GridPoint>>)
    requires |a| == |ga| && |b| == |gb|
    ensures Flatten(a + b, ga + gb) == Flatten(a, ga) + Flatten(b, gb)
  {
    if b == [] {
      assert a + b == a && ga + gb == ga;
    } else {
      var b', gb' := b[..|b| - 1], gb[..|gb| - 1];
      assert (a + b)[..|a + b| - 1] == a + b';
      assert (ga + gb)[..|ga + gb| - 1] == ga + gb';
      FlattenAppend(a, ga, b', gb');
    }
  }

  /** Taking one more city appends exactly that city's stamped grid. */
  lemma FlattenSnoc(cities: seq<CityRecord>, grids: seq<seq<GridPoint>>, i: nat)
    requires |cities| == |grids| && i < |cities|
    ensures Flatten(cities[..i + 1], grids[..i + 1]) == Flatten(cities[..i], grids[..i]) + Stamp(cities[i], grids[i])
  {
    assert cities[..i + 1][..i] == cities[..i];
    assert grids[..i + 1][..i] == grids[..i];
  }

  /** The table has one row per point of every grid. */
  lemma {:induction false} FlattenLength(cities: seq<CityRecord>, grids: seq<seq<GridPoint>>)
    requires |cities| == |grids|
    ensures |Flatten(cities, grids)| == GridSizeSum(grids)
  {
    if cities != [] {
      FlattenLength(cities[..|cities| - 1], grids[..|grids| - 1]);
      StampShape(cities[|cities| - 1], grids[|grids| - 1]);
    }
  }

  /** Every row was stamped with some city of the catalogue, and carries a point of that city's grid. */
  lemma {:induction false} FlattenProvenance(cities: seq<CityRecord>, grids: seq<seq<GridPoint>>)
    requires |cities| == |grids|
    ensures forall r :: r in Flatten(cities, grids) ==>
      exists k :: 0 <= k < |cities| && CityOf(r) == cities[k] && PointOf(r) in grids[k]
  {
    if cities != [] {
      var n := |cities| - 1;
      var front, gfront := cities[..n], grids[..n];
      FlattenProvenance(front, gfront);
      StampShape(cities[n], grids[n]);
      forall r | r in Flatten(cities, grids)
        ensures exists k :: 0 <= k < |cities| && CityOf(r) == cities[k] && PointOf(r) in grids[k]
      {
        if r in Flatten(front, gfront) {
          var k :| 0 <= k < |front| && CityOf(r) == front[k] && PointOf(r) in gfront[k];
          assert cities[k] == front[k] && grids[k] == gfront[k];
        } else {
          var rows := Stamp(cities[n], grids[n]);
          assert r in rows;
          var m :| 0 <= m < |rows| && rows[m] == r;
          assert PointOf(r) == grids[n][m];
        }
      }
    }
  }

  /** Every row's point is within the city radius of its own city's centre, at its true distance. */
  lemma CityRowsWithinRadius(t: Trig, cities: seq<CityRecord>, spacingKm: real)
    requires AllScannable(t, cities, spacingKm)
    ensures forall r :: r in Flatten(cities, CityGrids(t, cities, spacingKm)) ==>
      r.distanceKm <= CityRadiusKm && r.distanceKm == Haversine(t, r.cityLat, r.cityLon, r.pointLat, r.pointLon)
  {
    var grids := CityGrids(t, cities, spacingKm);
    FlattenProvenance(cities, grids);
    forall r | r in Flatten(cities, grids)
      ensures r.distanceKm <= CityRadiusKm && r.distanceKm == Haversine(t, r.cityLat, r.cityLon, r.pointLat, r.pointLon)
    {
      var k :| 0 <= k < |cities| && CityOf(r) == cities[k] && PointOf(r) in grids[k];
      DenseGridWithinRadius(t, cities[k].lat, cities[k].lon, CityRadiusKm, spacingKm);
    }
  }

  /**
   * Two cities with the same centre get the same grid: their rows agree in
   * every point field and differ at most in the city metadata.
   */
  lemma SameCentreSamePoints(t: Trig, c: CityRecord, c': CityRecord, spacingKm: real)
    requires Scannable(t, c.lat, spacingKm) && c.lat == c'.lat && c.lon == c'.lon
    ensures var rows, rows' := Flatten([c], [CityGrid(t, c, spacingKm)]), Flatten([c'], [CityGrid(t, c', spacingKm)]);
      |rows| == |rows'| &&
      forall k :: 0 <= k < |rows| ==> PointOf(rows[k]) == PointOf(rows'[k]) && CityOf(rows[k]) == c && CityOf(rows'[k]) == c'
  {
    var grid := CityGrid(t, c, spacingKm);
    assert [c][..0] == [] && [c'][..0] == [] && [grid][..0] == [];
    StampShape(c, grid);
    StampShape(c', grid);
  }

  /** The inner loop of the aggregation: append one stamped row per grid point of one city. */
  method StampCity(city: CityRecord, gridPoints: seq<GridPoint>, allPoints: seq<OutputRow>) returns (extended: seq<OutputRow>)
    ensures extended == allPoints + Stamp(city, gridPoints)
  {
    extended := allPoints;
    for k := 0 to |gridPoints|
      invariant extended == allPoints + Stamp(city, gridPoints[..k])
    {
      StampAppend(city, gridPoints[..k], gridPoints[k]);
      assert gridPoints[..k + 1] == gridPoints[..k] + [gridPoints[k]];
      extended := extended + [StampRow(city, gridPoints[k])];
    }
    assert gridPoints[..|gridPoints|] == gridPoints;
  }

  /**
   * The aggregation as the program runs it: for each city in catalogue
   * order, generate its grid and append one stamped row per grid point.
   */
  method ProcessCities(t: Trig, cities: seq<CityRecord>, spacingKm: real := GridSpacingKm) returns (allPoints: seq<OutputRow>)
    requires AllScannable(t, cities, spacingKm)
    ensures allPoints == Flatten(cities, CityGrids(t, cities, spacingKm))
    ensures |allPoints| == GridSizeSum(CityGrids(t, cities, spacingKm))
    ensures forall r :: r in allPoints ==>
      r.distanceKm <= CityRadiusKm && r.distanceKm == Haversine(t, r.cityLat, r.cityLon, r.pointLat, r.pointLon)
  {
    ghost var grids := CityGrids(t, cities, spacingKm);
    allPoints := [];
    var totalPoints := 0;
    for i := 0 to |cities|
      invariant allPoints == Flatten(cities[..i], grids[..i])
      invariant totalPoints == |allPoints|
    {
      var city := cities[i];
      var gridPoints := CreateDenseGrid(t, city.lat, city.lon, CityRadiusKm, spacingKm);
      assert gridPoints == grids[i];
      FlattenSnoc(cities, grids, i);
      allPoints := StampCity(city, gridPoints, allPoints);
      StampShape(city, gridPoints);
      totalPoints := totalPoints + |gridPoints|;
    }
    assert cities[..|cities|] == cities && grids[..|grids|] == grids;
    FlattenLength(cities, grids);
    CityRowsWithinRadius(t, cities, spacingKm);
  }
}
