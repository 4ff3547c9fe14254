# GPS city radius extractor — a verified model of the grid generator

The program takes a catalogue of world cities. Around each city centre it generates a dense grid of GPS points:
- a bounding box of the city radius (20 km) is cut around the centre;
- the box is scanned on a regular latitude/longitude lattice at the grid spacing (1 km);
- every lattice point whose haversine (great-circle) distance from the centre is within the radius is kept, together with that distance.

Each kept point is then stamped with the metadata of its city (id, name, country, population, centre). All cities' rows are appended, in catalogue order, to one flat table.

The model has three modules:

- `GreatCircle` (`great_circle.dfy`) holds the earth radius (6371 km) and the haversine distance.
  - The math-library functions (`sin`, `cos`, `asin`, `sqrt`, `radians`) are the fields of a `Trig` value, left uninterpreted.
  - Each proof states, as a precondition, the few laws it needs: `ZeroLaws`, `OddSine` and `RootLaws`.
- `GridGenerator` (`grid_generator.dfy`) holds the constants, the step and box arithmetic, and a reference definition of the grid.
  - The reference definition is `DenseGrid`. It names the k-th lattice coordinate directly as `min + k * step`.
  - `CreateDenseGrid` is the two nested `while` loops as the program runs them. They add the step to a running coordinate and append to a list.
  - `CreateDenseGrid` is proved equal to `DenseGrid`.
  - The filter and scan are stated for any distance-from-centre function. The grid around a centre instantiates it with the haversine distance from that centre.
- `Aggregator` (`aggregator.dfy`) holds the per-city flattening and the metadata stamping.
  - `ProcessCities` is the program's nested `for` loops.
  - It is proved equal to `Flatten` of the cities with their grids.

As in the program, `CreateDenseGrid` takes the city radius and the grid spacing as its default radius and spacing, and `ProcessCities` takes the grid spacing as its default spacing.

Floating-point numbers are modelled as exact `real`s. Under exact arithmetic, the running coordinate after `k` additions of the step is exactly `min + k * step`. The number of rows (or columns) scanned is therefore `floor(span / step) + 1`.

## Model

| member | source | states |
|---|---|---|
| GreatCircle.HaversineSelfZero | gps-city-radius-extractor.py:91-98 | if sin(0) = asin(0) = sqrt(0) = 0, a point is at distance 0 from itself |
| GreatCircle.HaversineTermSymmetric | gps-city-radius-extractor.py:94-96 | if sine is odd, the haversine term `a` is unchanged when the two points swap |
| GreatCircle.HaversineSymmetric | gps-city-radius-extractor.py:85-100 | if sine is odd, the distance from P to Q equals the distance from Q to P |
| GreatCircle.HaversineNonNegative | gps-city-radius-extractor.py:96-98 | if sqrt is non-negative and asin is non-negative on non-negative inputs, every distance is >= 0 |
| GridGenerator.GridBox | gps-city-radius-extractor.py:105-122 | the steps and box computed through the reciprocals of km-per-degree; both steps are positive when the spacing is positive and cos(lat) > 0 |
| GridGenerator.GridBoxShape | gps-city-radius-extractor.py:105-122 | lat_step = spacing/111 and lon_step = spacing/(111 cos lat); the box is symmetric about the centre: max_lat - lat = lat - min_lat = radius/111, and max_lon - lon = lon - min_lon = radius/(111 cos lat) |
| GridGenerator.DenseGridNegativeRadius | gps-city-radius-extractor.py:116-128 | with a negative radius the box is inverted, the outer loop never runs, and the grid is empty |
| GridGenerator.GridAcrossLatitudes | gps-city-radius-extractor.py:105-113 | for two centres at different latitudes, the latitude step and the row count are equal, and lon_step · cos(lat) is the same |
| GridGenerator.LatticeCountBound | gps-city-radius-extractor.py:128-130 | offset k passes the loop guard `min + k·step <= max` exactly when k < floor(span/step) + 1 |
| GridGenerator.RowBound | gps-city-radius-extractor.py:128 | row i passes the outer guard exactly when i < Rows |
| GridGenerator.ColumnBound | gps-city-radius-extractor.py:130 | column j passes the inner guard exactly when j < Cols |
| GridGenerator.LatticeStep | gps-city-radius-extractor.py:136-137 | adding one step to the k-th coordinate gives the (k+1)-th |
| GridGenerator.LatAtMonotone | gps-city-radius-extractor.py:137 | later rows have strictly larger latitudes |
| GridGenerator.LonAtMonotone | gps-city-radius-extractor.py:136 | later columns have strictly larger longitudes |
| GridGenerator.ScanRowExtend | gps-city-radius-extractor.py:132-136 | one more column appends the point with its distance when that distance is <= the radius, and nothing otherwise |
| GridGenerator.ScanRowMembers | gps-city-radius-extractor.py:129-136 | a point is in a row's scan exactly when it is some column's candidate and passes the filter |
| GridGenerator.ScanRowOrdered | gps-city-radius-extractor.py:129-136 | a row's points share the row latitude, are strictly increasing in longitude, and lie west of the next column |
| GridGenerator.ScanGridMembers | gps-city-radius-extractor.py:126-137 | a point is in the scan of the first n rows exactly when it is the kept candidate of some (row < n, column) |
| GridGenerator.ScanGridOrdered | gps-city-radius-extractor.py:126-137 | the scan is strictly ordered, latitude first and then longitude, and lies south of the next row |
| GridGenerator.DenseGridMembers | gps-city-radius-extractor.py:124-139 | a point is in the grid exactly when it is the candidate at some lattice position of the box and its distance is <= the radius |
| GridGenerator.DenseGridWithinRadius | gps-city-radius-extractor.py:132-134 | every returned point has distance <= radius, and that distance is the haversine distance from the centre to the stored point |
| GridGenerator.DenseGridInBox | gps-city-radius-extractor.py:119-130 | every returned point has min_lat <= lat <= max_lat and min_lon <= lon <= max_lon |
| GridGenerator.DenseGridComplete | gps-city-radius-extractor.py:128-134 | every lattice point of the box within the radius is returned, with its distance |
| GridGenerator.DenseGridOrdered | gps-city-radius-extractor.py:126-137 | the grid is in scan order: latitude never decreases, and longitude strictly increases within a row (so no point repeats) |
| GridGenerator.DenseGridZeroRadius | gps-city-radius-extractor.py:116-134 | with radius 0, the grid is exactly one point, the centre, at distance 0 |
| GridGenerator.ScanLatitudeRow | gps-city-radius-extractor.py:129-136 | the inner loop appends to the list exactly the kept points of the row at the current latitude, in column order; it terminates because lon_step > 0 |
| GridGenerator.CreateDenseGrid | gps-city-radius-extractor.py:102-139 | the nested loops terminate and return the reference grid; every point is within the radius at its true distance, inside the box, and in scan order |
| Aggregator.StampRow | gps-city-radius-extractor.py:161-171 | the row carries the city's id, name, country, population and centre, and the point's fields, unchanged |
| Aggregator.StampShape | gps-city-radius-extractor.py:160-171 | stamping a city's grid keeps its length and order; row k carries the city and point k |
| Aggregator.StampAppend | gps-city-radius-extractor.py:160-171 | stamping one more point appends exactly its row |
| Aggregator.StampCity | gps-city-radius-extractor.py:160-171 | the inner loop appends the city's stamped grid to the list |
| Aggregator.FlattenSnoc | gps-city-radius-extractor.py:148-173 | taking one more city appends exactly that city's stamped grid |
| Aggregator.FlattenAppend | gps-city-radius-extractor.py:148-173 | the table of a concatenated catalogue is the concatenation of the tables, so rows appear city by city in catalogue order |
| Aggregator.FlattenLength | gps-city-radius-extractor.py:147-173 | the table has as many rows as the grids have points in total (`total_points`) |
| Aggregator.FlattenProvenance | gps-city-radius-extractor.py:148-171 | every row is stamped with a city of the catalogue and carries a point of that city's grid |
| Aggregator.CityRowsWithinRadius | gps-city-radius-extractor.py:157-171 | every row's point is within 20 km of its own city's centre, at its true haversine distance |
| Aggregator.SameCentreSamePoints | gps-city-radius-extractor.py:149-171 | two cities with the same centre get rows with the same points; only the city metadata differs (no cross-city deduplication) |
| Aggregator.ProcessCities | gps-city-radius-extractor.py:141-180 | the loop returns the flattened, stamped grids of all cities, in order; the row count is the sum of the grid sizes; every row is within the radius of its city at its true distance |

## Left out

- Downloading and extracting the city archive (`download_city_data`, lines 26-54): network and filesystem I/O.
- Parsing the city table (`parse_city_data`, lines 56-83): parsing, cleaning and sorting are done by the tabular-data library.
  - Cities arrive as a sequence of `CityRecord`s with numeric coordinates and population.
  - The `int(...)`/`float(...)` conversions when stamping are the identity on those values.
- `main` (lines 182-211): CSV writing, printing, the printed `estimated_points_per_city`, and temporary-file cleanup.
- The progress bar (`tqdm`) and the unused `geodesic` import: they do not affect the result.
- The final conversion to a data frame (line 180): the model returns the sequence of rows that the data frame is built from.
- Floating-point arithmetic. All arithmetic is exact `real` arithmetic. So the model does not capture:
  - the rounding of `current += step`, which in the program can add or drop the last row or column;
  - the numerical accuracy of the trigonometric functions.
- Trigonometric identities beyond the stated laws: `sin`, `cos`, `asin`, `sqrt` and `radians` are uninterpreted.
  - So the model does not prove that the distance grows away from the centre.
  - It does not prove that the disc of radius 20 km fits in the box.
- Poles. Every grid operation requires `cos(radians(lat)) > 0`, so centres at or beyond ±90° are excluded. In double precision the program does not fail there:
  - at ±90° `cos(radians(lat))` is a tiny positive number (about 6e-17), not 0, so line 109 does not divide by zero; the program scans a finite box whose longitude step is enormous;
  - beyond ±90° the cosine is negative, the longitude range is inverted, and the inner loop keeps nothing.
  The model does not cover either case: the precondition excludes them, and the model does not describe the rounded cosine that makes the ±90° scan finite.
- Non-positive spacing. The grid operations require `spacingKm > 0` (`Scannable`).
  - With a zero or negative spacing and `radius_km >= 0`, the program's loops do not terminate.
  - With a negative radius the box is inverted (lines 116-120) and the program returns an empty list for any spacing. `Scannable` excludes that input when the spacing is not positive. For a positive spacing the model returns the empty list too (`DenseGridNegativeRadius`).
- GridGenerator.ScanLatitudeRow: the inner `while` loop of `create_dense_grid` is its own method, called once per row by `CreateDenseGrid`. The list it extends is passed in and returned rather than mutated in place, so aliasing of that list is not modelled.
- Aggregator.StampCity: the same treatment for the inner `for` loop of `process_cities`.
