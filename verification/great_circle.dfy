/**
 * Great-circle distance on a spherical earth (the haversine formula).
 *
 * Floating-point numbers are modelled as `real`, and the transcendental
 * functions of the host language's math library are not interpreted: they
 * are the fields of a `Trig` value passed to every member that needs them,
 * and each proof states, as a precondition, the few laws it relies on.
 */
module GreatCircle {

  /** Mean earth radius used by the distance function, in kilometres. */
  const EarthRadiusKm: real := 6371.0

  /** The math-library functions the distance formula calls, left uninterpreted. */
  datatype Trig = Trig(
    sin: real -> real,
    cos: real -> real,
    asin: real -> real,
    sqrt: real -> real,
    radians: real -> real)

  /** The values at zero that the self-distance proof needs. */
  predicate ZeroLaws(t: Trig)
  {
    t.sin(0.0) == 0.0 && t.asin(0.0) == 0.0 && t.sqrt(0.0) == 0.0
  }

  /** Sine is an odd function: the only law the symmetry proof needs. */
  ghost predicate OddSine(t: Trig)
  {
    forall x, y :: x + y == 0.0 ==> t.sin(x) == -t.sin(y)
  }

  /** Square roots are non-negative, and so is the arcsine of a non-negative number. */
  ghost predicate RootLaws(t: Trig)
  {
    (forall x :: t.sqrt(x) >= 0.0) && (forall x :: x >= 0.0 ==> t.asin(x) >= 0.0)
  }

  function Square(x: real): real
  {
    x * x
  }

  /**
   * The haversine of the central angle between two points given in
   * radians: sin^2(dlat/2) + cos(phi1) cos(phi2) sin^2(dlon/2).
   */
  function HaversineTerm(t: Trig, phi1: real, lambda1: real, phi2: real, lambda2: real): real
  {
    var dlon := lambda2 - lambda1;
    var dlat := phi2 - phi1;
    Square(t.sin(dlat / 2.0)) + t.cos(phi1) * t.cos(phi2) * Square(t.sin(dlon / 2.0))
  }

  /**
   * Distance in kilometres between (lat1, lon1) and (lat2, lon2), all in
   * decimal degrees: convert to radians, take the haversine of the central
   * angle, invert it with asin and scale by the earth radius.
   */
  function Haversine(t: Trig, lat1: real, lon1: real, lat2: real, lon2: real): real
  {
    var a := HaversineTerm(t, t.radians(lat1), t.radians(lon1), t.radians(lat2), t.radians(lon2));
    var c := 2.0 * t.asin(t.sqrt(a));
    EarthRadiusKm * c
  }

  /** A point is at distance zero from itself. */
  lemma HaversineSelfZero(t: Trig, lat: real, lon: real)
    requires ZeroLaws(t)
    ensures Haversine(t, lat, lon, lat, lon) == 0.0
  {
  }

  /** Distances are never negative. */
  lemma HaversineNonNegative(t: Trig, lat1: real, lon1: real, lat2: real, lon2: real)
    requires RootLaws(t)
    ensures Haversine(t, lat1, lon1, lat2, lon2) >= 0.0
  {
  }

  /** The haversine term is unchanged when the two points swap places. */
  lemma HaversineTermSymmetric(t: Trig, phi1: real, lambda1: real, phi2: real, lambda2: real)
    requires OddSine(t)
    ensures HaversineTerm(t, phi1, lambda1, phi2, lambda2) == HaversineTerm(t, phi2, lambda2, phi1, lambda1)
  {
    var hlat, hlat' := (phi2 - phi1) / 2.0, (phi1 - phi2) / 2.0;
    var hlon, hlon' := (lambda2 - lambda1) / 2.0, (lambda1 - lambda2) / 2.0;
    assert t.sin(hlat) == -t.sin(hlat');
    assert t.sin(hlon) == -t.sin(hlon');
    assert Square(t.sin(hlat)) == Square(t.sin(hlat'));
    assert Square(t.sin(hlon)) == Square(t.sin(hlon'));
  }

  /** The distance does not depend on which point is taken first. */
  lemma HaversineSymmetric(t: Trig, lat1: real, lon1: real, lat2: real, lon2: real)
    requires OddSine(t)
    ensures Haversine(t, lat1, lon1, lat2, lon2) == Haversine(t, lat2, lon2, lat1, lon1)
  {
    HaversineTermSymmetric(t, t.radians(lat1), t.radians(lon1), t.radians(lat2), t.radians(lon2));
  }
}
