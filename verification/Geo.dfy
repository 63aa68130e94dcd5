/**
 Navigation on the sphere, over exact reals. The trigonometric functions of
 the source enter as the fields of a Geometry, of which only the laws listed in
 Lawful are used; heading arithmetic is modelled in full.
 */
module Geo {
  datatype Position = Position(lat: real, lon: real)

  /** haversine_nm, initial_bearing_deg, destination_point and interpolate_great_circle. */
  datatype Geometry = Geometry(
    dist: (Position, Position) -> real,
    bearing: (Position, Position) -> real,
    destination: (Position, real, real) -> Position,
    interpolate: (Position, Position, real) -> Position)

  ghost predicate Metric(g: Geometry) {
    && (forall p, q :: 0.0 <= g.dist(p, q) == g.dist(q, p))
    && (forall p :: g.dist(p, p) == 0.0)
    && (forall p, q, r :: Triangle(g, p, q, r))
  }

  ghost predicate Triangle(g: Geometry, p: Position, q: Position, r: Position) {
    g.dist(p, r) <= g.dist(p, q) + g.dist(q, r)
  }

  /** Sailing d <= dist(p, t) along the bearing of t leaves dist(p, t) - d to go. */
  ghost predicate StraightCourses(g: Geometry) {
    forall p, t, d :: 0.0 <= d <= g.dist(p, t) ==>
      g.dist(g.destination(p, g.bearing(p, t), d), t) == g.dist(p, t) - d
  }

  /** Interpolated points divide the great circle proportionally. */
  ghost predicate ProportionalPoints(g: Geometry) {
    && (forall a, b :: EndPoints(g, a, b))
    && (forall a, b, f, h :: 0.0 <= f <= h <= 1.0 ==> Proportional(g, a, b, f, h))
  }

  ghost predicate EndPoints(g: Geometry, a: Position, b: Position) {
    g.dist(a, g.interpolate(a, b, 0.0)) == 0.0 && g.dist(g.interpolate(a, b, 1.0), b) == 0.0
  }

  ghost predicate Proportional(g: Geometry, a: Position, b: Position, f: real, h: real) {
    g.dist(g.interpolate(a, b, f), g.interpolate(a, b, h)) == (h - f) * g.dist(a, b)
  }

  ghost predicate Lawful(g: Geometry) {
    Metric(g) && StraightCourses(g) && ProportionalPoints(g)
  }

  /** The laws are consistent: sailing along one meridian of longitudes obeys them. */
  function Line(): Geometry {
    Geometry(
      (p: Position, q: Position) => if p.lon <= q.lon then q.lon - p.lon else p.lon - q.lon,
      (p: Position, q: Position) => if p.lon <= q.lon then 90.0 else 270.0,
      (p: Position, b: real, d: real) => Position(p.lat, if b == 90.0 then p.lon + d else p.lon - d),
      (p: Position, q: Position, f: real) => Position(p.lat, p.lon + f * (q.lon - p.lon)))
  }

  lemma LineProportional(a: real, w: real, f: real, h: real)
    requires f <= h
    ensures (a + h * w) - (a + f * w) == (h - f) * w
    ensures 0.0 <= w ==> a + f * w <= a + h * w && 0.0 <= (h - f) * w
    ensures w <= 0.0 ==> a + h * w <= a + f * w && 0.0 <= (h - f) * -w == -((h - f) * w)
  {
  }

  lemma LineIsProportional(a: Position, b: Position, f: real, h: real)
    requires f <= h
    ensures Proportional(Line(), a, b, f, h)
  {
    LineProportional(a.lon, b.lon - a.lon, f, h);
    assert Line().interpolate(a, b, f).lon == a.lon + f * (b.lon - a.lon);
    assert Line().interpolate(a, b, h).lon == a.lon + h * (b.lon - a.lon);
    if a.lon <= b.lon {
      assert Line().dist(a, b) == b.lon - a.lon;
    } else {
      assert Line().dist(a, b) == -(b.lon - a.lon);
    }
  }

  lemma LineCourses()
    ensures Metric(Line()) && StraightCourses(Line())
  {
  }

  lemma LineEnds(a: Position, b: Position)
    ensures EndPoints(Line(), a, b)
  {
    assert Line().interpolate(a, b, 0.0).lon == a.lon + 0.0 * (b.lon - a.lon) == a.lon;
    assert Line().interpolate(a, b, 1.0).lon == a.lon + 1.0 * (b.lon - a.lon) == b.lon;
  }

  lemma LineIsLawful()
    ensures Lawful(Line())
  {
    LineCourses();
    forall a, b ensures EndPoints(Line(), a, b) { LineEnds(a, b); }
    forall a, b, f, h | 0.0 <= f <= h <= 1.0 ensures Proportional(Line(), a, b, f, h) {
      LineIsProportional(a, b, f, h);
    }
  }

  // ----- headings -----

  /** Python's x % 360.0. */
  function Mod360(x: real): (r: real)
    ensures 0.0 <= r < 360.0
  {
    x - 360.0 * (x / 360.0).Floor as real
  }

  function AngularDiff(a: real, b: real): (d: real)
    ensures -180.0 <= d < 180.0
  {
    Mod360(b - a + 540.0) - 180.0
  }

  /** Mod360 forgets whole turns and nothing else. */
  lemma Mod360Turns(x: real, k: int)
    ensures Mod360(x + 360.0 * k as real) == Mod360(x)
    ensures 0.0 <= x < 360.0 ==> Mod360(x) == x
  {
    assert (x + 360.0 * k as real) / 360.0 == x / 360.0 + k as real;
    assert (x / 360.0 + k as real).Floor == (x / 360.0).Floor + k;
  }

  /** AngularDiff(a, b) is the one d in [-180, 180) with a + d and b the same heading. */
  lemma AngularDiffUnique(a: real, b: real, d: real, turns: int)
    requires -180.0 <= d < 180.0
    requires b - a == d + 360.0 * turns as real
    ensures AngularDiff(a, b) == d
  {
    Mod360Turns(d + 180.0, turns + 1);
    assert b - a + 540.0 == (d + 180.0) + 360.0 * (turns + 1) as real;
  }

  /** The whole turns between b - a and AngularDiff(a, b). */
  lemma AngularDiffTurns(a: real, b: real) returns (turns: int)
    ensures b - a == AngularDiff(a, b) + 360.0 * turns as real
  {
    turns := ((b - a + 540.0) / 360.0).Floor - 1;
  }
}
