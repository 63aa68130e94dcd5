/** Great-circle routes between ports, and closed tours of them. Times are in hours. */
module Routes {
  import opened Wrappers
  import opened Rounding
  import opened Geo

  datatype Port = Port(locode: string, pos: Position)
  datatype Waypoint = Waypoint(pos: Position, eta: Option<real>)
  datatype Route = Route(
    origin: Port, destination: Port, waypoints: seq<Waypoint>, totalNm: real, durationHours: real)

  /** The shape the tick loop relies on: some waypoint, and the last one on the destination. */
  predicate Snapped(r: Route) {
    |r.waypoints| > 0 && r.waypoints[|r.waypoints| - 1].pos == r.destination.pos
  }

  datatype RouteError = SamePort | BadSpeed | BadStep | ZeroLength | TooFewPorts

  /** Number of waypoints: whole steps that fit, and at least one. */
  function LegCount(total: real, step: real): (n: nat)
    requires 0.0 < step
    ensures 1 <= n
  {
    var whole := (total / step).Floor;
    if whole < 1 then 1 else whole
  }

  /** The i-th waypoint lies i steps along; the last one is snapped to the destination. */
  function PointAt(g: Geometry, a: Position, b: Position, step: real, total: real, n: nat, i: nat): Position
    requires total != 0.0
  {
    if i == n then b else g.interpolate(a, b, i as real * step / total)
  }

  function WaypointAt(g: Geometry, a: Port, b: Port, step: real, total: real, hours: real,
                      n: nat, i: nat, departAt: Option<real>): Waypoint
    requires total != 0.0
  {
    Waypoint(
      PointAt(g, a.pos, b.pos, step, total, n, i),
      if departAt.Some? then Some(departAt.value + hours * (i as real * step / total)) else None)
  }

  /** The route that BuildRoute computes, or the exception it raises. */
  ghost function Plan(g: Geometry, a: Port, b: Port, speed: real, step: real, departAt: Option<real>)
    : (r: Result<Route, RouteError>)
    ensures r.Ok? ==> r.value.origin == a && r.value.destination == b && Snapped(r.value)
  {
    if a.locode == b.locode then Err(SamePort)
    else if speed <= 0.0 then Err(BadSpeed)
    else if step <= 0.0 then Err(BadStep)
    else
      var total := g.dist(a.pos, b.pos);
      if total == 0.0 then Err(ZeroLength)
      else
        var hours := total / speed;
        var n := LegCount(total, step);
        Ok(Route(a, b,
                       seq(n, i requires 0 <= i < n => WaypointAt(g, a, b, step, total, hours, n, i + 1, departAt)),
                       total, hours))
  }

  method BuildRoute(g: Geometry, a: Port, b: Port, speed: real, step: real, departAt: Option<real>)
    returns (r: Result<Route, RouteError>)
    ensures r == Plan(g, a, b, speed, step, departAt)
  {
    if a.locode == b.locode { return Err(SamePort); }
    if speed <= 0.0 { return Err(BadSpeed); }
    if step <= 0.0 { return Err(BadStep); }
    var total := g.dist(a.pos, b.pos);
    if total == 0.0 { return Err(ZeroLength); }  // the fraction of the first waypoint divides by it
    var hours := total / speed;
    var n := LegCount(total, step);
    var waypoints: seq<Waypoint> := [];
    for i := 1 to n + 1
      invariant waypoints == seq(i - 1, j requires 0 <= j < i - 1
          => WaypointAt(g, a, b, step, total, hours, n, j + 1, departAt))
    {
      waypoints := waypoints + [WaypointAt(g, a, b, step, total, hours, n, i, departAt)];
    }
    return Ok(Route(a, b, waypoints, total, hours));
  }

  function NextPort(n: nat, i: nat): (j: nat)
    requires i < n
    ensures j < n
  {
    if i + 1 == n then 0 else i + 1
  }

  lemma NextPortIsMod(n: nat, i: nat)
    requires i < n
    ensures NextPort(n, i) == (i + 1) % n
  {
  }

  function NextCursor(cursor: Option<real>, leg: Route): Option<real> {
    if cursor.Some? then Some(cursor.value + leg.durationHours) else None
  }

  /** The first k legs of the tour and the time the next one departs, or the exception raised on the way. */
  ghost function PlanTour(g: Geometry, ports: seq<Port>, speed: real, step: real, departAt: Option<real>, k: nat)
    : Result<(seq<Route>, Option<real>), RouteError>
    requires k <= |ports|
  {
    if k == 0 then Ok(([], departAt))
    else
      var before := PlanTour(g, ports, speed, step, departAt, k - 1);
      if before.Err? then before
      else
        var leg := Plan(g, ports[k - 1], ports[NextPort(|ports|, k - 1)], speed, step, before.value.1);
        if leg.Err? then Err(leg.error)
        else Ok((before.value.0 + [leg.value], NextCursor(before.value.1, leg.value)))
  }

  lemma {:induction false} ErrorsPersist(g: Geometry, ports: seq<Port>, speed: real, step: real,
                                        departAt: Option<real>, k: nat, m: nat)
    requires k <= m <= |ports|
    requires PlanTour(g, ports, speed, step, departAt, k).Err?
    ensures PlanTour(g, ports, speed, step, departAt, m) == PlanTour(g, ports, speed, step, departAt, k)
  {
    if k < m { ErrorsPersist(g, ports, speed, step, departAt, k, m - 1); }
  }

  method BuildCircularRoute(g: Geometry, ports: seq<Port>, speed: real, step: real, departAt: Option<real>)
    returns (r: Result<seq<Route>, RouteError>)
    ensures |ports| < 2 ==> r == Err(TooFewPorts)
    ensures |ports| >= 2 ==>
      var all := PlanTour(g, ports, speed, step, departAt, |ports|);
      r == if all.Err? then Err(all.error) else Ok(all.value.0)
  {
    if |ports| < 2 { return Err(TooFewPorts); }
    var routes: seq<Route> := [];
    var cursor := departAt;
    for i := 0 to |ports|
      invariant PlanTour(g, ports, speed, step, departAt, i) == Ok((routes, cursor))
    {
      NextPortIsMod(|ports|, i);
      var leg := BuildRoute(g, ports[i], ports[(i + 1) % |ports|], speed, step, cursor);
      if leg.Err? {
        ErrorsPersist(g, ports, speed, step, departAt, i + 1, |ports|);
        return Err(leg.error);
      }
      routes := routes + [leg.value];
      cursor := NextCursor(cursor, leg.value);
    }
    return Ok(routes);
  }

  // ----- what a built route is -----

  /** Leg i runs from port i to its successor. */
  predicate Legs(ports: seq<Port>, routes: seq<Route>) {
    |routes| <= |ports| &&
    forall i :: 0 <= i < |routes| ==>
      && routes[i].origin == ports[i]
      && routes[i].destination == ports[if i + 1 == |ports| then 0 else i + 1]
      && Snapped(routes[i])
  }

  predicate IsTour(ports: seq<Port>, routes: seq<Route>) {
    |routes| == |ports| > 0 && Legs(ports, routes)
  }

  lemma {:induction false} PlanTourLegs(g: Geometry, ports: seq<Port>, speed: real, step: real,
                                       departAt: Option<real>, k: nat)
    requires k <= |ports|
    ensures var r := PlanTour(g, ports, speed, step, departAt, k);
            r.Ok? ==> |r.value.0| == k && Legs(ports, r.value.0)
  {
    if k > 0 { PlanTourLegs(g, ports, speed, step, departAt, k - 1); }
  }

  /** A tour that is built at all links every port to the next and snaps every leg. */
  lemma TourIsClosed(g: Geometry, ports: seq<Port>, speed: real, step: real, departAt: Option<real>)
    requires |ports| >= 2
    requires PlanTour(g, ports, speed, step, departAt, |ports|).Ok?
    ensures IsTour(ports, PlanTour(g, ports, speed, step, departAt, |ports|).value.0)
  {
    PlanTourLegs(g, ports, speed, step, departAt, |ports|);
  }

  /** Length of the waypoint polyline from waypoint idx to the last one. */
  ghost function Tail(g: Geometry, wps: seq<Waypoint>, idx: nat): real
    requires idx < |wps|
    decreases |wps| - idx
  {
    if idx + 1 == |wps| then 0.0 else g.dist(wps[idx].pos, wps[idx + 1].pos) + Tail(g, wps, idx + 1)
  }

  /** Way still to sail from a position when waypoint idx is the next one. */
  ghost function Remaining(g: Geometry, wps: seq<Waypoint>, pos: Position, idx: nat): real
    requires idx < |wps|
  {
    g.dist(pos, wps[idx].pos) + Tail(g, wps, idx)
  }

  lemma {:induction false} TailNonNegative(g: Geometry, wps: seq<Waypoint>, idx: nat)
    requires Metric(g) && idx < |wps|
    ensures 0.0 <= Tail(g, wps, idx)
    decreases |wps| - idx
  {
    if idx + 1 < |wps| { TailNonNegative(g, wps, idx + 1); }
  }

  /** Skipping waypoints never lengthens the way. */
  lemma {:induction false} SkippingShortens(g: Geometry, wps: seq<Waypoint>, pos: Position, i: nat, j: nat)
    requires Metric(g) && i <= j < |wps|
    ensures Remaining(g, wps, pos, j) <= Remaining(g, wps, pos, i)
    decreases j - i
  {
    if i < j {
      SkippingShortens(g, wps, pos, i + 1, j);
      assert Triangle(g, pos, wps[i].pos, wps[i + 1].pos);
    }
  }

  /** Two points at distance zero are equally far from every third point. */
  lemma Coincide(g: Geometry, p: Position, q: Position, t: Position)
    requires Metric(g) && g.dist(p, q) == 0.0
    ensures g.dist(p, t) == g.dist(q, t) && g.dist(t, p) == g.dist(t, q)
  {
    assert Triangle(g, p, q, t) && Triangle(g, q, p, t);
  }

  /** The i-th waypoint (from 1) lies i steps along the great circle, the last one at its end. */
  ghost function Along(i: nat, n: nat, step: real, total: real): real {
    if i == n then total else i as real * step
  }

  lemma StepsFit(total: real, step: real, i: nat)
    requires 0.0 < total && 0.0 < step && i < LegCount(total, step)
    ensures var f := i as real * step / total;
            0.0 <= f <= 1.0 && f * total == i as real * step && (i == 0 ==> f == 0.0)
  {
    var q, f := total / step, i as real * step / total;
    assert q * step == total;
    Scaled(i as real, q, step);
    assert f * total == i as real * step;
    assert 0.0 <= i as real * step <= total;
    Scaled(f, 1.0, total);
    Scaled(0.0, f, total);
  }

  lemma FractionsApart(total: real, step: real, i: nat)
    requires 0.0 < total && 0.0 < step && i + 1 < LegCount(total, step)
    ensures var f, h := i as real * step / total, (i + 1) as real * step / total;
            0.0 <= f <= h <= 1.0 && (h - f) * total == step
  {
    StepsFit(total, step, i);
    StepsFit(total, step, i + 1);
    var f, h := i as real * step / total, (i + 1) as real * step / total;
    assert (i + 1) as real * step == i as real * step + step;
    assert (h - f) * total == h * total - f * total == step;
    Scaled(f, h, total);
  }

  lemma LastGap(g: Geometry, a: Position, b: Position, f: real, total: real)
    requires Lawful(g) && total == g.dist(a, b) && 0.0 <= f <= 1.0
    ensures g.dist(g.interpolate(a, b, f), b) == total - f * total
  {
    assert EndPoints(g, a, b);
    Coincide(g, g.interpolate(a, b, 1.0), b, g.interpolate(a, b, f));
    assert Proportional(g, a, b, f, 1.0);
    assert (1.0 - f) * total == total - f * total;
  }

  lemma InnerGap(g: Geometry, a: Position, b: Position, step: real, i: nat)
    requires Lawful(g) && 0.0 < g.dist(a, b) && 0.0 < step && i + 1 < LegCount(g.dist(a, b), step)
    ensures var total := g.dist(a, b);
            g.dist(g.interpolate(a, b, i as real * step / total), g.interpolate(a, b, (i + 1) as real * step / total))
            == (i + 1) as real * step - i as real * step
  {
    var total := g.dist(a, b);
    FractionsApart(total, step, i);
    assert Proportional(g, a, b, i as real * step / total, (i + 1) as real * step / total);
  }

  lemma PointGap(g: Geometry, a: Position, b: Position, step: real, i: nat)
    requires Lawful(g) && 0.0 < g.dist(a, b) && 0.0 < step && i < LegCount(g.dist(a, b), step)
    ensures var total := g.dist(a, b); var n := LegCount(total, step);
            g.dist(if i == 0 then a else PointAt(g, a, b, step, total, n, i), PointAt(g, a, b, step, total, n, i + 1))
            == Along(i + 1, n, step, total) - Along(i, n, step, total)
  {
    var total := g.dist(a, b);
    var n := LegCount(total, step);
    var f := i as real * step / total;
    var there := PointAt(g, a, b, step, total, n, i + 1);
    StepsFit(total, step, i);
    if i == 0 {
      assert EndPoints(g, a, b);
      Coincide(g, a, g.interpolate(a, b, 0.0), there);
    }
    assert g.dist(if i == 0 then a else PointAt(g, a, b, step, total, n, i), there)
      == g.dist(g.interpolate(a, b, f), there);
    if i + 1 == n {
      LastGap(g, a, b, f, total);
    } else {
      InnerGap(g, a, b, step, i);
    }
  }

  lemma {:induction false} PathFrom(g: Geometry, a: Port, b: Port, speed: real, step: real,
                                   departAt: Option<real>, i: nat)
    requires Lawful(g) && Plan(g, a, b, speed, step, departAt).Ok?
    requires i < |Plan(g, a, b, speed, step, departAt).value.waypoints|
    ensures var r := Plan(g, a, b, speed, step, departAt).value;
            Tail(g, r.waypoints, i) == r.totalNm - Along(i + 1, |r.waypoints|, step, r.totalNm)
    decreases |Plan(g, a, b, speed, step, departAt).value.waypoints| - i
  {
    var r := Plan(g, a, b, speed, step, departAt).value;
    if i + 1 < |r.waypoints| {
      PathFrom(g, a, b, speed, step, departAt, i + 1);
      PointGap(g, a.pos, b.pos, step, i + 1);
    }
  }

  /** The polyline of a built route is exactly as long as the great circle. */
  lemma PathLengthIsTotal(g: Geometry, a: Port, b: Port, speed: real, step: real, departAt: Option<real>)
    requires Lawful(g) && Plan(g, a, b, speed, step, departAt).Ok?
    ensures var r := Plan(g, a, b, speed, step, departAt).value;
            && Snapped(r)
            && |r.waypoints| == LegCount(g.dist(a.pos, b.pos), step)
            && Remaining(g, r.waypoints, a.pos, 0) == r.totalNm == g.dist(a.pos, b.pos)
  {
    PointGap(g, a.pos, b.pos, step, 0);
    PathFrom(g, a, b, speed, step, departAt, 0);
  }

  // ----- the times of a route -----

  /** Sailing hours of the distance d at the given speed. */
  ghost predicate SailsIn(d: real, speed: real, hours: real) {
    hours * speed == d
  }

  lemma WholeWay(total: real, speed: real)
    requires speed != 0.0
    ensures SailsIn(total, speed, total / speed)
  {
  }

  lemma FractionOfHours(total: real, speed: real, hours: real, along: real, f: real)
    requires total != 0.0 && SailsIn(total, speed, hours) && f == along / total
    ensures SailsIn(along, speed, hours * f)
  {
    assert f * total == along;
    assert hours * f * speed == f * (hours * speed);
  }

  lemma WaypointDue(g: Geometry, a: Port, b: Port, step: real, total: real, speed: real, hours: real,
                    n: nat, i: nat, departAt: real)
    requires total != 0.0 && SailsIn(total, speed, hours)
    ensures SailsIn(i as real * step, speed,
                    WaypointAt(g, a, b, step, total, hours, n, i, Some(departAt)).eta.value - departAt)
  {
    FractionOfHours(total, speed, hours, i as real * step, i as real * step / total);
  }

  /** A leg lasts its length at the given speed, and waypoint i (from 1) is due after i steps of way. */
  lemma RouteTimes(g: Geometry, a: Port, b: Port, speed: real, step: real, departAt: real, i: nat)
    requires Plan(g, a, b, speed, step, Some(departAt)).Ok?
    requires 1 <= i <= |Plan(g, a, b, speed, step, Some(departAt)).value.waypoints|
    ensures var r := Plan(g, a, b, speed, step, Some(departAt)).value; var eta := r.waypoints[i - 1].eta;
            SailsIn(g.dist(a.pos, b.pos), speed, r.durationHours)
            && eta.Some? && SailsIn(i as real * step, speed, eta.value - departAt)
  {
    var total := g.dist(a.pos, b.pos);
    WholeWay(total, speed);
    WaypointDue(g, a, b, step, total, speed, total / speed, LegCount(total, step), i, departAt);
  }

  lemma SameHours(x: real, y: real, speed: real)
    requires 0.0 < speed
    ensures x == y <==> x * speed == y * speed
  {
    Scaled(x, y, speed);
    Scaled(y, x, speed);
  }

  /** The last waypoint is the destination, but it is due on arrival exactly when the steps divide the way evenly. */
  lemma LastEtaExactly(g: Geometry, a: Port, b: Port, speed: real, step: real, departAt: real)
    requires Plan(g, a, b, speed, step, Some(departAt)).Ok?
    ensures var r := Plan(g, a, b, speed, step, Some(departAt)).value; var n := |r.waypoints|;
            r.waypoints[n - 1].eta == Some(departAt + r.durationHours) <==> n as real * step == g.dist(a.pos, b.pos)
  {
    var r := Plan(g, a, b, speed, step, Some(departAt)).value;
    RouteTimes(g, a, b, speed, step, departAt, |r.waypoints|);
    SameHours(r.waypoints[|r.waypoints| - 1].eta.value - departAt, r.durationHours, speed);
  }

  // ----- departures along a tour -----

  /** The way from the first port to the k-th. */
  ghost function WayBefore(g: Geometry, ports: seq<Port>, k: nat): real
    requires k <= |ports|
  {
    if k == 0 then 0.0
    else WayBefore(g, ports, k - 1) + g.dist(ports[k - 1].pos, ports[if k == |ports| then 0 else k].pos)
  }

  lemma SailsOn(way: real, more: real, speed: real, start: real, then_: real, end: real)
    requires SailsIn(way, speed, then_ - start) && SailsIn(more, speed, end - then_)
    ensures SailsIn(way + more, speed, end - start)
  {
    assert (then_ - start) * speed + (end - then_) * speed == (end - start) * speed;
  }

  lemma LegSails(g: Geometry, a: Port, b: Port, speed: real, step: real, departAt: real)
    requires Plan(g, a, b, speed, step, Some(departAt)).Ok?
    ensures var leg := Plan(g, a, b, speed, step, Some(departAt)).value;
            SailsIn(g.dist(a.pos, b.pos), speed, NextCursor(Some(departAt), leg).value - departAt)
  {
    RouteTimes(g, a, b, speed, step, departAt, 1);
  }

  /** Leg k departs when everything before it has been sailed. */
  lemma {:induction false} CursorSails(g: Geometry, ports: seq<Port>, speed: real, step: real, departAt: real, k: nat)
    requires |ports| > 0 && k <= |ports| && PlanTour(g, ports, speed, step, Some(departAt), k).Ok?
    ensures var cursor := PlanTour(g, ports, speed, step, Some(departAt), k).value.1;
            cursor.Some? && SailsIn(WayBefore(g, ports, k), speed, cursor.value - departAt)
  {
    if k > 0 {
      CursorSails(g, ports, speed, step, departAt, k - 1);
      var before := PlanTour(g, ports, speed, step, Some(departAt), k - 1).value.1.value;
      var after := PlanTour(g, ports, speed, step, Some(departAt), k).value.1.value;
      var a, b := ports[k - 1], ports[NextPort(|ports|, k - 1)];
      LegSails(g, a, b, speed, step, before);
      SailsOn(WayBefore(g, ports, k - 1), g.dist(a.pos, b.pos), speed, departAt, before, after);
    }
  }

  lemma {:induction false} LegOfTour(g: Geometry, ports: seq<Port>, speed: real, step: real, departAt: Option<real>,
                                    i: nat, k: nat)
    requires i < k <= |ports| && PlanTour(g, ports, speed, step, departAt, k).Ok?
    ensures var before := PlanTour(g, ports, speed, step, departAt, i);
            before.Ok? && var leg := Plan(g, ports[i], ports[NextPort(|ports|, i)], speed, step, before.value.1);
            leg.Ok? && var legs := PlanTour(g, ports, speed, step, departAt, k).value.0;
            |legs| == k && legs[i] == leg.value
  {
    PlanTourLegs(g, ports, speed, step, departAt, k);
    PlanTourLegs(g, ports, speed, step, departAt, k - 1);
    if i + 1 < k { LegOfTour(g, ports, speed, step, departAt, i, k - 1); }
  }

  /** On a tour, waypoint j (from 1) of leg i is due after everything before it has been sailed, legs and steps. */
  lemma TourTimes(g: Geometry, ports: seq<Port>, speed: real, step: real, departAt: real, i: nat, j: nat)
    requires i < |ports| && PlanTour(g, ports, speed, step, Some(departAt), |ports|).Ok?
    requires |PlanTour(g, ports, speed, step, Some(departAt), |ports|).value.0| == |ports|
    requires 1 <= j <= |PlanTour(g, ports, speed, step, Some(departAt), |ports|).value.0[i].waypoints|
    ensures var eta := PlanTour(g, ports, speed, step, Some(departAt), |ports|).value.0[i].waypoints[j - 1].eta;
            eta.Some? && SailsIn(WayBefore(g, ports, i) + j as real * step, speed, eta.value - departAt)
  {
    LegOfTour(g, ports, speed, step, Some(departAt), i, |ports|);
    CursorSails(g, ports, speed, step, departAt, i);
    var start := PlanTour(g, ports, speed, step, Some(departAt), i).value.1.value;
    var a, b := ports[i], ports[NextPort(|ports|, i)];
    RouteTimes(g, a, b, speed, step, start, j);
    var eta := Plan(g, a, b, speed, step, Some(start)).value.waypoints[j - 1].eta.value;
    SailsOn(WayBefore(g, ports, i), j as real * step, speed, departAt, start, eta);
  }
}
