/**
 One vessel's tick as a function of its state: what World.step does to a vessel,
 stated on values. Times are in hours, dwell in sim-minutes; the random draws of a
 tick are an argument.
 */
module Ship {
  import opened Wrappers
  import opened Geo
  import opened Routes

  const ARRIVAL_THRESHOLD_NM := 0.5
  const MEAN_REVERSION_RATE := 0.2
  const ETA_CHANGE_THRESHOLD_HOURS := 1.0
  const VISUAL_SPEED_BOOST := 10.0

  datatype Config = Config(tickSeconds: real, timeScale: real, portDwell: int) {
    function SimSeconds(): real { tickSeconds * timeScale }
    function SimMinutes(): real { SimSeconds() / 60.0 }
    /** Distance a vessel covers in one tick. */
    function StepNm(v: Vessel): real { v.CruiseSpeed() * SimSeconds() / 3600.0 * VISUAL_SPEED_BOOST }
    /** Bounds of the dwell drawn on arrival. */
    function DwellLow(): int { var h := portDwell / 2; if h < 1 then 1 else h }
    function DwellHigh(): int { if portDwell < 1 then 1 else portDwell }
  }

  datatype Vessel = Vessel(mmsi: string, maxSpeed: real) {
    function CruiseSpeed(): real { maxSpeed * 0.85 }
  }

  datatype NavStatus = UnderWay | Moored | InPort

  datatype Event =
    | Departure(port: string, destination: string, eta: real)
    | Arrival(port: string, nextDeparture: real)
    | EtaChange(destination: string, oldEta: real, newEta: real)

  /** Noise on speed and heading, and the dwell drawn if the vessel arrives. */
  datatype Draw = Draw(speedNoise: real, headingNoise: real, dwell: int)

  datatype Report =
    Report(mmsi: string, pos: Position, speed: real, heading: real, nav: NavStatus, destination: string,
           eta: Option<real>)

  datatype State = State(
    pos: Position, speed: real, heading: real, nav: NavStatus, waypointIndex: nat,
    eta: Option<real>, inPort: bool, minutesInPort: real, routeIndex: nat)

  /** What stays fixed over a vessel's run. */
  datatype Setting = Setting(g: Geometry, config: Config, vessel: Vessel, routes: seq<Route>) {
    function StepNm(): real { config.StepNm(vessel) }

    /** Route lists are never empty, and every route has a waypoint. */
    ghost predicate Schedule() {
      |routes| > 0 && forall r :: r in routes ==> |r.waypoints| > 0
    }

    ghost predicate Aboard(s: State) {
      Schedule() && s.routeIndex < |routes|
    }

    function RouteOf(s: State): Route
      requires s.routeIndex < |routes|
    {
      routes[s.routeIndex]
    }
  }

  function Max(a: real, b: real): real { if a < b then b else a }
  function Min(a: real, b: real): real { if b < a then b else a }

  // ----- passed waypoints -----

  /** Within the threshold of the waypoint, or the waypoint lies abaft the beam. */
  predicate Passed(g: Geometry, pos: Position, destination: Position, wp: Position) {
    g.dist(pos, wp) < ARRIVAL_THRESHOLD_NM ||
    var off := AngularDiff(g.bearing(pos, destination), g.bearing(pos, wp));
    off > 90.0 || off < -90.0
  }

  /** First index from idx on whose waypoint has not been passed. */
  ghost function NextAhead(g: Geometry, route: Route, pos: Position, idx: nat): (r: nat)
    ensures idx <= r && (idx <= |route.waypoints| ==> r <= |route.waypoints|)
    ensures r < |route.waypoints| ==> !Passed(g, pos, route.destination.pos, route.waypoints[r].pos)
    ensures forall i :: idx <= i < r && i < |route.waypoints|
              ==> Passed(g, pos, route.destination.pos, route.waypoints[i].pos)
    decreases |route.waypoints| - idx
  {
    if idx < |route.waypoints| && Passed(g, pos, route.destination.pos, route.waypoints[idx].pos)
    then NextAhead(g, route, pos, idx + 1)
    else idx
  }

  /** A waypoint worth steering for: half a mile away or more, and at most a quarter turn off the destination. */
  ghost predicate Keeps(g: Geometry, pos: Position, destination: Position, wp: Position) {
    g.dist(pos, wp) >= 0.5 && -90.0 <= AngularDiff(g.bearing(pos, destination), g.bearing(pos, wp)) <= 90.0
  }

  method AdvanceThroughPassedWaypoints(g: Geometry, route: Route, pos: Position, start: nat) returns (idx: nat)
    ensures idx == NextAhead(g, route, pos, start)
    ensures idx < |route.waypoints| ==> Keeps(g, pos, route.destination.pos, route.waypoints[idx].pos)
    ensures forall i :: start <= i < idx && i < |route.waypoints|
              ==> !Keeps(g, pos, route.destination.pos, route.waypoints[i].pos)
  {
    var bearingToDest := g.bearing(pos, route.destination.pos);
    idx := start;
    while idx < |route.waypoints|
      invariant NextAhead(g, route, pos, start) == NextAhead(g, route, pos, idx)
    {
      var wp := route.waypoints[idx].pos;
      if g.dist(pos, wp) < ARRIVAL_THRESHOLD_NM {
        idx := idx + 1;
        continue;
      }
      var off := AngularDiff(bearingToDest, g.bearing(pos, wp));
      if off > 90.0 || off < -90.0 {
        idx := idx + 1;
      } else {
        break;
      }
    }
  }

  /** Scanning again from where a scan stopped, at the same position, stays there. */
  lemma ScanIdempotent(g: Geometry, route: Route, pos: Position, idx: nat)
    ensures NextAhead(g, route, pos, NextAhead(g, route, pos, idx)) == NextAhead(g, route, pos, idx)
  {
  }

  // ----- the two halves of a tick -----

  ghost function InPortTick(e: Setting, s: State, now: real): (State, seq<Event>)
    requires e.Aboard(s)
  {
    if s.minutesInPort <= 0.0 then Depart(e, s, now)
    else
      (s.(minutesInPort := Max(0.0, s.minutesInPort - e.config.SimMinutes()),
          speed := 0.0, heading := 0.0, nav := Moored), [])
  }

  ghost function Depart(e: Setting, s: State, now: real): (State, seq<Event>)
    requires e.Aboard(s)
  {
    var route := e.RouteOf(s);
    var pilotOut := e.vessel.CruiseSpeed() * 0.5;
    var eta := now + e.g.dist(route.origin.pos, route.destination.pos) / Max(1.0, pilotOut);
    (s.(pos := route.origin.pos, waypointIndex := 0, inPort := false, minutesInPort := 0.0, speed := pilotOut,
        heading := e.g.bearing(route.origin.pos, route.waypoints[0].pos), nav := UnderWay, eta := Some(eta)),
     [Departure(route.origin.locode, route.destination.locode, eta)])
  }

  function RevertedSpeed(speed: real, planned: real, noise: real): real {
    speed - MEAN_REVERSION_RATE * (speed - planned) + noise
  }

  function RevertedHeading(heading: real, planned: real, noise: real): real {
    Mod360(heading + MEAN_REVERSION_RATE * AngularDiff(heading, planned) + noise)
  }

  /** The next waypoint, or the destination once all are consumed. */
  function Target(route: Route, idx: nat): Position {
    if idx < |route.waypoints| then route.waypoints[idx].pos else route.destination.pos
  }

  function MoveToward(g: Geometry, pos: Position, target: Position, step: real): Position {
    var d := Min(step, g.dist(pos, target));
    if d > 0.0 then g.destination(pos, g.bearing(pos, target), d) else pos
  }

  /** Position, waypoint index, speed and heading after the sailing part of a tick. */
  ghost function Sail(e: Setting, s: State, draw: Draw): State
    requires e.Aboard(s)
  {
    var route := e.RouteOf(s);
    var idx := NextAhead(e.g, route, s.pos, s.waypointIndex);
    var target := Target(route, idx);
    var pos := MoveToward(e.g, s.pos, target, e.StepNm());
    s.(pos := pos, waypointIndex := NextAhead(e.g, route, pos, idx),
       speed := RevertedSpeed(s.speed, e.vessel.CruiseSpeed(), draw.speedNoise),
       heading := RevertedHeading(s.heading, e.g.bearing(s.pos, target), draw.headingNoise))
  }

  ghost function UnderwayTick(e: Setting, s: State, now: real, draw: Draw): (State, seq<Event>)
    requires e.Aboard(s)
  {
    var t := Sail(e, s, draw);
    var destination := e.RouteOf(s).destination;
    var left := e.g.dist(t.pos, destination.pos);
    if left <= ARRIVAL_THRESHOLD_NM then Arrive(e, t, draw)
    else
      var eta := now + left / Max(1.0, t.speed);
      (t.(eta := Some(eta)), EtaEvents(destination.locode, s.eta, eta))
  }

  function EtaEvents(destination: string, old_: Option<real>, eta: real): seq<Event> {
    if old_.Some? && (eta - old_.value > ETA_CHANGE_THRESHOLD_HOURS || old_.value - eta > ETA_CHANGE_THRESHOLD_HOURS)
    then [EtaChange(destination, old_.value, eta)] else []
  }

  ghost function Arrive(e: Setting, s: State, draw: Draw): (State, seq<Event>)
    requires e.Aboard(s)
  {
    var route := e.RouteOf(s);
    var next := NextPort(|e.routes|, s.routeIndex);
    (s.(pos := route.destination.pos, speed := 0.0, heading := 0.0, nav := Moored, inPort := true,
        minutesInPort := draw.dwell as real, routeIndex := next, waypointIndex := 0, eta := PlannedEta(e.routes[next])),
     [Arrival(route.destination.locode, draw.dwell as real)])
  }

  function PlannedEta(route: Route): Option<real> {
    if |route.waypoints| > 0 then route.waypoints[|route.waypoints| - 1].eta else None
  }

  ghost function Tick(e: Setting, s: State, now: real, draw: Draw): (r: (State, seq<Event>))
    requires e.Aboard(s)
    ensures e.Aboard(r.0)
  {
    if s.inPort then InPortTick(e, s, now) else UnderwayTick(e, s, now, draw)
  }

  function MakeReport(e: Setting, s: State): Report
    requires s.routeIndex < |e.routes|
  {
    Report(e.vessel.mmsi, s.pos, s.speed, s.heading, s.nav, e.RouteOf(s).destination.locode, s.eta)
  }

  // ----- how far and how long, in hours of the clock -----

  /**
   A vessel at sea sails ten times its cruise speed for so many hours, or as far as the point it steers for; then it
   has arrived if it is within half a mile of its destination.
   */
  ghost predicate Moved(e: Setting, before: State, after: State, hours: real)
    requires e.Aboard(before)
  {
    var route := e.RouteOf(before);
    var steered := Target(route, NextAhead(e.g, route, before.pos, before.waypointIndex));
    var far := e.g.dist(before.pos, steered);
    exists p :: e.g.dist(p, steered) == far - Max(0.0, Min(10.0 * (0.85 * e.vessel.maxSpeed) * hours, far))
                && Lands(e, before, after, p)
  }

  ghost predicate Lands(e: Setting, before: State, after: State, p: Position)
    requires e.Aboard(before)
  {
    var destination := e.RouteOf(before).destination.pos;
    if e.g.dist(p, destination) <= 0.5 then after.inPort && after.pos == destination
    else !after.inPort && after.pos == p
  }

  /** A vessel in port uses up its dwell, or leaves at half its cruise speed when there is none left. */
  ghost predicate Dwelt(e: Setting, before: State, after: State, hours: real)
    requires e.Aboard(before)
  {
    if before.minutesInPort > 0.0 then
      && after.inPort && after.pos == before.pos
      && after.minutesInPort == before.minutesInPort - Min(60.0 * hours, before.minutesInPort)
    else
      !after.inPort && after.pos == e.RouteOf(before).origin.pos && after.speed == 0.425 * e.vessel.maxSpeed
  }

  lemma TickHours(maxSpeed: real, seconds: real)
    ensures maxSpeed * 0.85 * seconds / 3600.0 * 10.0 == 10.0 * (0.85 * maxSpeed) * (seconds / 3600.0)
    ensures seconds / 60.0 == 60.0 * (seconds / 3600.0)
  {
  }

  lemma MoveTowardCloses(g: Geometry, pos: Position, target: Position, step: real)
    requires StraightCourses(g)
    ensures var far := g.dist(pos, target);
            g.dist(MoveToward(g, pos, target, step), target) == far - Max(0.0, Min(step, far))
  {
  }

  lemma StepInHours(e: Setting, hours: real)
    requires hours == e.config.tickSeconds * e.config.timeScale / 3600.0
    ensures e.StepNm() == 10.0 * (0.85 * e.vessel.maxSpeed) * hours && e.config.SimMinutes() == 60.0 * hours
  {
    TickHours(e.vessel.maxSpeed, e.config.tickSeconds * e.config.timeScale);
  }

  /** What a tick of the clock means for a vessel, at sea and in port. */
  lemma TickInHours(e: Setting, s: State, now: real, draw: Draw, hours: real)
    requires e.Aboard(s) && StraightCourses(e.g) && hours == e.config.tickSeconds * e.config.timeScale / 3600.0
    ensures var t := Tick(e, s, now, draw).0; if s.inPort then Dwelt(e, s, t, hours) else Moved(e, s, t, hours)
  {
    StepInHours(e, hours);
    if !s.inPort {
      var route := e.RouteOf(s);
      var steered := Target(route, NextAhead(e.g, route, s.pos, s.waypointIndex));
      MoveTowardCloses(e.g, s.pos, steered, e.StepNm());
      assert Lands(e, s, Tick(e, s, now, draw).0, Sail(e, s, draw).pos);
    }
  }

  // ----- estimated times of arrival -----

  /** At the reported speed, or at one knot if that is less, the distance left takes exactly eta - now hours. */
  ghost predicate EtaFits(e: Setting, s: State, now: real)
    requires e.Aboard(s)
  {
    s.eta.Some? && (s.eta.value - now) * (if s.speed < 1.0 then 1.0 else s.speed)
                   == e.g.dist(s.pos, e.RouteOf(s).destination.pos)
  }

  lemma QuotientTimes(a: real, b: real)
    requires b != 0.0
    ensures a / b * b == a
  {
  }

  /** After every tick that ends at sea the eta fits, and it is announced exactly when it moved by more than an hour. */
  lemma EtaIsTravelTime(e: Setting, s: State, now: real, draw: Draw)
    requires e.Aboard(s) && !Tick(e, s, now, draw).0.inPort
    ensures var (t, events) := Tick(e, s, now, draw);
            && EtaFits(e, t, now)
            && (!s.inPort ==> (events == [] <==> s.eta.None? || -1.0 <= t.eta.value - s.eta.value <= 1.0))
            && (!s.inPort && events != [] ==>
                  events == [EtaChange(e.RouteOf(s).destination.locode, s.eta.value, t.eta.value)])
            && (s.inPort ==> var route := e.RouteOf(s);
                             events == [Departure(route.origin.locode, route.destination.locode, t.eta.value)])
  {
    var t := Tick(e, s, now, draw).0;
    QuotientTimes(e.g.dist(t.pos, e.RouteOf(t).destination.pos), Max(1.0, t.speed));
  }
}
