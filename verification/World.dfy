/** The simulator's mutable world: a fleet of vessels advanced tick by tick. */
module World {
  import opened Wrappers
  import opened Geo
  import opened Routes
  import opened Ship

  /** A vessel starts in port, at the origin of its current route, with some dwell left. */
  function Initial(routes: seq<Route>, routeIndex: nat, dwell: int): State
    requires routeIndex < |routes|
  {
    State(routes[routeIndex].origin.pos, 0.0, 0.0, NavStatus.InPort, 0,
          PlannedEta(routes[routeIndex]), true, dwell as real, routeIndex)
  }

  /** A vessel's state together with its route assignment. */
  class VesselState {
    const e: Setting
    var currentRouteIndex: nat
    var route: Route
    var pos: Position
    var speed: real
    var heading: real
    var nav: NavStatus
    var waypointIndex: nat
    var eta: Option<real>
    var inPort: bool
    var minutesInPort: real

    ghost predicate Valid()
      reads this
    {
      e.Schedule() && currentRouteIndex < |e.routes| && route == e.routes[currentRouteIndex]
    }

    ghost function View(): State
      reads this
    {
      State(pos, speed, heading, nav, waypointIndex, eta, inPort, minutesInPort, currentRouteIndex)
    }

    constructor (e: Setting, routeIndex: nat, dwell: int)
      requires e.Schedule() && routeIndex < |e.routes|
      ensures Valid() && this.e == e && View() == Initial(e.routes, routeIndex, dwell)
    {
      var route := e.routes[routeIndex];
      this.e, currentRouteIndex, this.route := e, routeIndex, route;
      pos, speed, heading, nav := route.origin.pos, 0.0, 0.0, NavStatus.InPort;
      waypointIndex, eta, inPort, minutesInPort := 0, PlannedEta(route), true, dwell as real;
    }

    method DepartPort(now: real) returns (event: Event)
      requires Valid()
      modifies this
      ensures Valid() && (View(), [event]) == Depart(e, old(View()), now)
    {
      var wp := route.waypoints[0];
      pos := route.origin.pos;
      waypointIndex := 0;
      inPort := false;
      minutesInPort := 0.0;
      speed := e.vessel.CruiseSpeed() * 0.5;
      heading := e.g.bearing(pos, wp.pos);
      nav := UnderWay;
      var hours := e.g.dist(pos, route.destination.pos) / Max(1.0, e.vessel.CruiseSpeed() * 0.5);
      eta := Some(now + hours);
      event := Departure(route.origin.locode, route.destination.locode, now + hours);
    }

    method HandleInPort(now: real) returns (events: seq<Event>)
      requires Valid()
      modifies this
      ensures Valid() && (View(), events) == InPortTick(e, old(View()), now)
    {
      if minutesInPort <= 0.0 {
        var departure := DepartPort(now);
        return [departure];
      }
      minutesInPort := Max(0.0, minutesInPort - e.config.SimMinutes());
      speed := 0.0;
      heading := 0.0;
      nav := Moored;
      return [];
    }

    method ArriveAtPort(draw: Draw) returns (event: Event)
      requires Valid()
      modifies this
      ensures Valid() && (View(), [event]) == Arrive(e, old(View()), draw)
    {
      var previous := route.destination.locode;
      inPort := true;
      speed := 0.0;
      heading := 0.0;
      nav := Moored;
      minutesInPort := draw.dwell as real;
      pos := route.destination.pos;
      event := Arrival(previous, minutesInPort);
      NextPortIsMod(|e.routes|, currentRouteIndex);
      currentRouteIndex := (currentRouteIndex + 1) % |e.routes|;
      route := e.routes[currentRouteIndex];
      waypointIndex := 0;
      eta := PlannedEta(route);
    }

    /** Scan, steer, move, and scan again. */
    method SailOn(draw: Draw)
      requires Valid()
      modifies this
      ensures Valid() && View() == Sail(e, old(View()), draw)
    {
      var planned := e.vessel.CruiseSpeed();
      var step := e.StepNm();
      waypointIndex := AdvanceThroughPassedWaypoints(e.g, route, pos, waypointIndex);
      var target := Target(route, waypointIndex);
      var plannedHeading := e.g.bearing(pos, target);
      speed := RevertedSpeed(speed, planned, draw.speedNoise);
      heading := RevertedHeading(heading, plannedHeading, draw.headingNoise);
      var move := Min(step, e.g.dist(pos, target));
      if move > 0.0 {
        pos := e.g.destination(pos, plannedHeading, move);
      }
      waypointIndex := AdvanceThroughPassedWaypoints(e.g, route, pos, waypointIndex);
    }

    method HandleUnderway(now: real, draw: Draw) returns (events: seq<Event>)
      requires Valid()
      modifies this
      ensures Valid() && (View(), events) == UnderwayTick(e, old(View()), now, draw)
    {
      SailOn(draw);
      var left := e.g.dist(pos, route.destination.pos);
      if left <= ARRIVAL_THRESHOLD_NM {
        var arrival := ArriveAtPort(draw);
        return [arrival];
      }
      var newEta := now + left / Max(1.0, speed);
      events := EtaEvents(route.destination.locode, eta, newEta);
      eta := Some(newEta);
    }

    method Advance(now: real, draw: Draw) returns (report: Report, events: seq<Event>)
      requires Valid()
      modifies this
      ensures Valid() && (View(), events) == Tick(e, old(View()), now, draw)
      ensures report == MakeReport(e, View())
    {
      if inPort {
        events := HandleInPort(now);
      } else {
        events := HandleUnderway(now, draw);
      }
      report := Report(e.vessel.mmsi, pos, speed, heading, nav, route.destination.locode, eta);
    }
  }

  /** What one vessel contributes to a tick: its new state, its report and its events. */
  ghost predicate Ticked(e: Setting, before: State, now: real, draw: Draw, after: State, out: (Report, seq<Event>)) {
    && e.Aboard(before) && e.Aboard(after)
    && (after, out.1) == Tick(e, before, now, draw)
    && out.0 == MakeReport(e, after)
  }

  /** On straight courses a vessel at sea moves, and one in port dwells, for the time that the clock moved. */
  ghost predicate InClockHours(e: Setting, before: State, after: State, hours: real) {
    StraightCourses(e.g) ==>
      e.Aboard(before) && if before.inPort then Dwelt(e, before, after, hours) else Moved(e, before, after, hours)
  }

  lemma TickedInHours(e: Setting, before: State, now: real, draw: Draw, after: State, out: (Report, seq<Event>),
                      hours: real)
    requires Ticked(e, before, now, draw, after, out)
    requires hours == e.config.tickSeconds * e.config.timeScale / 3600.0
    ensures InClockHours(e, before, after, hours)
  {
    if StraightCourses(e.g) { TickInHours(e, before, now, draw, hours); }
  }

  class World {
    const config: Config
    const fleet: seq<VesselState>
    var currentTime: real

    ghost predicate Valid()
      reads this, fleet
    {
      && (forall i, j :: 0 <= i < j < |fleet| ==> fleet[i] != fleet[j])
      && (forall i :: 0 <= i < |fleet| ==> fleet[i].Valid() && fleet[i].e.config == config)
    }

    constructor (config: Config, startAt: real, fleet: seq<VesselState>)
      requires forall i, j :: 0 <= i < j < |fleet| ==> fleet[i] != fleet[j]
      requires forall i :: 0 <= i < |fleet| ==> fleet[i].Valid() && fleet[i].e.config == config
      ensures Valid() && this.config == config && this.fleet == fleet && currentTime == startAt
    {
      this.config, this.fleet, currentTime := config, fleet, startAt;
    }

    /** Advancing one vessel leaves the others alone. */
    method AdvanceOne(i: nat, now: real, draw: Draw) returns (out: (Report, seq<Event>))
      requires Valid() && i < |fleet|
      modifies fleet[i]
      ensures Valid() && Ticked(fleet[i].e, old(fleet[i].View()), now, draw, fleet[i].View(), out)
      ensures forall k :: 0 <= k < |fleet| && k != i ==> fleet[k].View() == old(fleet[k].View())
    {
      var report, events := fleet[i].Advance(now, draw);
      out := (report, events);
    }

    method AdvanceAll(now: real, draws: seq<Draw>) returns (out: seq<(Report, seq<Event>)>)
      requires Valid() && |draws| == |fleet|
      modifies fleet
      ensures Valid() && |out| == |fleet|
      ensures forall i :: 0 <= i < |fleet| ==>
        Ticked(fleet[i].e, old(fleet[i].View()), now, draws[i], fleet[i].View(), out[i])
    {
      ghost var before := seq(|fleet|, i requires 0 <= i < |fleet| reads fleet => fleet[i].View());
      out := [];
      for i := 0 to |fleet|
        invariant Valid() && |out| == i
        invariant forall k :: i <= k < |fleet| ==> fleet[k].View() == before[k]
        invariant forall k :: 0 <= k < i ==> Ticked(fleet[k].e, before[k], now, draws[k], fleet[k].View(), out[k])
      {
        var one := AdvanceOne(i, now, draws[i]);
        out := out + [one];
      }
    }

    /**
     One tick of the world: the clock moves on and every vessel takes exactly one Tick, in fleet order, moving or
     dwelling for as long as the clock did.
     */
    method Step(draws: seq<Draw>) returns (out: seq<(Report, seq<Event>)>)
      requires Valid() && |draws| == |fleet|
      modifies `currentTime, fleet
      ensures Valid() && currentTime == old(currentTime) + config.tickSeconds * config.timeScale / 3600.0
      ensures |out| == |fleet|
      ensures forall i :: 0 <= i < |fleet| ==>
        Ticked(fleet[i].e, old(fleet[i].View()), currentTime, draws[i], fleet[i].View(), out[i])
      ensures forall i :: 0 <= i < |fleet| ==>
        InClockHours(fleet[i].e, old(fleet[i].View()), fleet[i].View(), currentTime - old(currentTime))
    {
      currentTime := currentTime + config.SimSeconds() / 3600.0;
      out := AdvanceAll(currentTime, draws);
      ghost var hours := currentTime - old(currentTime);
      forall i | 0 <= i < |fleet|
        ensures InClockHours(fleet[i].e, old(fleet[i].View()), fleet[i].View(), hours) {
        TickedInHours(fleet[i].e, old(fleet[i].View()), currentTime, draws[i], fleet[i].View(), out[i], hours);
      }
    }
  }
}
