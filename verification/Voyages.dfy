/** What every run of the tick machine does: the order of port calls, and bounds on every leg and stay. */
module Voyages {
  import opened Wrappers
  import opened Rounding
  import opened Geo
  import opened Routes
  import opened Ship
  import World

  /** Port calls, the events that mark a vessel's voyage. */
  datatype Call = Left(origin: string, destination: string) | Reached(port: string)

  function Calls(events: seq<Event>): seq<Call> {
    if events == [] then []
    else
      var first := match events[0]
        case Departure(p, d, _) => [Left(p, d)]
        case Arrival(p, _) => [Reached(p)]
        case EtaChange(_, _, _) => [];
      first + Calls(events[1..])
  }

  /** State after one tick per draw, the k-th at clock(k), and all port calls made on the way. */
  ghost function Run(e: Setting, s: State, clock: nat -> real, draws: seq<Draw>): (r: (State, seq<Call>))
    requires e.Aboard(s)
    ensures e.Aboard(r.0)
  {
    if draws == [] then (s, [])
    else
      var last := |draws| - 1;
      var before := Run(e, s, clock, draws[..last]);
      var (t, events) := Tick(e, before.0, clock(|draws|), draws[last]);
      (t, before.1 + Calls(events))
  }

  /** A tick makes at most one port call, and which one is decided by the change of phase. */
  lemma {:induction false} TickCalls(e: Setting, s: State, now: real, draw: Draw)
    requires e.Aboard(s)
    ensures var (t, events) := Tick(e, s, now, draw);
            var route := e.RouteOf(s);
            && Calls(events) ==
                 (if s.inPort && !t.inPort then [Left(route.origin.locode, route.destination.locode)]
                  else if !s.inPort && t.inPort then [Reached(route.destination.locode)]
                  else [])
            && (t.routeIndex == if !s.inPort && t.inPort then NextPort(|e.routes|, s.routeIndex) else s.routeIndex)
            && (s.inPort && t.inPort ==> t.pos == s.pos && t.waypointIndex == s.waypointIndex)
            && (!s.inPort && t.inPort ==> t.pos == route.destination.pos)
  {
    var (t, events) := Tick(e, s, now, draw);
    assert |events| <= 1;
    if |events| == 1 { assert events[1..] == []; }
  }

  // ----- the order of port calls -----

  /** Index j counted around a tour of n ports. */
  function Berth(n: nat, j: nat): (i: nat)
    requires n > 0
    ensures i < n
  {
    if j == 0 then 0 else NextPort(n, Berth(n, j - 1))
  }

  lemma {:induction false} BerthIsMod(n: nat, j: nat)
    requires n > 0
    ensures Berth(n, j) == j % n
  {
    if j > 0 {
      BerthIsMod(n, j - 1);
      var q, r := (j - 1) / n, (j - 1) % n;
      assert j - 1 == q * n + r;
      if r + 1 == n {
        assert j == (q + 1) * n;
        DivisorUnique(n, j, q + 1, 0);
      } else {
        DivisorUnique(n, j, q, r + 1);
      }
    }
  }

  lemma DivisorUnique(n: nat, x: nat, q: nat, r: nat)
    requires r < n && x == q * n + r
    ensures x % n == r
  {
    var d := x / n - q;
    assert x == (x / n) * n + x % n;
    assert d * n == r - x % n;
    assert d >= 1 ==> d * n >= n;
    assert d <= -1 ==> d * n <= -1 * n;
  }

  /** The k-th port call of a tour: even ones leave port k/2, odd ones reach its successor. */
  function TourCall(ports: seq<Port>, k: nat): Call
    requires |ports| > 0
  {
    var here, there := ports[Berth(|ports|, k / 2)], ports[Berth(|ports|, k / 2 + 1)];
    if k % 2 == 0 then Left(here.locode, there.locode) else Reached(there.locode)
  }

  ghost predicate OnTour(e: Setting, ports: seq<Port>, s: State, calls: seq<Call>)
    requires |ports| > 0 && e.Aboard(s)
  {
    && (forall k :: 0 <= k < |calls| ==> calls[k] == TourCall(ports, k))
    && s.routeIndex == Berth(|ports|, |calls| / 2)
    && (s.inPort <==> |calls| % 2 == 0)
    && (s.inPort ==> s.pos == e.RouteOf(s).origin.pos)
  }

  /** One more call, made on the way from state s to state t. */
  lemma TourCalled(e: Setting, ports: seq<Port>, s: State, calls: seq<Call>, t: State)
    requires e.Aboard(s) && e.Aboard(t) && IsTour(ports, e.routes) && OnTour(e, ports, s, calls)
    requires s.inPort != t.inPort
    requires t.routeIndex == if t.inPort then NextPort(|e.routes|, s.routeIndex) else s.routeIndex
    requires t.inPort ==> t.pos == e.RouteOf(s).destination.pos
    ensures var route := e.RouteOf(s);
            OnTour(e, ports, t, calls + [if t.inPort then Reached(route.destination.locode)
                                         else Left(route.origin.locode, route.destination.locode)])
  {
    if t.inPort {
      assert (|calls| + 1) / 2 == |calls| / 2 + 1;
    } else {
      assert (|calls| + 1) / 2 == |calls| / 2;
    }
  }

  lemma TourStep(e: Setting, ports: seq<Port>, s: State, calls: seq<Call>, now: real, draw: Draw)
    requires e.Aboard(s) && IsTour(ports, e.routes) && OnTour(e, ports, s, calls)
    ensures var (t, events) := Tick(e, s, now, draw); OnTour(e, ports, t, calls + Calls(events))
  {
    TickCalls(e, s, now, draw);
    var (t, events) := Tick(e, s, now, draw);
    if s.inPort != t.inPort {
      TourCalled(e, ports, s, calls, t);
    } else {
      assert calls + Calls(events) == calls;
    }
  }

  /**
   Over every run from the start of a tour, departures and arrivals strictly alternate, the j-th
   departure is p(j) -> p(j+1), the j-th arrival is p(j+1), indices taken around the tour, and a
   vessel in port lies at the origin of its next leg.
   */
  lemma {:induction false} TourTrace(e: Setting, ports: seq<Port>, dwell: int, clock: nat -> real, draws: seq<Draw>)
    requires e.Schedule() && IsTour(ports, e.routes)
    ensures var (s, calls) := Run(e, World.Initial(e.routes, 0, dwell), clock, draws); OnTour(e, ports, s, calls)
  {
    if draws != [] {
      var last := |draws| - 1;
      TourTrace(e, ports, dwell, clock, draws[..last]);
      var (s, calls) := Run(e, World.Initial(e.routes, 0, dwell), clock, draws[..last]);
      TourStep(e, ports, s, calls, clock(|draws|), draws[last]);
    }
  }

  /** Leaving port never moves a vessel on tour: the position reset is the identity. */
  lemma DepartureStaysPut(e: Setting, ports: seq<Port>, s: State, calls: seq<Call>, now: real, draw: Draw)
    requires e.Aboard(s) && IsTour(ports, e.routes) && OnTour(e, ports, s, calls) && s.inPort
    ensures Tick(e, s, now, draw).0.pos == s.pos
  {
    TickCalls(e, s, now, draw);
  }

  // ----- the length of legs and stays -----

  ghost predicate Seaworthy(e: Setting) {
    && Metric(e.g) && StraightCourses(e.g)
    && e.Schedule() && (forall r :: r in e.routes ==> Snapped(r))
    && 0.0 < e.StepNm() && 0.0 < e.config.SimMinutes()
  }

  /** Between ticks a vessel at sea always has a waypoint ahead. */
  ghost predicate InPhase(e: Setting, s: State) {
    e.Aboard(s) && (s.inPort || s.waypointIndex < |e.RouteOf(s).waypoints|)
  }

  ghost function WholeSteps(length: real, step: real): nat
    requires 0.0 <= length && 0.0 < step
  {
    assert 0.0 <= length / step;
    (length / step).Floor
  }

  /** Underway ticks that surely suffice from a position with waypoint idx ahead. */
  ghost function SailBudget(e: Setting, route: Route, pos: Position, idx: nat): (n: nat)
    requires Metric(e.g) && 0.0 < e.StepNm() && idx < |route.waypoints|
    ensures 1 <= n
  {
    TailNonNegative(e.g, route.waypoints, idx);
    WholeSteps(Remaining(e.g, route.waypoints, pos, idx), e.StepNm()) + |route.waypoints| - idx
  }

  /** floor(L / s) + k: path length over tick distance, plus the number of waypoints. */
  ghost function LegBudget(e: Setting, route: Route): nat
    requires Metric(e.g) && 0.0 < e.StepNm() && |route.waypoints| > 0
  {
    SailBudget(e, route, route.origin.pos, 0)
  }

  /** Ticks spent waiting before the departing tick. */
  ghost function WaitTicks(minutes: real, perTick: real): nat
    requires 0.0 < perTick
  {
    if minutes <= 0.0 then 0 else assert 0.0 < minutes / perTick; Ceil(minutes / perTick)
  }

  /** Ticks that surely suffice until the next arrival. */
  ghost function TicksToArrival(e: Setting, s: State): (n: nat)
    requires Seaworthy(e) && InPhase(e, s)
    ensures 1 <= n
  {
    if s.inPort then WaitTicks(s.minutesInPort, e.config.SimMinutes()) + 1 + LegBudget(e, e.RouteOf(s))
    else SailBudget(e, e.RouteOf(s), s.pos, s.waypointIndex)
  }

  lemma OneStepMore(a: real, b: real, step: real, x: real, y: real)
    requires 0.0 < step && a * step == x && b * step == y && x + step <= y
    ensures a.Floor + 1 <= b.Floor
  {
    assert (a + 1.0) * step == a * step + step;
    Scaled(a + 1.0, b, step);
  }

  lemma WholeStepsDrop(length: real, shorter: real, step: real)
    requires 0.0 <= shorter <= length && 0.0 < step
    ensures WholeSteps(shorter, step) <= WholeSteps(length, step)
    ensures shorter + step <= length ==> WholeSteps(shorter, step) + 1 <= WholeSteps(length, step)
  {
    var a, b := shorter / step, length / step;
    assert a * step == shorter && b * step == length;
    Scaled(a, b, step);
    if shorter + step <= length {
      OneStepMore(a, b, step, shorter, length);
    }
  }

  lemma WaitDrops(minutes: real, perTick: real)
    requires 0.0 < minutes && 0.0 < perTick
    ensures WaitTicks(Max(0.0, minutes - perTick), perTick) + 1 == WaitTicks(minutes, perTick)
  {
    var q := minutes / perTick;
    assert q * perTick == minutes;
    if minutes <= perTick {
      Scaled(q, 1.0, perTick);
      Scaled(0.0, q, perTick);
    } else {
      var p := (minutes - perTick) / perTick;
      assert p * perTick == minutes - perTick == (q - 1.0) * perTick;
      Scaled(p, q - 1.0, perTick);
      Scaled(q - 1.0, p, perTick);
    }
  }

  lemma MoveCloses(g: Geometry, pos: Position, target: Position, step: real)
    requires Metric(g) && StraightCourses(g) && 0.0 < step
    ensures g.dist(MoveToward(g, pos, target, step), target) == g.dist(pos, target) - Min(step, g.dist(pos, target))
  {
  }

  /** A snapped route is scanned to its end only within the threshold of the destination. */
  lemma ScanStopsShort(g: Geometry, route: Route, pos: Position, idx: nat)
    requires Snapped(route) && idx <= |route.waypoints|
    requires idx < |route.waypoints| && ARRIVAL_THRESHOLD_NM <= g.dist(pos, route.destination.pos)
    ensures NextAhead(g, route, pos, idx) < |route.waypoints|
  {
    var last := |route.waypoints| - 1;
    AngularDiffUnique(g.bearing(pos, route.destination.pos), g.bearing(pos, route.destination.pos), 0.0, 0);
    assert !Passed(g, pos, route.destination.pos, route.waypoints[last].pos);
  }

  /**
   A tick at sea that does not arrive leaves a waypoint ahead and the destination beyond the
   threshold, never turns the index back, and spends part of the budget: the way left drops by
   a whole step, or a waypoint is consumed.
   */
  lemma SailProgress(e: Setting, s: State, now: real, draw: Draw)
    requires Seaworthy(e) && InPhase(e, s) && !s.inPort
    requires !UnderwayTick(e, s, now, draw).0.inPort
    ensures var t := UnderwayTick(e, s, now, draw).0;
            && InPhase(e, t) && t.routeIndex == s.routeIndex
            && s.waypointIndex <= t.waypointIndex
            && ARRIVAL_THRESHOLD_NM < e.g.dist(t.pos, e.RouteOf(t).destination.pos)
            && NextAhead(e.g, e.RouteOf(t), t.pos, t.waypointIndex) == t.waypointIndex
            && TicksToArrival(e, t) + 1 <= TicksToArrival(e, s)
  {
    var g, route, step := e.g, e.RouteOf(s), e.StepNm();
    var wps := route.waypoints;
    var t := UnderwayTick(e, s, now, draw).0;
    var ahead := NextAhead(g, route, s.pos, s.waypointIndex);
    var target := Target(route, ahead);
    assert Snapped(route);
    MoveCloses(g, s.pos, target, step);
    if ahead == |wps| {
      if ARRIVAL_THRESHOLD_NM <= g.dist(s.pos, route.destination.pos) {
        ScanStopsShort(g, route, s.pos, s.waypointIndex); }
      assert false;
    }
    ScanStopsShort(g, route, t.pos, ahead);
    ScanIdempotent(g, route, t.pos, ahead);
    SkippingShortens(g, wps, s.pos, s.waypointIndex, ahead);
    SkippingShortens(g, wps, t.pos, ahead, t.waypointIndex);
    TailNonNegative(g, wps, t.waypointIndex);
    WholeStepsDrop(Remaining(g, wps, s.pos, s.waypointIndex), Remaining(g, wps, t.pos, t.waypointIndex), step);
    if g.dist(s.pos, target) < step {
      assert Passed(g, t.pos, route.destination.pos, wps[ahead].pos);
      assert ahead < t.waypointIndex;
    }
  }

  /** Every tick that does not arrive spends at least one tick of the budget. */
  lemma TickSpends(e: Setting, s: State, now: real, draw: Draw)
    requires Seaworthy(e) && InPhase(e, s)
    ensures var t := Tick(e, s, now, draw).0;
            InPhase(e, t) && ((s.inPort || !t.inPort) ==> TicksToArrival(e, t) + 1 <= TicksToArrival(e, s))
  {
    var t := Tick(e, s, now, draw).0;
    if s.inPort {
      if s.minutesInPort > 0.0 { WaitDrops(s.minutesInPort, e.config.SimMinutes()); }
    } else if !t.inPort {
      SailProgress(e, s, now, draw);
    }
  }

  /** Where a vessel stands n ticks into a leg: still at sea within budget, or just arrived. */
  ghost predicate OnLeg(e: Setting, s: State, n: nat, t: State, calls: seq<Call>)
    requires Seaworthy(e) && InPhase(e, s) && !s.inPort
  {
    InPhase(e, t) &&
    if t.inPort then 1 <= n <= TicksToArrival(e, s) && calls == [Reached(e.RouteOf(s).destination.locode)]
    else calls == [] && t.routeIndex == s.routeIndex && n + TicksToArrival(e, t) <= TicksToArrival(e, s)
  }

  lemma LegStep(e: Setting, s: State, n: nat, t: State, now: real, draw: Draw)
    requires Seaworthy(e) && InPhase(e, s) && !s.inPort && !t.inPort && OnLeg(e, s, n, t, [])
    ensures var (u, events) := Tick(e, t, now, draw); OnLeg(e, s, n + 1, u, Calls(events))
  {
    TickCalls(e, t, now, draw);
    TickSpends(e, t, now, draw);
  }

  /** A departed vessel arrives after some n of at most floor(L / s) + k ticks, calling nowhere else. */
  lemma {:induction false} LegEnds(e: Setting, s: State, clock: nat -> real, draws: seq<Draw>) returns (n: nat)
    requires Seaworthy(e) && InPhase(e, s) && !s.inPort
    ensures n <= |draws|
    ensures var (t, calls) := Run(e, s, clock, draws[..n]); OnLeg(e, s, n, t, calls)
    ensures Run(e, s, clock, draws[..n]).0.inPort || n == |draws| < TicksToArrival(e, s)
  {
    if draws == [] {
      return 0;
    }
    var last := |draws| - 1;
    var m := LegEnds(e, s, clock, draws[..last]);
    assert draws[..last][..m] == draws[..m];
    var t := Run(e, s, clock, draws[..m]).0;
    if t.inPort {
      n := m;
    } else {
      LegStep(e, s, last, t, clock(|draws|), draws[last]);
      assert draws[..|draws|] == draws;
      n := |draws|;
    }
  }

  /** From any departure the vessel reaches the destination of its route within floor(L / s) + k ticks at sea. */
  lemma DepartedVesselArrives(e: Setting, s: State, now: real, clock: nat -> real, draws: seq<Draw>) returns (n: nat)
    requires Seaworthy(e) && InPhase(e, s) && s.inPort && LegBudget(e, e.RouteOf(s)) <= |draws|
    ensures 1 <= n <= LegBudget(e, e.RouteOf(s)) && n <= |draws|
    ensures var (t, calls) := Run(e, Depart(e, s, now).0, clock, draws[..n]);
            t.inPort && calls == [Reached(e.RouteOf(s).destination.locode)]
  {
    n := LegEnds(e, Depart(e, s, now).0, clock, draws);
  }

  /** On a leg planned by BuildRoute the bound is floor(D / s) + max(1, floor(D / step)),
     D the distance of the ports. */
  lemma PlannedLegBudget(e: Setting, a: Port, b: Port, speed: real, step: real, departAt: Option<real>)
    requires Lawful(e.g) && 0.0 < e.StepNm() && Plan(e.g, a, b, speed, step, departAt).Ok?
    ensures LegBudget(e, Plan(e.g, a, b, speed, step, departAt).value)
            == WholeSteps(e.g.dist(a.pos, b.pos), e.StepNm()) + LegCount(e.g.dist(a.pos, b.pos), step)
  {
    PathLengthIsTotal(e.g, a, b, speed, step, departAt);
  }

  /** A vessel with dwell m stays exactly ceil(m / e) ticks and departs on the next one. */
  lemma {:induction false} DwellExact(e: Setting, s: State, clock: nat -> real, draws: seq<Draw>)
    requires e.Aboard(s) && s.inPort && 0.0 < e.config.SimMinutes()
    requires |draws| <= WaitTicks(s.minutesInPort, e.config.SimMinutes()) + 1
    ensures var w := WaitTicks(s.minutesInPort, e.config.SimMinutes()); var (t, calls) := Run(e, s, clock, draws);
            && t.routeIndex == s.routeIndex
            && if |draws| <= w then
                 t.inPort && calls == [] && t.pos == s.pos
                 && WaitTicks(t.minutesInPort, e.config.SimMinutes()) == w - |draws|
               else
                 !t.inPort && calls == [Left(e.RouteOf(s).origin.locode, e.RouteOf(s).destination.locode)]
  {
    if draws != [] {
      var last := |draws| - 1;
      DwellExact(e, s, clock, draws[..last]);
      var t := Run(e, s, clock, draws[..last]).0;
      TickCalls(e, t, clock(|draws|), draws[last]);
      if t.minutesInPort > 0.0 { WaitDrops(t.minutesInPort, e.config.SimMinutes()); }
      else { assert WaitTicks(t.minutesInPort, e.config.SimMinutes()) == 0; }
      if |draws| <= WaitTicks(s.minutesInPort, e.config.SimMinutes()) { assert t.minutesInPort > 0.0; }
    }
  }

  /** With a clock that does not move forward, a vessel that still has dwell left never departs. */
  lemma {:induction false} NeverDeparts(e: Setting, s: State, clock: nat -> real, draws: seq<Draw>)
    requires e.Aboard(s) && s.inPort && 0.0 < s.minutesInPort && e.config.SimMinutes() <= 0.0
    ensures var (t, calls) := Run(e, s, clock, draws); t.inPort && calls == [] && s.minutesInPort <= t.minutesInPort
  {
    if draws != [] { NeverDeparts(e, s, clock, draws[..|draws| - 1]); }
  }

  // ----- voyages without end -----

  /** C covers the longest possible stay and the longest leg of the schedule. */
  ghost predicate CycleBound(e: Setting, c: nat)
    requires Seaworthy(e)
  {
    forall r :: r in e.routes
      ==> WaitTicks(e.config.DwellHigh() as real, e.config.SimMinutes()) + 1 + LegBudget(e, r) <= c
  }

  ghost function LongestLeg(e: Setting, k: nat): (n: nat)
    requires Seaworthy(e) && k <= |e.routes|
    ensures forall i :: 0 <= i < k ==> LegBudget(e, e.routes[i]) <= n
  {
    if k == 0 then 0
    else
      var n, last := LongestLeg(e, k - 1), LegBudget(e, e.routes[k - 1]);
      if last > n then last else n
  }

  /** The longest stay, the departing tick and the longest leg. */
  ghost function LongestCycle(e: Setting): (c: nat)
    requires Seaworthy(e)
    ensures CycleBound(e, c)
  {
    var n := LongestLeg(e, |e.routes|);
    WaitTicks(e.config.DwellHigh() as real, e.config.SimMinutes()) + 1 + n
  }

  /** Ticks in which at most the given number of legs can have been completed. */
  ghost function Cycles(c: nat, legs: nat): nat {
    c * (legs + 1)
  }

  ghost predicate FairDraws(e: Setting, draws: seq<Draw>) {
    forall i :: 0 <= i < |draws| ==> e.config.DwellLow() <= draws[i].dwell <= e.config.DwellHigh()
  }

  lemma WaitMonotone(a: real, b: real, perTick: real)
    requires a <= b && 0.0 < perTick
    ensures WaitTicks(a, perTick) <= WaitTicks(b, perTick)
  {
    if 0.0 < a {
      var p, q := a / perTick, b / perTick;
      assert p * perTick == a && q * perTick == b;
      Scaled(p, q, perTick);
    }
  }

  /** The ticks so far and those still needed fit in one cycle per completed leg and one more. */
  ghost predicate OnCycle(e: Setting, c: nat, ticks: nat, s: State, calls: seq<Call>)
    requires Seaworthy(e)
  {
    && InPhase(e, s)
    && ticks + TicksToArrival(e, s) <= Cycles(c, |calls| / 2)
    && (s.inPort <==> |calls| % 2 == 0)
  }

  lemma CycleStep(e: Setting, c: nat, ticks: nat, s: State, calls: seq<Call>, now: real, draw: Draw)
    requires Seaworthy(e) && CycleBound(e, c) && OnCycle(e, c, ticks, s, calls)
    requires e.config.DwellLow() <= draw.dwell <= e.config.DwellHigh()
    ensures var (t, events) := Tick(e, s, now, draw); OnCycle(e, c, ticks + 1, t, calls + Calls(events))
  {
    TickSpends(e, s, now, draw);
    TickCalls(e, s, now, draw);
    var (t, events) := Tick(e, s, now, draw);
    if !s.inPort && t.inPort {
      WaitMonotone(draw.dwell as real, e.config.DwellHigh() as real, e.config.SimMinutes());
      assert e.RouteOf(t) in e.routes;
      assert (|calls| + 1) / 2 == |calls| / 2 + 1;
      assert Cycles(c, |calls| / 2 + 1) == Cycles(c, |calls| / 2) + c;
    } else {
      assert (|calls| + |Calls(events)|) / 2 == |calls| / 2;
    }
  }

  lemma CycleStart(e: Setting, c: nat, dwell: int)
    requires Seaworthy(e) && CycleBound(e, c) && 0 <= dwell <= e.config.DwellHigh()
    ensures var s := World.Initial(e.routes, 0, dwell); InPhase(e, s) && TicksToArrival(e, s) <= c
  {
    WaitMonotone(dwell as real, e.config.DwellHigh() as real, e.config.SimMinutes());
    assert e.routes[0] in e.routes;
  }

  lemma {:induction false} CyclesFit(e: Setting, c: nat, dwell: int, clock: nat -> real, draws: seq<Draw>)
    requires Seaworthy(e) && CycleBound(e, c)
    requires 0 <= dwell <= e.config.DwellHigh() && FairDraws(e, draws)
    ensures var (s, calls) := Run(e, World.Initial(e.routes, 0, dwell), clock, draws); OnCycle(e, c, |draws|, s, calls)
  {
    if draws == [] {
      CycleStart(e, c, dwell);
    } else {
      var last := |draws| - 1;
      CyclesFit(e, c, dwell, clock, draws[..last]);
      var (s, calls) := Run(e, World.Initial(e.routes, 0, dwell), clock, draws[..last]);
      CycleStep(e, c, last, s, calls, clock(|draws|), draws[last]);
    }
  }

  lemma LegsFit(c: nat, legs: nat, n: nat, ticks: nat)
    requires c * n <= ticks < Cycles(c, legs)
    ensures n <= legs
  {
    assert n >= legs + 1 ==> c * n >= c * (legs + 1);
  }

  /** No vessel is ever stuck: n of the longest cycles complete at least n legs of the tour, in order. */
  lemma EveryVoyageCompletes(e: Setting, ports: seq<Port>, n: nat, dwell: int, clock: nat -> real, draws: seq<Draw>)
    requires Seaworthy(e) && IsTour(ports, e.routes)
    requires 0 <= dwell <= e.config.DwellHigh() && FairDraws(e, draws) && |draws| >= LongestCycle(e) * n
    ensures var calls := Run(e, World.Initial(e.routes, 0, dwell), clock, draws).1;
            |calls| >= 2 * n && forall k :: 0 <= k < |calls| ==> calls[k] == TourCall(ports, k)
  {
    EveryLegCompletes(e, ports, LongestCycle(e), n, dwell, clock, draws);
  }

  /** n cycles of ticks complete at least n legs of the tour, for any bound on a cycle. */
  lemma EveryLegCompletes(e: Setting, ports: seq<Port>, c: nat, n: nat,
                          dwell: int, clock: nat -> real, draws: seq<Draw>)
    requires Seaworthy(e) && IsTour(ports, e.routes) && CycleBound(e, c)
    requires 0 <= dwell <= e.config.DwellHigh() && FairDraws(e, draws) && |draws| >= c * n
    ensures var calls := Run(e, World.Initial(e.routes, 0, dwell), clock, draws).1;
            |calls| >= 2 * n && forall k :: 0 <= k < |calls| ==> calls[k] == TourCall(ports, k)
  {
    CyclesFit(e, c, dwell, clock, draws);
    TourTrace(e, ports, dwell, clock, draws);
    var calls := Run(e, World.Initial(e.routes, 0, dwell), clock, draws).1;
    LegsFit(c, |calls| / 2, n, |draws|);
  }
}
