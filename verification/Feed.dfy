/** From the world to the runner: the rows that a fleet puts into the batch. */
module Feed {
  import opened Wrappers
  import opened Runner
  import Ship
  import World

  datatype Row = ReportRow(report: Ship.Report) | EventRow(event: Ship.Event)

  function EventRows(events: seq<Ship.Event>): (rows: seq<Row>)
    ensures |rows| == |events|
  {
    seq(|events|, i requires 0 <= i < |events| => EventRow(events[i]))
  }

  /** What the runner takes from one step of the world. */
  function Yields(out: seq<(Ship.Report, seq<Ship.Event>)>): (steps: seq<Yield<Row>>)
    ensures |steps| == |out|
  {
    seq(|out|, i requires 0 <= i < |out| => Yield(ReportRow(out[i].0), EventRows(out[i].1)))
  }

  lemma OneEventPerTick(e: Ship.Setting, s: Ship.State, now: real, draw: Ship.Draw)
    requires e.Aboard(s)
    ensures |Ship.Tick(e, s, now, draw).1| <= 1
  {
  }

  /** Some vessel ticked, and this is its report and its events. */
  ghost predicate FromVessel(out: (Ship.Report, seq<Ship.Event>)) {
    exists e, before, now, draw, after :: World.Ticked(e, before, now, draw, after, out)
  }

  /** A tick whose yields are those of a fleet of n vessels. */
  ghost predicate FromFleet(tick: Tick<Row>, n: nat) {
    exists out :: FleetOutput(out, n) && tick.steps == Yields(out)
  }

  ghost predicate FleetOutput(out: seq<(Ship.Report, seq<Ship.Event>)>, n: nat) {
    |out| == n && forall i :: 0 <= i < n ==> FromVessel(out[i])
  }

  lemma FleetTicks(tick: Tick<Row>, n: nat)
    requires FromFleet(tick, n)
    ensures FleetTick(tick, n)
  {
    var out :| FleetOutput(out, n) && tick.steps == Yields(out);
    forall i | 0 <= i < n ensures |tick.steps[i].events| <= 1 {
      assert FromVessel(out[i]);
      var e, before, now, draw, after :| World.Ticked(e, before, now, draw, after, out[i]);
      OneEventPerTick(e, before, now, draw);
    }
  }

  lemma FleetYields(tick: Tick<Row>, n: nat)
    requires FromFleet(tick, n)
    ensures n <= |Rows(tick.steps)| <= 2 * n
  {
    FleetTicks(tick, n);
    RowsPerVessel(tick.steps);
  }

  /** With n vessels a batch holds at most cap - 1 + 2n rows. */
  lemma FleetBatches(c: Config, carry: seq<Row>, ticks: seq<Tick<Row>>, cap: int, n: nat)
    requires c.maxSize == Some(cap) && |carry| < cap
    requires forall i :: 0 <= i < |ticks| ==> FromFleet(ticks[i], n)
    ensures Within(cap - 1 + 2 * n, Drive(c, carry, ticks).log)
  {
    BatchesBounded(c, carry, ticks, cap);
    forall f | f in Drive(c, carry, ticks).log ensures |f.rows| <= cap - 1 + 2 * n {
      assert FlushBounded(cap, ticks, f);
      FleetYields(ticks[f.tick - 1], n);
    }
  }

  /** A cap that covers two rows of each of n vessels in every tick of a flush period is never exceeded. */
  lemma FleetKeepsCap(c: Config, ticks: seq<Tick<Row>>, cap: int, n: nat)
    requires c.tickSeconds > 0.0 && c.maxSize == Some(cap) && n >= 1 && 2 * n * Period(c) <= cap
    requires forall i :: 0 <= i < |ticks| ==> FromFleet(ticks[i], n)
    ensures Within(cap, Drive(c, [], ticks).log)
  {
    forall i | 0 <= i < |ticks| ensures FleetTick(ticks[i], n) {
      FleetTicks(ticks[i], n);
    }
    PeriodFits(c, ticks, n, cap);
  }
}
